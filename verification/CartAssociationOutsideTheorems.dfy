/**
 * What orders and flushes beside the association break, and exactly when: a blocked call that answers "raced to ours",
 * a customer's own cart abandoned, a stranger's cart captured, one cart captured twice, a merge into an ended cart, an
 * order undone.
 */
module CartAssociationOutsideTheorems {
  import opened Wrappers
  import opened CartLines
  import opened CartAuthorise
  import opened CartAssociation
  import CartAssociationTheorems
  import opened CartAssociationOutside

  function One(b: bool): nat { if b then 1 else 0 }

  // ---------------------------------------------------------------- the lives of a row

  datatype Kind = OrderKind | AbandonKind | WriteOffKind | ReopeningKind

  predicate Is(kind: Kind, w: World, e: Event, g: CartId) {
    match kind
    case OrderKind => IsOrder(w, e, g)
    case AbandonKind => IsAbandon(w, e, g)
    case WriteOffKind => IsWriteOff(w, e, g)
    case ReopeningKind => IsReopening(w, e, g)
  }

  /** How many events of a kind have met the row of cart `g`. */
  function Tally(kind: Kind, w: World, events: seq<Event>, g: CartId): nat {
    if events == [] then 0
    else
      var front := events[..|events| - 1];
      Tally(kind, w, front, g) + One(Is(kind, Play(w, front), events[|events| - 1], g))
  }

  lemma OneEventOnly(w: World, e: Event, g: CartId)
    ensures One(IsOrder(w, e, g)) + One(IsAbandon(w, e, g)) + One(IsWriteOff(w, e, g)) == One(IsEnding(w, e, g))
    ensures !(IsEnding(w, e, g) && IsReopening(w, e, g))
    ensures IsReopening(w, e, g) ==> !IsActive(w, g)
  {}

  lemma LivesStep(w: World, e: Event, g: CartId)
    requires Sane(w)
    ensures One(IsEnding(w, e, g)) + One(IsActive(Happen(w, e), g)) + One(g < |w.sys.carts|)
            == One(IsReopening(w, e, g)) + One(IsActive(w, g)) + One(g < |Happen(w, e).sys.carts|)
  {
    OneEventOnly(w, e, g);
    if g < |w.sys.carts| {
      HappenActive(w, e, g);
      HappenRows(w, e, g);
    } else {
      HappenNewRow(w, e, g);
    }
  }

  /**
   * Every life of a row, from its creation or a reopening on, ends at most once: in an order, an abandon or a
   * write-off.  So a cart is ordered or abandoned at most once more than flushes have reopened it.
   */
  lemma {:induction false} RowLives(w: World, events: seq<Event>, g: CartId)
    requires Fresh(w)
    ensures Tally(OrderKind, w, events, g) + Tally(AbandonKind, w, events, g) + Tally(WriteOffKind, w, events, g)
            + One(IsActive(Play(w, events), g))
            == One(g < |Play(w, events).sys.carts|) + Tally(ReopeningKind, w, events, g)
    ensures Tally(OrderKind, w, events, g) + Tally(AbandonKind, w, events, g) <= 1 + Tally(ReopeningKind, w, events, g)
  {
    if events != [] {
      var front, e := events[..|events| - 1], events[|events| - 1];
      RowLives(w, front, g);
      SafeAmongOrdersAndFlushes(w, front);
      LivesStep(Play(w, front), e, g);
      OneEventOnly(Play(w, front), e, g);
    }
  }

  /** The last order or flush write that met the row of cart `g` was an order. */
  predicate OrderStands(w: World, events: seq<Event>, g: CartId) {
    if events == [] then false
    else
      var front, e := events[..|events| - 1], events[|events| - 1];
      IsOrder(Play(w, front), e, g) || (!IsWrite(Play(w, front), e, g) && OrderStands(w, front, g))
  }

  /** An order stays on record exactly until a flush writes the row, whatever blob the flush had read. */
  lemma {:induction false} OrderStandsExactly(w: World, events: seq<Event>, g: CartId)
    requires Fresh(w)
    ensures var now := Play(w, events);
            g < |now.sys.carts| && RowOf(now, g).status == Converted <==> OrderStands(w, events, g)
  {
    if events != [] {
      var front, e := events[..|events| - 1], events[|events| - 1];
      OrderStandsExactly(w, front, g);
      SafeAmongOrdersAndFlushes(w, front);
      if g < |Play(w, front).sys.carts| {
        HappenRows(Play(w, front), e, g);
      } else {
        HappenNewRow(Play(w, front), e, g);
      }
    }
  }

  // ---------------------------------------------------------------- from finding the winner to merging into it

  /** Call `r` has found its winner and not yet finished. */
  predicate Following(w: World, r: nat) {
    r < |w.sys.runs|
    && var pc := w.sys.runs[r].pc; pc.CheckWinner? || pc.TryAbandon? || pc.Capture? || pc.Merge?
  }

  function WinnerOf(w: World, r: nat): CartId
    requires Following(w, r)
  {
    w.sys.runs[r].pc.winner
  }

  lemma FollowingEntered(w: World, e: Event, r: nat)
    requires Following(Happen(w, e), r) && !Following(w, r)
    ensures var w' := Happen(w, e); var run := w'.sys.runs[r];
            ActiveOf(w'.sys.carts, WinnerOf(w', r), run.customer.id) && WinnerOf(w', r) != run.cart
  {}

  lemma FollowingOn(w: World, e: Event, r: nat)
    requires Following(Happen(w, e), r) && Following(w, r)
    ensures var run, run' := w.sys.runs[r], Happen(w, e).sys.runs[r];
            WinnerOf(Happen(w, e), r) == WinnerOf(w, r) && run'.cart == run.cart && run'.customer == run.customer
  {}

  /** Since call `r` found its winner, the last event that ended or reopened the winner's row ended it. */
  predicate WinnerOver(w: World, events: seq<Event>, r: nat) {
    if events == [] then false
    else
      var front, e := events[..|events| - 1], events[|events| - 1];
      var before := Play(w, front);
      && Following(before, r) && Following(Happen(before, e), r)
      && var winner := WinnerOf(before, r);
         IsEnding(before, e, winner) || (!IsReopening(before, e, winner) && WinnerOver(w, front, r))
  }

  lemma {:induction false} WinnerHistory(w: World, events: seq<Event>, r: nat)
    requires Fresh(w) && Following(Play(w, events), r)
    ensures var now := Play(w, events);
            && OwnedBy(now.sys.carts, WinnerOf(now, r), now.sys.runs[r].customer.id)
            && (!IsActive(now, WinnerOf(now, r)) <==> WinnerOver(w, events, r))
  {
    var front, e := events[..|events| - 1], events[|events| - 1];
    var before := Play(w, front);
    SafeAmongOrdersAndFlushes(w, front);
    if Following(before, r) {
      WinnerHistory(w, front, r);
      FollowingOn(before, e, r);
      HappenSane(before, e);
      OneEventOnly(before, e, WinnerOf(before, r));
      HappenActive(before, e, WinnerOf(before, r));
    } else {
      FollowingEntered(before, e, r);
    }
  }

  /**
   * The merge step asks Redis alone: among orders and flushes it returns, with the units in a cart that Postgres no
   * longer holds active, exactly when the winner's row has ended since it was found and Redis does not show it.
   */
  lemma MergesIntoEndedExactly(w: World, events: seq<Event>, r: nat, o: Oracle)
    requires Fresh(w) && !o.fault && Following(Play(w, events), r) && Play(w, events).sys.runs[r].pc.Merge?
    ensures var now := Play(w, events); var run := now.sys.runs[r]; var winner := WinnerOf(now, r);
            var pc := Next(now.sys, Advance(r, o)).runs[r].pc;
            && winner < |now.sys.carts|
            && var blob := now.sys.carts[winner].blob;
               var agreed := MayMergeInto(Some(blob), run.customer.id)
                             && CartAssociationTheorems.OnSale(MergedLines(run.pc.captured, blob, o.now), o.stock);
               && (pc.Returned? <==> agreed)
               && (pc.Returned? && !IsActive(now, winner) <==> WinnerOver(w, events, r) && agreed)
  {
    WinnerHistory(w, events, r);
    var s := Play(w, events).sys;
    var run := s.runs[r];
    CartAssociationTheorems.MergeOutcome(s.carts, run, run.pc.winner, run.pc.captured, o);
  }

  /**
   * Since call `r` found its winner, the last event that met the guest cart's row made it an active cart of the
   * call's own customer.
   */
  predicate OwnSince(w: World, events: seq<Event>, r: nat) {
    if events == [] then false
    else
      var front, e := events[..|events| - 1], events[|events| - 1];
      var before := Play(w, front);
      && Following(before, r) && Following(Happen(before, e), r)
      && var g := before.sys.runs[r].cart; var c := before.sys.runs[r].customer.id;
         && !IsEnding(before, e, g)
         && (OwnSince(w, front, r) || IsClaim(before, e, g, c)
             || (IsReopening(before, e, g) && OwnedBy(before.sys.carts, g, c)))
  }

  lemma OwnStep(w: World, e: Event, g: CartId, c: CustomerId)
    requires Sane(w)
    ensures g < |w.sys.carts| ==>
              (ActiveOf(Happen(w, e).sys.carts, g, c)
               <==> && !IsEnding(w, e, g)
                    && (ActiveOf(w.sys.carts, g, c) || IsClaim(w, e, g, c)
                        || (IsReopening(w, e, g) && OwnedBy(w.sys.carts, g, c))))
  {
    if g < |w.sys.carts| {
      HappenSane(w, e);
      HappenRows(w, e, g);
      HappenActive(w, e, g);
    }
  }

  predicate OwnActive(w: World, r: nat)
    requires r < |w.sys.runs|
  {
    ActiveOf(w.sys.carts, w.sys.runs[r].cart, w.sys.runs[r].customer.id)
  }

  lemma OwnEntered(w: World, e: Event, r: nat)
    requires Sane(w) && Following(Happen(w, e), r) && !Following(w, r)
    ensures !OwnActive(Happen(w, e), r)
  {
    HappenSane(w, e);
    FollowingEntered(w, e, r);
  }

  lemma OwnOn(w: World, e: Event, r: nat)
    requires Sane(w) && Following(Happen(w, e), r) && Following(w, r)
    ensures var g := w.sys.runs[r].cart; var c := w.sys.runs[r].customer.id;
            OwnActive(Happen(w, e), r)
            <==> && !IsEnding(w, e, g)
                 && (OwnActive(w, r) || IsClaim(w, e, g, c) || (IsReopening(w, e, g) && OwnedBy(w.sys.carts, g, c)))
  {
    assert RunSane(w.sys.carts, w.sys.runs[r]);
    FollowingOn(w, e, r);
    OwnStep(w, e, w.sys.runs[r].cart, w.sys.runs[r].customer.id);
  }

  lemma {:induction false} OwnHistory(w: World, events: seq<Event>, r: nat)
    requires Fresh(w) && Following(Play(w, events), r)
    ensures OwnActive(Play(w, events), r) <==> OwnSince(w, events, r)
  {
    var front, e := events[..|events| - 1], events[|events| - 1];
    SafeAmongOrdersAndFlushes(w, front);
    if Following(Play(w, front), r) {
      OwnHistory(w, front, r);
      OwnOn(Play(w, front), e, r);
    } else {
      OwnEntered(Play(w, front), e, r);
    }
  }

  /**
   * The merge gate abandons a cart that somebody owns exactly when, since the call found its winner, another call
   * of the same customer was granted that very cart, or a flush reopened it, and it has not ended since.  The
   * winner's row has then ended meanwhile, for Postgres never lets one customer have two active carts.
   */
  lemma OwnCartAbandonedExactly(w: World, events: seq<Event>, r: nat, o: Oracle)
    requires Fresh(w) && !o.fault && Following(Play(w, events), r) && Play(w, events).sys.runs[r].pc.TryAbandon?
    ensures var now := Play(w, events); var run := now.sys.runs[r];
            var took := Next(now.sys, Advance(r, o)).runs[r].pc.Capture?;
            && run.cart < |now.sys.carts|
            && (took && RowOf(now, run.cart).owner.Some? <==> OwnSince(w, events, r))
            && (took && RowOf(now, run.cart).owner.Some? ==> WinnerOver(w, events, r))
  {
    OwnHistory(w, events, r);
    WinnerHistory(w, events, r);
    SafeAmongOrdersAndFlushes(w, events);
    var s := Play(w, events).sys;
    var run := s.runs[r];
    assert RunSane(s.carts, run);
    assert !(ActiveOf(s.carts, run.pc.winner, run.customer.id) && ActiveOf(s.carts, run.cart, run.customer.id));
  }

  // ---------------------------------------------------------------- two captures, one of them empty

  /** Event `e` is a capture of guest cart `g` that takes something. */
  predicate IsTaking(w: World, e: Event, g: CartId) {
    && e.Act? && e.action.Advance? && e.action.run < |w.sys.runs|
    && w.sys.runs[e.action.run].cart == g && w.sys.runs[e.action.run].pc.Capture?
    && Carries(Happen(w, e).sys.runs[e.action.run], g)
  }

  /** Event `e` puts something captured from `g` into a winner. */
  predicate IsGiving(w: World, e: Event, g: CartId) {
    && e.Act? && e.action.Advance? && e.action.run < |w.sys.runs| && Carries(w.sys.runs[e.action.run], g)
    && Happen(w, e).sys.runs[e.action.run].pc.Returned?
  }

  predicate Carries(run: Run, g: CartId) { run.cart == g && run.pc.Merge? && run.pc.captured != [] }

  predicate Carried(runs: seq<Run>, g: CartId) { exists r :: 0 <= r < |runs| && Carries(runs[r], g) }

  predicate OneCarrier(runs: seq<Run>, g: CartId) {
    forall q, r :: 0 <= q < |runs| && 0 <= r < |runs| && Carries(runs[q], g) && Carries(runs[r], g) ==> q == r
  }

  function Takings(w: World, events: seq<Event>, g: CartId): nat {
    if events == [] then 0
    else
      var front := events[..|events| - 1];
      Takings(w, front, g) + One(IsTaking(Play(w, front), events[|events| - 1], g))
  }

  function Givings(w: World, events: seq<Event>, g: CartId): nat {
    if events == [] then 0
    else
      var front := events[..|events| - 1];
      Givings(w, front, g) + One(IsGiving(Play(w, front), events[|events| - 1], g))
  }

  predicate Emptied(w: World, g: CartId) { g < |w.sys.carts| && w.sys.carts[g].blob.status == Abandoned }

  lemma CaptureTakes(tenant: string, carts: seq<Cart>, run: Run, o: Oracle)
    requires CartsSane(carts) && Carries(StepRun(tenant, carts, run, o).run, run.cart)
    ensures run.pc.Capture? && run.cart < |carts| && carts[run.cart].blob.status != Abandoned
    ensures StepRun(tenant, carts, run, o).carts[run.cart].blob.status == Abandoned
  {
    assert run.pc.Capture?;
    assert CartSane(carts[run.cart]);
  }

  lemma TakingEmpties(w: World, e: Event, g: CartId)
    requires Sane(w) && IsTaking(w, e, g)
    ensures !Emptied(w, g) && Emptied(Happen(w, e), g)
  {
    CaptureTakes(w.sys.tenant, w.sys.carts, w.sys.runs[e.action.run], e.action.oracle);
  }

  /** Only a taking makes a call carry something. */
  lemma CarriersStay(w: World, e: Event, g: CartId, r: nat)
    requires Sane(w) && r < |Happen(w, e).sys.runs| && Carries(Happen(w, e).sys.runs[r], g)
    ensures (IsTaking(w, e, g) && r == e.action.run) || (r < |w.sys.runs| && w.sys.runs[r] == Happen(w, e).sys.runs[r])
  {
    if e.Act? && e.action.Advance? && e.action.run == r && r < |w.sys.runs| {
      CaptureTakes(w.sys.tenant, w.sys.carts, w.sys.runs[r], e.action.oracle);
    }
  }

  /** A giving call carries nothing any more. */
  lemma GivingEnds(w: World, e: Event, g: CartId)
    requires Sane(w) && OneCarrier(w.sys.runs, g) && IsGiving(w, e, g)
    ensures Carried(w.sys.runs, g) && !Carried(Happen(w, e).sys.runs, g)
  {
    forall r | 0 <= r < |Happen(w, e).sys.runs| ensures !Carries(Happen(w, e).sys.runs[r], g) {
      if Carries(Happen(w, e).sys.runs[r], g) { CarriersStay(w, e, g, r); }
    }
  }

  lemma CarriersAfter(w: World, e: Event, g: CartId)
    requires Sane(w) && OneCarrier(w.sys.runs, g) && (IsTaking(w, e, g) ==> !Carried(w.sys.runs, g))
    ensures OneCarrier(Happen(w, e).sys.runs, g)
    ensures !IsTaking(w, e, g) && Carried(Happen(w, e).sys.runs, g) ==> Carried(w.sys.runs, g)
  {
    forall r | 0 <= r < |Happen(w, e).sys.runs| && Carries(Happen(w, e).sys.runs[r], g)
      ensures (IsTaking(w, e, g) && r == e.action.run) || (r < |w.sys.runs| && Carries(w.sys.runs[r], g))
    {
      CarriersStay(w, e, g, r);
    }
  }

  /**
   * A flush between their abandons lets several calls capture one guest cart.  Still at most one of them takes
   * anything, and what it takes enters at most one winner, once.
   */
  lemma {:induction false} TakenAndGivenAtMostOnce(w: World, events: seq<Event>, g: CartId)
    requires Fresh(w)
    ensures var now := Play(w, events);
            && OneCarrier(now.sys.runs, g)
            && Givings(w, events, g) + One(Carried(now.sys.runs, g)) <= Takings(w, events, g) <= 1
            && (Takings(w, events, g) == 1 ==> Emptied(now, g))
  {
    if events != [] {
      var front, e := events[..|events| - 1], events[|events| - 1];
      TakenAndGivenAtMostOnce(w, front, g);
      SafeAmongOrdersAndFlushes(w, front);
      var before := Play(w, front);
      HappenSane(before, e);
      if IsTaking(before, e, g) { TakingEmpties(before, e, g); }
      CarriersAfter(before, e, g);
      if IsGiving(before, e, g) { GivingEnds(before, e, g); }
    }
  }

  // ---------------------------------------------------------------- orders: the cart that raced to ours

  predicate NoFlush(events: seq<Event>) { forall i :: 0 <= i < |events| ==> !events[i].FlushWrite? }

  /** What a blocked call found keeps holding as long as no flush makes a row active again. */
  ghost predicate BlockedOk(w: World) {
    forall r :: 0 <= r < |w.sys.runs| ==> BlockedRunOk(w.sys.carts, w.sys.runs[r])
  }

  predicate BlockedRunOk(carts: seq<Cart>, run: Run) {
    && (!run.pc.Start? && !run.pc.Failed? ==> run.cart < |carts|)
    && (run.pc.ReadAfterBlocked? ==> !UnownedOrMine(carts[run.cart].pg, run.customer.id))
  }

  lemma StepBlocked(tenant: string, carts: seq<Cart>, run: Run, o: Oracle)
    requires BlockedRunOk(carts, run)
    ensures var e := StepRun(tenant, carts, run, o); BlockedRunOk(e.carts, e.run)
  {}

  lemma BlockedStable(w: World, e: Event, run: Run)
    requires Sane(w) && BlockedRunOk(w.sys.carts, run) && !e.FlushWrite?
    ensures BlockedRunOk(Happen(w, e).sys.carts, run)
  {
    HappenSane(w, e);
    if run.cart < |w.sys.carts| { HappenRows(w, e, run.cart); }
  }

  lemma HappenBlocked(w: World, e: Event)
    requires Sane(w) && BlockedOk(w) && !e.FlushWrite?
    ensures BlockedOk(Happen(w, e))
  {
    var w' := Happen(w, e);
    forall r | 0 <= r < |w'.sys.runs| ensures BlockedRunOk(w'.sys.carts, w'.sys.runs[r]) {
      if r < |w.sys.runs| {
        if e.Act? && e.action.Advance? && e.action.run == r {
          StepBlocked(w.sys.tenant, w.sys.carts, w.sys.runs[r], e.action.oracle);
        } else {
          BlockedStable(w, e, w.sys.runs[r]);
        }
      }
    }
  }

  lemma {:induction false} PlayBlocked(w: World, events: seq<Event>)
    requires Fresh(w) && NoFlush(events)
    ensures BlockedOk(Play(w, events)) && Sane(Play(w, events))
  {
    SafeAmongOrdersAndFlushes(w, events);
    if events != [] {
      PlayBlocked(w, events[..|events| - 1]);
      HappenBlocked(Play(w, events[..|events| - 1]), events[|events| - 1]);
    }
  }

  /**
   * What a blocked call answers among orders: "raced to ours" exactly when the row is the caller's own, no longer
   * active, and Redis shows him; 403 exactly when Redis shows another owner; otherwise the retryable 409.
   */
  lemma RacedToOursExactly(w: World, events: seq<Event>, r: nat, o: Oracle)
    requires Fresh(w) && NoFlush(events) && !o.fault
    requires r < |Play(w, events).sys.runs| && Play(w, events).sys.runs[r].pc.ReadAfterBlocked?
    ensures var s := Play(w, events).sys; var run := s.runs[r]; var pc := Next(s, Advance(r, o)).runs[r].pc;
            && run.cart < |s.carts|
            && var cart := s.carts[run.cart]; var mine := Some(run.customer.id);
               && (pc == Returned(RacedToOurs)
                   <==> cart.pg.owner == mine && cart.pg.status != Active && cart.blob.owner == mine)
               && (pc == Failed(Forbidden) <==> cart.blob.owner.Some? && cart.blob.owner != mine)
               && (pc == Failed(Conflict) <==> cart.blob.owner.None?)
  {
    PlayBlocked(w, events);
    var s := Play(w, events).sys;
    assert BlockedRunOk(s.carts, s.runs[r]) && CartSane(s.carts[s.runs[r].cart]);
  }

  // ---------------------------------------------------------------- flushes: the cart that was taken over

  predicate AtCapture(w: World, r: nat) { r < |w.sys.runs| && w.sys.runs[r].pc.Capture? }

  ghost predicate RivalClaim(w: World, e: Event, run: Run) {
    exists d: CustomerId :: d != run.customer.id && IsClaim(w, e, run.cart, d)
  }

  /** Since call `r` abandoned its guest cart, a claim of that cart by another customer was granted. */
  ghost predicate TakenOver(w: World, events: seq<Event>, r: nat) {
    if events == [] then false
    else
      var front, e := events[..|events| - 1], events[|events| - 1];
      var before := Play(w, front);
      && AtCapture(before, r) && AtCapture(Happen(before, e), r)
      && (TakenOver(w, front, r) || RivalClaim(before, e, before.sys.runs[r]))
  }

  /** Since call `r` abandoned its guest cart, a flush made the row active again. */
  predicate Reopened(w: World, events: seq<Event>, r: nat) {
    if events == [] then false
    else
      var front, e := events[..|events| - 1], events[|events| - 1];
      var before := Play(w, front);
      && AtCapture(before, r) && AtCapture(Happen(before, e), r)
      && (Reopened(w, front, r) || IsReopening(before, e, before.sys.runs[r].cart))
  }

  /** The row a call is about to capture belongs to somebody else. */
  predicate Rivalled(w: World, r: nat)
    requires AtCapture(w, r)
  {
    var run := w.sys.runs[r];
    run.cart < |w.sys.carts| && RowOf(w, run.cart).owner.Some? && RowOf(w, run.cart).owner.value != run.customer.id
  }

  lemma CaptureEntered(w: World, e: Event, r: nat)
    requires AtCapture(Happen(w, e), r) && !AtCapture(w, r)
    ensures var w' := Happen(w, e); var g := w'.sys.runs[r].cart;
            g < |w'.sys.carts| && RowOf(w', g).status == Abandoned && !Rivalled(w', r)
  {}

  lemma CaptureAwaited(w: World, e: Event, r: nat)
    requires AtCapture(Happen(w, e), r) && AtCapture(w, r)
    ensures Happen(w, e).sys.runs[r] == w.sys.runs[r]
  {}

  lemma {:induction false} CaptureHistory(w: World, events: seq<Event>, r: nat)
    requires Fresh(w) && AtCapture(Play(w, events), r)
    ensures var now := Play(w, events);
            && now.sys.runs[r].cart < |now.sys.carts|
            && (Rivalled(now, r) <==> TakenOver(w, events, r))
            && (RowOf(now, now.sys.runs[r].cart).status == Active ==> Reopened(w, events, r))
            && (TakenOver(w, events, r) ==> Reopened(w, events, r))
  {
    var front, e := events[..|events| - 1], events[|events| - 1];
    var before := Play(w, front);
    SafeAmongOrdersAndFlushes(w, front);
    if AtCapture(before, r) {
      CaptureHistory(w, front, r);
      CaptureAwaited(before, e, r);
      HappenRows(before, e, before.sys.runs[r].cart);
      HappenSane(before, e);
    } else {
      CaptureEntered(before, e, r);
    }
  }

  /**
   * Among flushes and orders the capture empties a cart that Postgres has given to another customer exactly when
   * that customer's claim was granted since the abandon and has not reached Redis; and the stranger guard, which
   * never fires without flushes, fires exactly when it has reached Redis.  Either takes a flush that wrote a blob
   * read while still active over the abandoned row.
   */
  lemma CaptureRobsExactly(w: World, events: seq<Event>, r: nat, o: Oracle)
    requires Fresh(w) && AtCapture(Play(w, events), r) && !o.fault
    ensures var now := Play(w, events); var run := now.sys.runs[r]; var pc := Next(now.sys, Advance(r, o)).runs[r].pc;
            && run.cart < |now.sys.carts|
            && var shown := now.sys.carts[run.cart].blob.owner;
               && (pc.Merge? && Rivalled(now, r) <==> TakenOver(w, events, r) && shown.None?)
               && (pc == Failed(Forbidden) <==> TakenOver(w, events, r) && shown.Some?)
               && (TakenOver(w, events, r) ==> Reopened(w, events, r))
  {
    CaptureHistory(w, events, r);
    SafeAmongOrdersAndFlushes(w, events);
    var now := Play(w, events);
    assert CartSane(now.sys.carts[now.sys.runs[r].cart]);
  }
}
