/** The safety theorems of the association protocol, over every interleaving of any number of calls. */
module CartAssociationTheorems {
  import opened Wrappers
  import CartLines
  import opened CartAuthorise
  import opened CartAssociation
  import opened CartAssociationSafety

  // ---------------------------------------------------------------- ownership

  /** No two entries name the same customer. */
  predicate NobodyTwice(owners: seq<Option<CustomerId>>) {
    forall i, j :: 0 <= i < |owners| && 0 <= j < |owners| && owners[i].Some? && owners[i] == owners[j] ==> i == j
  }

  function PgOwners(carts: seq<Cart>): seq<Option<CustomerId>> {
    seq(|carts|, i requires 0 <= i < |carts| => carts[i].pg.owner)
  }

  function RedisOwners(carts: seq<Cart>): seq<Option<CustomerId>> {
    seq(|carts|, i requires 0 <= i < |carts| => carts[i].blob.owner)
  }

  /** Redis never shows an owner Postgres does not, and no customer ever has two active carts in either store. */
  lemma OwnershipSafety(s0: System, acts: seq<Action>)
    requires Initial(s0)
    ensures var carts := Exec(s0, acts).carts;
            && (forall i :: 0 <= i < |carts| && carts[i].blob.owner.Some? ==> carts[i].pg.owner == carts[i].blob.owner)
            && (forall i :: 0 <= i < |carts| && carts[i].pg.owner.Some? ==>
                  carts[i].pg.status == Active && carts[i].blob.status == Active)
            && NobodyTwice(PgOwners(carts)) && NobodyTwice(RedisOwners(carts))
  {
    ExecKeeps(s0, acts);
    var carts := Exec(s0, acts).carts;
    forall i, j | 0 <= i < |carts| && 0 <= j < |carts| && carts[i].pg.owner.Some?
        && carts[i].pg.owner == carts[j].pg.owner
      ensures i == j
    {
      assert Owns(carts, i, carts[i].pg.owner.value) && Owns(carts, j, carts[i].pg.owner.value);
    }
  }

  /** Once Postgres gives a cart to a customer it stays his, and active, in every continuation. */
  lemma OwnerIsPermanent(s: System, acts: seq<Action>, i: CartId, c: CustomerId)
    requires Inv(s) && Owns(s.carts, i, c)
    ensures Owns(Exec(s, acts).carts, i, c) && Exec(s, acts).carts[i].pg.status == Active
  {
    ExecKeeps(s, acts);
    assert CartEvolves(s.carts[i], Exec(s, acts).carts[i]);
  }

  // ---------------------------------------------------------------- at most one capture, at most one merge

  /** Action `a` is the capture step of a call on guest cart `g`. */
  predicate IsCapture(s: System, a: Action, g: CartId) {
    && a.Advance? && a.run < |s.runs| && s.runs[a.run].cart == g && s.runs[a.run].pc.Capture?
    && Next(s, a).runs[a.run].pc.Merge?
  }

  /** Action `a` puts what was captured from `g` into a winner. */
  predicate IsMerge(s: System, a: Action, g: CartId) {
    && a.Advance? && a.run < |s.runs| && s.runs[a.run].cart == g && s.runs[a.run].pc.Merge?
    && Next(s, a).runs[a.run].pc.Returned?
  }

  function One(b: bool): nat { if b then 1 else 0 }

  function Captures(s: System, acts: seq<Action>, g: CartId): nat {
    if acts == [] then 0
    else Captures(s, acts[..|acts| - 1], g) + One(IsCapture(Exec(s, acts[..|acts| - 1]), acts[|acts| - 1], g))
  }

  function Merges(s: System, acts: seq<Action>, g: CartId): nat {
    if acts == [] then 0
    else Merges(s, acts[..|acts| - 1], g) + One(IsMerge(Exec(s, acts[..|acts| - 1]), acts[|acts| - 1], g))
  }

  predicate Pending(runs: seq<Run>, g: CartId) {
    exists r :: 0 <= r < |runs| && runs[r].cart == g && runs[r].pc.Merge?
  }

  lemma CaptureStep(s: System, a: Action, g: CartId)
    requires Inv(s)
    ensures IsCapture(s, a, g) ==>
              g < |s.carts| && s.carts[g].blob.status == Active && Next(s, a).carts[g].blob.status == Abandoned
  {
    if IsCapture(s, a, g) { assert RunOk(s.carts, s.runs[a.run]); }
  }

  lemma StepPending(s: System, a: Action, g: CartId)
    requires Inv(s)
    ensures IsCapture(s, a, g) ==> g < |s.carts| && s.carts[g].blob.status == Active
                                   && Next(s, a).carts[g].blob.status == Abandoned && !Pending(s.runs, g)
    ensures IsMerge(s, a, g) ==> Pending(s.runs, g) && !Pending(Next(s, a).runs, g)
    ensures !IsCapture(s, a, g) && Pending(Next(s, a).runs, g) ==> Pending(s.runs, g)
  {
    var s' := Next(s, a);
    if a.Advance? && a.run < |s.runs| {
      CaptureStep(s, a, g);
      forall r | 0 <= r < |s'.runs| && s'.runs[r].pc.Merge? && !IsCapture(s, a, g) && s'.runs[r].cart == g
        ensures Pending(s.runs, g)
      {
        assert s.runs[r].pc.Merge? && s.runs[r].cart == g;
      }
    } else {
      forall r | 0 <= r < |s'.runs| && s'.runs[r].pc.Merge? && s'.runs[r].cart == g ensures Pending(s.runs, g) {
        assert s.runs[r].pc.Merge? && s.runs[r].cart == g;
      }
    }
  }

  /** A guest cart is captured at most once over all calls, and what was captured enters at most one winner, once. */
  lemma {:induction false} CapturedAndMergedAtMostOnce(s0: System, acts: seq<Action>, g: CartId)
    requires Initial(s0)
    ensures Merges(s0, acts, g) + One(Pending(Exec(s0, acts).runs, g)) <= Captures(s0, acts, g) <= 1
    ensures Captures(s0, acts, g) == 1 ==>
            g < |Exec(s0, acts).carts| && Exec(s0, acts).carts[g].blob.status == Abandoned
  {
    if acts != [] {
      var front, a := acts[..|acts| - 1], acts[|acts| - 1];
      CapturedAndMergedAtMostOnce(s0, front, g);
      ExecKeeps(s0, front);
      StepPending(Exec(s0, front), a, g);
      NextKeeps(Exec(s0, front), a);
    }
  }

  /** Once a guest cart has been captured, no edit of it succeeds any more, under any credential. */
  lemma NoEditAfterCapture(s0: System, acts: seq<Action>, g: CartId, a: Action)
    requires Initial(s0) && Captures(s0, acts, g) > 0 && a.Shop? && a.cart == g
    ensures Next(Exec(s0, acts), a) == Exec(s0, acts)
  {
    CapturedAndMergedAtMostOnce(s0, acts, g);
  }

  // ---------------------------------------------------------------- losers do no harm

  function Writes(s: System, acts: seq<Action>, r: nat): nat {
    if acts == [] then 0
    else
      var s' := Exec(s, acts[..|acts| - 1]);
      var a := acts[|acts| - 1];
      Writes(s, acts[..|acts| - 1], r) + One(a.Advance? && a.run == r && Next(s', a).carts != s'.carts)
  }

  /** After any write, a call's guest cart is either its customer's or abandoned without an owner. */
  lemma WriterHoldsItsCart(s: System, r: nat, o: Oracle)
    requires Inv(s) && r < |s.runs| && Next(s, Advance(r, o)).carts != s.carts
    ensures var run := s.runs[r]; var carts' := Next(s, Advance(r, o)).carts;
            run.cart < |carts'| && (carts'[run.cart].pg.owner == Some(run.customer.id)
                                    || (carts'[run.cart].pg.status == Abandoned && carts'[run.cart].pg.owner.None?))
  {
    var run := s.runs[r];
    assert RunOk(s.carts, run);
    if Capturing(run) { CapturingIsAbandoned(s.carts, run); }
    StepKeeps(s.tenant, s.carts, run, o);
  }

  predicate SameCall(a: Run, b: Run) { a.cart == b.cart && a.token == b.token && a.customer == b.customer }

  lemma NextKeepsCall(s: System, a: Action, r: nat)
    requires r < |s.runs|
    ensures r < |Next(s, a).runs| && SameCall(s.runs[r], Next(s, a).runs[r])
  {}

  /**
   * If Postgres has given the cart of call `r` to another customer, then call `r` has never written to either
   * store, cannot have succeeded, and from then on neither writes nor succeeds.
   */
  lemma {:induction false} LoserChangesNothing(s0: System, acts: seq<Action>, r: nat)
    requires Initial(s0)
    requires var s := Exec(s0, acts);
             r < |s.runs| && s.runs[r].cart < |s.carts|
             && s.carts[s.runs[r].cart].pg.owner.Some?
                && s.carts[s.runs[r].cart].pg.owner.value != s.runs[r].customer.id
    ensures Writes(s0, acts, r) == 0
    ensures !Exec(s0, acts).runs[r].pc.Returned?
    ensures forall o :: var s := Exec(s0, acts); var s' := Next(s, Advance(r, o));
                        s'.carts == s.carts && !s'.runs[r].pc.Returned?
  {
    var s := Exec(s0, acts);
    ExecKeeps(s0, acts);
    LoserHistory(s0, acts, r, s.runs[r].cart, s.runs[r].customer.id);
    forall o ensures Next(s, Advance(r, o)).carts == s.carts && !Next(s, Advance(r, o)).runs[r].pc.Returned? {
      LoserStep(s, r, o);
    }
  }

  lemma LoserStep(s: System, r: nat, o: Oracle)
    requires Inv(s) && r < |s.runs| && s.runs[r].cart < |s.carts| && !s.runs[r].pc.Returned?
    requires s.carts[s.runs[r].cart].pg.owner.Some? && s.carts[s.runs[r].cart].pg.owner.value != s.runs[r].customer.id
    ensures Next(s, Advance(r, o)).carts == s.carts && !Next(s, Advance(r, o)).runs[r].pc.Returned?
  {
    assert RunOk(s.carts, s.runs[r]);
    assert CartOk(s.carts[s.runs[r].cart]);
  }

  lemma SuccessHoldsItsCart(s: System, r: nat, o: Oracle)
    requires Inv(s) && r < |s.runs|
    requires !s.runs[r].pc.Returned? && Next(s, Advance(r, o)).runs[r].pc.Returned?
    ensures var run := s.runs[r]; var carts' := Next(s, Advance(r, o)).carts;
            run.cart < |carts'| && (carts'[run.cart].pg.owner == Some(run.customer.id)
                                    || (carts'[run.cart].pg.status == Abandoned && carts'[run.cart].pg.owner.None?))
  {
    var run := s.runs[r];
    assert RunOk(s.carts, run);
    if run.cart < |s.carts| { assert CartOk(s.carts[run.cart]); }
    StepKeeps(s.tenant, s.carts, run, o);
  }

  lemma {:induction false} LoserHistory(s0: System, acts: seq<Action>, r: nat, g: CartId, c: CustomerId)
    requires Initial(s0)
    requires r < |Exec(s0, acts).runs| ==> Exec(s0, acts).runs[r].cart == g && Exec(s0, acts).runs[r].customer.id == c
    ensures Writes(s0, acts, r) > 0 || (r < |Exec(s0, acts).runs| && Exec(s0, acts).runs[r].pc.Returned?)
            ==> var carts := Exec(s0, acts).carts;
                g < |carts| && (carts[g].pg.owner == Some(c)
                    || (carts[g].pg.status == Abandoned && carts[g].pg.owner.None?))
  {
    if acts != [] {
      var front, a := acts[..|acts| - 1], acts[|acts| - 1];
      var s := Exec(s0, front);
      ExecKeeps(s0, front);
      NextKeeps(s, a);
      if r < |s.runs| { NextKeepsCall(s, a, r); }
      LoserHistory(s0, front, r, g, c);
      if a.Advance? && a.run == r && r < |s.runs| {
        if Next(s, a).carts != s.carts { WriterHoldsItsCart(s, r, a.oracle); }
        if !s.runs[r].pc.Returned? && Next(s, a).runs[r].pc.Returned? { SuccessHoldsItsCart(s, r, a.oracle); }
      }
    }
  }

  // ---------------------------------------------------------------- every call ends

  /** Own steps left. */
  function Rank(pc: Pc): nat {
    match pc
    case Start => 7
    case Claim(_) => 6
    case FindWinner(_) => 5
    case CheckWinner(_, _) => 4
    case TryAbandon(_) => 3
    case Capture(_) => 2
    case Commit(_) => 1
    case ReadAfterBlocked => 1
    case ReadAfterRefused => 1
    case Merge(_, _) => 1
    case Returned(_) => 0
    case Failed(_) => 0
  }

  /** Every own step of an unfinished call brings it closer to its end: at most seven steps, whatever others do. */
  lemma EveryStepProgresses(s: System, r: nat, o: Oracle)
    requires r < |s.runs|
    ensures Finished(s.runs[r]) <==> Rank(s.runs[r].pc) == 0
    ensures !Finished(s.runs[r]) ==> Rank(Next(s, Advance(r, o)).runs[r].pc) < Rank(s.runs[r].pc)
  {}

  // ---------------------------------------------------------------- the guards inside the mutate callbacks

  /** After a successful abandon the capture meets a live blob without an owner: its stranger guard never fires. */
  lemma CaptureGuardNeverFires(s0: System, acts: seq<Action>, r: nat, o: Oracle)
    requires Initial(s0) && r < |Exec(s0, acts).runs| && Exec(s0, acts).runs[r].pc.Capture? && !o.fault
    ensures var s := Exec(s0, acts); var g := s.runs[r].cart;
            && g < |s.carts| && s.carts[g].blob.owner.None? && s.carts[g].blob.status == Active
            && Next(s, Advance(r, o)).runs[r].pc == Merge(s.runs[r].pc.winner, s.carts[g].blob.items)
  {
    ExecKeeps(s0, acts);
    var s := Exec(s0, acts);
    assert RunOk(s.carts, s.runs[r]) && CartOk(s.carts[s.runs[r].cart]);
  }

  predicate OnSale(lines: seq<CartLines.Line>, stock: map<CartLines.VariantId, Supply>) {
    forall i :: 0 <= i < |lines| ==> lines[i].variantId in stock
  }

  lemma {:induction false} ReservesAllOnSale(lines: seq<CartLines.Line>, stock: map<CartLines.VariantId, Supply>)
    ensures ReserveAll(lines, stock).Some? <==> OnSale(lines, stock)
  {
    if lines != [] {
      ReservesAllOnSale(lines[..|lines| - 1], stock);
    }
  }

  /** What the merge step does in any state that satisfies the invariant. */
  lemma MergeStepExactly(s: System, r: nat, o: Oracle)
    requires Inv(s) && r < |s.runs| && s.runs[r].pc.Merge? && !o.fault
    ensures var run := s.runs[r]; var s' := Next(s, Advance(r, o));
            && run.pc.winner < |s.carts|
            && var winner := s.carts[run.pc.winner].blob;
               && winner.status == Active && (winner.owner.Some? ==> winner.owner.value == run.customer.id)
               && (s'.runs[r].pc.Returned? <==>
                     winner.owner.Some? && OnSale(MergedLines(run.pc.captured, winner, o.now), o.stock))
               && (!s'.runs[r].pc.Returned? ==>
                     s'.runs[r].pc.Failed? && s'.carts == s.carts && s'.dropped == s.dropped + run.pc.captured)
  {
    var run := s.runs[r];
    assert RunOk(s.carts, run) && CartOk(s.carts[run.pc.winner]);
    MergeOutcome(s.carts, run, run.pc.winner, run.pc.captured, o);
  }

  lemma MergeOutcome(carts: seq<Cart>, run: Run, w: CartId, captured: seq<CartLines.Line>, o: Oracle)
    requires w < |carts|
    ensures var e := StepMerge(carts, run, w, captured, o);
            && (e.run.pc.Returned? <==>
                  MayMergeInto(Some(carts[w].blob), run.customer.id)
                  && OnSale(MergedLines(captured, carts[w].blob, o.now), o.stock))
            && (!e.run.pc.Returned? ==> e.run.pc.Failed? && e.carts == carts && e.dropped == captured)
  {
    ReservesAllOnSale(MergedLines(captured, carts[w].blob, o.now), o.stock);
  }

  /**
   * Without a fault the merge step succeeds exactly when the winner's adoption has reached Redis, not only Postgres,
   * and every merged variant is still on sale; otherwise the captured lines are left behind.  The rest of its
   * guard (an absent, inactive or stranger's winner) never fires.
   */
  lemma MergeSucceedsExactly(s0: System, acts: seq<Action>, r: nat, o: Oracle)
    requires Initial(s0) && r < |Exec(s0, acts).runs| && Exec(s0, acts).runs[r].pc.Merge? && !o.fault
    ensures var s := Exec(s0, acts); var run := s.runs[r]; var s' := Next(s, Advance(r, o));
            && run.pc.winner < |s.carts|
            && var winner := s.carts[run.pc.winner].blob;
               && winner.status == Active && (winner.owner.Some? ==> winner.owner.value == run.customer.id)
               && (s'.runs[r].pc.Returned? <==>
                     winner.owner.Some? && OnSale(MergedLines(run.pc.captured, winner, o.now), o.stock))
               && (!s'.runs[r].pc.Returned? ==>
                     s'.runs[r].pc.Failed? && s'.carts == s.carts && s'.dropped == s.dropped + run.pc.captured)
  {
    ExecKeeps(s0, acts);
    MergeStepExactly(Exec(s0, acts), r, o);
  }
}
