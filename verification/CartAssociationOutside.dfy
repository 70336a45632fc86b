/**
 * The association among what else writes to the two stores: order placement, which ends a cart in Postgres only
 * (`apps/api/src/orders`), and the flush, which copies a blob read earlier over its row
 * (`apps/api/src/cart/cart.repository.ts`).  This module holds the wider system and what survives both;
 * `CartAssociationOutsideTheorems` says of six guarantees that do not survive when each fails.
 */
module CartAssociationOutside {
  import opened Wrappers
  import opened CartLines
  import opened CartAuthorise
  import opened CartAssociation
  import CartAssociationSafety
  import opened CartAssociationUnits

  /** What the flush has read and not yet written. */
  datatype Unwritten = Unwritten(cart: CartId, blob: Blob)

  /** `checkouts` are the order placements that have read their cart and not yet entered their transaction. */
  datatype World = World(sys: System, unwritten: Option<Unwritten>, checkouts: multiset<CartId>)

  datatype Event =
    | Act(action: Action)
    | OrderRead(cart: CartId)
    | PlaceOrder(cart: CartId)
    | FlushRead(cart: CartId)
    | FlushWrite

  /** `markCartConverted`: only an active row, and no write to Redis. */
  function Ordered(cart: Cart): Cart {
    if cart.pg.status == Active then cart.(pg := cart.pg.(status := Converted)) else cart
  }

  /** The conflict branch of `upsertToPostgres`: the status always, the owner only when the blob asserts one. */
  function Upserted(row: PgRow, blob: Blob): PgRow {
    row.(status := blob.status, owner := if blob.owner.Some? then blob.owner else row.owner)
  }

  predicate BreaksIndex(carts: seq<Cart>, id: CartId, row: PgRow) {
    row.status == Active && row.owner.Some? && HasOtherActive(carts, id, row.owner.value)
  }

  function WriteBack(carts: seq<Cart>, u: Unwritten): seq<Cart> {
    if u.cart >= |carts| then carts
    else
      var row := Upserted(carts[u.cart].pg, u.blob);
      if BreaksIndex(carts, u.cart, row) then carts else carts[u.cart := carts[u.cart].(pg := row)]
  }

  /** An order placement reads a blob, refuses an empty one, and later converts the row if it is still active. */
  function Happen(w: World, e: Event): World {
    match e
    case Act(a) => w.(sys := Next(w.sys, a))
    case OrderRead(id) =>
      if id >= |w.sys.carts| || w.sys.carts[id].blob.items == [] then w
      else w.(checkouts := w.checkouts + multiset{id})
    case PlaceOrder(id) =>
      if id !in w.checkouts || id >= |w.sys.carts| then w
      else
        var carts := w.sys.carts[id := Ordered(w.sys.carts[id])];
        w.(sys := w.sys.(carts := carts), checkouts := w.checkouts - multiset{id})
    case FlushRead(id) => if id >= |w.sys.carts| then w else w.(unwritten := Some(Unwritten(id, w.sys.carts[id].blob)))
    case FlushWrite =>
      if w.unwritten.None? then w
      else w.(sys := w.sys.(carts := WriteBack(w.sys.carts, w.unwritten.value)), unwritten := None)
  }

  function Play(w: World, events: seq<Event>): World {
    if events == [] then w else Happen(Play(w, events[..|events| - 1]), events[|events| - 1])
  }

  ghost predicate Fresh(w: World) { Initial(w.sys) && w.unwritten.None? && w.checkouts == multiset{} }

  // ---------------------------------------------------------------- without orders and flushes nothing is new

  predicate Undisturbed(events: seq<Event>) {
    forall i :: 0 <= i < |events| ==> !events[i].PlaceOrder? && !events[i].FlushWrite?
  }

  function Actions(events: seq<Event>): seq<Action> {
    if events == [] then []
    else
      var last := events[|events| - 1];
      Actions(events[..|events| - 1]) + if last.Act? then [last.action] else []
  }

  lemma {:induction false} UndisturbedIsTheProtocol(w: World, events: seq<Event>)
    requires Undisturbed(events)
    ensures Play(w, events).sys == Exec(w.sys, Actions(events))
  {
    if events != [] {
      var front, last := events[..|events| - 1], events[|events| - 1];
      UndisturbedIsTheProtocol(w, front);
      if last.Act? {
        assert (Actions(front) + [last.action])[..|Actions(front)|] == Actions(front);
      } else {
        assert Actions(front) + [] == Actions(front);
      }
    }
  }

  // ---------------------------------------------------------------- what survives both

  ghost predicate CartSane(cart: Cart) {
    && (cart.blob.owner.Some? ==> cart.pg.owner == cart.blob.owner)
    && (cart.blob.status == Abandoned ==> cart.blob.items == []) && cart.blob.status != Converted
    && Distinct(cart.blob.items) && Positive(cart.blob.items)
  }

  predicate OwnedBy(carts: seq<Cart>, i: CartId, c: CustomerId) { i < |carts| && carts[i].pg.owner == Some(c) }

  predicate ActiveOf(carts: seq<Cart>, i: CartId, c: CustomerId) {
    OwnedBy(carts, i, c) && carts[i].pg.status == Active
  }

  ghost predicate OneActiveRow(carts: seq<Cart>) {
    forall i, j, c :: ActiveOf(carts, i, c) && ActiveOf(carts, j, c) ==> i == j
  }

  ghost predicate RunSane(carts: seq<Cart>, run: Run) {
    && (!run.pc.Start? && !run.pc.Failed? ==> run.cart < |carts|)
    && match run.pc
       case Commit(_) => OwnedBy(carts, run.cart, run.customer.id)
       case CheckWinner(_, w) => OwnedBy(carts, w, run.customer.id) && w != run.cart
       case TryAbandon(w) => OwnedBy(carts, w, run.customer.id) && w != run.cart
       case Capture(w) => OwnedBy(carts, w, run.customer.id) && w != run.cart
       case Merge(w, captured) => OwnedBy(carts, w, run.customer.id) && w != run.cart && Positive(captured)
       case _ => true
  }

  /** A blob read earlier asserts no owner that Postgres does not know. */
  predicate UnwrittenSane(carts: seq<Cart>, u: Unwritten) {
    && u.cart < |carts| && u.blob.status != Converted
    && (u.blob.owner.Some? ==> carts[u.cart].pg.owner == u.blob.owner)
  }

  ghost predicate Sane(w: World) {
    && CartsSane(w.sys.carts)
    && RunsSane(w.sys.carts, w.sys.runs)
    && (w.unwritten.Some? ==> UnwrittenSane(w.sys.carts, w.unwritten.value))
  }

  /** Owners never change in either store, and what has been captured stays captured. */
  ghost predicate OwnersKept(a: seq<Cart>, b: seq<Cart>) {
    && |a| <= |b|
    && forall i :: 0 <= i < |a| ==>
         && (a[i].pg.owner.Some? ==> b[i].pg.owner == a[i].pg.owner)
         && (a[i].blob.owner.Some? ==> b[i].blob.owner == a[i].blob.owner)
         && (a[i].blob.status == Abandoned ==> b[i].blob.status == Abandoned)
  }

  ghost predicate CartsSane(carts: seq<Cart>) {
    (forall i :: 0 <= i < |carts| ==> CartSane(carts[i])) && OneActiveRow(carts)
  }

  lemma ClaimSane(carts: seq<Cart>, run: Run, currency: string, newToken: string)
    requires CartsSane(carts) && run.pc.Claim? && RunSane(carts, run)
    ensures var e := StepClaim(carts, run, currency, newToken);
            CartsSane(e.carts) && OwnersKept(carts, e.carts) && RunSane(e.carts, e.run)
  {
    var c := run.customer.id;
    var e := StepClaim(carts, run, currency, newToken);
    if ClaimCustomer(carts, run.cart, c).Claimed? {
      assert forall j :: j != run.cart ==> !ActiveOf(carts, j, c);
      assert forall j, d :: j != run.cart ==> (ActiveOf(e.carts, j, d) <==> ActiveOf(carts, j, d));
    }
  }

  lemma MergeSane(carts: seq<Cart>, run: Run, w: CartId, captured: seq<Line>, o: Oracle)
    requires CartsSane(carts) && run.pc == Merge(w, captured) && RunSane(carts, run)
    ensures var e := StepMerge(carts, run, w, captured, o);
            CartsSane(e.carts) && OwnersKept(carts, e.carts) && RunSane(e.carts, e.run)
  {
    var e := StepMerge(carts, run, w, captured, o);
    CartAssociationSafety.MergedShape(captured, carts[w].blob, o);
    assert forall j, d :: ActiveOf(e.carts, j, d) <==> ActiveOf(carts, j, d);
  }

  lemma CommitSane(carts: seq<Cart>, run: Run, newToken: string)
    requires CartsSane(carts) && run.pc.Commit? && RunSane(carts, run)
    ensures var e := StepCommit(carts, run, newToken);
            CartsSane(e.carts) && OwnersKept(carts, e.carts) && RunSane(e.carts, e.run)
  {
    var e := StepCommit(carts, run, newToken);
    assert forall j, d :: ActiveOf(e.carts, j, d) <==> ActiveOf(carts, j, d);
  }

  lemma TryAbandonSane(carts: seq<Cart>, run: Run, winner: CartId)
    requires CartsSane(carts) && run.pc == TryAbandon(winner) && RunSane(carts, run)
    ensures var e := StepTryAbandon(carts, run, winner);
            CartsSane(e.carts) && OwnersKept(carts, e.carts) && RunSane(e.carts, e.run)
  {
    var e := StepTryAbandon(carts, run, winner);
    assert forall j, d :: ActiveOf(e.carts, j, d) ==> ActiveOf(carts, j, d);
  }

  lemma CaptureSane(carts: seq<Cart>, run: Run, winner: CartId)
    requires CartsSane(carts) && run.pc == Capture(winner) && RunSane(carts, run)
    ensures var e := StepCapture(carts, run, winner);
            CartsSane(e.carts) && OwnersKept(carts, e.carts) && RunSane(e.carts, e.run)
  {
    var e := StepCapture(carts, run, winner);
    assert forall j, d :: ActiveOf(e.carts, j, d) <==> ActiveOf(carts, j, d);
  }

  lemma ReadSane(tenant: string, carts: seq<Cart>, run: Run, o: Oracle)
    requires CartsSane(carts) && RunSane(carts, run) && (o.fault || !CartAssociationSafety.Writing(run))
    ensures var e := StepRun(tenant, carts, run, o);
            e.carts == carts && RunSane(e.carts, e.run)
  {}

  lemma StepSane(tenant: string, carts: seq<Cart>, run: Run, o: Oracle)
    requires CartsSane(carts) && RunSane(carts, run)
    ensures var e := StepRun(tenant, carts, run, o);
            CartsSane(e.carts) && OwnersKept(carts, e.carts) && RunSane(e.carts, e.run)
  {
    if o.fault || !CartAssociationSafety.Writing(run) {
      ReadSane(tenant, carts, run, o);
    } else {
      match run.pc
      case Claim(currency) => ClaimSane(carts, run, currency, o.newToken);
      case Commit(newToken) => CommitSane(carts, run, newToken);
      case TryAbandon(winner) => TryAbandonSane(carts, run, winner);
      case Capture(winner) => CaptureSane(carts, run, winner);
      case Merge(winner, captured) => MergeSane(carts, run, winner, captured, o);
    }
  }

  lemma EditSane(carts: seq<Cart>, id: CartId, edit: Edit)
    requires CartsSane(carts) && id < |carts| && EditItems(carts[id].blob.items, edit).Some?
    requires carts[id].blob.status != Abandoned
    ensures var after := carts[id := Edited(carts[id], edit)]; CartsSane(after) && OwnersKept(carts, after)
  {
    var after := carts[id := Edited(carts[id], edit)];
    CartAssociationSafety.EditShape(carts[id].blob.items, edit);
    assert forall j, d :: ActiveOf(after, j, d) <==> ActiveOf(carts, j, d);
  }

  ghost predicate RunsSane(carts: seq<Cart>, runs: seq<Run>) {
    forall r :: 0 <= r < |runs| ==> RunSane(carts, runs[r])
  }

  lemma RunsStaySane(carts: seq<Cart>, carts': seq<Cart>, runs: seq<Run>)
    requires RunsSane(carts, runs) && OwnersKept(carts, carts')
    ensures RunsSane(carts', runs)
  {}

  lemma AdvanceSane(s: System, r: nat, o: Oracle)
    requires CartsSane(s.carts) && RunsSane(s.carts, s.runs) && r < |s.runs|
    ensures var s' := Next(s, Advance(r, o));
            CartsSane(s'.carts) && OwnersKept(s.carts, s'.carts) && RunsSane(s'.carts, s'.runs)
  {
    var e := StepRun(s.tenant, s.carts, s.runs[r], o);
    StepSane(s.tenant, s.carts, s.runs[r], o);
    RunsStaySane(s.carts, e.carts, s.runs);
  }

  lemma ActionSane(s: System, a: Action)
    requires CartsSane(s.carts) && RunsSane(s.carts, s.runs)
    ensures var s' := Next(s, a);
            CartsSane(s'.carts) && OwnersKept(s.carts, s'.carts) && RunsSane(s'.carts, s'.runs)
  {
    var s' := Next(s, a);
    match a
    case Advance(r, o) => if r < |s.runs| { AdvanceSane(s, r, o); }
    case Create(_, _) =>
      assert forall j, d :: ActiveOf(s'.carts, j, d) <==> ActiveOf(s.carts, j, d);
      RunsStaySane(s.carts, s'.carts, s.runs);
    case Begin(_, _, _) =>
    case Shop(id, _, _, edit, _) =>
      if EditSucceeds(s, a) {
        EditSane(s.carts, id, edit);
        RunsStaySane(s.carts, s'.carts, s.runs);
      }
  }

  lemma OrderSane(carts: seq<Cart>, id: CartId)
    requires CartsSane(carts) && id < |carts|
    ensures var after := carts[id := Ordered(carts[id])]; CartsSane(after) && OwnersKept(carts, after)
  {
    var after := carts[id := Ordered(carts[id])];
    assert forall j, d :: ActiveOf(after, j, d) ==> ActiveOf(carts, j, d);
  }

  lemma WriteBackSane(carts: seq<Cart>, u: Unwritten)
    requires CartsSane(carts) && UnwrittenSane(carts, u)
    ensures CartsSane(WriteBack(carts, u)) && OwnersKept(carts, WriteBack(carts, u))
    ensures forall i :: 0 <= i < |carts| ==> WriteBack(carts, u)[i].pg.owner == carts[i].pg.owner
  {
    var after := WriteBack(carts, u);
    assert forall j, d :: j != u.cart ==> (ActiveOf(after, j, d) <==> ActiveOf(carts, j, d));
    if after != carts {
      forall j, d | j != u.cart && ActiveOf(after, u.cart, d) ensures !ActiveOf(carts, j, d) {
        assert !HasOtherActive(carts, u.cart, d);
      }
    }
  }

  lemma HappenSane(w: World, e: Event)
    requires Sane(w)
    ensures Sane(Happen(w, e)) && OwnersKept(w.sys.carts, Happen(w, e).sys.carts)
  {
    match e
    case Act(a) => ActionSane(w.sys, a);
    case OrderRead(_) =>
    case PlaceOrder(id) =>
      if id in w.checkouts && id < |w.sys.carts| {
        OrderSane(w.sys.carts, id);
        RunsStaySane(w.sys.carts, Happen(w, e).sys.carts, w.sys.runs);
      }
    case FlushRead(_) =>
    case FlushWrite =>
      if w.unwritten.Some? {
        WriteBackSane(w.sys.carts, w.unwritten.value);
        RunsStaySane(w.sys.carts, Happen(w, e).sys.carts, w.sys.runs);
      }
  }

  /**
   * With orders and flushes anywhere between the steps, Redis still shows no owner that Postgres does not, owners
   * never change, and no customer has two active rows.
   */
  lemma {:induction false} SafeAmongOrdersAndFlushes(w: World, events: seq<Event>)
    requires Sane(w)
    ensures Sane(Play(w, events)) && OwnersKept(w.sys.carts, Play(w, events).sys.carts)
  {
    if events != [] {
      SafeAmongOrdersAndFlushes(w, events[..|events| - 1]);
      HappenSane(Play(w, events[..|events| - 1]), events[|events| - 1]);
    }
  }

  lemma SaneLinesOk(w: World)
    requires Sane(w)
    ensures AllLinesOk(w.sys)
  {
    forall r | 0 <= r < |w.sys.runs| ensures LinesOk(w.sys.carts, w.sys.runs[r]) {
      assert RunSane(w.sys.carts, w.sys.runs[r]);
    }
  }

  lemma HappenConserves(w: World, e: Event, v: VariantId)
    requires Sane(w) && Conserved(w.sys, v)
    ensures Conserved(Happen(w, e).sys, v)
  {
    if e.Act? {
      SaneLinesOk(w);
      NextConserves(w.sys, e.action, v);
    } else {
      SameItemsSameUnits(w.sys.carts, Happen(w, e).sys.carts, v);
    }
  }

  /** Nor do orders and flushes disturb the conservation of units. */
  lemma {:induction false} UnitsConservedThroughout(w: World, events: seq<Event>, v: VariantId)
    requires Sane(w) && Conserved(w.sys, v)
    ensures Conserved(Play(w, events).sys, v)
  {
    if events != [] {
      var front, e := events[..|events| - 1], events[|events| - 1];
      UnitsConservedThroughout(w, front, v);
      SafeAmongOrdersAndFlushes(w, front);
      HappenConserves(Play(w, front), e, v);
    }
  }

  // ---------------------------------------------------------------- how one event may change a row

  function RowOf(w: World, g: CartId): PgRow
    requires g < |w.sys.carts|
  {
    w.sys.carts[g].pg
  }

  predicate IsActive(w: World, g: CartId) { g < |w.sys.carts| && RowOf(w, g).status == Active }

  /** Event `e` is a claim of cart `g` that Postgres grants to `c`. */
  predicate IsClaim(w: World, e: Event, g: CartId, c: CustomerId) {
    && e.Act? && e.action.Advance? && e.action.run < |w.sys.runs|
    && var run := w.sys.runs[e.action.run];
       run.cart == g && run.customer.id == c && run.pc.Claim? && Happen(w, e).sys.runs[e.action.run].pc.Commit?
  }

  /** Event `e` is a merge gate that abandons the row of cart `g`. */
  predicate IsAbandon(w: World, e: Event, g: CartId) {
    && e.Act? && e.action.Advance? && e.action.run < |w.sys.runs|
    && var run := w.sys.runs[e.action.run];
       run.cart == g && run.pc.TryAbandon? && Happen(w, e).sys.runs[e.action.run].pc.Capture?
  }

  /** Event `e` converts the row of cart `g` into an order. */
  predicate IsOrder(w: World, e: Event, g: CartId) { e == PlaceOrder(g) && g in w.checkouts && IsActive(w, g) }

  /** Event `e` is a flush that writes the row of cart `g`; the unique index may refuse it. */
  predicate IsWrite(w: World, e: Event, g: CartId) {
    && e.FlushWrite? && w.unwritten.Some? && w.unwritten.value.cart == g && g < |w.sys.carts|
    && !BreaksIndex(w.sys.carts, g, Upserted(RowOf(w, g), w.unwritten.value.blob))
  }

  /** A flush that makes an ended row active again, with a blob read while that was active. */
  predicate IsReopening(w: World, e: Event, g: CartId) {
    IsWrite(w, e, g) && w.unwritten.value.blob.status == Active && !IsActive(w, g)
  }

  /** A flush that ends an active row, with a blob read after a capture. */
  predicate IsWriteOff(w: World, e: Event, g: CartId) {
    IsWrite(w, e, g) && w.unwritten.value.blob.status != Active && IsActive(w, g)
  }

  predicate IsEnding(w: World, e: Event, g: CartId) { IsOrder(w, e, g) || IsAbandon(w, e, g) || IsWriteOff(w, e, g) }

  /** What one step of a call may do to a row. */
  lemma StepRows(tenant: string, carts: seq<Cart>, run: Run, o: Oracle, g: CartId)
    requires g < |carts|
    ensures var e := StepRun(tenant, carts, run, o);
            var claimed := run.cart == g && run.pc.Claim? && e.run.pc.Commit?;
            var abandoned := run.cart == g && run.pc.TryAbandon? && e.run.pc.Capture?;
            && |e.carts| == |carts| && (claimed || abandoned ==> carts[g].pg.status == Active)
            && e.carts[g].pg.status == (if abandoned then Abandoned else carts[g].pg.status)
            && e.carts[g].pg.owner == (if claimed then Some(run.customer.id) else carts[g].pg.owner)
  {}

  lemma WriteRows(carts: seq<Cart>, u: Unwritten, g: CartId)
    requires CartsSane(carts) && UnwrittenSane(carts, u) && g < |carts|
    ensures var after := WriteBack(carts, u); var row := Upserted(carts[g].pg, u.blob);
            && |after| == |carts| && after[g].pg.owner == carts[g].pg.owner
            && after[g].pg.status
               == (if u.cart == g && !BreaksIndex(carts, g, row) then u.blob.status else carts[g].pg.status)
  {
    WriteBackSane(carts, u);
  }

  /** Rows change by claims, orders, abandons and flush writes, and by nothing else. */
  lemma HappenRows(w: World, e: Event, g: CartId)
    requires Sane(w) && g < |w.sys.carts|
    ensures var w' := Happen(w, e);
            && g < |w'.sys.carts|
            && RowOf(w', g).status == (if IsOrder(w, e, g) then Converted
                                       else if IsAbandon(w, e, g) then Abandoned
                                       else if IsWrite(w, e, g) then w.unwritten.value.blob.status
                                       else RowOf(w, g).status)
            && (IsAbandon(w, e, g) ==> IsActive(w, g))
            && (forall c: CustomerId :: IsClaim(w, e, g, c) ==> IsActive(w, g) && RowOf(w', g).owner == Some(c))
            && (RowOf(w', g).owner == RowOf(w, g).owner || exists c: CustomerId :: IsClaim(w, e, g, c))
  {
    match e
    case Act(a) =>
      if a.Advance? && a.run < |w.sys.runs| {
        var run := w.sys.runs[a.run];
        StepRows(w.sys.tenant, w.sys.carts, run, a.oracle, g);
        if RowOf(Happen(w, e), g).owner != RowOf(w, g).owner { assert IsClaim(w, e, g, run.customer.id); }
      }
    case OrderRead(_) =>
    case PlaceOrder(_) =>
    case FlushRead(_) =>
    case FlushWrite => if w.unwritten.Some? { WriteRows(w.sys.carts, w.unwritten.value, g); }
  }

  /** A row is active unless the event ends it, or because the event reopens it. */
  lemma HappenActive(w: World, e: Event, g: CartId)
    requires Sane(w) && g < |w.sys.carts|
    ensures IsActive(Happen(w, e), g) <==> !IsEnding(w, e, g) && (IsActive(w, g) || IsReopening(w, e, g))
  {
    HappenRows(w, e, g);
  }

  /** An event creates at most one cart, with an active row. */
  lemma HappenNewRow(w: World, e: Event, g: CartId)
    requires g >= |w.sys.carts|
    ensures g < |Happen(w, e).sys.carts| ==> IsActive(Happen(w, e), g)
    ensures !IsEnding(w, e, g) && !IsReopening(w, e, g)
  {
    if e.Act? && e.action.Advance? && e.action.run < |w.sys.runs| {
      StepCount(w.sys.tenant, w.sys.carts, w.sys.runs[e.action.run], e.action.oracle);
    }
  }

  lemma StepCount(tenant: string, carts: seq<Cart>, run: Run, o: Oracle)
    ensures var e := StepRun(tenant, carts, run, o);
            |e.carts| == |carts| && (run.pc.TryAbandon? && e.run.pc.Capture? ==> run.cart < |carts|)
  {}
}
