/** Orders and flushes by their history: what is outstanding, what they touch, and when the unique index stops one. */
module CartAssociationOutsideHistory {
  import opened Wrappers
  import opened CartAuthorise
  import opened CartAssociation
  import opened CartAssociationOutside
  import opened CartAssociationOutsideTheorems

  /** Event `e` is an order placement that reads cart `g` and finds something in it. */
  predicate IsFullRead(w: World, e: Event, g: CartId) {
    e == OrderRead(g) && g < |w.sys.carts| && w.sys.carts[g].blob.items != []
  }

  /** Event `e` is an order placement that enters its transaction, whether or not the row of `g` is still active. */
  predicate IsPlacing(w: World, e: Event, g: CartId) { e == PlaceOrder(g) && g in w.checkouts }

  /** Order placements that read lines in `g`, less those that have entered their transaction. */
  function Outstanding(w: World, events: seq<Event>, g: CartId): int {
    if events == [] then 0
    else
      var front, e := events[..|events| - 1], events[|events| - 1];
      var before := Play(w, front);
      Outstanding(w, front, g) + One(IsFullRead(before, e, g)) - One(IsPlacing(before, e, g))
  }

  lemma CheckoutsStep(w: World, e: Event, g: CartId)
    requires forall d :: d in w.checkouts ==> d < |w.sys.carts|
    ensures Happen(w, e).checkouts[g] == w.checkouts[g] + One(IsFullRead(w, e, g)) - One(IsPlacing(w, e, g))
    ensures |Happen(w, e).sys.carts| >= |w.sys.carts|
    ensures forall d :: d in Happen(w, e).checkouts ==> d in w.checkouts || IsFullRead(w, e, d)
  {
    match e
    case Act(a) => StepCounts(w.sys, a);
    case FlushWrite =>
    case _ =>
  }

  lemma StepCounts(s: System, a: Action)
    ensures |Next(s, a).carts| >= |s.carts|
  {
    if a.Advance? && a.run < |s.runs| { StepCount(s.tenant, s.carts, s.runs[a.run], a.oracle); }
  }

  /** The checkouts under way are the order placements that found lines and have not entered their transaction. */
  lemma {:induction false} CheckoutsAreExact(w: World, events: seq<Event>, g: CartId)
    requires Fresh(w)
    ensures Play(w, events).checkouts[g] == Outstanding(w, events, g)
    ensures forall d :: d in Play(w, events).checkouts ==> d < |Play(w, events).sys.carts|
  {
    if events != [] {
      CheckoutsAreExact(w, events[..|events| - 1], g);
      CheckoutsStep(Play(w, events[..|events| - 1]), events[|events| - 1], g);
    }
  }

  /** An order or a flush write touches the status and owner of one row and nothing else in either store. */
  lemma OnlyARowChanges(w: World, e: Event, i: CartId)
    requires Sane(w) && !e.Act? && i < |w.sys.carts|
    ensures var s, s' := w.sys, Happen(w, e).sys;
            && s'.runs == s.runs && s'.log == s.log && s'.dropped == s.dropped && |s'.carts| == |s.carts|
            && s'.carts[i].blob == s.carts[i].blob && s'.carts[i].pg.token == s.carts[i].pg.token
            && (s'.carts[i].pg != s.carts[i].pg ==> IsOrder(w, e, i) || IsWrite(w, e, i))
  {}

  lemma OwnedRowsOf(carts: seq<Cart>, id: CartId, row: PgRow)
    requires id < |carts|
    ensures var after := carts[id := carts[id].(pg := row)];
            forall i, c :: i != id ==> (ActiveOf(after, i, c) <==> ActiveOf(carts, i, c))
  {}

  /** The unique index stops a flush write exactly when that would leave some customer with two active rows. */
  lemma FlushIsStoppedExactly(carts: seq<Cart>, u: Unwritten)
    requires CartsSane(carts) && u.cart < |carts|
    ensures var row := Upserted(carts[u.cart].pg, u.blob); var after := carts[u.cart := carts[u.cart].(pg := row)];
            WriteBack(carts, u) == if OneActiveRow(after) then after else carts
  {
    var g, row := u.cart, Upserted(carts[u.cart].pg, u.blob);
    var after := carts[g := carts[g].(pg := row)];
    OwnedRowsOf(carts, g, row);
    if BreaksIndex(carts, g, row) {
      var j :| 0 <= j < |carts| && j != g && carts[j].pg.status == Active && carts[j].pg.owner == row.owner;
      assert ActiveOf(after, j, row.owner.value) && ActiveOf(after, g, row.owner.value);
    } else {
      forall j, c | j != g && ActiveOf(after, g, c) ensures !ActiveOf(carts, j, c) {
        assert !HasOtherActive(carts, g, c);
      }
    }
  }

  /** It stops a claim of an active row that is unowned or the customer's own exactly when that would. */
  lemma ClaimIsStoppedExactly(carts: seq<Cart>, g: CartId, c: CustomerId)
    requires CartsSane(carts)
    ensures ClaimCustomer(carts, g, c)
            == if g >= |carts| || carts[g].pg.status != Active then NoRow
               else if carts[g].pg.owner.Some? && carts[g].pg.owner.value != c then NoRow
               else if OneActiveRow(carts[g := carts[g].(pg := carts[g].pg.(owner := Some(c)))]) then Claimed
               else UniqueViolation
  {
    if g < |carts| && UnownedOrMine(carts[g].pg, c) {
      var after := carts[g := carts[g].(pg := carts[g].pg.(owner := Some(c)))];
      OwnedRowsOf(carts, g, carts[g].pg.(owner := Some(c)));
      assert ActiveOf(after, g, c);
      if HasOtherActive(carts, g, c) {
        var j :| 0 <= j < |carts| && j != g && carts[j].pg.status == Active && carts[j].pg.owner == Some(c);
        assert ActiveOf(after, j, c);
      } else {
        forall j | j != g ensures !ActiveOf(carts, j, c) {}
      }
    }
  }
}
