/**
 * `associateCustomer` in the source's own form: a cart state object the callbacks assign to, a reservation loop, and
 * early returns (`apps/api/src/cart/cart-associate.service.ts`).  `AssociateCustomer` is proved to be one call of the
 * protocol in `CartAssociation` running alone.
 */
module CartAssociateService {
  import opened Wrappers
  import opened CartLines
  import CartMerge
  import opened CartAuthorise
  import opened CartAssociation
  import CartAssociationTheorems

  /** `CartState`: the revived blob a `mutate` callback works on. */
  class CartState {
    const tenantId: string
    const currency: string
    var customerId: Option<CustomerId>
    var sessionToken: string
    var status: Status
    var items: seq<Line>

    function View(): Blob
      reads this
    {
      Blob(tenantId, customerId, sessionToken, currency, status, items)
    }

    constructor Revive(blob: Blob)
      ensures View() == blob
    {
      tenantId, currency := blob.tenantId, blob.currency;
      customerId, sessionToken, status, items := blob.owner, blob.token, blob.status, blob.items;
    }

    /** The adoption callback, after its authorisation guard. */
    method Adopt(c: CustomerId, newToken: string)
      modifies this
      ensures View() == CommitBlob(old(View()), c, newToken)
    {
      if customerId == Some(c) { return; }
      customerId := Some(c);
      sessionToken := newToken;
    }

    /** The capture callback, after its stranger guard. */
    method Capture() returns (captured: seq<Line>)
      modifies this
      ensures captured == old(items) && View() == CaptureBlob(old(View()))
    {
      captured := items;
      status := Abandoned;
      items := [];
    }

    /** The merge callback, after its guard: merge, reserve line by line, keep what was granted. */
    method TakeItems(captured: seq<Line>, stock: map<VariantId, Supply>, now: int) returns (reserved: bool)
      modifies this
      ensures var granted := ReserveAll(MergedLines(captured, old(View()), now), stock);
              && reserved == granted.Some?
              && View() == if reserved then old(View()).(items := granted.value) else old(View())
    {
      var mergedItems := CartMerge.MergeCartItems(captured, items, map[], now);
      var survivors: seq<Line> := [];
      for n := 0 to |mergedItems|
        invariant ReserveAll(mergedItems[..n], stock) == Some(survivors)
        invariant View() == old(View())
      {
        assert mergedItems[..n + 1][..n] == mergedItems[..n];
        var line := mergedItems[n];
        var got := Reserve(stock, line.variantId, line.quantity);
        if got.None? {
          MissingStaysMissing(mergedItems, n + 1, stock);
          return false;
        }
        if got.value > 0 {
          survivors := survivors + [line.(quantity := got.value)];
        }
      }
      assert mergedItems[..|mergedItems|] == mergedItems;
      items := survivors;
      reserved := true;
    }
  }

  lemma {:induction false} MissingStaysMissing(lines: seq<Line>, n: nat, stock: map<VariantId, Supply>)
    requires n <= |lines| && ReserveAll(lines[..n], stock).None?
    ensures ReserveAll(lines, stock).None?
    decreases |lines| - n
  {
    if n == |lines| {
      assert lines[..n] == lines;
    } else {
      assert lines[..n + 1][..n] == lines[..n];
      MissingStaysMissing(lines, n + 1, stock);
    }
  }

  // ---------------------------------------------------------------- one call of the protocol, undisturbed

  /** The oracle of a step when `calm` more steps go well before one throws. */
  function StepOracle(o: Oracle, calm: nat): Oracle { o.(fault := calm == 0) }

  function Fewer(calm: nat): nat { if calm == 0 then 0 else calm - 1 }

  /**
   * Runs a call to its end with no other step in between; the await after `calm` steps throws.  From seven on
   * nothing throws.
   */
  function Alone(tenant: string, carts: seq<Cart>, run: Run, o: Oracle, calm: nat): Effect
    decreases CartAssociationTheorems.Rank(run.pc)
  {
    if Finished(run) then Effect(carts, run, [])
    else
      var e := StepRun(tenant, carts, run, StepOracle(o, calm));
      RankFalls(tenant, carts, run, StepOracle(o, calm));
      Alone(tenant, e.carts, e.run, o, Fewer(calm))
  }

  lemma RankFalls(tenant: string, carts: seq<Cart>, run: Run, o: Oracle)
    requires !Finished(run)
    ensures CartAssociationTheorems.Rank(StepRun(tenant, carts, run, o).run.pc) < CartAssociationTheorems.Rank(run.pc)
  {}

  /** The first `n` steps of call `r`. */
  function OwnSteps(r: nat, o: Oracle, calm: nat, n: nat): seq<Action> {
    if n == 0 then [] else [Advance(r, StepOracle(o, calm))] + OwnSteps(r, o, Fewer(calm), n - 1)
  }

  /** How many steps the call takes when it runs alone: never more than its rank, seven from the start. */
  function StepsAlone(tenant: string, carts: seq<Cart>, run: Run, o: Oracle, calm: nat): (n: nat)
    ensures n <= CartAssociationTheorems.Rank(run.pc)
    decreases CartAssociationTheorems.Rank(run.pc)
  {
    if Finished(run) then 0
    else
      var e := StepRun(tenant, carts, run, StepOracle(o, calm));
      RankFalls(tenant, carts, run, StepOracle(o, calm));
      1 + StepsAlone(tenant, e.carts, e.run, o, Fewer(calm))
  }

  /** Running alone is one of the protocol's schedules: the call's own steps and nothing else. */
  lemma {:induction false} AloneIsASchedule(s: System, r: nat, o: Oracle, calm: nat)
    requires r < |s.runs|
    ensures var e := Alone(s.tenant, s.carts, s.runs[r], o, calm);
            var s' := Exec(s, OwnSteps(r, o, calm, StepsAlone(s.tenant, s.carts, s.runs[r], o, calm)));
            s'.carts == e.carts && s'.runs == s.runs[r := e.run]
    decreases CartAssociationTheorems.Rank(s.runs[r].pc)
  {
    var run := s.runs[r];
    if !Finished(run) {
      var a := Advance(r, StepOracle(o, calm));
      var e := StepRun(s.tenant, s.carts, run, a.oracle);
      OneStep(s, r, a.oracle);
      RankFalls(s.tenant, s.carts, run, a.oracle);
      AloneIsASchedule(Next(s, a), r, o, Fewer(calm));
      var n := StepsAlone(s.tenant, e.carts, e.run, o, Fewer(calm));
      var rest := OwnSteps(r, o, Fewer(calm), n);
      assert OwnSteps(r, o, calm, n + 1) == [a] + rest;
      ExecConcat(s, [a], rest);
    }
  }

  lemma OneStep(s: System, r: nat, o: Oracle)
    requires r < |s.runs|
    ensures var e := StepRun(s.tenant, s.carts, s.runs[r], o); var s1 := Next(s, Advance(r, o));
            s1.tenant == s.tenant && s1.carts == e.carts && s1.runs == s.runs[r := e.run] && s1.runs[r] == e.run
    ensures Exec(s, [Advance(r, o)]) == Next(s, Advance(r, o))
  {
    assert [Advance(r, o)][..0] == [];
  }

  datatype Result = Ok(value: Success) | Err(error: Error)

  function Ending(r: Result): Pc {
    match r case Ok(v) => Returned(v) case Err(e) => Failed(e)
  }

  /** The two stores, reduced to the operations the association uses. */
  class Service {
    const tenant: string
    var carts: seq<Cart>

    constructor (tenant: string, carts: seq<Cart>)
      ensures this.tenant == tenant && this.carts == carts
    {
      this.tenant, this.carts := tenant, carts;
    }

    /** How a method ended a call that stood at `run`. */
    ghost predicate Ends(before: seq<Cart>, run: Run, o: Oracle, calm: nat, r: Result)
      reads this
    {
      var e := Alone(tenant, before, run, o, calm);
      e.carts == carts && e.run.pc == Ending(r)
    }

    method FindById(id: CartId) returns (state: CartState?)
      ensures state == null <==> Read(carts, id).None?
      ensures state != null ==> fresh(state) && Read(carts, id) == Some(state.View())
    {
      if id < |carts| { state := new CartState.Revive(carts[id].blob); } else { state := null; }
    }

    method Save(id: CartId, state: CartState)
      requires id < |carts|
      modifies this
      ensures carts == old(carts)[id := old(carts[id]).(blob := state.View())]
    {
      carts := carts[id := carts[id].(blob := state.View())];
    }

    method ClaimInPostgres(id: CartId, c: CustomerId, newToken: string) returns (r: ClaimResult)
      modifies this
      ensures r == ClaimCustomer(old(carts), id, c)
      ensures carts == if r == Claimed
                       then old(carts)[id := old(carts[id]).(pg := PgRow(old(carts[id].pg.status), Some(c), newToken))]
                       else old(carts)
    {
      r := ClaimCustomer(carts, id, c);
      if r == Claimed {
        carts := carts[id := carts[id].(pg := carts[id].pg.(owner := Some(c), token := newToken))];
      }
    }

    method TryAbandonOwnGuestCart(id: CartId, c: CustomerId) returns (abandoned: bool)
      modifies this
      ensures abandoned == (id < |old(carts)| && UnownedOrMine(old(carts)[id].pg, c))
      ensures carts == if abandoned
                       then old(carts)[id := old(carts[id]).(pg := old(carts[id].pg).(status := Abandoned))]
                       else old(carts)
    {
      abandoned := id < |carts| && UnownedOrMine(carts[id].pg, c);
      if abandoned {
        carts := carts[id := carts[id].(pg := carts[id].pg.(status := Abandoned))];
      }
    }

    /** Each store operation is awaited in the method that starts with the throw it may end in. */
    method AssociateCustomer(cartId: CartId, cartToken: Option<string>, customer: Customer, o: Oracle, calm: nat)
        returns (r: Result)
      modifies this
      ensures Ends(old(carts), Run(cartId, cartToken, customer, Start), o, calm, r)
    {
      if customer.tenantId != tenant { return Err(Forbidden); }
      if calm == 0 { return Err(Fault); }
      var guest := FindById(cartId);
      var refused := Authorise(if guest == null then None else Some(guest.View()), cartToken, None);
      if refused.Some? { return Err(refused.value); }
      if guest.customerId.Some? && guest.customerId.value != customer.id { return Err(Forbidden); }
      if guest.customerId == Some(customer.id) { return Ok(AlreadyMine); }
      r := ClaimOrMerge(cartId, cartToken, customer, guest.currency, o, Fewer(calm));
    }

    method ClaimOrMerge(cartId: CartId, cartToken: Option<string>, customer: Customer, currency: string, o: Oracle,
        calm: nat) returns (r: Result)
      modifies this
      ensures Ends(old(carts), Run(cartId, cartToken, customer, Claim(currency)), o, calm, r)
    {
      if calm == 0 { return Err(Fault); }
      var newToken := o.newToken;
      var claim := ClaimInPostgres(cartId, customer.id, newToken);
      if claim == Claimed {
        r := CommitOwnership(cartId, cartToken, customer, newToken, o, Fewer(calm));
      } else if claim == NoRow {
        r := ExplainBlocked(cartId, cartToken, customer, o, Fewer(calm));
      } else {
        r := MergeIntoOther(cartId, cartToken, customer, currency, o, Fewer(calm));
      }
    }

    method CommitOwnership(cartId: CartId, cartToken: Option<string>, customer: Customer, newToken: string, o: Oracle,
        calm: nat) returns (r: Result)
      modifies this
      ensures Ends(old(carts), Run(cartId, cartToken, customer, Commit(newToken)), o, calm, r)
    {
      if calm == 0 { return Err(Fault); }
      var state := FindById(cartId);
      var refused := Authorise(if state == null then None else Some(state.View()), cartToken, None);
      if refused.Some? { return Err(refused.value); }
      state.Adopt(customer.id, newToken);
      Save(cartId, state);
      return Ok(Adopted);
    }

    method ExplainBlocked(cartId: CartId, cartToken: Option<string>, customer: Customer, o: Oracle, calm: nat)
        returns (r: Result)
      ensures Ends(carts, Run(cartId, cartToken, customer, ReadAfterBlocked), o, calm, r)
    {
      if calm == 0 { return Err(Fault); }
      var latest := FindById(cartId);
      if latest != null && latest.customerId.Some? && latest.customerId.value != customer.id { return Err(Forbidden); }
      if latest != null && latest.customerId == Some(customer.id) { return Ok(RacedToOurs); }
      return Err(Conflict);
    }

    method MergeIntoOther(cartId: CartId, cartToken: Option<string>, customer: Customer, currency: string, o: Oracle,
        calm: nat) returns (r: Result)
      modifies this
      ensures Ends(old(carts), Run(cartId, cartToken, customer, FindWinner(currency)), o, calm, r)
    {
      if calm == 0 { return Err(Fault); }
      var found := FindActive(carts, customer.id, 0);
      if found.None? || found.value == cartId { return Err(Conflict); }
      r := CheckWinner(cartId, cartToken, customer, currency, found.value, o, Fewer(calm));
    }

    method CheckWinner(cartId: CartId, cartToken: Option<string>, customer: Customer, currency: string,
        winnerId: CartId, o: Oracle, calm: nat) returns (r: Result)
      modifies this
      ensures var run := Run(cartId, cartToken, customer, CartAssociation.CheckWinner(currency, winnerId));
              Ends(old(carts), run, o, calm, r)
    {
      if calm == 0 { return Err(Fault); }
      var winnerCheck := FindById(winnerId);
      if winnerCheck == null || winnerCheck.status != Active { return Err(Conflict); }
      if currency != winnerCheck.currency { return Err(CurrencyMismatch); }
      r := AbandonCaptureMerge(cartId, cartToken, customer, winnerId, o, Fewer(calm));
    }

    method AbandonCaptureMerge(cartId: CartId, cartToken: Option<string>, customer: Customer, winnerId: CartId,
        o: Oracle, calm: nat) returns (r: Result)
      modifies this
      ensures Ends(old(carts), Run(cartId, cartToken, customer, TryAbandon(winnerId)), o, calm, r)
    {
      if calm == 0 { return Err(Fault); }
      var abandoned := TryAbandonOwnGuestCart(cartId, customer.id);
      if abandoned {
        r := CaptureAndMerge(cartId, cartToken, customer, winnerId, o, Fewer(calm));
      } else {
        r := ExplainRefused(cartId, cartToken, customer, o, Fewer(calm));
      }
    }

    method ExplainRefused(cartId: CartId, cartToken: Option<string>, customer: Customer, o: Oracle, calm: nat)
        returns (r: Result)
      ensures Ends(carts, Run(cartId, cartToken, customer, ReadAfterRefused), o, calm, r)
    {
      if calm == 0 { return Err(Fault); }
      var latest := FindById(cartId);
      if latest != null && latest.customerId.Some? && latest.customerId.value != customer.id { return Err(Forbidden); }
      return Err(Conflict);
    }

    method CaptureAndMerge(cartId: CartId, cartToken: Option<string>, customer: Customer, winnerId: CartId, o: Oracle,
        calm: nat) returns (r: Result)
      modifies this
      ensures Ends(old(carts), Run(cartId, cartToken, customer, CartAssociation.Capture(winnerId)), o, calm, r)
    {
      if calm == 0 { return Err(Fault); }
      var captured: seq<Line> := [];
      var state := FindById(cartId);
      if state != null {
        if state.customerId.Some? && state.customerId.value != customer.id { return Err(Forbidden); }
        captured := state.Capture();
        Save(cartId, state);
      }
      r := MergeCaptured(cartId, cartToken, customer, winnerId, captured, o, Fewer(calm));
    }

    method MergeCaptured(cartId: CartId, cartToken: Option<string>, customer: Customer, winnerId: CartId,
        captured: seq<Line>, o: Oracle, calm: nat) returns (r: Result)
      modifies this
      ensures Ends(old(carts), Run(cartId, cartToken, customer, Merge(winnerId, captured)), o, calm, r)
    {
      if calm == 0 { return Err(Fault); }
      var winner := FindById(winnerId);
      if winner == null || winner.status != Active || winner.customerId != Some(customer.id) { return Err(Conflict); }
      var reserved := winner.TakeItems(captured, o.stock, o.now);
      if !reserved { return Err(VariantMissing); }
      Save(winnerId, winner);
      return Ok(MergedInto(winnerId));
    }
  }
}
