/** One call of `associateCustomer` with nobody in between: what it answers and what it leaves in both stores. */
module CartAssociationAlone {
  import opened Wrappers
  import opened CartLines
  import CartMerge
  import opened CartAuthorise
  import opened CartAssociation
  import opened CartAssociationSafety
  import opened CartAssociationTheorems
  import opened CartAssociationSteps
  import opened CartAssociationMergedCart
  import opened CartAssociateService

  // ---------------------------------------------------------------- the outcomes, from the stores before the call

  /** The cart handed over, in both stores. */
  function HandedOver(cart: Cart, c: CustomerId, token: string): Cart {
    Cart(PgRow(Active, Some(c), token), cart.blob.(owner := Some(c), token := token))
  }

  /** The guest cart given up, in both stores. */
  function GivenUp(cart: Cart): Cart {
    Cart(PgRow(Abandoned, None, cart.pg.token), cart.blob.(status := Abandoned, items := []))
  }

  // ---------------------------------------------------------------- one step at a time

  lemma AloneStep(tenant: string, carts: seq<Cart>, run: Run, o: Oracle, calm: nat)
    requires !Finished(run) && calm > 0
    ensures var e := StepRun(tenant, carts, run, o.(fault := false));
            Alone(tenant, carts, run, o, calm) == Alone(tenant, e.carts, e.run, o, calm - 1)
  {}

  /** The rest of a call whose next step finishes it. */
  lemma AloneLastStep(tenant: string, carts: seq<Cart>, run: Run, o: Oracle, calm: nat)
    requires !Finished(run) && calm > 0
    ensures var e := StepRun(tenant, carts, run, o.(fault := false)); var all := Alone(tenant, carts, run, o, calm);
            Finished(e.run) ==> all.carts == e.carts && all.run == e.run
  {
    AloneStep(tenant, carts, run, o, calm);
  }

  lemma StartsUnowned(tenant: string, carts: seq<Cart>, call: Run, o: Oracle, calm: nat)
    requires GoodStart(carts, call) && call.pc == Start && calm >= 7
    requires !TurnedAway(tenant, carts, call) && carts[call.cart].blob.owner.None?
    ensures var run := call.(pc := Claim(carts[call.cart].blob.currency));
            Alone(tenant, carts, call, o, calm) == Alone(tenant, carts, run, o, calm - 1)
  {
    AloneStep(tenant, carts, call, o, calm);
  }

  lemma Blocked(tenant: string, carts: seq<Cart>, run: Run, o: Oracle, calm: nat)
    requires GoodStart(carts, run) && run.pc.Claim? && calm >= 6
    requires run.cart < |carts| && carts[run.cart].blob.owner.None?
    requires TakenInPostgres(carts[run.cart], run.customer.id)
    ensures var e := Alone(tenant, carts, run, o, calm); e.carts == carts && e.run.pc == Failed(Conflict)
  {
    AloneStep(tenant, carts, run, o, calm);
    AloneLastStep(tenant, carts, run.(pc := ReadAfterBlocked), o, calm - 1);
  }

  lemma Adopts(tenant: string, carts: seq<Cart>, run: Run, o: Oracle, calm: nat)
    requires GoodStart(carts, run) && run.pc.Claim? && calm >= 6
    requires run.cart < |carts| && carts[run.cart].blob.owner.None? && Live(Read(carts, run.cart))
    requires HoldsToken(carts[run.cart].blob, run.token)
    requires !TakenInPostgres(carts[run.cart], run.customer.id)
    requires forall w :: w != run.cart ==> !Owns(carts, w, run.customer.id)
    ensures var e := Alone(tenant, carts, run, o, calm); var g, c := run.cart, run.customer.id;
            e.carts == carts[g := HandedOver(carts[g], c, o.newToken)] && e.run.pc == Returned(Adopted)
  {
    var e := StepRun(tenant, carts, run, o.(fault := false));
    assert !HasOtherActive(carts, run.cart, run.customer.id) by {
      forall j | 0 <= j < |carts| && j != run.cart ensures carts[j].pg.owner != Some(run.customer.id) {
        assert !Owns(carts, j, run.customer.id);
      }
    }
    AloneStep(tenant, carts, run, o, calm);
    AloneLastStep(tenant, e.carts, e.run, o, calm - 1);
  }

  /** Where the unique index leads: to the customer's one other cart, with the currencies already compared. */
  lemma MeetsWinner(tenant: string, carts: seq<Cart>, run: Run, o: Oracle, calm: nat, w: CartId)
    requires GoodStart(carts, run) && run.pc.Claim? && calm >= 6
    requires run.cart < |carts| && carts[run.cart].blob.owner.None?
    requires !TakenInPostgres(carts[run.cart], run.customer.id)
    requires Owns(carts, w, run.customer.id) && w != run.cart
    ensures Alone(tenant, carts, run, o, calm)
            == Alone(tenant, carts, run.(pc := CheckWinner(run.pc.currency, w)), o, calm - 2)
  {
    assert HasOtherActive(carts, run.cart, run.customer.id) by {
      assert carts[w].pg.status == Active && carts[w].pg.owner == Some(run.customer.id);
    }
    AloneStep(tenant, carts, run, o, calm);
    var found := FindActive(carts, run.customer.id, 0);
    assert found.Some? ==> Owns(carts, found.value, run.customer.id);
    AloneStep(tenant, carts, run.(pc := FindWinner(run.pc.currency)), o, calm - 1);
  }

  lemma WrongCurrency(tenant: string, carts: seq<Cart>, run: Run, o: Oracle, calm: nat, w: CartId)
    requires GoodStart(carts, run) && calm >= 4 && w < |carts|
    requires run.pc.CheckWinner? && run.pc.winner == w && carts[w].blob.currency != run.pc.currency
    ensures var e := Alone(tenant, carts, run, o, calm); e.carts == carts && e.run.pc == Failed(CurrencyMismatch)
  {
    AloneLastStep(tenant, carts, run, o, calm);
  }

  /** The gate ends the guest cart in Postgres. */
  lemma PassesGate(tenant: string, carts: seq<Cart>, run: Run, o: Oracle, calm: nat, w: CartId)
    requires GoodStart(carts, run) && calm >= 1 && run.pc == TryAbandon(w)
    requires run.cart < |carts| && carts[run.cart].blob.owner.None?
    requires !TakenInPostgres(carts[run.cart], run.customer.id)
    ensures var g := run.cart; var ended := carts[g := carts[g].(pg := carts[g].pg.(status := Abandoned))];
            && GoodStart(ended, run.(pc := Capture(w))) && carts[g].pg.owner.None?
            && Alone(tenant, carts, run, o, calm) == Alone(tenant, ended, run.(pc := Capture(w)), o, calm - 1)
  {
    assert !Owns(carts, run.cart, run.customer.id);
    AloneStep(tenant, carts, run, o, calm);
    TryAbandonKeeps(carts, run, w);
  }

  /** The capture ends it in Redis. */
  lemma Captures(tenant: string, carts: seq<Cart>, run: Run, o: Oracle, calm: nat, w: CartId)
    requires GoodStart(carts, run) && calm >= 1 && run.pc == Capture(w)
    ensures var g := run.cart;
            && g < |carts|
            && var emptied := carts[g := carts[g].(blob := carts[g].blob.(status := Abandoned, items := []))];
               var run' := run.(pc := Merge(w, carts[g].blob.items));
               && GoodStart(emptied, run')
               && Alone(tenant, carts, run, o, calm) == Alone(tenant, emptied, run', o, calm - 1)
  {
    AloneStep(tenant, carts, run, o, calm);
    CaptureKeeps(carts, run, w);
  }

  /** The guest cart is given up in both stores before the winner is looked at again. */
  lemma GivesUpGuest(tenant: string, carts: seq<Cart>, run: Run, o: Oracle, calm: nat, w: CartId)
    requires GoodStart(carts, run) && calm >= 4
    requires run.pc.CheckWinner? && run.pc.winner == w && carts[w].blob.currency == run.pc.currency
    requires run.cart < |carts| && carts[run.cart].blob.owner.None?
    requires !TakenInPostgres(carts[run.cart], run.customer.id)
    ensures var g := run.cart; var carts' := carts[g := GivenUp(carts[g])];
            var run' := run.(pc := Merge(w, carts[g].blob.items));
            && GoodStart(carts', run')
            && Alone(tenant, carts, run, o, calm) == Alone(tenant, carts', run', o, calm - 3)
  {
    var g := run.cart;
    AloneStep(tenant, carts, run, o, calm);
    PassesGate(tenant, carts, run.(pc := TryAbandon(w)), o, calm - 1, w);
    var ended := carts[g := carts[g].(pg := carts[g].pg.(status := Abandoned))];
    Captures(tenant, ended, run.(pc := Capture(w)), o, calm - 2, w);
    assert ended[g := ended[g].(blob := carts[g].blob.(status := Abandoned, items := []))]
           == carts[g := GivenUp(carts[g])];
  }

  /** The merge step of a call alone: all or nothing, by the winner's owner in Redis and by what is on sale. */
  lemma MergesAlone(tenant: string, carts: seq<Cart>, run: Run, o: Oracle, calm: nat, w: CartId, captured: seq<Line>,
      v: VariantId)
    requires GoodStart(carts, run) && calm >= 1 && run.pc == Merge(w, captured)
    ensures w < |carts|
    ensures var e := Alone(tenant, carts, run, o, calm);
            && e.run.pc == MergeAnswer(captured, w, carts[w].blob, o.stock)
            && if e.run.pc.Returned? then MergedCart(e.carts, carts, w, captured, o.stock, o.now, v)
               else e.carts == carts
  {
    AloneLastStep(tenant, carts, run, o, calm);
    MergeStepOutcome(carts, run, o.(fault := false), w, captured, v);
    NextIsMerge(tenant, carts, run, o.(fault := false));
  }

  lemma NextIsMerge(tenant: string, carts: seq<Cart>, run: Run, o: Oracle)
    requires run.pc.Merge? && !o.fault
    ensures StepRun(tenant, carts, run, o) == StepMerge(carts, run, run.pc.winner, run.pc.captured, o)
  {}

  // ---------------------------------------------------------------- the whole table

  /** How a call alone ends when its customer has the other cart `w`. */
  predicate EndsMerging(carts: seq<Cart>, g: CartId, w: CartId, e: Effect, stock: map<VariantId, Supply>, now: int,
      v: VariantId)
    requires g < |carts| && w < |carts|
  {
    var guest, winner := carts[g].blob, carts[w].blob;
    if guest.currency != winner.currency then e.carts == carts && e.run.pc == Failed(CurrencyMismatch)
    else
      var given := carts[g := GivenUp(carts[g])];
      && e.run.pc == MergeAnswer(guest.items, w, winner, stock)
      && if e.run.pc.Returned? then MergedCart(e.carts, given, w, guest.items, stock, now, v) else e.carts == given
  }

  lemma AloneMerges(tenant: string, carts: seq<Cart>, run: Run, o: Oracle, calm: nat, w: CartId, v: VariantId)
    requires GoodStart(carts, run) && calm >= 6
    requires run.cart < |carts| && carts[run.cart].blob.owner.None?
    requires run.pc == Claim(carts[run.cart].blob.currency)
    requires !TakenInPostgres(carts[run.cart], run.customer.id)
    requires Owns(carts, w, run.customer.id) && w != run.cart
    ensures EndsMerging(carts, run.cart, w, Alone(tenant, carts, run, o, calm), o.stock, o.now, v)
  {
    var checking := run.(pc := CheckWinner(run.pc.currency, w));
    MeetsWinner(tenant, carts, run, o, calm, w);
    if carts[w].blob.currency != run.pc.currency {
      WrongCurrency(tenant, carts, checking, o, calm - 2, w);
    } else {
      GivesUpGuest(tenant, carts, checking, o, calm - 2, w);
      var given, items := carts[run.cart := GivenUp(carts[run.cart])], carts[run.cart].blob.items;
      MergesAlone(tenant, given, run.(pc := Merge(w, items)), o, calm - 5, w, items, v);
    }
  }

  /**
   * Every answer of a call that runs alone, and what it leaves.  It is turned away; or the cart is its customer's
   * already; or Postgres has it taken; or it is handed over in both stores; or, when the customer has another cart of
   * the same currency, it is given up in both stores and its lines go to that cart, unless that is not yet shown as
   * his in Redis or something in either cart is no longer on sale.
   */
  lemma AloneEndsExactly(s0: System, acts: seq<Action>, call: Run, o: Oracle, calm: nat, v: VariantId)
    requires Initial(s0) && call.pc == Start && calm >= 7
    ensures var s := Exec(s0, acts); var carts, g, c := s.carts, call.cart, call.customer.id;
            var e := Alone(s.tenant, carts, call, o, calm);
            if TurnedAway(s.tenant, carts, call) then
              var hidden := call.customer.tenantId == s.tenant && !Live(Read(carts, g)) && Presented(call.token);
              e.carts == carts && e.run.pc == Failed(if hidden then NotFound else Forbidden)
            else if carts[g].blob.owner.Some? then e.carts == carts && e.run.pc == Returned(AlreadyMine)
            else if TakenInPostgres(carts[g], c) then e.carts == carts && e.run.pc == Failed(Conflict)
            else if forall w :: w != g ==> !Owns(carts, w, c) then
              e.carts == carts[g := HandedOver(carts[g], c, o.newToken)] && e.run.pc == Returned(Adopted)
            else forall w :: w != g && Owns(carts, w, c) ==> EndsMerging(carts, g, w, e, o.stock, o.now, v)
  {
    ExecKeeps(s0, acts);
    var s := Exec(s0, acts);
    var carts, g, c := s.carts, call.cart, call.customer.id;
    if TurnedAway(s.tenant, carts, call) || carts[g].blob.owner.Some? {
      AloneLastStep(s.tenant, carts, call, o, calm);
    } else {
      var run := call.(pc := Claim(carts[g].blob.currency));
      StartsUnowned(s.tenant, carts, call, o, calm);
      if TakenInPostgres(carts[g], c) {
        Blocked(s.tenant, carts, run, o, calm - 1);
      } else if forall w :: w != g ==> !Owns(carts, w, c) {
        Adopts(s.tenant, carts, run, o, calm - 1);
      } else {
        forall w | w != g && Owns(carts, w, c)
          ensures EndsMerging(carts, g, w, Alone(s.tenant, carts, call, o, calm), o.stock, o.now, v)
        {
          AloneMerges(s.tenant, carts, run, o, calm - 1, w, v);
        }
      }
    }
  }

  // ---------------------------------------------------------------- one await throws

  /** The stores after `n` undisturbed steps of a call. */
  function After(tenant: string, carts: seq<Cart>, run: Run, o: Oracle, n: nat): Effect
    decreases n
  {
    if n == 0 then Effect(carts, run, [])
    else
      var e := StepRun(tenant, carts, run, o.(fault := false));
      After(tenant, e.carts, e.run, o, n - 1)
  }

  /**
   * A call whose await after `calm` steps throws leaves exactly what its first `calm` steps wrote and ends with that
   * fault; if it is finished, or has only its tenant guard to pass, before that, the fault never happens.
   */
  lemma {:induction false} ThrowsExactly(tenant: string, carts: seq<Cart>, run: Run, o: Oracle, calm: nat)
    ensures var reached := After(tenant, carts, run, o, calm); var e := Alone(tenant, carts, run, o, calm);
            if Finished(reached.run) then e.carts == reached.carts && e.run == reached.run
            else e.carts == reached.carts
                 && e.run.pc == Failed(if Awaits(tenant, reached.run) then Fault else Forbidden)
    decreases calm
  {
    if calm > 0 {
      var e := StepRun(tenant, carts, run, o.(fault := false));
      ThrowsExactly(tenant, e.carts, e.run, o, calm - 1);
      if Finished(run) { FinishedStays(tenant, carts, run, o, calm); }
    }
  }

  lemma {:induction false} FinishedStays(tenant: string, carts: seq<Cart>, run: Run, o: Oracle, n: nat)
    requires Finished(run)
    ensures After(tenant, carts, run, o, n) == Effect(carts, run, [])
  {
    if n > 0 { FinishedStays(tenant, carts, run, o, n - 1); }
  }
}
