/** Every step of the association protocol in every reachable state: which branch is taken, and what it leaves. */
module CartAssociationSteps {
  import opened Wrappers
  import opened CartLines
  import CartMerge
  import opened CartAuthorise
  import opened CartAssociation
  import opened CartAssociationSafety
  import opened CartAssociationTheorems
  import opened CartAssociationMergedCart
  import CartAssociationGuards

  // ---------------------------------------------------------------- what the branches ask

  /** Turned away by the guards on the Redis blob: a foreign tenant, no right to the cart, or a stranger's cart. */
  predicate TurnedAway(tenant: string, carts: seq<Cart>, call: Run) {
    || call.customer.tenantId != tenant
    || !Live(Read(carts, call.cart))
    || !HoldsToken(carts[call.cart].blob, call.token)
    || (carts[call.cart].blob.owner.Some? && carts[call.cart].blob.owner.value != call.customer.id)
  }

  /** Postgres has given the cart to another customer or ended it. */
  predicate TakenInPostgres(cart: Cart, c: CustomerId) {
    cart.pg.status == Abandoned || (cart.pg.owner.Some? && cart.pg.owner.value != c)
  }

  /** The answer of a merge that got as far as the winner. */
  function MergeAnswer(captured: seq<Line>, w: CartId, winner: Blob, stock: map<VariantId, Supply>): Pc {
    if winner.owner.None? then Failed(Conflict)
    else if OnSale(captured, stock) && OnSale(winner.items, stock) then Returned(MergedInto(w))
    else Failed(VariantMissing)
  }

  // ---------------------------------------------------------------- the merge step

  lemma {:induction false} UnitsPositive(lines: seq<Line>, v: VariantId)
    requires Positive(lines)
    ensures 0 <= Units(lines, v)
    ensures FirstOf(lines, v).Some? ==> 0 < Units(lines, v)
  {
    if lines != [] {
      UnitsPositive(lines[..|lines| - 1], v);
    }
  }

  /** The merge asks for every variant of either cart and for no other. */
  lemma MergeAsksForBoth(captured: seq<Line>, held: seq<Line>, o: Oracle)
    requires Positive(captured) && Positive(held) && Distinct(held)
    ensures OnSale(CartMerge.Merged(captured, held, map[], o.now), o.stock)
            <==> OnSale(captured, o.stock) && OnSale(held, o.stock)
  {
    var merged := CartMerge.Merged(captured, held, map[], o.now);
    forall v ensures FirstOf(merged, v).Some? <==> FirstOf(captured, v).Some? || FirstOf(held, v).Some? {
      CartMerge.MergeByVariant(captured, held, map[], o.now, v);
      CartMerge.LastOfIsFirstOf(held, v);
      FirstOfIsALine(held, v);
      UnitsPositive(captured, v);
    }
    Asks(captured, o.stock);
    Asks(held, o.stock);
    Asks(merged, o.stock);
  }

  lemma Asks(lines: seq<Line>, stock: map<VariantId, Supply>)
    ensures OnSale(lines, stock) <==> forall v :: FirstOf(lines, v).Some? ==> v in stock
  {
    forall v ensures FirstOf(lines, v).Some? <==> v in Ids(lines) { CartMerge.IdsMembership(lines, v); }
    CartMerge.IdsAt(lines);
  }

  lemma MergeStepOutcome(carts: seq<Cart>, run: Run, o: Oracle, w: CartId, captured: seq<Line>, v: VariantId)
    requires GoodStart(carts, run) && run.pc == Merge(w, captured)
    ensures w < |carts|
    ensures var e := StepMerge(carts, run, w, captured, o);
            && e.run.pc == MergeAnswer(captured, w, carts[w].blob, o.stock)
            && if e.run.pc.Returned? then MergedCart(e.carts, carts, w, captured, o.stock, o.now, v)
               else e.carts == carts
  {
    assert CartOk(carts[w]);
    MergeOutcome(carts, run, w, captured, o);
    MergeAsksForBoth(captured, carts[w].blob.items, o);
    if StepMerge(carts, run, w, captured, o).run.pc.Returned? {
      MergeStepGrants(carts, run, w, captured, o, v);
    }
  }

  // ---------------------------------------------------------------- every step

  /**
   * What the next step of a call does that does not throw, from a reachable state: each branch that interleaved
   * associations can reach, with the state that leads there.
   */
  ghost predicate StepIs(tenant: string, carts: seq<Cart>, run: Run, o: Oracle, e: Effect, v: VariantId) {
    var g, c, pc := run.cart, run.customer.id, e.run.pc;
    match run.pc
    case Start =>
      && e.carts == carts
      && pc == if TurnedAway(tenant, carts, run) then
                 var hidden := run.customer.tenantId == tenant && !Live(Read(carts, g)) && Presented(run.token);
                 Failed(if hidden then NotFound else Forbidden)
               else if carts[g].blob.owner.Some? then Returned(AlreadyMine) else Claim(carts[g].blob.currency)
    case Claim(_) =>
      && g < |carts|
      && if TakenInPostgres(carts[g], c) then e.carts == carts && pc == ReadAfterBlocked
         else if exists w :: w != g && Owns(carts, w, c)
         then e.carts == carts && pc == FindWinner(carts[g].blob.currency)
         else e.carts == carts[g := carts[g].(pg := PgRow(Active, Some(c), o.newToken))] && pc == Commit(o.newToken)
    case Commit(token) =>
      && g < |carts|
      && if carts[g].blob.owner.None?
         then e.carts == carts[g := carts[g].(blob := carts[g].blob.(owner := Some(c), token := token))]
              && pc == Returned(Adopted)
         else e.carts == carts
              && pc == if HoldsToken(carts[g].blob, run.token) then Returned(Adopted) else Failed(Forbidden)
    case FindWinner(_) =>
      g < |carts| && e.carts == carts
      && exists w :: w != g && Owns(carts, w, c) && pc == CheckWinner(carts[g].blob.currency, w)
    case CheckWinner(_, w) =>
      && g < |carts| && w < |carts| && e.carts == carts
      && pc == if carts[g].blob.currency == carts[w].blob.currency then TryAbandon(w) else Failed(CurrencyMismatch)
    case TryAbandon(w) =>
      && g < |carts|
      && if TakenInPostgres(carts[g], c) then e.carts == carts && pc == ReadAfterRefused
         else carts[g].pg.owner.None? && pc == Capture(w)
              && e.carts == carts[g := carts[g].(pg := carts[g].pg.(status := Abandoned))]
    case Capture(w) =>
      && g < |carts| && pc == Merge(w, carts[g].blob.items)
      && e.carts == carts[g := carts[g].(blob := carts[g].blob.(status := Abandoned, items := []))]
    case Merge(w, captured) =>
      && w < |carts| && pc == MergeAnswer(captured, w, carts[w].blob, o.stock)
      && if pc.Returned? then MergedCart(e.carts, carts, w, captured, o.stock, o.now, v) else e.carts == carts
    case ReadAfterBlocked => Explained(carts, g, e)
    case ReadAfterRefused => Explained(carts, g, e)
    case Returned(_) => e.carts == carts && pc == run.pc
    case Failed(_) => e.carts == carts && pc == run.pc
  }

  /** Blocked or refused: 403 once Redis shows the other owner, 409 before. */
  predicate Explained(carts: seq<Cart>, g: CartId, e: Effect) {
    && g < |carts| && e.carts == carts
    && e.run.pc == Failed(if carts[g].blob.owner.Some? then Forbidden else Conflict)
  }

  ghost predicate Ready(tenant: string, carts: seq<Cart>, run: Run) {
    GoodStart(carts, run) && CartAssociationGuards.Established(tenant, carts, run)
    && forall i :: 0 <= i < |carts| ==> carts[i].blob.tenantId == tenant
  }

  lemma ClaimIs(tenant: string, carts: seq<Cart>, run: Run, o: Oracle, v: VariantId)
    requires Ready(tenant, carts, run) && run.pc.Claim?
    ensures StepIs(tenant, carts, run, o, StepClaim(carts, run, run.pc.currency, o.newToken), v)
  {
    var g, c := run.cart, run.customer.id;
    if w: CartId :| w != g && Owns(carts, w, c) {
      assert carts[w].pg.status == Active && carts[w].pg.owner == Some(c);
      assert HasOtherActive(carts, g, c);
    } else {
      forall j | 0 <= j < |carts| && j != g ensures carts[j].pg.owner != Some(c) { assert !Owns(carts, j, c); }
    }
  }

  lemma CommitIs(tenant: string, carts: seq<Cart>, run: Run, o: Oracle, v: VariantId)
    requires Ready(tenant, carts, run) && run.pc.Commit?
    ensures StepIs(tenant, carts, run, o, StepCommit(carts, run, run.pc.newToken), v)
  {
    assert CartOk(carts[run.cart]);
  }

  lemma FindWinnerIs(tenant: string, carts: seq<Cart>, run: Run, o: Oracle, v: VariantId)
    requires Ready(tenant, carts, run) && run.pc.FindWinner?
    ensures StepIs(tenant, carts, run, o, StepFindWinner(carts, run, run.pc.currency), v)
  {
    var w: CartId :| Owns(carts, w, run.customer.id) && w != run.cart;
    assert carts[w].pg.status == Active;
    var found := FindActive(carts, run.customer.id, 0);
    assert found.Some? && Owns(carts, found.value, run.customer.id);
  }

  lemma ReadsAre(tenant: string, carts: seq<Cart>, run: Run, o: Oracle, v: VariantId)
    requires Ready(tenant, carts, run) && !o.fault && !Writing(run) && !run.pc.FindWinner?
    ensures StepIs(tenant, carts, run, o, StepRun(tenant, carts, run, o), v)
  {
    if run.cart < |carts| { assert CartOk(carts[run.cart]); }
  }

  lemma StepIsExact(tenant: string, carts: seq<Cart>, run: Run, o: Oracle, v: VariantId)
    requires Ready(tenant, carts, run) && !o.fault
    ensures StepIs(tenant, carts, run, o, StepRun(tenant, carts, run, o), v)
  {
    match run.pc
    case Claim(_) => ClaimIs(tenant, carts, run, o, v);
    case Commit(_) => CommitIs(tenant, carts, run, o, v);
    case FindWinner(_) => FindWinnerIs(tenant, carts, run, o, v);
    case TryAbandon(w) => TryAbandonKeeps(carts, run, w);
    case Capture(w) => CaptureKeeps(carts, run, w);
    case Merge(w, captured) => MergeStepOutcome(carts, run, o, w, captured, v);
    case _ => ReadsAre(tenant, carts, run, o, v);
  }

  /**
   * Every step of every call, in every reachable state.  Of the source's branches, a vanished winner, an inactive
   * one, a vanished guest blob and "raced to ours" are none that associations alone can reach.
   */
  lemma EveryStepExactly(s0: System, acts: seq<Action>, r: nat, o: Oracle, v: VariantId)
    requires Initial(s0) && r < |Exec(s0, acts).runs| && !o.fault
    ensures var s := Exec(s0, acts); var s' := Next(s, Advance(r, o));
            s'.runs == s.runs[r := s'.runs[r]]
            && StepIs(s.tenant, s.carts, s.runs[r], o, Effect(s'.carts, s'.runs[r], []), v)
  {
    CartAssociationGuards.ExecKeepsGuards(s0, acts);
    var s := Exec(s0, acts);
    assert RunOk(s.carts, s.runs[r]);
    StepIsExact(s.tenant, s.carts, s.runs[r], o, v);
  }
}
