/** What every interleaving of associations keeps: the invariant, and the safety theorems read off it. */
module CartAssociationSafety {
  import opened Wrappers
  import opened CartLines
  import CartMerge
  import opened CartAuthorise
  import opened CartAssociation

  // ---------------------------------------------------------------- the invariant

  ghost predicate CartOk(cart: Cart) {
    && (cart.blob.owner.Some? ==> cart.pg.owner == cart.blob.owner)
    && (cart.pg.owner.Some? ==> cart.pg.status == Active)
    && (cart.blob.status == Abandoned ==> cart.pg.status == Abandoned && cart.blob.items == [])
    && cart.pg.status != Converted && cart.blob.status != Converted
    && Distinct(cart.blob.items) && Positive(cart.blob.items)
  }

  ghost predicate Owns(carts: seq<Cart>, w: CartId, c: CustomerId) {
    w < |carts| && carts[w].pg.owner == Some(c)
  }

  ghost predicate OneCartPerCustomer(carts: seq<Cart>) {
    forall i, j, c :: Owns(carts, i, c) && Owns(carts, j, c) ==> i == j
  }

  ghost predicate OwnsAnother(carts: seq<Cart>, run: Run) {
    exists w :: Owns(carts, w, run.customer.id) && w != run.cart
  }

  /** What a call may rely on at each program counter, whatever the others did since. */
  ghost predicate RunOk(carts: seq<Cart>, run: Run) {
    match run.pc
    case Commit(_) => Owns(carts, run.cart, run.customer.id)
    case FindWinner(_) => OwnsAnother(carts, run)
    case CheckWinner(_, w) => Owns(carts, w, run.customer.id) && w != run.cart
    case TryAbandon(w) => Owns(carts, w, run.customer.id) && w != run.cart
    case Capture(w) =>
      && Owns(carts, w, run.customer.id) && w != run.cart
      && run.cart < |carts| && carts[run.cart].pg.status == Abandoned && carts[run.cart].blob.status == Active
    case Merge(w, captured) =>
      && Owns(carts, w, run.customer.id) && w != run.cart
      && run.cart < |carts| && carts[run.cart].blob.status == Abandoned
      && Distinct(captured) && Positive(captured)
    case _ => true
  }

  predicate Capturing(run: Run) { run.pc.Capture? || run.pc.Merge? }

  /** Between its abandon and its merge, a call has its guest cart to itself. */
  ghost predicate CapturesDisjoint(runs: seq<Run>) {
    forall q, r :: 0 <= q < r < |runs| && Capturing(runs[q]) && Capturing(runs[r]) ==> runs[q].cart != runs[r].cart
  }

  ghost predicate Inv(s: System) {
    && (forall i :: 0 <= i < |s.carts| ==> CartOk(s.carts[i]))
    && OneCartPerCustomer(s.carts)
    && (forall r :: 0 <= r < |s.runs| ==> RunOk(s.carts, s.runs[r]))
    && CapturesDisjoint(s.runs)
  }

  // ---------------------------------------------------------------- how carts may change

  ghost predicate CartEvolves(a: Cart, b: Cart) {
    && (a.pg.owner.Some? ==> b.pg.owner == a.pg.owner && b.pg.status == a.pg.status)
    && (a.pg.status == Abandoned ==> b.pg.status == Abandoned && b.pg.owner == a.pg.owner)
    && (a.blob.status == Abandoned ==> b.blob.status == Abandoned)
    && (a.blob.owner.Some? ==> b.blob.owner == a.blob.owner)
  }

  ghost predicate Evolves(before: seq<Cart>, after: seq<Cart>) {
    |before| <= |after| && forall i :: 0 <= i < |before| ==> CartEvolves(before[i], after[i])
  }

  lemma RunStable(carts: seq<Cart>, carts': seq<Cart>, run: Run)
    requires RunOk(carts, run) && Evolves(carts, carts')
    requires run.pc.Capture? ==> carts'[run.cart].blob.status == carts[run.cart].blob.status
    ensures RunOk(carts', run)
  {
    if run.pc.FindWinner? {
      var w :| Owns(carts, w, run.customer.id) && w != run.cart;
      assert Owns(carts', w, run.customer.id);
    }
  }

  // ---------------------------------------------------------------- every step keeps it

  /** What one step of one call may do to carts and call, as far as the invariant cares. */
  ghost predicate GoodEffect(carts: seq<Cart>, run: Run, e: Effect) {
    && |e.carts| == |carts| && Evolves(carts, e.carts)
    && (forall i :: 0 <= i < |carts| ==> CartOk(e.carts[i]))
    && OneCartPerCustomer(e.carts)
    && RunOk(e.carts, e.run)
    && e.run.cart == run.cart && e.run.customer == run.customer && e.run.token == run.token
    && (Capturing(e.run) && !Capturing(run) ==> run.cart < |carts| && carts[run.cart].pg.status == Active)
    && (forall i :: 0 <= i < |carts| && e.carts[i].blob.status != carts[i].blob.status ==>
       run.pc.Capture? && i == run.cart)
  }

  ghost predicate GoodStart(carts: seq<Cart>, run: Run) {
    && (forall i :: 0 <= i < |carts| ==> CartOk(carts[i]))
    && OneCartPerCustomer(carts) && RunOk(carts, run)
  }

  lemma ClaimKeeps(carts: seq<Cart>, run: Run, currency: string, newToken: string)
    requires GoodStart(carts, run) && run.pc.Claim?
    ensures GoodEffect(carts, run, StepClaim(carts, run, currency, newToken))
  {
    var c := run.customer.id;
    var e := StepClaim(carts, run, currency, newToken);
    match ClaimCustomer(carts, run.cart, c)
    case Claimed =>
      assert forall j :: j != run.cart ==> !Owns(carts, j, c);
      assert forall j, d :: j != run.cart ==> (Owns(e.carts, j, d) <==> Owns(carts, j, d));
    case UniqueViolation =>
      var j :| 0 <= j < |carts| && j != run.cart && carts[j].pg.status == Active && carts[j].pg.owner == Some(c);
      assert Owns(e.carts, j, c);
    case NoRow =>
  }

  lemma CommitKeeps(carts: seq<Cart>, run: Run, newToken: string)
    requires GoodStart(carts, run) && run.pc.Commit?
    ensures GoodEffect(carts, run, StepCommit(carts, run, newToken))
  {
    var e := StepCommit(carts, run, newToken);
    assert forall j, d :: Owns(e.carts, j, d) <==> Owns(carts, j, d);
  }

  lemma FindWinnerKeeps(carts: seq<Cart>, run: Run, currency: string)
    requires GoodStart(carts, run) && run.pc.FindWinner?
    ensures GoodEffect(carts, run, StepFindWinner(carts, run, currency))
  {}

  /** The cart a merging customer abandons has no owner: his own is the winner, and strangers' carts are guarded. */
  lemma TryAbandonKeeps(carts: seq<Cart>, run: Run, winner: CartId)
    requires GoodStart(carts, run) && run.pc == TryAbandon(winner)
    ensures GoodEffect(carts, run, StepTryAbandon(carts, run, winner))
  {
    var e := StepTryAbandon(carts, run, winner);
    if run.cart < |carts| && UnownedOrMine(carts[run.cart].pg, run.customer.id) {
      assert !Owns(carts, run.cart, run.customer.id);
      assert forall j, d :: Owns(e.carts, j, d) <==> Owns(carts, j, d);
    }
  }

  lemma CaptureKeeps(carts: seq<Cart>, run: Run, winner: CartId)
    requires GoodStart(carts, run) && run.pc == Capture(winner)
    ensures GoodEffect(carts, run, StepCapture(carts, run, winner))
    ensures var e := StepCapture(carts, run, winner);
            && (forall i :: 0 <= i < |carts| && i != run.cart ==> e.carts[i] == carts[i])
            && e.carts[run.cart] == carts[run.cart].(blob := CaptureBlob(carts[run.cart].blob))
  {
    var e := StepCapture(carts, run, winner);
    assert forall j, d :: Owns(e.carts, j, d) <==> Owns(carts, j, d);
  }

  lemma {:induction false} ReserveAllShape(lines: seq<Line>, stock: map<VariantId, Supply>)
    requires Distinct(lines)
    ensures var r := ReserveAll(lines, stock);
            r.Some? ==> Distinct(r.value) && Positive(r.value)
                        && forall k :: 0 <= k < |r.value| ==> FirstOf(lines, r.value[k].variantId).Some?
  {
    if lines != [] {
      var front, last := lines[..|lines| - 1], lines[|lines| - 1];
      ReserveAllShape(front, stock);
      FirstOfIsALine(front, last.variantId);
      assert FirstOf(front, last.variantId).None?;
    }
  }

  lemma MergedShape(captured: seq<Line>, winner: Blob, o: Oracle)
    requires Positive(captured)
    ensures var r := ReserveAll(MergedLines(captured, winner, o.now), o.stock);
            r.Some? ==> Distinct(r.value) && Positive(r.value)
  {
    CartMerge.MergeOrder(captured, winner.items, map[], o.now);
    ReserveAllShape(MergedLines(captured, winner, o.now), o.stock);
  }

  lemma MergeKeeps(carts: seq<Cart>, run: Run, winner: CartId, captured: seq<Line>, o: Oracle)
    requires GoodStart(carts, run) && run.pc == Merge(winner, captured)
    ensures GoodEffect(carts, run, StepMerge(carts, run, winner, captured, o))
    ensures var e := StepMerge(carts, run, winner, captured, o);
            forall i :: 0 <= i < |carts| ==>
              && e.carts[i].pg == carts[i].pg && (i != winner ==> e.carts[i] == carts[i])
              && e.carts[i].blob == carts[i].blob.(items := e.carts[i].blob.items)
  {
    var e := StepMerge(carts, run, winner, captured, o);
    MergedShape(captured, carts[winner].blob, o);
    assert forall j, d :: Owns(e.carts, j, d) <==> Owns(carts, j, d);
  }

  lemma ReadOnlyKeeps(carts: seq<Cart>, run: Run, e: Effect)
    requires GoodStart(carts, run)
    requires e.carts == carts && RunOk(carts, e.run) && (Capturing(e.run) ==> Capturing(run))
    requires e.run.cart == run.cart && e.run.customer == run.customer && e.run.token == run.token
    ensures GoodEffect(carts, run, e)
  {}

  predicate Writing(run: Run) {
    run.pc.Claim? || run.pc.Commit? || run.pc.TryAbandon? || run.pc.Capture? || run.pc.Merge?
  }

  lemma ReadStepKeeps(tenant: string, carts: seq<Cart>, run: Run, o: Oracle)
    requires GoodStart(carts, run) && (o.fault || (!Writing(run) && !run.pc.FindWinner?))
    ensures GoodEffect(carts, run, StepRun(tenant, carts, run, o))
  {
    ReadOnlyKeeps(carts, run, StepRun(tenant, carts, run, o));
  }

  lemma StepKeeps(tenant: string, carts: seq<Cart>, run: Run, o: Oracle)
    requires GoodStart(carts, run)
    ensures GoodEffect(carts, run, StepRun(tenant, carts, run, o))
  {
    if o.fault || (!Writing(run) && !run.pc.FindWinner?) {
      ReadStepKeeps(tenant, carts, run, o);
    } else {
      match run.pc
      case Claim(currency) => ClaimKeeps(carts, run, currency, o.newToken);
      case Commit(newToken) => CommitKeeps(carts, run, newToken);
      case FindWinner(currency) => FindWinnerKeeps(carts, run, currency);
      case TryAbandon(winner) => TryAbandonKeeps(carts, run, winner);
      case Capture(winner) => CaptureKeeps(carts, run, winner);
      case Merge(winner, captured) => MergeKeeps(carts, run, winner, captured, o);
    }
  }

  lemma CapturingIsAbandoned(carts: seq<Cart>, run: Run)
    requires GoodStart(carts, run) && Capturing(run)
    ensures run.cart < |carts| && carts[run.cart].pg.status == Abandoned && carts[run.cart].pg.owner.None?
  {}

  lemma AdvanceKeeps(s: System, r: nat, o: Oracle)
    requires Inv(s) && r < |s.runs|
    ensures Inv(Next(s, Advance(r, o)))
    ensures Evolves(s.carts, Next(s, Advance(r, o)).carts)
  {
    var run := s.runs[r];
    var e := StepRun(s.tenant, s.carts, run, o);
    StepKeeps(s.tenant, s.carts, run, o);
    var s' := Next(s, Advance(r, o));
    forall q | 0 <= q < |s'.runs| ensures RunOk(s'.carts, s'.runs[q]) {
      if q != r {
        RunStable(s.carts, s'.carts, s.runs[q]);
      }
    }
    forall q | 0 <= q < |s'.runs| && q != r && Capturing(s'.runs[q]) && Capturing(e.run)
      ensures s'.runs[q].cart != run.cart
    {
      CapturingIsAbandoned(s.carts, s.runs[q]);
    }
  }

  lemma AddLineShape(items: seq<Line>, line: Line)
    requires Distinct(items) && Positive(items) && line.quantity > 0
    ensures Distinct(AddLine(items, line)) && Positive(AddLine(items, line))
  {
    FirstOfIsALine(items, line.variantId);
    if FirstOf(items, line.variantId).Some? {
      var existing := FirstOf(items, line.variantId).value;
      ReplaceShape(items, existing.(quantity := existing.quantity + line.quantity, updatedAt := line.updatedAt));
    }
  }

  lemma {:induction false} ReplaceShape(items: seq<Line>, line: Line)
    requires Distinct(items) && Positive(items) && line.quantity > 0
    ensures var r := CartMerge.Replace(items, line);
            |r| == |items| && Distinct(r) && Positive(r) && forall k :: 0 <= k < |r| ==>
                r[k].variantId == items[k].variantId
  {
    if items != [] {
      ReplaceShape(items[..|items| - 1], line);
    }
  }

  lemma {:induction false} WithoutItemShape(items: seq<Line>, itemId: string)
    requires Distinct(items) && Positive(items)
    ensures var r := WithoutItem(items, itemId);
            Distinct(r) && Positive(r) && forall k :: 0 <= k < |r| ==> r[k] in items
  {
    if items != [] {
      WithoutItemShape(items[..|items| - 1], itemId);
    }
  }

  lemma EditShape(items: seq<Line>, edit: Edit)
    requires Distinct(items) && Positive(items) && EditItems(items, edit).Some?
    ensures Distinct(EditItems(items, edit).value) && Positive(EditItems(items, edit).value)
  {
    match edit
    case AddItem(line) => AddLineShape(items, line);
    case UpdateItem(_, _, _) =>
    case RemoveItem(itemId) => WithoutItemShape(items, itemId);
  }

  lemma NextKeeps(s: System, a: Action)
    requires Inv(s)
    ensures Inv(Next(s, a)) && Evolves(s.carts, Next(s, a).carts)
  {
    var s' := Next(s, a);
    match a
    case Advance(r, o) =>
      if r < |s.runs| { AdvanceKeeps(s, r, o); }
    case Create(newToken, currency) =>
      assert forall j, d :: Owns(s'.carts, j, d) <==> Owns(s.carts, j, d);
      forall q | 0 <= q < |s.runs| ensures RunOk(s'.carts, s.runs[q]) { RunStable(s.carts, s'.carts, s.runs[q]); }
    case Begin(_, _, _) =>
    case Shop(id, _, _, edit, _) =>
      if EditSucceeds(s, a) {
        EditShape(s.carts[id].blob.items, edit);
        assert forall j, d :: Owns(s'.carts, j, d) <==> Owns(s.carts, j, d);
        forall q | 0 <= q < |s.runs| ensures RunOk(s'.carts, s.runs[q]) { RunStable(s.carts, s'.carts, s.runs[q]); }
      }
  }

  lemma {:induction false} ExecKeeps(s: System, acts: seq<Action>)
    requires Inv(s)
    ensures Inv(Exec(s, acts)) && Evolves(s.carts, Exec(s, acts).carts)
  {
    if acts != [] {
      ExecKeeps(s, acts[..|acts| - 1]);
      NextKeeps(Exec(s, acts[..|acts| - 1]), acts[|acts| - 1]);
      EvolvesTransitive(s.carts, Exec(s, acts[..|acts| - 1]).carts, Exec(s, acts).carts);
    }
  }

  lemma EvolvesTransitive(a: seq<Cart>, b: seq<Cart>, c: seq<Cart>)
    requires Evolves(a, b) && Evolves(b, c)
    ensures Evolves(a, c)
  {
    forall i | 0 <= i < |a| ensures CartEvolves(a[i], c[i]) {
      assert CartEvolves(a[i], b[i]) && CartEvolves(b[i], c[i]);
    }
  }
}
