/** What the winner looks like, line by line, after a merge step that returned: contents, order, and nothing else. */
module CartAssociationMergedCart {
  import opened Wrappers
  import opened CartLines
  import CartMerge
  import opened CartAssociation
  import CartAssociationSafety
  import opened CartAssociationUnits

  /** Units of `v` the winner ends with: what stock grants of the merged entry, if there is any. */
  function Grant(captured: seq<Line>, held: seq<Line>, stock: map<VariantId, Supply>, now: int, v: VariantId): int {
    var entry := CartMerge.MergedEntry(captured, held, map[], now, v);
    if entry.None? || entry.value.quantity <= 0 || v !in stock then 0 else Granted(stock[v], entry.value.quantity)
  }

  /** The variants with a positive grant, in their order. */
  function Kept(vs: seq<VariantId>, captured: seq<Line>, held: seq<Line>, stock: map<VariantId, Supply>, now: int)
    : seq<VariantId>
  {
    if vs == [] then []
    else
      var front, last := Kept(vs[..|vs| - 1], captured, held, stock, now), vs[|vs| - 1];
      if Grant(captured, held, stock, now, last) > 0 then front + [last] else front
  }

  /** The merged entry with the granted quantity, and nothing for a variant without a grant. */
  predicate LineIsGranted(line: Option<Line>, captured: seq<Line>, held: seq<Line>, stock: map<VariantId, Supply>,
      now: int, v: VariantId)
  {
    var entry := CartMerge.MergedEntry(captured, held, map[], now, v);
    var grant := Grant(captured, held, stock, now, v);
    line == if grant > 0 && entry.Some? then Some(entry.value.(quantity := grant)) else None
  }

  // ---------------------------------------------------------------- the reservation loop, line by line

  function Got(stock: map<VariantId, Supply>, line: Line): int {
    QuantityOrZero(Reserve(stock, line.variantId, line.quantity))
  }

  lemma {:induction false} ReservedLine(lines: seq<Line>, stock: map<VariantId, Supply>, v: VariantId)
    requires Distinct(lines) && ReserveAll(lines, stock).Some?
    ensures var line := FirstOf(lines, v);
            FirstOf(ReserveAll(lines, stock).value, v)
            == (if line.Some? && Got(stock, line.value) > 0 then Some(line.value.(quantity := Got(stock, line.value)))
                else None)
  {
    if lines != [] {
      var front, last := lines[..|lines| - 1], lines[|lines| - 1];
      ReservedLine(front, stock, v);
      FirstOfIsALine(front, v);
      var kept := ReserveAll(front, stock).value;
      assert (kept + [last.(quantity := Got(stock, last))])[..|kept|] == kept;
    }
  }

  /** The ids of `ids` whose line in `lines` gets something. */
  function GotIds(ids: seq<VariantId>, lines: seq<Line>, stock: map<VariantId, Supply>): seq<VariantId> {
    if ids == [] then []
    else
      var front, line := GotIds(ids[..|ids| - 1], lines, stock), FirstOf(lines, ids[|ids| - 1]);
      if line.Some? && Got(stock, line.value) > 0 then front + [ids[|ids| - 1]] else front
  }

  lemma {:induction false} ReservedIds(lines: seq<Line>, whole: seq<Line>, stock: map<VariantId, Supply>)
    requires ReserveAll(lines, stock).Some?
    requires forall i :: 0 <= i < |lines| ==> FirstOf(whole, lines[i].variantId) == Some(lines[i])
    ensures Ids(ReserveAll(lines, stock).value) == GotIds(Ids(lines), whole, stock)
  {
    if lines != [] {
      var front, last := lines[..|lines| - 1], lines[|lines| - 1];
      ReservedIds(front, whole, stock);
      assert Ids(lines)[..|lines| - 1] == Ids(front) && Ids(lines)[|lines| - 1] == last.variantId;
      var kept := ReserveAll(front, stock).value;
      assert (kept + [last.(quantity := Got(stock, last))])[..|kept|] == kept;
    }
  }

  // ---------------------------------------------------------------- merge, then reserve

  /** A merged line gets exactly the grant of its variant. */
  lemma LineGetsGrant(captured: seq<Line>, held: seq<Line>, o: Oracle, v: VariantId)
    requires NonNegative(captured)
    requires var merged := CartMerge.Merged(captured, held, map[], o.now);
             ReserveAll(merged, o.stock).Some?
    ensures var line := FirstOf(CartMerge.Merged(captured, held, map[], o.now), v);
            && Grant(captured, held, o.stock, o.now, v) == (if line.Some? then Got(o.stock, line.value) else 0)
            && (line.Some? ==> line == CartMerge.MergedEntry(captured, held, map[], o.now, v))
  {
    var merged := CartMerge.Merged(captured, held, map[], o.now);
    CartMerge.MergeByVariant(captured, held, map[], o.now, v);
    CartMerge.MergeOrder(captured, held, map[], o.now);
    ReservedUnits(merged, o.stock, v);
    FirstOfIsALine(merged, v);
  }

  lemma {:induction false} KeptAreGot(vs: seq<VariantId>, captured: seq<Line>, held: seq<Line>, o: Oracle)
    requires NonNegative(captured) && ReserveAll(CartMerge.Merged(captured, held, map[], o.now), o.stock).Some?
    ensures var merged := CartMerge.Merged(captured, held, map[], o.now);
            GotIds(CartMerge.Survivors(vs, captured, held, map[]), merged, o.stock)
            == Kept(vs, captured, held, o.stock, o.now)
  {
    if vs != [] {
      var front, last := vs[..|vs| - 1], vs[|vs| - 1];
      KeptAreGot(front, captured, held, o);
      LineGetsGrant(captured, held, o, last);
      CartMerge.MergeByVariant(captured, held, map[], o.now, last);
      var survivors := CartMerge.Survivors(front, captured, held, map[]);
      assert (survivors + [last])[..|survivors|] == survivors;
    }
  }

  lemma MergedAndReserved(captured: seq<Line>, held: seq<Line>, o: Oracle, v: VariantId)
    requires NonNegative(captured) && ReserveAll(CartMerge.Merged(captured, held, map[], o.now), o.stock).Some?
    ensures var left := ReserveAll(CartMerge.Merged(captured, held, map[], o.now), o.stock).value;
            && LineIsGranted(FirstOf(left, v), captured, held, o.stock, o.now, v)
            && Ids(left) == Kept(CartMerge.Variants(captured, held), captured, held, o.stock, o.now)
  {
    var merged := CartMerge.Merged(captured, held, map[], o.now);
    CartMerge.MergeOrder(captured, held, map[], o.now);
    ReservedLine(merged, o.stock, v);
    LineGetsGrant(captured, held, o, v);
    forall i | 0 <= i < |merged| ensures FirstOf(merged, merged[i].variantId) == Some(merged[i]) {
      CartMerge.FirstOfDistinct(merged, i);
    }
    ReservedIds(merged, merged, o.stock);
    KeptAreGot(CartMerge.Variants(captured, held), captured, held, o);
  }

  /** Only the winner's lines have changed: each is its merged entry with the granted units, in the merge's order. */
  predicate MergedCart(after: seq<Cart>, before: seq<Cart>, w: CartId, captured: seq<Line>,
      stock: map<VariantId, Supply>, now: int, v: VariantId)
    requires w < |before|
  {
    && |after| == |before|
    && var held, left := before[w].blob.items, after[w].blob.items;
       && after == before[w := before[w].(blob := before[w].blob.(items := left))]
       && LineIsGranted(FirstOf(left, v), captured, held, stock, now, v)
       && Ids(left) == Kept(CartMerge.Variants(captured, held), captured, held, stock, now)
  }

  lemma MergeStepGrants(carts: seq<Cart>, run: Run, w: CartId, captured: seq<Line>, o: Oracle, v: VariantId)
    requires w < |carts| && NonNegative(captured)
    requires StepMerge(carts, run, w, captured, o).run.pc.Returned?
    ensures MergedCart(StepMerge(carts, run, w, captured, o).carts, carts, w, captured, o.stock, o.now, v)
  {
    MergedAndReserved(captured, carts[w].blob.items, o, v);
  }

  /**
   * When a merge step returns, each line of the winner is the merged entry of its variant, the customer's line data
   * if he had the variant and the guest's otherwise, with the granted quantity; and the lines stand in the order of
   * the merge.  Everything else in the winner, and every other cart, is as it was.
   */
  lemma MergedCartExactly(s0: System, acts: seq<Action>, r: nat, o: Oracle, v: VariantId)
    requires Initial(s0) && r < |Exec(s0, acts).runs| && Exec(s0, acts).runs[r].pc.Merge?
    requires Next(Exec(s0, acts), Advance(r, o)).runs[r].pc.Returned?
    ensures var s := Exec(s0, acts); var s' := Next(s, Advance(r, o)); var pc := s.runs[r].pc;
            pc.winner < |s.carts| && MergedCart(s'.carts, s.carts, pc.winner, pc.captured, o.stock, o.now, v)
  {
    var s := Exec(s0, acts);
    var run := s.runs[r];
    CartAssociationSafety.ExecKeeps(s0, acts);
    assert CartAssociationSafety.RunOk(s.carts, run);
    NextOfMerge(s, r, o);
    MergeStepGrants(s.carts, run, run.pc.winner, run.pc.captured, o, v);
  }
}
