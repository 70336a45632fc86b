/** Cart lines and the units they hold (`apps/api/src/cart/cart.types.ts`). */
module CartLines {
  import opened Wrappers

  type VariantId = string

  /** The part of a line that a merge carries over unchanged: its id and the price and title snapshot. */
  datatype Snapshot = Snapshot(lineId: string, unitPriceAmount: int, currency: string, productTitle: string,
      sku: string)

  datatype Line = Line(variantId: VariantId, quantity: int, snapshot: Snapshot, updatedAt: int)

  /** Units of variant `v` over all lines. */
  function Units(lines: seq<Line>, v: VariantId): int {
    if lines == [] then 0
    else Units(lines[..|lines| - 1], v) + LineUnits(lines[|lines| - 1], v)
  }

  function LineUnits(line: Line, v: VariantId): int {
    if line.variantId == v then line.quantity else 0
  }

  /** The variants, line by line. */
  function Ids(lines: seq<Line>): (ids: seq<VariantId>)
    ensures |ids| == |lines|
  {
    if lines == [] then [] else Ids(lines[..|lines| - 1]) + [lines[|lines| - 1].variantId]
  }

  /** The line a `Map` keyed by variant would hold: the first of that variant. */
  function FirstOf(lines: seq<Line>, v: VariantId): Option<Line> {
    if lines == [] then None
    else if FirstOf(lines[..|lines| - 1], v).Some? then FirstOf(lines[..|lines| - 1], v)
    else if lines[|lines| - 1].variantId == v then Some(lines[|lines| - 1])
    else None
  }

  predicate Distinct(lines: seq<Line>) {
    forall i, j :: 0 <= i < j < |lines| ==> lines[i].variantId != lines[j].variantId
  }

  predicate Positive(lines: seq<Line>) {
    forall i :: 0 <= i < |lines| ==> 0 < lines[i].quantity
  }

  predicate NonNegative(lines: seq<Line>) {
    forall i :: 0 <= i < |lines| ==> 0 <= lines[i].quantity
  }

  lemma {:induction false} UnitsConcat(a: seq<Line>, b: seq<Line>, v: VariantId)
    ensures Units(a + b, v) == Units(a, v) + Units(b, v)
  {
    if b == [] {
      assert a + b == a;
    } else {
      assert (a + b)[..|a + b| - 1] == a + b[..|b| - 1];
      UnitsConcat(a, b[..|b| - 1], v);
    }
  }

  lemma {:induction false} UnitsNonNegative(lines: seq<Line>, v: VariantId)
    requires NonNegative(lines)
    ensures 0 <= Units(lines, v)
  {
    if lines != [] {
      UnitsNonNegative(lines[..|lines| - 1], v);
    }
  }

  lemma {:induction false} UnitsAbsent(lines: seq<Line>, v: VariantId)
    requires FirstOf(lines, v).None?
    ensures Units(lines, v) == 0
  {
    if lines != [] {
      UnitsAbsent(lines[..|lines| - 1], v);
    }
  }

  lemma {:induction false} FirstOfIsALine(lines: seq<Line>, v: VariantId)
    ensures FirstOf(lines, v).Some? ==> FirstOf(lines, v).value in lines && FirstOf(lines, v).value.variantId == v
    ensures FirstOf(lines, v).None? ==> forall i :: 0 <= i < |lines| ==> lines[i].variantId != v
  {
    if lines != [] {
      FirstOfIsALine(lines[..|lines| - 1], v);
    }
  }

  /** Among lines with distinct variants, one line holds all the units of its variant. */
  lemma {:induction false} UnitsOfDistinct(lines: seq<Line>, v: VariantId)
    requires Distinct(lines)
    ensures Units(lines, v) == match FirstOf(lines, v) case Some(line) => line.quantity case None => 0
  {
    if lines != [] {
      var front := lines[..|lines| - 1];
      UnitsOfDistinct(front, v);
      FirstOfIsALine(front, v);
    }
  }

  /** Units count lines, not their order. */
  lemma {:induction false} UnitsPermutation(a: seq<Line>, b: seq<Line>, v: VariantId)
    requires multiset(a) == multiset(b)
    ensures Units(a, v) == Units(b, v)
  {
    if a == [] {
      assert |b| == |multiset(b)| == 0;
    } else {
      var last := a[|a| - 1];
      assert last in multiset(b);
      var i :| 0 <= i < |b| && b[i] == last;
      var rest := b[..i] + b[i + 1..];
      assert a == a[..|a| - 1] + [last];
      assert b == b[..i] + ([last] + b[i + 1..]);
      assert multiset(rest) == multiset(a[..|a| - 1]) by {
        assert multiset(b) == multiset(b[..i]) + (multiset{last} + multiset(b[i + 1..]));
        assert multiset(a) == multiset(a[..|a| - 1]) + multiset{last};
        assert multiset(rest) == multiset(b) - multiset{last};
        assert multiset(a[..|a| - 1]) == multiset(a) - multiset{last};
      }
      UnitsPermutation(a[..|a| - 1], rest, v);
      UnitsConcat(b[..i], b[i + 1..], v);
      UnitsConcat(b[..i], [last] + b[i + 1..], v);
      UnitsConcat([last], b[i + 1..], v);
      UnitsConcat(a[..|a| - 1], [last], v);
    }
  }
}
