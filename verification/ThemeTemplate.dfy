/** Nested theme templates: the schema's bounds and the depth check (`packages/theme-sdk/src/template.ts`). */
module ThemeTemplate {
  import opened Wrappers

  const MAX_SECTIONS := 64
  const MAX_REGIONS := 8
  const MAX_REGION_DEPTH := 2

  /** `regions` is absent, or a map kept as its entries in insertion order. */
  datatype Section = Plain(kind: string) | Layout(kind: string, regions: seq<Region>)

  datatype Region = Region(name: string, sections: seq<Section>)

  // ---------------------------------------------------------------- what parseTemplate checks

  /** The keys of a record are distinct. */
  predicate DistinctNames(regions: seq<Region>) {
    forall i, j :: 0 <= i < j < |regions| ==> regions[i].name != regions[j].name
  }

  /** `templateSectionSchema`, without the slug grammar of names. */
  predicate SectionInBounds(s: Section) {
    && s.kind != ""
    && (s.Layout? ==>
          && |s.regions| <= MAX_REGIONS && DistinctNames(s.regions)
          && (forall r | r in s.regions :: r.name != "" && |r.sections| <= MAX_SECTIONS)
          && (forall r | r in s.regions :: forall c | c in r.sections :: SectionInBounds(c)))
  }

  predicate TemplateInBounds(sections: seq<Section>) {
    |sections| <= MAX_SECTIONS && forall s | s in sections :: SectionInBounds(s)
  }

  /** `assertRegionDepth` returns rather than throws. */
  predicate DepthAccepted(s: Section, depth: nat) {
    if s.Plain? then true
    else if depth >= MAX_REGION_DEPTH then false
    else forall r | r in s.regions :: forall c | c in r.sections :: DepthAccepted(c, depth + 1)
  }

  predicate TemplateDepthAccepted(sections: seq<Section>) { forall s | s in sections :: DepthAccepted(s, 0) }

  // ---------------------------------------------------------------- positions in the tree

  /** One step down: which region, which section in it. */
  type Step = (nat, nat)

  /** The section reached from `s` along `path`, if the path leads anywhere. */
  function At(s: Section, path: seq<Step>): Option<Section>
    decreases |path|
  {
    if path == [] then Some(s)
    else if s.Plain? || path[0].0 >= |s.regions| then None
    else
      var nested := s.regions[path[0].0].sections;
      if path[0].1 >= |nested| then None else At(nested[path[0].1], path[1..])
  }

  /** Every section reached at absolute depth 2 or more declares no regions at all, not even an empty map. */
  ghost predicate FlatFromDepthTwo(s: Section, depth: nat) {
    forall path :: depth + |path| >= MAX_REGION_DEPTH && At(s, path).Some? ==> At(s, path).value.Plain?
  }

  lemma {:induction false} AcceptedIsFlat(s: Section, depth: nat, path: seq<Step>)
    requires DepthAccepted(s, depth) && depth + |path| >= MAX_REGION_DEPTH && At(s, path).Some?
    ensures At(s, path).value.Plain?
  {
    if path != [] {
      var region := s.regions[path[0].0];
      var child := region.sections[path[0].1];
      assert region in s.regions && child in region.sections;
      AcceptedIsFlat(child, depth + 1, path[1..]);
    }
  }

  lemma {:induction false} FlatIsAccepted(s: Section, depth: nat)
    requires depth <= MAX_REGION_DEPTH && FlatFromDepthTwo(s, depth)
    ensures DepthAccepted(s, depth)
  {
    assert At(s, []) == Some(s);
    if s.Layout? && depth < MAX_REGION_DEPTH {
      forall r, c | r in s.regions && c in r.sections ensures DepthAccepted(c, depth + 1) {
        var i :| 0 <= i < |s.regions| && s.regions[i] == r;
        var j :| 0 <= j < |r.sections| && r.sections[j] == c;
        forall path | depth + 1 + |path| >= MAX_REGION_DEPTH && At(c, path).Some?
          ensures At(c, path).value.Plain?
        {
          assert ([(i, j)] + path)[1..] == path;
          assert At(s, [(i, j)] + path) == At(c, path);
        }
        FlatIsAccepted(c, depth + 1);
      }
    }
  }

  /** The recursion accepts a template exactly when no section at depth 2 or deeper declares regions. */
  lemma DepthCheckIsExact(sections: seq<Section>)
    ensures TemplateDepthAccepted(sections) <==> forall s | s in sections :: FlatFromDepthTwo(s, 0)
  {
    forall s | s in sections ensures DepthAccepted(s, 0) <==> FlatFromDepthTwo(s, 0) {
      if DepthAccepted(s, 0) {
        forall path | 0 + |path| >= MAX_REGION_DEPTH && At(s, path).Some? ensures At(s, path).value.Plain? {
          AcceptedIsFlat(s, 0, path);
        }
      }
      if FlatFromDepthTwo(s, 0) { FlatIsAccepted(s, 0); }
    }
  }

  /** What the schema asks of one section, whatever is in its regions. */
  predicate Fits(s: Section) {
    && s.kind != ""
    && (s.Layout? ==>
          && |s.regions| <= 8
          && (forall i, j :: 0 <= i < j < |s.regions| ==> s.regions[i].name != s.regions[j].name)
          && (forall i :: 0 <= i < |s.regions| ==> s.regions[i].name != "" && |s.regions[i].sections| <= 64))
  }

  lemma {:induction false} InBoundsFit(s: Section, path: seq<Step>)
    requires SectionInBounds(s) && At(s, path).Some?
    ensures Fits(At(s, path).value)
  {
    if path != [] {
      var region := s.regions[path[0].0];
      assert region in s.regions && region.sections[path[0].1] in region.sections;
      InBoundsFit(region.sections[path[0].1], path[1..]);
    }
  }

  lemma {:induction false} FittingIsInBounds(s: Section)
    requires forall path :: At(s, path).Some? ==> Fits(At(s, path).value)
    ensures SectionInBounds(s)
  {
    assert At(s, []) == Some(s);
    if s.Layout? {
      forall r, c | r in s.regions && c in r.sections ensures SectionInBounds(c) {
        var i :| 0 <= i < |s.regions| && s.regions[i] == r;
        var j :| 0 <= j < |r.sections| && r.sections[j] == c;
        forall path | At(c, path).Some? ensures Fits(At(c, path).value) {
          assert ([(i, j)] + path)[1..] == path;
          assert At(s, [(i, j)] + path) == At(c, path);
        }
        FittingIsInBounds(c);
      }
    }
  }

  ghost predicate FitsThroughout(s: Section) { forall path :: At(s, path).Some? ==> Fits(At(s, path).value) }

  /** The schema accepts a template exactly when each section, at whatever depth, fits by itself. */
  lemma BoundsAreExact(sections: seq<Section>)
    ensures TemplateInBounds(sections) <==> |sections| <= 64 && forall s | s in sections :: FitsThroughout(s)
  {
    forall s | s in sections ensures SectionInBounds(s) <==> FitsThroughout(s) {
      if SectionInBounds(s) {
        forall path | At(s, path).Some? ensures Fits(At(s, path).value) { InBoundsFit(s, path); }
      }
      if FitsThroughout(s) { FittingIsInBounds(s); }
    }
  }

  // ---------------------------------------------------------------- the size this allows

  function Count(s: Section): nat
    decreases s, 0
  {
    1 + if s.Plain? then 0 else CountRegions(s.regions)
  }

  function CountRegions(regions: seq<Region>): nat
    decreases regions, 0
  {
    if regions == [] then 0 else CountSections(regions[0].sections) + CountRegions(regions[1..])
  }

  function CountSections(sections: seq<Section>): nat
    decreases sections, 0
  {
    if sections == [] then 0 else Count(sections[0]) + CountSections(sections[1..])
  }

  /** The most sections below and including one at `depth`. */
  function MostAt(depth: nat): nat {
    if depth >= MAX_REGION_DEPTH then 1 else 1 + (if depth == 1 then 512 else 512 * 513)
  }

  lemma OneMore(a: nat, n: nat)
    ensures (a + 1) * n == n + a * n
  {}

  lemma {:induction false} CountSectionsBound(sections: seq<Section>, depth: nat)
    requires forall s | s in sections :: SectionInBounds(s) && DepthAccepted(s, depth)
    ensures CountSections(sections) <= |sections| * MostAt(depth)
    decreases sections, 0
  {
    if sections != [] {
      CountBound(sections[0], depth);
      CountSectionsBound(sections[1..], depth);
      assert |sections| * MostAt(depth) == MostAt(depth) + |sections[1..]| * MostAt(depth);
    }
  }

  lemma {:induction false} CountRegionsBound(regions: seq<Region>, depth: nat)
    requires forall r | r in regions :: |r.sections| <= MAX_SECTIONS
    requires forall r | r in regions :: forall c | c in r.sections :: SectionInBounds(c) && DepthAccepted(c, depth)
    ensures CountRegions(regions) <= |regions| * (MAX_SECTIONS * MostAt(depth))
    decreases regions, 0
  {
    if regions != [] {
      CountSectionsBound(regions[0].sections, depth);
      CountRegionsBound(regions[1..], depth);
      assert |regions[0].sections| * MostAt(depth) <= MAX_SECTIONS * MostAt(depth);
      assert |regions| * (MAX_SECTIONS * MostAt(depth))
             == MAX_SECTIONS * MostAt(depth) + |regions[1..]| * (MAX_SECTIONS * MostAt(depth));
    }
  }

  lemma {:induction false} CountBound(s: Section, depth: nat)
    requires SectionInBounds(s) && DepthAccepted(s, depth)
    ensures Count(s) <= MostAt(depth)
    decreases s, 0
  {
    if s.Layout? {
      CountRegionsBound(s.regions, depth + 1);
      assert |s.regions| * (MAX_SECTIONS * MostAt(depth + 1)) <= MAX_REGIONS * (MAX_SECTIONS * MostAt(depth + 1));
    }
  }

  /** A template that passes the schema and the depth check holds at most 64 * (1 + 512 + 512 * 512) sections. */
  lemma AcceptedSizeBound(sections: seq<Section>)
    requires TemplateInBounds(sections) && TemplateDepthAccepted(sections)
    ensures CountSections(sections) <= 64 * (1 + 512 + 512 * 512)
  {
    CountSectionsBound(sections, 0);
  }

  /** Eight distinct region names. */
  const NAMES: seq<string> := ["a", "b", "c", "d", "e", "f", "g", "h"]

  /** A section with `k` more levels of eight regions of sixty-four sections each. */
  function Full(k: nat): Section
    decreases k
  {
    if k == 0 then Plain("text")
    else
      var sections := seq(MAX_SECTIONS, j => Full(k - 1));
      Layout("columns", seq(MAX_REGIONS, i requires 0 <= i < MAX_REGIONS => Region(NAMES[i], sections)))
  }

  lemma {:induction false} CountEqual(sections: seq<Section>, n: nat)
    requires forall i :: 0 <= i < |sections| ==> Count(sections[i]) == n
    ensures CountSections(sections) == |sections| * n
  {
    if sections != [] {
      CountEqual(sections[1..], n);
      OneMore(|sections[1..]|, n);
    }
  }

  lemma {:induction false} CountEqualRegions(regions: seq<Region>, n: nat)
    requires forall i :: 0 <= i < |regions| ==> CountSections(regions[i].sections) == n
    ensures CountRegions(regions) == |regions| * n
  {
    if regions != [] {
      CountEqualRegions(regions[1..], n);
      OneMore(|regions[1..]|, n);
    }
  }

  lemma {:induction false} FullSection(k: nat)
    requires k <= MAX_REGION_DEPTH
    ensures SectionInBounds(Full(k)) && DepthAccepted(Full(k), MAX_REGION_DEPTH - k)
    ensures Count(Full(k)) == MostAt(MAX_REGION_DEPTH - k)
  {
    if k > 0 {
      FullSection(k - 1);
      var regions := Full(k).regions;
      forall i | 0 <= i < |regions|
        ensures CountSections(regions[i].sections) == MAX_SECTIONS * MostAt(MAX_REGION_DEPTH - k + 1)
      {
        CountEqual(regions[i].sections, MostAt(MAX_REGION_DEPTH - k + 1));
      }
      CountEqualRegions(regions, MAX_SECTIONS * MostAt(MAX_REGION_DEPTH - k + 1));
    }
  }

  lemma Copies(s: Section, n: nat) returns (sections: seq<Section>)
    ensures |sections| == n && (forall c | c in sections :: c == s) && CountSections(sections) == n * Count(s)
  {
    sections := seq(n, i => s);
    CountEqual(sections, Count(s));
  }

  /** The bound is attained: the two checks alone admit a template of exactly that size. */
  lemma SizeBoundIsAttained()
    ensures exists sections :: TemplateInBounds(sections) && TemplateDepthAccepted(sections)
                               && CountSections(sections) == 64 * (1 + 512 + 512 * 512)
  {
    FullSection(2);
    var sections := Copies(Full(2), MAX_SECTIONS);
    assert TemplateInBounds(sections) && TemplateDepthAccepted(sections);
  }

  // ---------------------------------------------------------------- what the byte cap leaves of it

  const MANIFEST_MAX_BYTES := 64 * 1024

  const PAGE_TYPES: set<string> := {"home", "product", "category", "products", "search", "cart"}

  /** The compact JSON text of a template without settings: no text of the same template is shorter. */
  function Print(page: string, sections: seq<Section>): string {
    "{\"page\":\"" + page + "\",\"sections\":[" + PrintSections(sections) + "]}"
  }

  function PrintSection(s: Section): string
    decreases s, 0
  {
    "{\"type\":\"" + s.kind + "\"" + (if s.Plain? then "" else ",\"regions\":{" + PrintRegions(s.regions) + "}") + "}"
  }

  function PrintRegions(regions: seq<Region>): string
    decreases regions, 0
  {
    if regions == [] then ""
    else if |regions| == 1 then PrintRegion(regions[0])
    else PrintRegion(regions[0]) + "," + PrintRegions(regions[1..])
  }

  function PrintRegion(r: Region): string
    decreases r, 0
  {
    "\"" + r.name + "\":[" + PrintSections(r.sections) + "]"
  }

  function PrintSections(sections: seq<Section>): string
    decreases sections, 0
  {
    if sections == [] then ""
    else if |sections| == 1 then PrintSection(sections[0])
    else PrintSection(sections[0]) + "," + PrintSections(sections[1..])
  }

  /** How many sections with regions a tree has, and how many regions. */
  datatype Nesting = Nesting(layouts: nat, regions: nat)

  function Plus(a: Nesting, b: Nesting): Nesting { Nesting(a.layouts + b.layouts, a.regions + b.regions) }

  function NestingOf(s: Section): Nesting
    decreases s, 0
  {
    if s.Plain? then Nesting(0, 0) else Plus(Nesting(1, |s.regions|), NestingOfRegions(s.regions))
  }

  function NestingOfRegions(regions: seq<Region>): Nesting
    decreases regions, 0
  {
    if regions == [] then Nesting(0, 0)
    else Plus(NestingOfSections(regions[0].sections), NestingOfRegions(regions[1..]))
  }

  function NestingOfSections(sections: seq<Section>): Nesting
    decreases sections, 0
  {
    if sections == [] then Nesting(0, 0) else Plus(NestingOf(sections[0]), NestingOfSections(sections[1..]))
  }

  /** Names of one character, and nothing empty. */
  predicate Terse(s: Section) {
    |s.kind| == 1 && (s.Layout? ==> TerseRegions(s.regions))
  }

  predicate TerseRegion(r: Region) {
    |r.name| == 1 && TerseSections(r.sections)
  }

  /** Characters a tree takes with the separators: thirteen a section, twelve a layout and six a region. */
  function Cost(count: nat, n: Nesting): nat { 13 * count + 12 * n.layouts + 6 * n.regions }

  /** At least the cost, and no more for terse trees. */
  predicate Takes(length: nat, cost: nat, terse: bool) { length + 1 >= cost && (terse ==> length + 1 == cost) }

  predicate RegionInBounds(r: Region) { r.name != "" && forall c | c in r.sections :: SectionInBounds(c) }

  predicate TerseRegions(regions: seq<Region>) { regions != [] && forall r | r in regions :: TerseRegion(r) }

  predicate TerseSections(sections: seq<Section>) { sections != [] && forall c | c in sections :: Terse(c) }

  lemma PrintedSection(s: Section)
    ensures |PrintSection(s)| == 11 + |s.kind| + if s.Plain? then 0 else 13 + |PrintRegions(s.regions)|
  {}

  lemma {:induction false} SectionLength(s: Section)
    requires SectionInBounds(s)
    ensures Takes(|PrintSection(s)|, Cost(Count(s), NestingOf(s)), Terse(s))
    decreases s, 0
  {
    PrintedSection(s);
    if s.Layout? {
      forall r | r in s.regions ensures RegionInBounds(r) {}
      RegionsLength(s.regions);
    }
  }

  lemma RegionLength(r: Region, cost: nat)
    requires r.name != "" && Takes(|PrintSections(r.sections)|, cost, TerseSections(r.sections))
    ensures Takes(|PrintRegion(r)|, cost + 6, TerseRegion(r))
  {
    assert |PrintRegion(r)| == 5 + |r.name| + |PrintSections(r.sections)|;
  }

  lemma {:induction false} RegionsLength(regions: seq<Region>)
    requires forall r | r in regions :: RegionInBounds(r)
    ensures Takes(|PrintRegions(regions)|, Cost(CountRegions(regions), NestingOfRegions(regions)) + 6 * |regions|,
                  TerseRegions(regions))
    decreases regions, 0
  {
    if regions != [] {
      var first := regions[0].sections;
      assert RegionInBounds(regions[0]);
      SectionsLength(first);
      RegionLength(regions[0], Cost(CountSections(first), NestingOfSections(first)));
      RegionsLength(regions[1..]);
      PrintedRegions(regions);
    }
  }

  lemma PrintedRegions(regions: seq<Region>)
    requires regions != []
    ensures |PrintRegions(regions)| + 1 == |PrintRegion(regions[0])| + 1
            + if |regions| == 1 then 0 else |PrintRegions(regions[1..])| + 1
  {}

  lemma {:induction false} SectionsLength(sections: seq<Section>)
    requires forall c | c in sections :: SectionInBounds(c)
    ensures Takes(|PrintSections(sections)|, Cost(CountSections(sections), NestingOfSections(sections)),
                  TerseSections(sections))
    decreases sections, 0
  {
    if sections != [] {
      SectionLength(sections[0]);
      SectionsLength(sections[1..]);
    }
  }

  /** Sections beyond the top ones are in regions, sixty-four in each, and regions are in layouts, eight in each. */
  lemma {:induction false} SectionHolds(s: Section)
    requires SectionInBounds(s)
    ensures var n := NestingOf(s); Count(s) <= 1 + 64 * n.regions && n.regions <= 8 * n.layouts
    decreases s, 0
  {
    if s.Layout? { RegionsHold(s.regions); }
  }

  lemma {:induction false} RegionsHold(regions: seq<Region>)
    requires forall r | r in regions :: |r.sections| <= 64 && forall c | c in r.sections :: SectionInBounds(c)
    ensures var n := NestingOfRegions(regions);
            CountRegions(regions) <= 64 * (|regions| + n.regions) && n.regions <= 8 * n.layouts
    decreases regions, 0
  {
    if regions != [] {
      SectionsHold(regions[0].sections);
      RegionsHold(regions[1..]);
    }
  }

  lemma {:induction false} SectionsHold(sections: seq<Section>)
    requires forall c | c in sections :: SectionInBounds(c)
    ensures var n := NestingOfSections(sections);
            CountSections(sections) <= |sections| + 64 * n.regions && n.regions <= 8 * n.layouts
    decreases sections, 0
  {
    if sections != [] {
      SectionHolds(sections[0]);
      SectionsHold(sections[1..]);
    }
  }

  /**
   * A template whose text passes the byte cap holds at most 4,993 sections, so the cap is reached long before the
   * bounds of the schema and the depth check.
   */
  lemma ParsedSizeBound(page: string, sections: seq<Section>)
    requires page in PAGE_TYPES && TemplateInBounds(sections) && |Print(page, sections)| <= MANIFEST_MAX_BYTES
    ensures CountSections(sections) <= 4993
  {
    SectionsLength(sections);
    SectionsHold(sections);
    PageLength(page);
    PrintLength(page, PrintSections(sections));
    FitsTheCap(CountSections(sections), NestingOfSections(sections));
  }

  lemma FitsTheCap(count: nat, n: Nesting)
    requires 28 + Cost(count, n) <= 65536 && count <= 64 + 64 * n.regions && n.regions <= 8 * n.layouts
    ensures count <= 4993
  {}

  lemma PageLength(page: string)
    requires page in PAGE_TYPES
    ensures |page| >= 4
  {}

  lemma PrintLength(page: string, body: string)
    ensures |"{\"page\":\"" + page + "\",\"sections\":[" + body + "]}"| == 25 + |page| + |body|
  {}

  // ---------------------------------------------------------------- a template of that size

  /** A layout of `k` regions of `n` plain sections each. */
  function Grid(k: nat, n: nat): Section
    requires k <= MAX_REGIONS
  {
    Layout("a", seq(k, i requires 0 <= i < k => Region(NAMES[i], seq(n, j => Plain("a")))))
  }

  lemma {:induction false} PlainTally(sections: seq<Section>)
    requires forall c | c in sections :: c.Plain?
    ensures CountSections(sections) == |sections| && NestingOfSections(sections) == Nesting(0, 0)
  {
    if sections != [] { PlainTally(sections[1..]); }
  }

  lemma {:induction false} FullTally(sections: seq<Section>)
    requires forall c | c in sections :: Count(c) == 513 && NestingOf(c) == Nesting(1, 8)
    ensures CountSections(sections) == 513 * |sections|
    ensures NestingOfSections(sections) == Nesting(|sections|, 8 * |sections|)
  {
    if sections != [] { FullTally(sections[1..]); }
  }

  lemma {:induction false} FlatRegions(regions: seq<Region>)
    requires forall r | r in regions :: forall c | c in r.sections :: c.Plain?
    ensures NestingOfRegions(regions) == Nesting(0, 0)
  {
    if regions != [] {
      PlainTally(regions[0].sections);
      FlatRegions(regions[1..]);
    }
  }

  lemma {:induction false} TallyConcat(a: seq<Section>, b: seq<Section>)
    ensures CountSections(a + b) == CountSections(a) + CountSections(b)
    ensures NestingOfSections(a + b) == Plus(NestingOfSections(a), NestingOfSections(b))
  {
    if a == [] {
      assert a + b == b;
    } else {
      assert (a + b)[1..] == a[1..] + b;
      TallyConcat(a[1..], b);
    }
  }

  predicate IsGrid(s: Section, k: nat, n: nat) {
    Passes(s) && Count(s) == 1 + k * n && NestingOf(s) == Nesting(1, k)
  }

  lemma GridCount(k: nat, n: nat)
    requires k <= MAX_REGIONS
    ensures Count(Grid(k, n)) == 1 + k * n && NestingOf(Grid(k, n)) == Nesting(1, k)
  {
    var regions := Grid(k, n).regions;
    forall i | 0 <= i < k ensures CountSections(regions[i].sections) == n {
      CountEqual(regions[i].sections, 1);
    }
    CountEqualRegions(regions, n);
    FlatRegions(regions);
  }

  lemma GridFits(k: nat, n: nat)
    requires 1 <= k <= MAX_REGIONS && 1 <= n <= MAX_SECTIONS
    ensures var s := Grid(k, n); SectionInBounds(s) && DepthAccepted(s, 0) && Terse(s)
  {
    var regions := Grid(k, n).regions;
    forall r | r in regions ensures TerseRegion(r) && forall c | c in r.sections :: SectionInBounds(c) {}
  }

  lemma GridTally(k: nat, n: nat)
    requires 1 <= k <= MAX_REGIONS && 1 <= n <= MAX_SECTIONS
    ensures IsGrid(Grid(k, n), k, n)
  {
    GridCount(k, n);
    GridFits(k, n);
  }

  function Row(s: Section, n: nat): seq<Section> { seq(n, i => s) }

  /** `m` sections of the first kind, two more, and `n` plain ones. */
  function Crammed(m: nat, full: Section, two: seq<Section>, n: nat, plain: Section): seq<Section> {
    Row(full, m) + two + Row(plain, n)
  }

  lemma OneTally(s: Section)
    ensures CountSections([s]) == Count(s) && NestingOfSections([s]) == NestingOf(s)
  {}

  lemma PairTally(a: Section, b: Section)
    ensures CountSections([a, b]) == Count(a) + Count(b)
    ensures NestingOfSections([a, b]) == Plus(NestingOf(a), NestingOf(b))
  {
    assert [a, b] == [a] + [b];
    TallyConcat([a], [b]);
    OneTally(a);
    OneTally(b);
  }

  lemma ThreeTally(a: seq<Section>, b: seq<Section>, c: seq<Section>)
    ensures CountSections(a + b + c) == CountSections(a) + CountSections(b) + CountSections(c)
    ensures NestingOfSections(a + b + c)
            == Plus(Plus(NestingOfSections(a), NestingOfSections(b)), NestingOfSections(c))
  {
    TallyConcat(a, b);
    TallyConcat(a + b, c);
  }

  lemma CrammedTally(m: nat, full: Section, two: seq<Section>, n: nat, plain: Section)
    requires Count(full) == 513 && NestingOf(full) == Nesting(1, 8) && plain.Plain?
    ensures var all := Crammed(m, full, two, n, plain);
            && CountSections(all) == 513 * m + CountSections(two) + n
            && NestingOfSections(all) == Plus(Nesting(m, 8 * m), NestingOfSections(two))
  {
    FullTally(Row(full, m));
    PlainTally(Row(plain, n));
    ThreeTally(Row(full, m), two, Row(plain, n));
  }

  predicate Passes(s: Section) { SectionInBounds(s) && DepthAccepted(s, 0) && Terse(s) }

  /** Eight full layouts, two more and fifty-four plain sections on top hold seventy-eight regions in all. */
  lemma CrammedFits(full: Section, a: Section, b: Section, plain: Section)
    requires IsGrid(full, 8, 64) && IsGrid(a, 7, 64) && IsGrid(b, 7, 55) && plain.Plain? && |plain.kind| == 1
    ensures var all := Crammed(8, full, [a, b], 54, plain);
            && |all| == 64 && (forall s | s in all :: Passes(s))
            && CountSections(all) == 4993 && NestingOfSections(all) == Nesting(10, 78)
  {
    PairTally(a, b);
    CrammedTally(8, full, [a, b], 54, plain);
  }

  /** That bound is attained, by a text eleven characters short of the cap. */
  lemma ParsedSizeIsAttained()
    ensures exists sections :: TemplateInBounds(sections) && TemplateDepthAccepted(sections)
                               && |Print("home", sections)| == MANIFEST_MAX_BYTES - 11
                               && CountSections(sections) == 4993
  {
    var full, a, b, plain := Grid(8, 64), Grid(7, 64), Grid(7, 55), Plain("a");
    GridTally(8, 64);
    GridTally(7, 64);
    GridTally(7, 55);
    CrammedFits(full, a, b, plain);
    var sections := Crammed(8, full, [a, b], 54, plain);
    SectionsLength(sections);
    PrintLength("home", PrintSections(sections));
  }
}
