/**
 * The category forest of the admin page (`buildTree` in `apps/admin/src/routes/categories.tsx`).
 *
 * `BuildTree` allocates and links nodes as the source does; `ChildIds` and `RootIds` say which links it makes.
 */
module CategoryTree {
  import opened Wrappers

  datatype Category = Category(id: string, name: string, slug: string, parentId: Option<string>, position: int)

  class CategoryNode {
    const cat: Category
    var children: seq<CategoryNode>

    constructor (cat: Category)
      ensures this.cat == cat && children == []
    {
      this.cat := cat;
      children := [];
    }
  }

  // ---------------------------------------------------------------- the links

  function Ids(cats: seq<Category>): set<string> { set c | c in cats :: c.id }

  /** `cat.parentId && map.has(cat.parentId)`: null, empty and unknown parents do not count. */
  predicate HasParent(ids: set<string>, c: Category) {
    c.parentId.Some? && c.parentId.value != "" && c.parentId.value in ids
  }

  /** Ids of the entries that name `id` as their parent, in input order. */
  function ChildIds(cats: seq<Category>, ids: set<string>, id: string): seq<string> {
    if cats == [] then []
    else
      var front, last := ChildIds(cats[..|cats| - 1], ids, id), cats[|cats| - 1];
      if HasParent(ids, last) && last.parentId.value == id then front + [last.id] else front
  }

  function RootIds(cats: seq<Category>, ids: set<string>): seq<string> {
    if cats == [] then []
    else
      var front, last := RootIds(cats[..|cats| - 1], ids), cats[|cats| - 1];
      if HasParent(ids, last) then front else front + [last.id]
  }

  /** The entry `Map.set` leaves for `id`: the last one. */
  function EntryOf(cats: seq<Category>, id: string): Option<Category> {
    if cats == [] then None
    else if cats[|cats| - 1].id == id then Some(cats[|cats| - 1])
    else EntryOf(cats[..|cats| - 1], id)
  }

  // ---------------------------------------------------------------- the sort

  function Insert(sorted: seq<CategoryNode>, n: CategoryNode): seq<CategoryNode> {
    if sorted == [] || sorted[|sorted| - 1].cat.position <= n.cat.position then sorted + [n]
    else Insert(sorted[..|sorted| - 1], n) + [sorted[|sorted| - 1]]
  }

  /** `sort((a, b) => a.position - b.position)`, which is stable. */
  function SortByPosition(nodes: seq<CategoryNode>): seq<CategoryNode> {
    if nodes == [] then [] else Insert(SortByPosition(nodes[..|nodes| - 1]), nodes[|nodes| - 1])
  }

  predicate Sorted(nodes: seq<CategoryNode>) {
    forall i, j :: 0 <= i < j < |nodes| ==> nodes[i].cat.position <= nodes[j].cat.position
  }

  function AtPosition(nodes: seq<CategoryNode>, p: int): seq<CategoryNode> {
    if nodes == [] then []
    else
      var front, last := AtPosition(nodes[..|nodes| - 1], p), nodes[|nodes| - 1];
      if last.cat.position == p then front + [last] else front
  }

  predicate AtMost(nodes: seq<CategoryNode>, p: int) { forall i :: 0 <= i < |nodes| ==> nodes[i].cat.position <= p }

  lemma {:induction false} InsertElements(sorted: seq<CategoryNode>, n: CategoryNode)
    ensures multiset(Insert(sorted, n)) == multiset(sorted) + multiset{n}
  {
    if sorted != [] && sorted[|sorted| - 1].cat.position > n.cat.position {
      InsertElements(sorted[..|sorted| - 1], n);
      assert sorted == sorted[..|sorted| - 1] + [sorted[|sorted| - 1]];
    }
  }

  lemma {:induction false} InsertAtMost(sorted: seq<CategoryNode>, n: CategoryNode, p: int)
    requires AtMost(sorted, p) && n.cat.position <= p
    ensures AtMost(Insert(sorted, n), p)
  {
    if sorted != [] && sorted[|sorted| - 1].cat.position > n.cat.position {
      InsertAtMost(sorted[..|sorted| - 1], n, p);
    }
  }

  lemma {:induction false} InsertSorts(sorted: seq<CategoryNode>, n: CategoryNode)
    requires Sorted(sorted)
    ensures Sorted(Insert(sorted, n))
  {
    if sorted != [] && sorted[|sorted| - 1].cat.position > n.cat.position {
      var front, last := sorted[..|sorted| - 1], sorted[|sorted| - 1];
      InsertSorts(front, n);
      InsertAtMost(front, n, last.cat.position);
    }
  }

  lemma {:induction false} InsertIsStable(sorted: seq<CategoryNode>, n: CategoryNode, p: int)
    requires Sorted(sorted)
    ensures AtPosition(Insert(sorted, n), p)
            == if n.cat.position == p then AtPosition(sorted, p) + [n] else AtPosition(sorted, p)
  {
    if sorted == [] || sorted[|sorted| - 1].cat.position <= n.cat.position {
      assert (sorted + [n])[..|sorted|] == sorted;
    } else {
      var front, last := sorted[..|sorted| - 1], sorted[|sorted| - 1];
      InsertIsStable(front, n, p);
      assert (Insert(front, n) + [last])[..|Insert(front, n)|] == Insert(front, n);
      if n.cat.position == p {
        forall i | 0 <= i < |front| ensures front[i].cat.position <= last.cat.position {}
        assert AtPosition(sorted, p) == AtPosition(front, p);
      }
    }
  }

  lemma {:induction false} SortSorts(nodes: seq<CategoryNode>)
    ensures Sorted(SortByPosition(nodes))
  {
    if nodes != [] {
      SortSorts(nodes[..|nodes| - 1]);
      InsertSorts(SortByPosition(nodes[..|nodes| - 1]), nodes[|nodes| - 1]);
    }
  }

  lemma {:induction false} SortElements(nodes: seq<CategoryNode>)
    ensures multiset(SortByPosition(nodes)) == multiset(nodes)
  {
    if nodes != [] {
      SortElements(nodes[..|nodes| - 1]);
      InsertElements(SortByPosition(nodes[..|nodes| - 1]), nodes[|nodes| - 1]);
      assert nodes == nodes[..|nodes| - 1] + [nodes[|nodes| - 1]];
    }
  }

  /** Roots come out by position, and those of equal position in input order: this determines the sort. */
  lemma {:induction false} SortIsStable(nodes: seq<CategoryNode>, p: int)
    ensures Sorted(SortByPosition(nodes)) && AtPosition(SortByPosition(nodes), p) == AtPosition(nodes, p)
  {
    SortSorts(nodes);
    if nodes != [] {
      var front, last := nodes[..|nodes| - 1], nodes[|nodes| - 1];
      SortIsStable(front, p);
      InsertIsStable(SortByPosition(front), last, p);
    }
  }

  // ---------------------------------------------------------------- the method

  /** The nodes of `ids`, where `byId` has them all. */
  function NodesOf(ids: seq<string>, byId: map<string, CategoryNode>): seq<CategoryNode>
    requires forall i :: 0 <= i < |ids| ==> ids[i] in byId
  {
    seq(|ids|, i requires 0 <= i < |ids| => byId[ids[i]])
  }

  /** Every link made so far, after the second loop has visited the entries `seen`. */
  ghost predicate Linked(seen: seq<Category>, ids: set<string>, byId: map<string, CategoryNode>,
      roots: seq<CategoryNode>)
    reads byId.Values
  {
    && (forall id, i :: id in byId && 0 <= i < |ChildIds(seen, ids, id)| ==> ChildIds(seen, ids, id)[i] in byId)
    && (forall i :: 0 <= i < |RootIds(seen, ids)| ==> RootIds(seen, ids)[i] in byId)
    && (forall id :: id in byId ==> byId[id].children == NodesOf(ChildIds(seen, ids, id), byId))
    && roots == NodesOf(RootIds(seen, ids), byId)
  }

  lemma LinkStep(seen: seq<Category>, cat: Category, ids: set<string>)
    ensures forall id :: ChildIds(seen + [cat], ids, id)
                         == if HasParent(ids, cat) && cat.parentId.value == id then ChildIds(seen, ids, id) + [cat.id]
                            else ChildIds(seen, ids, id)
    ensures RootIds(seen + [cat], ids)
            == if HasParent(ids, cat) then RootIds(seen, ids) else RootIds(seen, ids) + [cat.id]
  {
    assert (seen + [cat])[..|seen|] == seen;
  }

  lemma NodesOfAppend(ids: seq<string>, id: string, byId: map<string, CategoryNode>)
    requires id in byId && forall i :: 0 <= i < |ids| ==> ids[i] in byId
    ensures forall i :: 0 <= i < |ids + [id]| ==> (ids + [id])[i] in byId
    ensures NodesOf(ids + [id], byId) == NodesOf(ids, byId) + [byId[id]]
  {}

  /** The body of the second loop. */
  method LinkOne(cat: Category, byId: map<string, CategoryNode>, roots: seq<CategoryNode>, ghost seen: seq<Category>)
    returns (roots': seq<CategoryNode>)
    requires cat.id in byId && (forall id :: id in byId ==> byId[id].cat.id == id)
    requires Linked(seen, byId.Keys, byId, roots)
    modifies byId.Values
    ensures Linked(seen + [cat], byId.Keys, byId, roots')
  {
    var node := byId[cat.id];
    LinkStep(seen, cat, byId.Keys);
    if cat.parentId.Some? && cat.parentId.value != "" && cat.parentId.value in byId {
      var parent := byId[cat.parentId.value];
      NodesOfAppend(ChildIds(seen, byId.Keys, cat.parentId.value), cat.id, byId);
      parent.children := parent.children + [node];
      roots' := roots;
    } else {
      NodesOfAppend(RootIds(seen, byId.Keys), cat.id, byId);
      roots' := roots + [node];
    }
  }

  method MakeNodes(categories: seq<Category>) returns (byId: map<string, CategoryNode>)
    ensures byId.Keys == Ids(categories)
    ensures forall id :: id in byId ==>
            fresh(byId[id]) && byId[id].children == [] && Some(byId[id].cat) == EntryOf(categories, id)
    ensures forall id :: id in byId ==> byId[id].cat.id == id
  {
    byId := map[];
    for n := 0 to |categories|
      invariant byId.Keys == Ids(categories[..n])
      invariant forall id :: id in byId ==>
                fresh(byId[id]) && byId[id].children == [] && Some(byId[id].cat) == EntryOf(categories[..n], id)
      invariant forall id :: id in byId ==> byId[id].cat.id == id
    {
      assert categories[..n + 1] == categories[..n] + [categories[n]];
      var node := new CategoryNode(categories[n]);
      byId := byId[categories[n].id := node];
    }
    assert categories[..|categories|] == categories;
  }

  // ---------------------------------------------------------------- the links, field by field

  /** Who is linked where, said of the fields: under the entry whose id is the parent id, otherwise among the roots. */
  ghost predicate LinksFollowFields(cats: seq<Category>, byId: map<string, CategoryNode>, roots: seq<CategoryNode>)
    reads byId.Values
  {
    && (forall i :: 0 <= i < |cats| ==> cats[i].id in byId)
    && (forall i, j :: 0 <= i < |cats| && 0 <= j < |cats| ==>
          (byId[cats[j].id] in byId[cats[i].id].children
           <==> cats[j].parentId == Some(cats[i].id) && cats[i].id != ""))
    && (forall j :: 0 <= j < |cats| ==> (byId[cats[j].id] in roots <==> NamesNoParent(cats, cats[j].parentId)))
  }

  predicate NamesNoParent(cats: seq<Category>, parentId: Option<string>) {
    parentId.None? || parentId.value == "" || forall i :: 0 <= i < |cats| ==> cats[i].id != parentId.value
  }

  /** Where the entry of `id` stands in the input. */
  function IndexOf(cats: seq<Category>, id: string): nat {
    if cats == [] || cats[0].id == id then 0 else 1 + IndexOf(cats[1..], id)
  }

  /** Siblings stand in input order; roots by position, and in input order where positions are equal. */
  ghost predicate InOrder(cats: seq<Category>, byId: map<string, CategoryNode>, roots: seq<CategoryNode>)
    reads byId.Values
  {
    && (forall id, a, b :: id in byId && 0 <= a < b < |byId[id].children| ==>
          IndexOf(cats, byId[id].children[a].cat.id) < IndexOf(cats, byId[id].children[b].cat.id))
    && RootsInOrder(cats, roots)
  }

  predicate RootsInOrder(cats: seq<Category>, roots: seq<CategoryNode>) {
    forall a, b :: 0 <= a < b < |roots| ==> Precedes(cats, roots[a], roots[b])
  }

  predicate Precedes(cats: seq<Category>, m: CategoryNode, n: CategoryNode) {
    || m.cat.position < n.cat.position
    || (m.cat.position == n.cat.position && IndexOf(cats, m.cat.id) < IndexOf(cats, n.cat.id))
  }

  lemma {:induction false} InChildIds(seen: seq<Category>, ids: set<string>, id: string, b: string)
    ensures b in ChildIds(seen, ids, id)
            <==> id in ids && id != "" && exists k :: 0 <= k < |seen| && seen[k].id == b && seen[k].parentId == Some(id)
  {
    if seen != [] {
      var front, last := seen[..|seen| - 1], seen[|seen| - 1];
      InChildIds(front, ids, id, b);
      assert forall k :: 0 <= k < |front| ==> front[k] == seen[k];
    }
  }

  predicate Parentless(ids: set<string>, parentId: Option<string>) {
    parentId.None? || parentId.value == "" || parentId.value !in ids
  }

  lemma {:induction false} InRootIds(seen: seq<Category>, ids: set<string>, b: string)
    ensures b in RootIds(seen, ids)
            <==> exists k :: 0 <= k < |seen| && seen[k].id == b && Parentless(ids, seen[k].parentId)
  {
    if seen != [] {
      var front, last := seen[..|seen| - 1], seen[|seen| - 1];
      InRootIds(front, ids, b);
      assert forall k :: 0 <= k < |front| ==> front[k] == seen[k];
    }
  }

  lemma InNodesOf(ids: seq<string>, byId: map<string, CategoryNode>, x: string)
    requires x in byId && (forall i :: 0 <= i < |ids| ==> ids[i] in byId)
    requires forall id :: id in byId ==> byId[id].cat.id == id
    ensures byId[x] in NodesOf(ids, byId) <==> x in ids
  {
    if x in ids {
      var i :| 0 <= i < |ids| && ids[i] == x;
      assert NodesOf(ids, byId)[i] == byId[x];
    }
    if byId[x] in NodesOf(ids, byId) {
      var i :| 0 <= i < |ids| && NodesOf(ids, byId)[i] == byId[x];
      assert ids[i] == byId[ids[i]].cat.id == x;
    }
  }

  lemma ChildLink(cats: seq<Category>, byId: map<string, CategoryNode>, inOrder: seq<CategoryNode>, i: nat, j: nat)
    requires DistinctIds(cats) && byId.Keys == Ids(cats) && (forall id :: id in byId ==> byId[id].cat.id == id)
    requires Linked(cats, Ids(cats), byId, inOrder) && i < |cats| && j < |cats|
    ensures cats[i].id in byId && cats[j].id in byId
    ensures byId[cats[j].id] in byId[cats[i].id].children
            <==> cats[j].parentId == Some(cats[i].id) && cats[i].id != ""
  {
    assert cats[i].id in Ids(cats) && cats[j].id in Ids(cats);
    InChildIds(cats, Ids(cats), cats[i].id, cats[j].id);
    InNodesOf(ChildIds(cats, Ids(cats), cats[i].id), byId, cats[j].id);
  }

  lemma RootLink(cats: seq<Category>, byId: map<string, CategoryNode>, inOrder: seq<CategoryNode>, j: nat)
    requires DistinctIds(cats) && byId.Keys == Ids(cats) && (forall id :: id in byId ==> byId[id].cat.id == id)
    requires Linked(cats, Ids(cats), byId, inOrder) && j < |cats|
    ensures cats[j].id in byId
    ensures byId[cats[j].id] in SortByPosition(inOrder) <==> NamesNoParent(cats, cats[j].parentId)
  {
    assert cats[j].id in Ids(cats);
    InRootIds(cats, Ids(cats), cats[j].id);
    InNodesOf(RootIds(cats, Ids(cats)), byId, cats[j].id);
    SortElements(inOrder);
    assert byId[cats[j].id] in SortByPosition(inOrder) <==> byId[cats[j].id] in multiset(inOrder);
  }

  lemma LinkedFollowsFields(cats: seq<Category>, byId: map<string, CategoryNode>, inOrder: seq<CategoryNode>)
    requires DistinctIds(cats) && byId.Keys == Ids(cats) && (forall id :: id in byId ==> byId[id].cat.id == id)
    requires Linked(cats, Ids(cats), byId, inOrder)
    ensures LinksFollowFields(cats, byId, SortByPosition(inOrder))
  {
    forall i, j | 0 <= i < |cats| && 0 <= j < |cats|
      ensures cats[i].id in byId && cats[j].id in byId
      ensures byId[cats[j].id] in byId[cats[i].id].children
              <==> cats[j].parentId == Some(cats[i].id) && cats[i].id != ""
    {
      ChildLink(cats, byId, inOrder, i, j);
    }
    forall j | 0 <= j < |cats|
      ensures cats[j].id in byId
      ensures byId[cats[j].id] in SortByPosition(inOrder) <==> NamesNoParent(cats, cats[j].parentId)
    {
      RootLink(cats, byId, inOrder, j);
    }
  }

  lemma {:induction false} IndexOfEntry(cats: seq<Category>, k: nat)
    requires DistinctIds(cats) && k < |cats|
    ensures IndexOf(cats, cats[k].id) == k
  {
    if k > 0 { IndexOfEntry(cats[1..], k - 1); }
  }

  predicate Ascending(cats: seq<Category>, ids: seq<string>, n: nat) {
    && (forall a, b :: 0 <= a < b < |ids| ==> IndexOf(cats, ids[a]) < IndexOf(cats, ids[b]))
    && (forall a :: 0 <= a < |ids| ==> IndexOf(cats, ids[a]) < n)
  }

  lemma {:induction false} LinksAscend(cats: seq<Category>, n: nat, id: string)
    requires DistinctIds(cats) && n <= |cats|
    ensures Ascending(cats, ChildIds(cats[..n], Ids(cats), id), n) && Ascending(cats, RootIds(cats[..n], Ids(cats)), n)
  {
    if n > 0 {
      var before := cats[..n - 1];
      LinksAscend(cats, n - 1, id);
      assert cats[..n] == before + [cats[n - 1]];
      LinkStep(before, cats[n - 1], Ids(cats));
      IndexOfEntry(cats, n - 1);
      OneMoreAscends(cats, ChildIds(before, Ids(cats), id), cats[n - 1].id, n - 1);
      OneMoreAscends(cats, RootIds(before, Ids(cats)), cats[n - 1].id, n - 1);
    }
  }

  lemma OneMoreAscends(cats: seq<Category>, ids: seq<string>, id: string, n: nat)
    requires Ascending(cats, ids, n) && IndexOf(cats, id) == n
    ensures Ascending(cats, ids, n + 1) && Ascending(cats, ids + [id], n + 1)
  {}

  lemma {:induction false} InsertInOrder(cats: seq<Category>, sorted: seq<CategoryNode>, n: CategoryNode)
    requires RootsInOrder(cats, sorted)
    requires forall i :: 0 <= i < |sorted| ==> IndexOf(cats, sorted[i].cat.id) < IndexOf(cats, n.cat.id)
    ensures RootsInOrder(cats, Insert(sorted, n))
  {
    if sorted != [] && sorted[|sorted| - 1].cat.position > n.cat.position {
      var front, last := sorted[..|sorted| - 1], sorted[|sorted| - 1];
      InsertInOrder(cats, front, n);
      InsertElements(front, n);
      forall i | 0 <= i < |Insert(front, n)| ensures Precedes(cats, Insert(front, n)[i], last) {
        assert Insert(front, n)[i] in multiset(front) + multiset{n};
      }
    }
  }

  lemma {:induction false} SortInOrder(cats: seq<Category>, nodes: seq<CategoryNode>)
    requires forall a, b :: 0 <= a < b < |nodes| ==> IndexOf(cats, nodes[a].cat.id) < IndexOf(cats, nodes[b].cat.id)
    ensures RootsInOrder(cats, SortByPosition(nodes))
  {
    if nodes != [] {
      var front, last := nodes[..|nodes| - 1], nodes[|nodes| - 1];
      SortInOrder(cats, front);
      SortElements(front);
      var sorted := SortByPosition(front);
      forall i | 0 <= i < |sorted| ensures IndexOf(cats, sorted[i].cat.id) < IndexOf(cats, last.cat.id) {
        assert sorted[i] in multiset(front);
      }
      InsertInOrder(cats, sorted, last);
    }
  }

  lemma LinkedInOrder(cats: seq<Category>, byId: map<string, CategoryNode>, inOrder: seq<CategoryNode>)
    requires DistinctIds(cats) && byId.Keys == Ids(cats) && (forall id :: id in byId ==> byId[id].cat.id == id)
    requires Linked(cats, Ids(cats), byId, inOrder)
    ensures InOrder(cats, byId, SortByPosition(inOrder))
  {
    assert cats[..|cats|] == cats;
    forall id, a, b | id in byId && 0 <= a < b < |byId[id].children|
      ensures IndexOf(cats, byId[id].children[a].cat.id) < IndexOf(cats, byId[id].children[b].cat.id)
    {
      LinksAscend(cats, |cats|, id);
    }
    LinksAscend(cats, |cats|, "");
    SortInOrder(cats, inOrder);
  }

  method BuildTree(categories: seq<Category>) returns (roots: seq<CategoryNode>, ghost byId: map<string, CategoryNode>)
    ensures byId.Keys == Ids(categories)
    ensures forall id :: id in byId ==>
            fresh(byId[id]) && byId[id].cat.id == id && Some(byId[id].cat) == EntryOf(categories, id)
    ensures exists inOrder :: Linked(categories, Ids(categories), byId, inOrder) && roots == SortByPosition(inOrder)
    ensures DistinctIds(categories) ==> LinksFollowFields(categories, byId, roots) && InOrder(categories, byId, roots)
    ensures DistinctIds(categories) ==> forall x, fuel: nat :: x in byId && fuel >= |categories| ==>
              multiset(FlatNodes(roots, fuel))[x] == if BelowCycle(categories, x) then 0 else 1
  {
    var nodes := MakeNodes(categories);
    byId := nodes;
    roots := [];
    for n := 0 to |categories|
      invariant Linked(categories[..n], Ids(categories), nodes, roots)
    {
      assert categories[..n + 1] == categories[..n] + [categories[n]];
      roots := LinkOne(categories[n], nodes, roots, categories[..n]);
    }
    assert categories[..|categories|] == categories;
    ghost var inOrder := roots;
    roots := SortByPosition(roots);
    if DistinctIds(categories) {
      LinkedFollowsFields(categories, byId, inOrder);
      LinkedInOrder(categories, byId, inOrder);
      forall x, fuel: nat | x in byId && fuel >= |categories|
        ensures multiset(FlatNodes(roots, fuel))[x] == if BelowCycle(categories, x) then 0 else 1
      {
        BuiltForestIsExact(categories, byId, inOrder, fuel, x);
      }
    }
  }

  // ---------------------------------------------------------------- parents, chains and cycles

  ghost predicate DistinctIds(cats: seq<Category>) {
    forall i, j :: 0 <= i < j < |cats| ==> cats[i].id != cats[j].id
  }

  /** The known parent of `id`, if it has one. */
  function ParentOf(cats: seq<Category>, ids: set<string>, id: string): Option<string> {
    var c := EntryOf(cats, id);
    if c.Some? && HasParent(ids, c.value) then c.value.parentId else None
  }

  /** The `n`-th ancestor; the 0-th is the category itself. */
  function Ancestor(cats: seq<Category>, id: string, n: nat): Option<string> {
    if n == 0 then (if id in Ids(cats) then Some(id) else None)
    else
      match Ancestor(cats, id, n - 1)
      case None => None
      case Some(a) => ParentOf(cats, Ids(cats), a)
  }

  /** The parent chain ends after `n` steps, at a category whose parent is missing or unknown. */
  predicate EndsAt(cats: seq<Category>, id: string, n: nat) {
    Ancestor(cats, id, n).Some? && Ancestor(cats, id, n + 1).None?
  }

  ghost predicate Rooted(cats: seq<Category>, id: string) { exists n: nat :: EndsAt(cats, id, n) }

  ghost predicate OnCycle(cats: seq<Category>, id: string) {
    exists n: nat :: n > 0 && Ancestor(cats, id, n) == Some(id)
  }

  /** Member or descendant of a parent cycle. */
  ghost predicate BelowCycle(cats: seq<Category>, id: string) {
    exists m: nat :: Ancestor(cats, id, m).Some? && OnCycle(cats, Ancestor(cats, id, m).value)
  }

  lemma {:induction false} EntryOfIsEntry(cats: seq<Category>, id: string)
    ensures EntryOf(cats, id).Some? <==> id in Ids(cats)
    ensures EntryOf(cats, id).Some? ==> EntryOf(cats, id).value in cats && EntryOf(cats, id).value.id == id
  {
    if cats != [] {
      var front := cats[..|cats| - 1];
      EntryOfIsEntry(front, id);
      assert cats == front + [cats[|cats| - 1]];
    }
  }

  lemma ParentIsKnown(cats: seq<Category>, id: string)
    ensures ParentOf(cats, Ids(cats), id).Some? ==> ParentOf(cats, Ids(cats), id).value in Ids(cats) && id in Ids(cats)
  {
    EntryOfIsEntry(cats, id);
  }

  lemma {:induction false} AncestorKnown(cats: seq<Category>, id: string, n: nat)
    ensures Ancestor(cats, id, n).Some? ==> Ancestor(cats, id, n).value in Ids(cats) && id in Ids(cats)
  {
    if n > 0 {
      AncestorKnown(cats, id, n - 1);
      if Ancestor(cats, id, n - 1).Some? { ParentIsKnown(cats, Ancestor(cats, id, n - 1).value); }
    }
  }

  /** Going up `m` and then `n` steps is going up `m + n`. */
  lemma {:induction false} AncestorAdds(cats: seq<Category>, id: string, m: nat, n: nat)
    ensures Ancestor(cats, id, m + n)
            == match Ancestor(cats, id, m) case None => None case Some(a) => Ancestor(cats, a, n)
  {
    if n == 0 {
      AncestorKnown(cats, id, m);
    } else {
      AncestorAdds(cats, id, m, n - 1);
      assert m + n - 1 == m + (n - 1);
    }
  }

  /** Round and round a cycle of length `p`, as far as you like. */
  lemma {:induction false} CycleRepeats(cats: seq<Category>, id: string, p: nat, k: nat) returns (q: nat)
    requires p > 0 && Ancestor(cats, id, p) == Some(id)
    ensures k <= q && Ancestor(cats, id, q) == Some(id)
  {
    if k <= p {
      q := p;
    } else {
      var r := CycleRepeats(cats, id, p, k - 1);
      AncestorAdds(cats, id, r, p);
      q := r + p;
    }
  }

  lemma PrefixOfChain(cats: seq<Category>, id: string, m: nat, n: nat)
    requires m <= n && Ancestor(cats, id, n).Some?
    ensures Ancestor(cats, id, m).Some?
  {
    AncestorAdds(cats, id, m, n - m);
  }

  lemma CycleNeverEnds(cats: seq<Category>, id: string, k: nat)
    requires BelowCycle(cats, id)
    ensures Ancestor(cats, id, k).Some?
  {
    var m: nat :| Ancestor(cats, id, m).Some? && OnCycle(cats, Ancestor(cats, id, m).value);
    var a := Ancestor(cats, id, m).value;
    var p: nat :| p > 0 && Ancestor(cats, a, p) == Some(a);
    var q := CycleRepeats(cats, a, p, k);
    AncestorAdds(cats, id, m, q);
    PrefixOfChain(cats, id, k, m + q);
  }

  /** The first `n` categories of a chain. */
  function Chain(cats: seq<Category>, id: string, n: nat): (c: seq<string>)
    requires n > 0 ==> Ancestor(cats, id, n - 1).Some?
    ensures |c| == n && forall i :: 0 <= i < n ==> Ancestor(cats, id, i) == Some(c[i])
  {
    if n == 0 then [] else Chain(cats, id, n - 1) + [Ancestor(cats, id, n - 1).value]
  }

  lemma {:induction false} Pigeonhole(s: seq<string>, all: set<string>)
    requires (forall i :: 0 <= i < |s| ==> s[i] in all) && |s| > |all|
    ensures exists i, j :: 0 <= i < j < |s| && s[i] == s[j]
  {
    var last := s[|s| - 1];
    var front := s[..|s| - 1];
    if last in front {
      var i :| 0 <= i < |front| && front[i] == last;
      assert s[i] == s[|s| - 1];
    } else {
      forall i | 0 <= i < |front| ensures front[i] in all - {last} { assert front[i] == s[i]; }
      Pigeonhole(front, all - {last});
      var i, j :| 0 <= i < j < |front| && front[i] == front[j];
      assert s[i] == s[j];
    }
  }

  lemma {:induction false} IdsAtMost(cats: seq<Category>)
    ensures |Ids(cats)| <= |cats|
  {
    if cats != [] {
      IdsAtMost(cats[..|cats| - 1]);
      assert cats == cats[..|cats| - 1] + [cats[|cats| - 1]];
      assert Ids(cats) == Ids(cats[..|cats| - 1]) + {cats[|cats| - 1].id};
    }
  }

  /** A chain with more steps than there are categories runs into a cycle. */
  lemma LongChainCycles(cats: seq<Category>, id: string)
    requires Ancestor(cats, id, |cats|).Some?
    ensures BelowCycle(cats, id)
  {
    var chain := Chain(cats, id, |cats| + 1);
    forall i | 0 <= i < |chain| ensures chain[i] in Ids(cats) { AncestorKnown(cats, id, i); }
    IdsAtMost(cats);
    Pigeonhole(chain, Ids(cats));
    var i, j :| 0 <= i < j < |chain| && chain[i] == chain[j];
    AncestorAdds(cats, id, i, j - i);
    assert OnCycle(cats, chain[i]);
  }

  lemma {:induction false} ChainStops(cats: seq<Category>, id: string, n: nat)
    requires id in Ids(cats) && Ancestor(cats, id, n).None?
    ensures exists k: nat :: k < n && EndsAt(cats, id, k)
  {
    if Ancestor(cats, id, n - 1).None? {
      ChainStops(cats, id, n - 1);
    } else {
      assert EndsAt(cats, id, n - 1);
    }
  }

  /**
   * A category either has a parent chain that ends, within as many steps as there are categories, or is on or
   * below a cycle.
   */
  lemma RootedExactly(cats: seq<Category>, id: string)
    requires id in Ids(cats)
    ensures Rooted(cats, id) <==> !BelowCycle(cats, id)
    ensures Rooted(cats, id) ==> exists k: nat :: k < |cats| && EndsAt(cats, id, k)
  {
    if Ancestor(cats, id, |cats|).Some? {
      LongChainCycles(cats, id);
    } else {
      ChainStops(cats, id, |cats|);
    }
    if BelowCycle(cats, id) {
      forall n: nat ensures !EndsAt(cats, id, n) { CycleNeverEnds(cats, id, n + 1); }
      if Ancestor(cats, id, |cats|).None? { CycleNeverEnds(cats, id, |cats|); }
    }
  }

  // ---------------------------------------------------------------- who is in the forest

  predicate IsChild(ids: set<string>, c: Category, id: string) { HasParent(ids, c) && c.parentId.value == id }

  lemma {:induction false} ChildIdsFrom(seen: seq<Category>, ids: set<string>, id: string)
    ensures forall i :: 0 <= i < |seen| && IsChild(ids, seen[i], id) ==> seen[i].id in ChildIds(seen, ids, id)
    ensures forall b :: b in ChildIds(seen, ids, id) ==>
            exists i :: 0 <= i < |seen| && seen[i].id == b && IsChild(ids, seen[i], id)
    ensures DistinctIds(seen) ==> NoRepeats(ChildIds(seen, ids, id))
  {
    if seen != [] {
      var n := |seen| - 1;
      ChildIdsFrom(seen[..n], ids, id);
      forall i | 0 <= i < |seen| && IsChild(ids, seen[i], id) ensures seen[i].id in ChildIds(seen, ids, id) {
        if i < n { assert seen[..n][i] == seen[i]; }
      }
      if DistinctIds(seen) {
        assert seen[n].id !in ChildIds(seen[..n], ids, id);
      }
      forall b | b in ChildIds(seen, ids, id)
        ensures exists i :: 0 <= i < |seen| && seen[i].id == b && IsChild(ids, seen[i], id)
      {
        if b in ChildIds(seen[..n], ids, id) {
          var i :| 0 <= i < n && seen[..n][i].id == b && IsChild(ids, seen[..n][i], id);
          assert seen[i].id == b && IsChild(ids, seen[i], id);
        } else {
          assert seen[n].id == b && IsChild(ids, seen[n], id);
        }
      }
    }
  }

  lemma {:induction false} RootIdsFrom(seen: seq<Category>, ids: set<string>)
    ensures forall i :: 0 <= i < |seen| && !HasParent(ids, seen[i]) ==> seen[i].id in RootIds(seen, ids)
    ensures forall b :: b in RootIds(seen, ids) ==>
            exists i :: 0 <= i < |seen| && seen[i].id == b && !HasParent(ids, seen[i])
    ensures DistinctIds(seen) ==> NoRepeats(RootIds(seen, ids))
  {
    if seen != [] {
      var n := |seen| - 1;
      RootIdsFrom(seen[..n], ids);
      forall i | 0 <= i < |seen| && !HasParent(ids, seen[i]) ensures seen[i].id in RootIds(seen, ids) {
        if i < n { assert seen[..n][i] == seen[i]; }
      }
      if DistinctIds(seen) {
        assert seen[n].id !in RootIds(seen[..n], ids);
      }
      forall b | b in RootIds(seen, ids)
        ensures exists i :: 0 <= i < |seen| && seen[i].id == b && !HasParent(ids, seen[i])
      {
        if b in RootIds(seen[..n], ids) {
          var i :| 0 <= i < n && seen[..n][i].id == b && !HasParent(ids, seen[..n][i]);
          assert seen[i].id == b && !HasParent(ids, seen[i]);
        } else {
          assert seen[n].id == b && !HasParent(ids, seen[n]);
        }
      }
    }
  }

  lemma {:induction false} EntryOfDistinct(cats: seq<Category>, i: nat)
    requires DistinctIds(cats) && i < |cats|
    ensures EntryOf(cats, cats[i].id) == Some(cats[i])
  {
    if i < |cats| - 1 {
      EntryOfDistinct(cats[..|cats| - 1], i);
    }
  }

  /** Children are exactly the categories with that parent, each once. */
  lemma ChildIdsExactly(cats: seq<Category>, id: string)
    requires DistinctIds(cats)
    ensures forall b ::
              b in ChildIds(cats, Ids(cats), id) <==> b in Ids(cats) && ParentOf(cats, Ids(cats), b) == Some(id)
    ensures NoRepeats(ChildIds(cats, Ids(cats), id))
  {
    ChildIdsFrom(cats, Ids(cats), id);
    forall i | 0 <= i < |cats| ensures EntryOf(cats, cats[i].id) == Some(cats[i]) { EntryOfDistinct(cats, i); }
  }

  lemma ChildIdsDistinct(cats: seq<Category>, id: string)
    requires DistinctIds(cats)
    ensures NoRepeats(ChildIds(cats, Ids(cats), id))
  {
    ChildIdsFrom(cats, Ids(cats), id);
  }

  lemma RootIdsExactly(cats: seq<Category>)
    requires DistinctIds(cats)
    ensures forall b :: b in RootIds(cats, Ids(cats)) <==> b in Ids(cats) && ParentOf(cats, Ids(cats), b).None?
    ensures NoRepeats(RootIds(cats, Ids(cats)))
  {
    RootIdsFrom(cats, Ids(cats));
    forall i | 0 <= i < |cats| ensures EntryOf(cats, cats[i].id) == Some(cats[i]) { EntryOfDistinct(cats, i); }
  }

  /** The forest below `todo` in depth-first order, `fuel` levels deep. */
  function Flat(cats: seq<Category>, todo: seq<string>, fuel: nat): seq<string>
    decreases fuel, |todo|
  {
    if todo == [] || fuel == 0 then []
    else [todo[0]] + Flat(cats, ChildIds(cats, Ids(cats), todo[0]), fuel - 1) + Flat(cats, todo[1..], fuel)
  }

  /** How many of the first `fuel` ancestors of `x` are in `todo`. */
  function Hits(cats: seq<Category>, x: string, todo: seq<string>, fuel: nat): nat {
    if fuel == 0 then 0
    else
      var a := Ancestor(cats, x, fuel - 1);
      Hits(cats, x, todo, fuel - 1) + if a.Some? && a.value in todo then 1 else 0
  }

  lemma {:induction false} HitsSplit(cats: seq<Category>, x: string, a: string, rest: seq<string>, fuel: nat)
    requires a !in rest
    ensures Hits(cats, x, [a] + rest, fuel) == Hits(cats, x, [a], fuel) + Hits(cats, x, rest, fuel)
  {
    if fuel > 0 {
      HitsSplit(cats, x, a, rest, fuel - 1);
    }
  }

  /** `x` meets `a` on its way up either at once or right after meeting one of `a`'s children. */
  lemma {:induction false} HitsShift(cats: seq<Category>, x: string, a: string, fuel: nat)
    requires DistinctIds(cats) && x in Ids(cats) && fuel > 0
    ensures Hits(cats, x, [a], fuel)
            == (if x == a then 1 else 0) + Hits(cats, x, ChildIds(cats, Ids(cats), a), fuel - 1)
  {
    if fuel > 1 {
      HitsShift(cats, x, a, fuel - 1);
      ChildIdsExactly(cats, a);
      AncestorKnown(cats, x, fuel - 2);
    } else {
      assert Hits(cats, x, [a], 0) == 0;
    }
  }

  /** How often the flattened forest shows `x`. */
  function Shown(cats: seq<Category>, todo: seq<string>, fuel: nat, x: string): nat {
    multiset(Flat(cats, todo, fuel))[x]
  }

  lemma ShownStep(cats: seq<Category>, todo: seq<string>, fuel: nat, x: string)
    requires todo != [] && fuel > 0
    ensures Shown(cats, todo, fuel, x)
            == (if x == todo[0] then 1 else 0) + Shown(cats, ChildIds(cats, Ids(cats), todo[0]), fuel - 1, x)
               + Shown(cats, todo[1..], fuel, x)
  {
    var below, beside := Flat(cats, ChildIds(cats, Ids(cats), todo[0]), fuel - 1), Flat(cats, todo[1..], fuel);
    assert Flat(cats, todo, fuel) == [todo[0]] + below + beside;
    assert multiset([todo[0]] + below + beside)[x] == multiset([todo[0]])[x] + multiset(below)[x] + multiset(beside)[x];
  }

  lemma ShownNothing(cats: seq<Category>, todo: seq<string>, fuel: nat, x: string)
    requires todo == [] || fuel == 0
    ensures Shown(cats, todo, fuel, x) == 0
  {}

  lemma HitsStep(cats: seq<Category>, todo: seq<string>, fuel: nat, x: string)
    requires DistinctIds(cats) && NoRepeats(todo) && x in Ids(cats) && todo != [] && fuel > 0
    ensures Hits(cats, x, todo, fuel)
            == (if x == todo[0] then 1 else 0) + Hits(cats, x, ChildIds(cats, Ids(cats), todo[0]), fuel - 1)
               + Hits(cats, x, todo[1..], fuel)
  {
    assert todo == [todo[0]] + todo[1..];
    HitsSplit(cats, x, todo[0], todo[1..], fuel);
    HitsShift(cats, x, todo[0], fuel);
  }

  lemma {:induction false} FlatCounts(cats: seq<Category>, todo: seq<string>, fuel: nat, x: string)
    requires DistinctIds(cats) && NoRepeats(todo) && x in Ids(cats)
    ensures Shown(cats, todo, fuel, x) == Hits(cats, x, todo, fuel)
    decreases fuel, |todo|
  {
    if todo == [] || fuel == 0 {
      NoHits(cats, x, todo, fuel);
      ShownNothing(cats, todo, fuel, x);
    } else {
      var children, rest := ChildIds(cats, Ids(cats), todo[0]), todo[1..];
      ChildIdsDistinct(cats, todo[0]);
      FlatCounts(cats, children, fuel - 1, x);
      FlatCounts(cats, rest, fuel, x);
      calc {
        Shown(cats, todo, fuel, x);
        { ShownStep(cats, todo, fuel, x); }
        (if x == todo[0] then 1 else 0) + Shown(cats, children, fuel - 1, x) + Shown(cats, rest, fuel, x);
        (if x == todo[0] then 1 else 0) + Hits(cats, x, children, fuel - 1) + Hits(cats, x, rest, fuel);
        { HitsStep(cats, todo, fuel, x); }
        Hits(cats, x, todo, fuel);
      }
    }
  }

  lemma {:induction false} NoHits(cats: seq<Category>, x: string, todo: seq<string>, fuel: nat)
    requires todo == [] || fuel == 0
    ensures Hits(cats, x, todo, fuel) == 0
  {
    if fuel > 0 { NoHits(cats, x, todo, fuel - 1); }
  }

  /** A chain ends at most once. */
  lemma {:induction false} RootHits(cats: seq<Category>, x: string, roots: seq<string>, fuel: nat)
    requires x in Ids(cats) && forall b :: b in roots <==> b in Ids(cats) && ParentOf(cats, Ids(cats), b).None?
    ensures Hits(cats, x, roots, fuel) == if exists k: nat :: k < fuel && EndsAt(cats, x, k) then 1 else 0
  {
    if fuel > 0 {
      RootHits(cats, x, roots, fuel - 1);
      AncestorKnown(cats, x, fuel - 1);
      assert EndsAt(cats, x, fuel - 1)
             <==> Ancestor(cats, x, fuel - 1).Some? && Ancestor(cats, x, fuel - 1).value in roots;
      if EndsAt(cats, x, fuel - 1) {
        forall k: nat | k < fuel - 1 ensures !EndsAt(cats, x, k) { PrefixOfChain(cats, x, k + 1, fuel - 1); }
      }
    }
  }

  /**
   * The forest, walked from its roots as deep as you like beyond the number of categories, shows every category
   * exactly once whose parent chain ends, and drops exactly the members and descendants of parent cycles.
   */
  lemma ForestIsExact(cats: seq<Category>, roots: seq<string>, fuel: nat, x: string)
    requires DistinctIds(cats) && x in Ids(cats) && fuel >= |cats|
    requires multiset(roots) == multiset(RootIds(cats, Ids(cats)))
    ensures Shown(cats, roots, fuel, x) == if Rooted(cats, x) then 1 else 0
    ensures Rooted(cats, x) <==> !BelowCycle(cats, x)
  {
    RootIdsExactly(cats);
    SameElements(roots, RootIds(cats, Ids(cats)));
    FlatCounts(cats, roots, fuel, x);
    RootHits(cats, x, roots, fuel);
    RootedExactly(cats, x);
  }

  lemma SameElements(a: seq<string>, b: seq<string>)
    requires multiset(a) == multiset(b) && NoRepeats(b)
    ensures NoRepeats(a) && forall x :: x in a <==> x in b
  {
    forall x ensures x in a <==> x in b { assert x in multiset(a) <==> x in multiset(b); }
    forall i, j | 0 <= i < j < |a| ensures a[i] != a[j] {
      OnceEach(b, a[i]);
      if a[i] == a[j] { TwiceAt(a, i, j); }
    }
  }

  lemma {:induction false} OnceEach(s: seq<string>, x: string)
    requires NoRepeats(s)
    ensures multiset(s)[x] <= 1
  {
    if s != [] {
      OnceEach(s[..|s| - 1], x);
      assert s == s[..|s| - 1] + [s[|s| - 1]];
      if s[|s| - 1] == x { assert x !in s[..|s| - 1] && x !in multiset(s[..|s| - 1]); }
    }
  }

  lemma TwiceAt(s: seq<string>, i: nat, j: nat)
    requires i < j < |s| && s[i] == s[j]
    ensures multiset(s)[s[i]] >= 2
  {
    assert s == s[..j] + s[j..] && s[..j][i] == s[i] && s[j..][0] == s[i];
    assert s[i] in multiset(s[..j]) && s[i] in multiset(s[j..]);
  }

  lemma {:induction false} FlatKnown(cats: seq<Category>, todo: seq<string>, fuel: nat)
    requires DistinctIds(cats) && forall b :: b in todo ==> b in Ids(cats)
    ensures forall b :: b in Flat(cats, todo, fuel) ==> b in Ids(cats)
    decreases fuel, |todo|
  {
    if todo != [] && fuel > 0 {
      ChildIdsExactly(cats, todo[0]);
      FlatKnown(cats, ChildIds(cats, Ids(cats), todo[0]), fuel - 1);
      FlatKnown(cats, todo[1..], fuel);
    }
  }

  function IdSeq(cats: seq<Category>): seq<string> {
    if cats == [] then [] else IdSeq(cats[..|cats| - 1]) + [cats[|cats| - 1].id]
  }

  lemma {:induction false} IdSeqExactly(cats: seq<Category>)
    ensures |IdSeq(cats)| == |cats| && forall i :: 0 <= i < |cats| ==> IdSeq(cats)[i] == cats[i].id
  {
    if cats != [] { IdSeqExactly(cats[..|cats| - 1]); }
  }

  /** Without parent cycles the flattened forest is a permutation of the input. */
  lemma AcyclicForestIsPermutation(cats: seq<Category>, roots: seq<string>)
    requires DistinctIds(cats) && multiset(roots) == multiset(RootIds(cats, Ids(cats)))
    requires forall x :: x in Ids(cats) ==> !OnCycle(cats, x)
    ensures multiset(Flat(cats, roots, |cats|)) == multiset(IdSeq(cats))
  {
    RootIdsExactly(cats);
    SameElements(roots, RootIds(cats, Ids(cats)));
    FlatKnown(cats, roots, |cats|);
    forall x ensures multiset(Flat(cats, roots, |cats|))[x] == multiset(IdSeq(cats))[x] {
      AllOnce(cats, x);
      if x in Ids(cats) {
        NoCycleAbove(cats, x);
        ForestIsExact(cats, roots, |cats|, x);
      } else {
        assert x !in Flat(cats, roots, |cats|);
      }
    }
  }

  lemma AllOnce(cats: seq<Category>, x: string)
    requires DistinctIds(cats)
    ensures multiset(IdSeq(cats))[x] == if x in Ids(cats) then 1 else 0
  {
    IdSeqExactly(cats);
    OnceEach(IdSeq(cats), x);
    if x in Ids(cats) { assert x in IdSeq(cats) && x in multiset(IdSeq(cats)); }
  }

  lemma NoCycleAbove(cats: seq<Category>, x: string)
    requires forall a :: a in Ids(cats) ==> !OnCycle(cats, a)
    ensures !BelowCycle(cats, x)
  {
    forall m: nat | Ancestor(cats, x, m).Some? ensures !OnCycle(cats, Ancestor(cats, x, m).value) {
      AncestorKnown(cats, x, m);
    }
  }

  // ---------------------------------------------------------------- the linked nodes are that forest

  /** The linked nodes in depth-first order, `fuel` levels deep: what a walk over `children` meets. */
  ghost function FlatNodes(nodes: seq<CategoryNode>, fuel: nat): seq<string>
    reads *
    decreases fuel, |nodes|
  {
    if nodes == [] || fuel == 0 then []
    else [nodes[0].cat.id] + FlatNodes(nodes[0].children, fuel - 1) + FlatNodes(nodes[1..], fuel)
  }

  lemma FlatOfListed(cats: seq<Category>, todo: seq<CategoryNode>, fuel: nat)
    requires todo != [] && fuel > 0
    ensures Flat(cats, Listed(todo), fuel)
            == [todo[0].cat.id] + Flat(cats, ChildIds(cats, Ids(cats), todo[0].cat.id), fuel - 1)
               + Flat(cats, Listed(todo[1..]), fuel)
  {
    assert Listed(todo)[1..] == Listed(todo[1..]);
  }

  /** All nodes of the list are those of the table. */
  ghost predicate FromTable(nodes: seq<CategoryNode>, byId: map<string, CategoryNode>) {
    forall i :: 0 <= i < |nodes| ==> nodes[i].cat.id in byId && byId[nodes[i].cat.id] == nodes[i]
  }

  /** Every node's children are listed as the links say. */
  ghost predicate LinkedChildren(cats: seq<Category>, byId: map<string, CategoryNode>)
    reads byId.Values
  {
    forall id :: id in byId ==>
        FromTable(byId[id].children, byId) && Listed(byId[id].children) == ChildIds(cats, Ids(cats), id)
  }

  lemma {:induction false} FlatNodesIsFlat(cats: seq<Category>, byId: map<string, CategoryNode>,
      todo: seq<CategoryNode>, fuel: nat)
    requires LinkedChildren(cats, byId) && FromTable(todo, byId)
    ensures FlatNodes(todo, fuel) == Flat(cats, Listed(todo), fuel)
    decreases fuel, |todo|
  {
    if todo != [] && fuel > 0 {
      FlatNodesIsFlat(cats, byId, todo[0].children, fuel - 1);
      FlatNodesIsFlat(cats, byId, todo[1..], fuel);
      FlatOfListed(cats, todo, fuel);
    }
  }

  lemma LinksAreListed(cats: seq<Category>, byId: map<string, CategoryNode>, inOrder: seq<CategoryNode>)
    requires byId.Keys == Ids(cats) && (forall id :: id in byId ==> byId[id].cat.id == id)
    requires Linked(cats, Ids(cats), byId, inOrder)
    ensures LinkedChildren(cats, byId)
    ensures FromTable(inOrder, byId) && Listed(inOrder) == RootIds(cats, Ids(cats))
  {}

  function Listed(nodes: seq<CategoryNode>): (ids: seq<string>)
    ensures |ids| == |nodes| && forall i :: 0 <= i < |ids| ==> ids[i] == nodes[i].cat.id
  {
    seq(|nodes|, i requires 0 <= i < |nodes| => nodes[i].cat.id)
  }

  lemma {:induction false} InsertListed(sorted: seq<CategoryNode>, n: CategoryNode)
    ensures multiset(Listed(Insert(sorted, n))) == multiset(Listed(sorted)) + multiset{n.cat.id}
  {
    if sorted == [] || sorted[|sorted| - 1].cat.position <= n.cat.position {
      assert Listed(sorted + [n]) == Listed(sorted) + [n.cat.id];
    } else {
      var front, last := sorted[..|sorted| - 1], sorted[|sorted| - 1];
      InsertListed(front, n);
      assert Listed(Insert(front, n) + [last]) == Listed(Insert(front, n)) + [last.cat.id];
      assert Listed(sorted) == Listed(front) + [last.cat.id];
    }
  }

  lemma {:induction false} SortListed(nodes: seq<CategoryNode>)
    ensures multiset(Listed(SortByPosition(nodes))) == multiset(Listed(nodes))
  {
    if nodes != [] {
      var front, last := nodes[..|nodes| - 1], nodes[|nodes| - 1];
      SortListed(front);
      InsertListed(SortByPosition(front), last);
      assert Listed(nodes) == Listed(front) + [last.cat.id];
    }
  }

  lemma SortFromTable(nodes: seq<CategoryNode>, byId: map<string, CategoryNode>)
    requires FromTable(nodes, byId)
    ensures FromTable(SortByPosition(nodes), byId)
  {
    SortElements(nodes);
    var sorted := SortByPosition(nodes);
    forall i | 0 <= i < |sorted| ensures sorted[i].cat.id in byId && byId[sorted[i].cat.id] == sorted[i] {
      assert sorted[i] in multiset(nodes);
    }
  }

  /**
   * Walking the nodes `BuildTree` linked, from the roots it returns, meets every category exactly once unless it is
   * a member or descendant of a parent cycle; those it never meets.
   */
  lemma BuiltForestIsExact(cats: seq<Category>, byId: map<string, CategoryNode>, inOrder: seq<CategoryNode>,
      fuel: nat, x: string)
    requires byId.Keys == Ids(cats) && (forall id :: id in byId ==> byId[id].cat.id == id)
    requires Linked(cats, Ids(cats), byId, inOrder)
    requires DistinctIds(cats) && x in Ids(cats) && fuel >= |cats|
    ensures multiset(FlatNodes(SortByPosition(inOrder), fuel))[x] == if BelowCycle(cats, x) then 0 else 1
  {
    LinksAreListed(cats, byId, inOrder);
    SortFromTable(inOrder, byId);
    SortListed(inOrder);
    FlatNodesIsFlat(cats, byId, SortByPosition(inOrder), fuel);
    ForestIsExact(cats, Listed(SortByPosition(inOrder)), fuel, x);
  }
}
