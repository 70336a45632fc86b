/**
 * The guest-to-customer item merge (`apps/api/src/cart/cart-merge.util.ts`).
 *
 * `MergeCartItems` is the source's double loop over an insertion-ordered `Map`, and `Merged` is the function it
 * computes, one entry at a time.  `MergedEntry` and `Variants` are an independent, loop-free description of the
 * result; `MergeByVariant` and `MergeOrder` prove that the loops compute exactly that.
 */
module CartMerge {
  import opened Wrappers
  import opened CartLines

  datatype StockInfo = StockInfo(stock: int, allowBackorder: bool)

  type StockMap = map<VariantId, StockInfo>

  function Min(a: int, b: int): int { if a <= b then a else b }

  function ClampToStock(qty: int, info: Option<StockInfo>): int {
    if info.None? || info.value.allowBackorder then qty else Min(qty, info.value.stock)
  }

  function Lookup(stock: StockMap, v: VariantId): Option<StockInfo> {
    if v in stock then Some(stock[v]) else None
  }

  function QuantityOf(line: Option<Line>): int {
    match line case Some(l) => l.quantity case None => 0
  }

  // ---------------------------------------------------------------- what the loops compute

  function Replace(entries: seq<Line>, line: Line): seq<Line> {
    if entries == [] then []
    else
      var last := entries[|entries| - 1];
      Replace(entries[..|entries| - 1], line) + [if last.variantId == line.variantId then line else last]
  }

  /** `Map.set` on the entries in insertion order: overwrite in place when the key is known, append otherwise. */
  function SetEntry(entries: seq<Line>, line: Line): seq<Line> {
    if FirstOf(entries, line.variantId).Some? then Replace(entries, line) else entries + [line]
  }

  function CustomerEntries(customer: seq<Line>, now: int): seq<Line> {
    if customer == [] then []
    else SetEntry(CustomerEntries(customer[..|customer| - 1], now), customer[|customer| - 1].(updatedAt := now))
  }

  /** The entry one iteration of the guest loop writes, given the entry it found. */
  function GuestWrite(existing: Option<Line>, guest: Line, stock: StockMap, now: int): Line {
    var qty := ClampToStock(QuantityOf(existing) + guest.quantity, Lookup(stock, guest.variantId));
    (match existing case Some(l) => l case None => guest).(quantity := qty, updatedAt := now)
  }

  function GuestEntries(guest: seq<Line>, entries: seq<Line>, stock: StockMap, now: int): seq<Line> {
    if guest == [] then entries
    else
      var before := GuestEntries(guest[..|guest| - 1], entries, stock, now);
      var g := guest[|guest| - 1];
      SetEntry(before, GuestWrite(FirstOf(before, g.variantId), g, stock, now))
  }

  function KeepPositive(lines: seq<Line>): seq<Line> {
    if lines == [] then []
    else
      var last := lines[|lines| - 1];
      var front := KeepPositive(lines[..|lines| - 1]);
      if last.quantity > 0 then front + [last] else front
  }

  function Merged(guest: seq<Line>, customer: seq<Line>, stock: StockMap, now: int): seq<Line> {
    KeepPositive(GuestEntries(guest, CustomerEntries(customer, now), stock, now))
  }

  // ---------------------------------------------------------------- the method

  /** JavaScript's `Map`: a lookup table that also remembers the order of first insertion. */
  class OrderedMap {
    var keys: seq<VariantId>
    var byId: map<VariantId, Line>
    ghost var Contents: seq<Line>

    ghost predicate Valid()
      reads this
    {
      && (forall k :: k in keys <==> k in byId)
      && (forall k :: k in byId ==> byId[k].variantId == k)
      && Contents == Entries(keys, byId)
    }

    constructor ()
      ensures Valid() && Contents == []
    {
      keys, byId, Contents := [], map[], [];
    }

    method Get(v: VariantId) returns (r: Option<Line>)
      requires Valid()
      ensures r == FirstOf(Contents, v)
      ensures r.Some? ==> r.value.variantId == v
    {
      EntriesLookup(keys, byId, v);
      r := if v in byId then Some(byId[v]) else None;
    }

    method Set(line: Line)
      requires Valid()
      modifies this
      ensures Valid() && Contents == SetEntry(old(Contents), line)
    {
      EntriesSet(keys, byId, line);
      keys := if line.variantId in byId then keys else keys + [line.variantId];
      byId := byId[line.variantId := line];
      Contents := Entries(keys, byId);
    }

    method Values() returns (r: seq<Line>)
      requires Valid()
      ensures r == Contents
    {
      r := Entries(keys, byId);
    }
  }

  function Entries(keys: seq<VariantId>, byId: map<VariantId, Line>): seq<Line>
    requires forall k :: k in keys ==> k in byId
  {
    if keys == [] then [] else Entries(keys[..|keys| - 1], byId) + [byId[keys[|keys| - 1]]]
  }

  lemma {:induction false} EntriesLookup(keys: seq<VariantId>, byId: map<VariantId, Line>, v: VariantId)
    requires forall k :: k in keys ==> k in byId && byId[k].variantId == k
    ensures FirstOf(Entries(keys, byId), v) == if v in keys then Some(byId[v]) else None
  {
    if keys != [] {
      EntriesLookup(keys[..|keys| - 1], byId, v);
      assert keys == keys[..|keys| - 1] + [keys[|keys| - 1]];
    }
  }

  lemma {:induction false} EntriesUpdate(keys: seq<VariantId>, byId: map<VariantId, Line>, line: Line)
    requires forall k :: k in keys ==> k in byId && byId[k].variantId == k
    ensures Entries(keys, byId[line.variantId := line]) == Replace(Entries(keys, byId), line)
  {
    if keys != [] {
      EntriesUpdate(keys[..|keys| - 1], byId, line);
    }
  }

  lemma {:induction false} ReplaceAbsent(entries: seq<Line>, line: Line)
    requires FirstOf(entries, line.variantId).None?
    ensures Replace(entries, line) == entries
  {
    if entries != [] {
      ReplaceAbsent(entries[..|entries| - 1], line);
    }
  }

  lemma EntriesSet(keys: seq<VariantId>, byId: map<VariantId, Line>, line: Line)
    requires forall k :: k in keys <==> k in byId
    requires forall k :: k in byId ==> byId[k].variantId == k
    ensures var keys' := if line.variantId in byId then keys else keys + [line.variantId];
            Entries(keys', byId[line.variantId := line]) == SetEntry(Entries(keys, byId), line)
  {
    EntriesLookup(keys, byId, line.variantId);
    EntriesUpdate(keys, byId, line);
    if line.variantId !in byId {
      ReplaceAbsent(Entries(keys, byId), line);
      assert (keys + [line.variantId])[..|keys|] == keys;
    }
  }

  lemma CustomerStep(customer: seq<Line>, n: nat, now: int)
    requires n < |customer|
    ensures CustomerEntries(customer[..n + 1], now)
            == SetEntry(CustomerEntries(customer[..n], now), customer[n].(updatedAt := now))
  {
    assert customer[..n + 1][..n] == customer[..n];
  }

  lemma GuestStep(guest: seq<Line>, n: nat, entries: seq<Line>, stock: StockMap, now: int)
    requires n < |guest|
    ensures var before := GuestEntries(guest[..n], entries, stock, now);
            GuestEntries(guest[..n + 1], entries, stock, now)
            == SetEntry(before, GuestWrite(FirstOf(before, guest[n].variantId), guest[n], stock, now))
  {
    assert guest[..n + 1][..n] == guest[..n];
  }

  /** The body of the guest loop. */
  method AddGuestItem(merged: OrderedMap, guestItem: Line, stockMap: StockMap, now: int)
    requires merged.Valid()
    modifies merged
    ensures merged.Valid()
    ensures merged.Contents
            == SetEntry(old(merged.Contents),
               GuestWrite(FirstOf(old(merged.Contents), guestItem.variantId), guestItem, stockMap, now))
  {
    var existing := merged.Get(guestItem.variantId);
    var held := if existing.Some? then existing.value.quantity else 0;
    var quantity := ClampToStock(held + guestItem.quantity, Lookup(stockMap, guestItem.variantId));
    var source := if existing.Some? then existing.value else guestItem;
    merged.Set(source.(quantity := quantity, updatedAt := now));
  }

  method MergeCartItems(guestItems: seq<Line>, customerItems: seq<Line>, stockMap: StockMap, now: int)
    returns (result: seq<Line>)
    ensures result == Merged(guestItems, customerItems, stockMap, now)
  {
    var merged := new OrderedMap();
    for n := 0 to |customerItems|
      invariant fresh(merged) && merged.Valid()
      invariant merged.Contents == CustomerEntries(customerItems[..n], now)
    {
      CustomerStep(customerItems, n, now);
      merged.Set(customerItems[n].(updatedAt := now));
    }
    assert customerItems[..|customerItems|] == customerItems;
    ghost var base := merged.Contents;
    for n := 0 to |guestItems|
      invariant fresh(merged) && merged.Valid()
      invariant merged.Contents == GuestEntries(guestItems[..n], base, stockMap, now)
    {
      GuestStep(guestItems, n, base, stockMap, now);
      AddGuestItem(merged, guestItems[n], stockMap, now);
    }
    assert guestItems[..|guestItems|] == guestItems;
    var values := merged.Values();
    result := KeepPositive(values);
  }

  // ---------------------------------------------------------------- the loop-free description

  function LastOf(lines: seq<Line>, v: VariantId): Option<Line> {
    if lines == [] then None
    else if lines[|lines| - 1].variantId == v then Some(lines[|lines| - 1])
    else LastOf(lines[..|lines| - 1], v)
  }

  /**
   * The merged line of variant `v`: the customer's last line of it, or else the guest's first one, with the held
   * units plus ALL guest units, clamped once and only when the guest cart has the variant.
   */
  function MergedEntry(guest: seq<Line>, customer: seq<Line>, stock: StockMap, now: int, v: VariantId): Option<Line> {
    var held := LastOf(customer, v);
    var offered := FirstOf(guest, v);
    if held.None? && offered.None? then None
    else
      var total := QuantityOf(held) + Units(guest, v);
      var quantity := if offered.Some? then ClampToStock(total, Lookup(stock, v)) else total;
      Some((if held.Some? then held.value else offered.value).(quantity := quantity, updatedAt := now))
  }

  function FirstSeen(ids: seq<VariantId>): seq<VariantId> {
    if ids == [] then []
    else
      var front := FirstSeen(ids[..|ids| - 1]);
      if ids[|ids| - 1] in front then front else front + [ids[|ids| - 1]]
  }

  /** Customer variants in their order, then new guest variants in the order of first appearance. */
  function Variants(guest: seq<Line>, customer: seq<Line>): seq<VariantId> {
    FirstSeen(Ids(customer) + Ids(guest))
  }

  /** Those variants whose merged quantity is positive. */
  function Survivors(vs: seq<VariantId>, guest: seq<Line>, customer: seq<Line>, stock: StockMap): seq<VariantId> {
    if vs == [] then []
    else
      var last := vs[|vs| - 1];
      var front := Survivors(vs[..|vs| - 1], guest, customer, stock);
      if QuantityOf(MergedEntry(guest, customer, stock, 0, last)) > 0 then front + [last] else front
  }

  // ---------------------------------------------------------------- entry by entry

  lemma {:induction false} ReplaceLookup(entries: seq<Line>, line: Line, v: VariantId)
    ensures Ids(Replace(entries, line)) == Ids(entries)
    ensures FirstOf(Replace(entries, line), v)
            == if FirstOf(entries, v).Some? && v == line.variantId then Some(line) else FirstOf(entries, v)
  {
    if entries != [] {
      ReplaceLookup(entries[..|entries| - 1], line, v);
    }
  }

  lemma SetLookup(entries: seq<Line>, line: Line, v: VariantId)
    ensures FirstOf(SetEntry(entries, line), v) == if v == line.variantId then Some(line) else FirstOf(entries, v)
  {
    ReplaceLookup(entries, line, v);
    assert (entries + [line])[..|entries|] == entries;
    FirstOfIsALine(entries, v);
  }

  lemma {:induction false} CustomerEntriesLookup(customer: seq<Line>, now: int, v: VariantId)
    ensures FirstOf(CustomerEntries(customer, now), v)
            == match LastOf(customer, v) case None => None case Some(l) => Some(l.(updatedAt := now))
  {
    if customer != [] {
      CustomerEntriesLookup(customer[..|customer| - 1], now, v);
      SetLookup(CustomerEntries(customer[..|customer| - 1], now), customer[|customer| - 1].(updatedAt := now), v);
    }
  }

  /** Clamping the running sum after every line is clamping the total once. */
  lemma ClampAgain(a: int, b: int, info: Option<StockInfo>)
    requires 0 <= b
    ensures ClampToStock(ClampToStock(a, info) + b, info) == ClampToStock(a + b, info)
  {}

  /** How one more guest line changes the merged line of `v`. */
  lemma MergedEntryStep(front: seq<Line>, g: Line, customer: seq<Line>, stock: StockMap, now: int, v: VariantId)
    requires 0 <= g.quantity
    ensures MergedEntry(front + [g], customer, stock, now, v)
            == if v == g.variantId then Some(GuestWrite(MergedEntry(front, customer, stock, now, v), g, stock, now))
               else MergedEntry(front, customer, stock, now, v)
  {
    assert (front + [g])[..|front|] == front;
    if v == g.variantId {
      if FirstOf(front, v).None? {
        UnitsAbsent(front, v);
      } else {
        ClampAgain(QuantityOf(LastOf(customer, v)) + Units(front, v), g.quantity, Lookup(stock, v));
      }
    }
  }

  /** After the loops, the map holds for every variant exactly its merged line. */
  lemma {:induction false} GuestEntriesLookup(guest: seq<Line>, customer: seq<Line>, stock: StockMap, now: int,
      v: VariantId)
    requires NonNegative(guest)
    ensures FirstOf(GuestEntries(guest, CustomerEntries(customer, now), stock, now), v)
            == MergedEntry(guest, customer, stock, now, v)
  {
    if guest == [] {
      CustomerEntriesLookup(customer, now, v);
    } else {
      var front, g := guest[..|guest| - 1], guest[|guest| - 1];
      var before := GuestEntries(front, CustomerEntries(customer, now), stock, now);
      GuestEntriesLookup(front, customer, stock, now, v);
      var line := GuestWrite(FirstOf(before, g.variantId), g, stock, now);
      assert line.variantId == g.variantId by { FirstOfIsALine(before, g.variantId); }
      SetLookup(before, line, v);
      MergedEntryStep(front, g, customer, stock, now, v);
      assert front + [g] == guest;
    }
  }

  // ---------------------------------------------------------------- order and distinctness

  lemma {:induction false} IdsMembership(lines: seq<Line>, v: VariantId)
    ensures v in Ids(lines) <==> FirstOf(lines, v).Some?
  {
    if lines != [] {
      IdsMembership(lines[..|lines| - 1], v);
    }
  }

  lemma IdsOfSet(entries: seq<Line>, line: Line)
    ensures Ids(SetEntry(entries, line))
            == if line.variantId in Ids(entries) then Ids(entries) else Ids(entries) + [line.variantId]
  {
    IdsMembership(entries, line.variantId);
    ReplaceLookup(entries, line, line.variantId);
    assert (entries + [line])[..|entries|] == entries;
  }

  lemma FirstSeenStep(ids: seq<VariantId>, v: VariantId)
    ensures FirstSeen(ids + [v]) == if v in FirstSeen(ids) then FirstSeen(ids) else FirstSeen(ids) + [v]
  {
    assert (ids + [v])[..|ids|] == ids;
  }

  lemma {:induction false} CustomerEntriesIds(customer: seq<Line>, now: int)
    ensures Ids(CustomerEntries(customer, now)) == FirstSeen(Ids(customer))
  {
    if customer != [] {
      var front, last := customer[..|customer| - 1], customer[|customer| - 1];
      CustomerEntriesIds(front, now);
      IdsOfSet(CustomerEntries(front, now), last.(updatedAt := now));
      FirstSeenStep(Ids(front), last.variantId);
    }
  }

  lemma VariantsStep(front: seq<Line>, g: Line, customer: seq<Line>)
    ensures var vs := Variants(front, customer);
            Variants(front + [g], customer) == if g.variantId in vs then vs else vs + [g.variantId]
  {
    assert (front + [g])[..|front|] == front;
    assert Ids(front + [g]) == Ids(front) + [g.variantId];
    assert Ids(customer) + Ids(front + [g]) == (Ids(customer) + Ids(front)) + [g.variantId];
    FirstSeenStep(Ids(customer) + Ids(front), g.variantId);
  }

  lemma {:induction false} GuestEntriesIds(guest: seq<Line>, customer: seq<Line>, stock: StockMap, now: int)
    ensures Ids(GuestEntries(guest, CustomerEntries(customer, now), stock, now)) == Variants(guest, customer)
  {
    if guest == [] {
      CustomerEntriesIds(customer, now);
      assert Ids(customer) + Ids(guest) == Ids(customer);
    } else {
      var front, g := guest[..|guest| - 1], guest[|guest| - 1];
      GuestEntriesIds(front, customer, stock, now);
      var before := GuestEntries(front, CustomerEntries(customer, now), stock, now);
      var line := GuestWrite(FirstOf(before, g.variantId), g, stock, now);
      assert line.variantId == g.variantId by { FirstOfIsALine(before, g.variantId); }
      IdsOfSet(before, line);
      assert front + [g] == guest;
      VariantsStep(front, g, customer);
    }
  }

  lemma {:induction false} FirstSeenIsDistinct(ids: seq<VariantId>)
    ensures forall i, j :: 0 <= i < j < |FirstSeen(ids)| ==> FirstSeen(ids)[i] != FirstSeen(ids)[j]
  {
    if ids != [] {
      FirstSeenIsDistinct(ids[..|ids| - 1]);
    }
  }

  lemma {:induction false} IdsAt(lines: seq<Line>)
    ensures forall i :: 0 <= i < |lines| ==> Ids(lines)[i] == lines[i].variantId
  {
    if lines != [] {
      IdsAt(lines[..|lines| - 1]);
    }
  }

  /** Filtering the positive lines out of a list with distinct variants. */
  lemma {:induction false} KeepPositiveLookup(lines: seq<Line>, v: VariantId)
    requires Distinct(lines)
    ensures FirstOf(KeepPositive(lines), v) == if QuantityOf(FirstOf(lines, v)) > 0 then FirstOf(lines, v) else None
  {
    if lines != [] {
      var front, last := lines[..|lines| - 1], lines[|lines| - 1];
      KeepPositiveLookup(front, v);
      FirstOfIsALine(front, v);
      assert (KeepPositive(front) + [last])[..|KeepPositive(front)|] == KeepPositive(front);
    }
  }

  lemma {:induction false} KeepPositiveShape(lines: seq<Line>)
    requires Distinct(lines)
    ensures Distinct(KeepPositive(lines)) && Positive(KeepPositive(lines))
    ensures forall line :: line in KeepPositive(lines) ==> line in lines
  {
    if lines != [] {
      var front, last := lines[..|lines| - 1], lines[|lines| - 1];
      KeepPositiveShape(front);
      assert forall line :: line in front ==> line in lines && line.variantId != last.variantId;
    }
  }

  lemma {:induction false} KeepPositiveIds(lines: seq<Line>, guest: seq<Line>, customer: seq<Line>, stock: StockMap)
    requires forall i :: 0 <= i < |lines| ==>
      lines[i].quantity == QuantityOf(MergedEntry(guest, customer, stock, 0, lines[i].variantId))
    ensures Ids(KeepPositive(lines)) == Survivors(Ids(lines), guest, customer, stock)
  {
    if lines != [] {
      var front, last := lines[..|lines| - 1], lines[|lines| - 1];
      KeepPositiveIds(front, guest, customer, stock);
      assert (KeepPositive(front) + [last])[..|KeepPositive(front)|] == KeepPositive(front);
    }
  }

  lemma MapIsDistinct(guest: seq<Line>, customer: seq<Line>, stock: StockMap, now: int)
    ensures Distinct(GuestEntries(guest, CustomerEntries(customer, now), stock, now))
  {
    GuestEntriesIds(guest, customer, stock, now);
    FirstSeenIsDistinct(Ids(customer) + Ids(guest));
    IdsAt(GuestEntries(guest, CustomerEntries(customer, now), stock, now));
  }

  // ---------------------------------------------------------------- the main results

  /** Every variant's line in the result is its merged entry, dropped exactly when that is not positive. */
  lemma MergeByVariant(guest: seq<Line>, customer: seq<Line>, stock: StockMap, now: int, v: VariantId)
    requires NonNegative(guest)
    ensures var e := MergedEntry(guest, customer, stock, now, v);
            FirstOf(Merged(guest, customer, stock, now), v) == if QuantityOf(e) > 0 then e else None
  {
    MapIsDistinct(guest, customer, stock, now);
    GuestEntriesLookup(guest, customer, stock, now, v);
    KeepPositiveLookup(GuestEntries(guest, CustomerEntries(customer, now), stock, now), v);
  }

  /** The result lists the surviving variants in map order, one line each, all positive. */
  lemma MergeOrder(guest: seq<Line>, customer: seq<Line>, stock: StockMap, now: int)
    requires NonNegative(guest)
    ensures Ids(Merged(guest, customer, stock, now)) == Survivors(Variants(guest, customer), guest, customer, stock)
    ensures Distinct(Merged(guest, customer, stock, now)) && Positive(Merged(guest, customer, stock, now))
  {
    var entries := GuestEntries(guest, CustomerEntries(customer, now), stock, now);
    MapIsDistinct(guest, customer, stock, now);
    GuestEntriesIds(guest, customer, stock, now);
    KeepPositiveShape(entries);
    forall i | 0 <= i < |entries|
      ensures entries[i].quantity == QuantityOf(MergedEntry(guest, customer, stock, 0, entries[i].variantId))
    {
      GuestEntriesLookup(guest, customer, stock, now, entries[i].variantId);
      FirstOfDistinct(entries, i);
    }
    KeepPositiveIds(entries, guest, customer, stock);
  }

  lemma {:induction false} FirstOfDistinct(lines: seq<Line>, k: nat)
    requires Distinct(lines) && k < |lines|
    ensures FirstOf(lines, lines[k].variantId) == Some(lines[k])
  {
    var front := lines[..|lines| - 1];
    if k < |front| {
      FirstOfDistinct(front, k);
    } else {
      FirstOfIsALine(front, lines[k].variantId);
    }
  }

  /** Units of `v` after the merge, in closed form. */
  lemma MergedUnits(guest: seq<Line>, customer: seq<Line>, stock: StockMap, now: int, v: VariantId)
    requires NonNegative(guest)
    ensures var q := QuantityOf(MergedEntry(guest, customer, stock, now, v));
            Units(Merged(guest, customer, stock, now), v) == if q > 0 then q else 0
  {
    MergeByVariant(guest, customer, stock, now, v);
    MergeOrder(guest, customer, stock, now);
    UnitsOfDistinct(Merged(guest, customer, stock, now), v);
  }

  /**
   * The clamp of every iteration adds up to one clamp of the total: a variant the guest cart has ends at all units of
   * both carts, but at no more than the stock where that is known and no backorder is allowed.
   */
  lemma IteratedClampIsOneClamp(guest: seq<Line>, customer: seq<Line>, stock: StockMap, now: int, v: VariantId)
    requires Distinct(customer) && NonNegative(customer) && NonNegative(guest)
    ensures var units := Units(Merged(guest, customer, stock, now), v);
            var total := Units(customer, v) + Units(guest, v);
            var clamps := FirstOf(guest, v).Some? && v in stock && !stock[v].allowBackorder && total > stock[v].stock;
            units == if !clamps then total else if stock[v].stock < 0 then 0 else stock[v].stock
  {
    MergedUnits(guest, customer, stock, now, v);
    LastOfIsFirstOf(customer, v);
    UnitsOfDistinct(customer, v);
    UnitsNonNegative(guest, v);
    UnitsNonNegative(customer, v);
    if FirstOf(guest, v).None? { UnitsAbsent(guest, v); }
  }

  /**
   * A line of the result carries the id and the snapshot of the customer's line of that variant if he has one, of the
   * guest's first otherwise, and the time of the merge.
   */
  lemma MergedLineData(guest: seq<Line>, customer: seq<Line>, stock: StockMap, now: int, k: nat)
    requires NonNegative(guest) && Distinct(customer) && k < |Merged(guest, customer, stock, now)|
    ensures var line := Merged(guest, customer, stock, now)[k];
            var held, offered := FirstOf(customer, line.variantId), FirstOf(guest, line.variantId);
            && line.updatedAt == now && (held.Some? || offered.Some?)
            && line.snapshot == if held.Some? then held.value.snapshot else offered.value.snapshot
  {
    var merged := Merged(guest, customer, stock, now);
    MergeOrder(guest, customer, stock, now);
    FirstOfDistinct(merged, k);
    MergeByVariant(guest, customer, stock, now, merged[k].variantId);
    LastOfIsFirstOf(customer, merged[k].variantId);
  }

  /** Reordering the guest cart changes no quantity. */
  lemma GuestOrderIsIrrelevant(guest: seq<Line>, guest': seq<Line>, customer: seq<Line>, stock: StockMap, now: int,
      v: VariantId)
    requires NonNegative(guest) && multiset(guest) == multiset(guest')
    ensures Units(Merged(guest, customer, stock, now), v) == Units(Merged(guest', customer, stock, now), v)
  {
    forall i | 0 <= i < |guest'| ensures 0 <= guest'[i].quantity {
      assert guest'[i] in multiset(guest);
    }
    UnitsPermutation(guest, guest', v);
    MergedUnits(guest, customer, stock, now, v);
    MergedUnits(guest', customer, stock, now, v);
    FirstOfIsALine(guest, v);
    FirstOfIsALine(guest', v);
    if FirstOf(guest, v).Some? { assert FirstOf(guest, v).value in multiset(guest'); }
    if FirstOf(guest', v).Some? { assert FirstOf(guest', v).value in multiset(guest); }
  }

  /** With no stock map, as the association calls it, a merge neither creates nor loses units. */
  lemma MergeConserves(guest: seq<Line>, customer: seq<Line>, now: int, v: VariantId)
    requires Distinct(customer) && NonNegative(customer) && NonNegative(guest)
    ensures Units(Merged(guest, customer, map[], now), v) == Units(customer, v) + Units(guest, v)
  {
    MergedUnits(guest, customer, map[], now, v);
    LastOfIsFirstOf(customer, v);
    UnitsOfDistinct(customer, v);
    UnitsNonNegative(guest, v);
    UnitsNonNegative(customer, v);
    if FirstOf(guest, v).None? { UnitsAbsent(guest, v); }
  }

  lemma {:induction false} LastOfIsFirstOf(lines: seq<Line>, v: VariantId)
    requires Distinct(lines)
    ensures LastOf(lines, v) == FirstOf(lines, v)
  {
    if lines != [] {
      LastOfIsFirstOf(lines[..|lines| - 1], v);
      FirstOfIsALine(lines[..|lines| - 1], v);
    }
  }
}
