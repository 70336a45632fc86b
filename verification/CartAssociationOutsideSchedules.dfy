/**
 * Schedules in which what orders and flushes can break does break.  Ann has logged in from her own cart and from a
 * guest cart; each cart holds a book.
 */
module CartAssociationOutsideSchedules {
  import opened Wrappers
  import opened CartLines
  import CartMerge
  import opened CartAuthorise
  import opened CartAssociation
  import opened CartAssociationUnits
  import opened CartAssociationOutside
  import opened CartAssociationOutsideTheorems

  const START: World := World(EMPTY, None, multiset{})
  const BOB: Customer := Customer(8, "t")

  /** Some schedule, with or without flushes, ends in `w`. */
  ghost predicate Reached(w: World, flushes: bool) {
    exists events :: (flushes || NoFlush(events)) && Play(START, events) == w
  }

  lemma Move(w: World, e: Event, w': World, flushes: bool)
    requires Reached(w, flushes) && (flushes || !e.FlushWrite?) && Happen(w, e) == w'
    ensures Reached(w', flushes)
  {
    var events :| (flushes || NoFlush(events)) && Play(START, events) == w;
    assert (events + [e])[..|events|] == events;
    assert Play(START, events + [e]) == w';
  }

  lemma Started(flushes: bool)
    ensures Reached(START, flushes)
  {
    assert Play(START, []) == START;
  }

  function Step(r: nat): Event { Act(Advance(r, CALM)) }

  // ---------------------------------------------------------------- the carts

  const FRESH_A: Cart := Cart(PgRow(Active, None, "a"), Blob("t", None, "a", "EUR", Active, []))
  const GUEST_A: Cart := Cart(PgRow(Active, None, "a"), Blob("t", None, "a", "EUR", Active, [BOOK]))
  const CLAIMED_A: Cart := Cart(PgRow(Active, Some(7), "n"), Blob("t", None, "a", "EUR", Active, [BOOK]))
  const OWNED_A: Cart := Cart(PgRow(Active, Some(7), "n"), Blob("t", Some(7), "n", "EUR", Active, [BOOK]))
  const ORDERED_A: Cart := Cart(PgRow(Converted, Some(7), "n"), Blob("t", Some(7), "n", "EUR", Active, [BOOK]))

  const ADDED_A: Entry := Entry(0, [BOOK])
  const ADDED_G: Entry := Entry(1, [BOOK])

  lemma BookAdded()
    ensures AddLine([], BOOK) == [BOOK]
  {}

  // ---------------------------------------------------------------- an ordered cart that raced to ours

  /** Ann's two calls on her one cart. */
  function TwoTabs(cart: Cart, pc0: Pc, pc1: Pc, checkouts: multiset<CartId>): World {
    var runs := [Run(0, Some("a"), ANN, pc0), Run(0, Some("a"), ANN, pc1)];
    World(System("t", [cart], runs, [ADDED_A], []), None, checkouts)
  }

  lemma OneCartIsFilled(flushes: bool)
    ensures Reached(World(System("t", [GUEST_A], [], [ADDED_A], []), None, multiset{}), flushes)
  {
    Started(flushes);
    var w1 := World(System("t", [FRESH_A], [], [], []), None, multiset{});
    Move(START, Act(Create("a", "EUR")), w1, flushes);
    BookAdded();
    assert [FRESH_A][0 := GUEST_A] == [GUEST_A];
    var w2 := World(System("t", [GUEST_A], [], [ADDED_A], []), None, multiset{});
    Move(w1, Act(Shop(0, Some("a"), None, AddItem(BOOK), true)), w2, flushes);
  }

  lemma TwoTabsOpen()
    ensures Reached(TwoTabs(GUEST_A, Start, Start, multiset{}), false)
  {
    OneCartIsFilled(false);
    var w2 := World(System("t", [GUEST_A], [], [ADDED_A], []), None, multiset{});
    var begin := Act(Begin(0, Some("a"), ANN));
    Move(w2, begin, Happen(w2, begin), false);
    Move(Happen(w2, begin), begin, TwoTabs(GUEST_A, Start, Start, multiset{}), false);
  }

  lemma BothTabsRead()
    ensures Reached(TwoTabs(GUEST_A, Claim("EUR"), Claim("EUR"), multiset{}), false)
  {
    TwoTabsOpen();
    var w := TwoTabs(GUEST_A, Start, Claim("EUR"), multiset{});
    Move(TwoTabs(GUEST_A, Start, Start, multiset{}), Step(1), w, false);
    Move(w, Step(0), TwoTabs(GUEST_A, Claim("EUR"), Claim("EUR"), multiset{}), false);
  }

  lemma FirstTabAdopts()
    ensures Reached(TwoTabs(OWNED_A, Returned(Adopted), Claim("EUR"), multiset{}), false)
  {
    BothTabsRead();
    var w := TwoTabs(CLAIMED_A, Commit("n"), Claim("EUR"), multiset{});
    assert !HasOtherActive([GUEST_A], 0, 7) && [GUEST_A][0 := CLAIMED_A] == [CLAIMED_A];
    Move(TwoTabs(GUEST_A, Claim("EUR"), Claim("EUR"), multiset{}), Step(0), w, false);
    assert [CLAIMED_A][0 := OWNED_A] == [OWNED_A];
    Move(w, Step(0), TwoTabs(OWNED_A, Returned(Adopted), Claim("EUR"), multiset{}), false);
  }

  lemma FirstTabOrders()
    ensures Reached(TwoTabs(ORDERED_A, Returned(Adopted), Claim("EUR"), multiset{}), false)
  {
    FirstTabAdopts();
    var w := TwoTabs(OWNED_A, Returned(Adopted), Claim("EUR"), multiset{0});
    Move(TwoTabs(OWNED_A, Returned(Adopted), Claim("EUR"), multiset{}), OrderRead(0), w, false);
    assert Ordered(OWNED_A) == ORDERED_A && [OWNED_A][0 := ORDERED_A] == [ORDERED_A];
    Move(w, PlaceOrder(0), TwoTabs(ORDERED_A, Returned(Adopted), Claim("EUR"), multiset{}), false);
  }

  /** One tab adopts and orders while the other waits to claim: the other then gets the ordered cart. */
  lemma RacedToOursHappens()
    ensures Reached(TwoTabs(ORDERED_A, Returned(Adopted), Returned(RacedToOurs), multiset{}), false)
  {
    FirstTabOrders();
    var w := TwoTabs(ORDERED_A, Returned(Adopted), ReadAfterBlocked, multiset{});
    assert ClaimCustomer([ORDERED_A], 0, 7) == NoRow;
    Move(TwoTabs(ORDERED_A, Returned(Adopted), Claim("EUR"), multiset{}), Step(1), w, false);
    Move(w, Step(1), TwoTabs(ORDERED_A, Returned(Adopted), Returned(RacedToOurs), multiset{}), false);
  }

  // ---------------------------------------------------------------- a cart ordered twice

  /** Some schedule ends in `w` and has ordered cart 0 `n` times. */
  ghost predicate ReachedWithOrders(w: World, n: nat) {
    exists events :: Play(START, events) == w && Tally(OrderKind, START, events, 0) == n
  }

  lemma MoveOrders(w: World, n: nat, e: Event, w': World)
    requires ReachedWithOrders(w, n) && Happen(w, e) == w'
    ensures ReachedWithOrders(w', n + One(IsOrder(w, e, 0)))
  {
    var events :| Play(START, events) == w && Tally(OrderKind, START, events, 0) == n;
    assert (events + [e])[..|events|] == events;
    assert Play(START, events + [e]) == w';
    assert Tally(OrderKind, START, events + [e], 0) == n + One(IsOrder(w, e, 0));
  }

  const SOLD_A: Cart := GUEST_A.(pg := PgRow(Converted, None, "a"))
  const READ_A: Option<Unwritten> := Some(Unwritten(0, GUEST_A.blob))

  function Lone(cart: Cart, u: Option<Unwritten>, checkouts: multiset<CartId>): World {
    World(System("t", [cart], [], [ADDED_A], []), u, checkouts)
  }

  lemma LoneIsCreated()
    ensures ReachedWithOrders(World(System("t", [FRESH_A], [], [], []), None, multiset{}), 0)
  {
    assert Play(START, []) == START && Tally(OrderKind, START, [], 0) == 0;
    MoveOrders(START, 0, Act(Create("a", "EUR")), World(System("t", [FRESH_A], [], [], []), None, multiset{}));
  }

  lemma LoneIsFilled()
    ensures ReachedWithOrders(Lone(GUEST_A, None, multiset{}), 0)
  {
    LoneIsCreated();
    var w1 := World(System("t", [FRESH_A], [], [], []), None, multiset{});
    BookAdded();
    assert [FRESH_A][0 := GUEST_A] == [GUEST_A];
    MoveOrders(w1, 0, Act(Shop(0, Some("a"), None, AddItem(BOOK), true)), Lone(GUEST_A, None, multiset{}));
  }

  lemma TwoCheckoutsAndAFlushRead()
    ensures ReachedWithOrders(Lone(GUEST_A, READ_A, multiset{0, 0}), 0)
  {
    LoneIsFilled();
    var w1, w2 := Lone(GUEST_A, None, multiset{0}), Lone(GUEST_A, None, multiset{0, 0});
    MoveOrders(Lone(GUEST_A, None, multiset{}), 0, OrderRead(0), w1);
    MoveOrders(w1, 0, OrderRead(0), w2);
    MoveOrders(w2, 0, FlushRead(0), Lone(GUEST_A, READ_A, multiset{0, 0}));
  }

  lemma OrderedOnce()
    ensures ReachedWithOrders(Lone(SOLD_A, READ_A, multiset{0}), 1)
  {
    TwoCheckoutsAndAFlushRead();
    assert Ordered(GUEST_A) == SOLD_A && [GUEST_A][0 := SOLD_A] == [SOLD_A];
    MoveOrders(Lone(GUEST_A, READ_A, multiset{0, 0}), 0, PlaceOrder(0), Lone(SOLD_A, READ_A, multiset{0}));
  }

  lemma OrderUndone()
    ensures ReachedWithOrders(Lone(GUEST_A, None, multiset{0}), 1)
  {
    OrderedOnce();
    assert Upserted(SOLD_A.pg, GUEST_A.blob) == GUEST_A.pg && [SOLD_A][0 := GUEST_A] == [GUEST_A];
    MoveOrders(Lone(SOLD_A, READ_A, multiset{0}), 1, FlushWrite, Lone(GUEST_A, None, multiset{0}));
  }

  /** A flush between two checkouts of one cart undoes the first order, and the cart is ordered again. */
  lemma OrderedTwice()
    ensures ReachedWithOrders(Lone(SOLD_A, None, multiset{}), 2)
  {
    OrderUndone();
    assert Ordered(GUEST_A) == SOLD_A && [GUEST_A][0 := SOLD_A] == [SOLD_A];
    MoveOrders(Lone(GUEST_A, None, multiset{0}), 1, PlaceOrder(0), Lone(SOLD_A, None, multiset{}));
  }

  // ---------------------------------------------------------------- up to the merge gate

  /** Ann's own cart, a guest cart, two calls of Ann and a third caller on the guest cart, the flush, and checkouts. */
  function Shared(who: Customer, a: Cart, g: Cart, pc0: Pc, pc1: Pc, pc2: Pc, u: Option<Unwritten>,
                  checkouts: multiset<CartId>): World
  {
    var runs := [Run(0, Some("a"), ANN, pc0), Run(1, Some("b"), ANN, pc1), Run(1, Some("b"), who, pc2)];
    World(System("t", [a, g], runs, [ADDED_A, ADDED_G], []), u, checkouts)
  }

  function Opening(who: Customer, a: Cart, pc0: Pc, pc2: Pc): World {
    Shared(who, a, GUEST_G, pc0, Start, pc2, None, multiset{})
  }

  const FRESH_G: Cart := Cart(PgRow(Active, None, "b"), Blob("t", None, "b", "EUR", Active, []))

  lemma SecondCartIsCreated(flushes: bool)
    ensures Reached(World(System("t", [GUEST_A, FRESH_G], [], [ADDED_A], []), None, multiset{}), flushes)
  {
    OneCartIsFilled(flushes);
    var w2 := World(System("t", [GUEST_A], [], [ADDED_A], []), None, multiset{});
    assert [GUEST_A] + [FRESH_G] == [GUEST_A, FRESH_G];
    var w3 := World(System("t", [GUEST_A, FRESH_G], [], [ADDED_A], []), None, multiset{});
    Move(w2, Act(Create("b", "EUR")), w3, flushes);
  }

  lemma BothCartsAreFilled(flushes: bool)
    ensures Reached(World(System("t", [GUEST_A, GUEST_G], [], [ADDED_A, ADDED_G], []), None, multiset{}), flushes)
  {
    SecondCartIsCreated(flushes);
    var w3 := World(System("t", [GUEST_A, FRESH_G], [], [ADDED_A], []), None, multiset{});
    BookAdded();
    assert [GUEST_A, FRESH_G][1 := GUEST_G] == [GUEST_A, GUEST_G] && [ADDED_A] + [ADDED_G] == [ADDED_A, ADDED_G];
    var w4 := World(System("t", [GUEST_A, GUEST_G], [], [ADDED_A, ADDED_G], []), None, multiset{});
    Move(w3, Act(Shop(1, Some("b"), None, AddItem(BOOK), true)), w4, flushes);
  }

  lemma SharedOpens(who: Customer, flushes: bool)
    ensures Reached(Opening(who, GUEST_A, Start, Start), flushes)
  {
    BothCartsAreFilled(flushes);
    var w4 := World(System("t", [GUEST_A, GUEST_G], [], [ADDED_A, ADDED_G], []), None, multiset{});
    var w5 := Happen(w4, Act(Begin(0, Some("a"), ANN)));
    Move(w4, Act(Begin(0, Some("a"), ANN)), w5, flushes);
    var w6 := Happen(w5, Act(Begin(1, Some("b"), ANN)));
    Move(w5, Act(Begin(1, Some("b"), ANN)), w6, flushes);
    Move(w6, Act(Begin(1, Some("b"), who)), Opening(who, GUEST_A, Start, Start), flushes);
  }

  /** The third caller is of Ann's tenant, as are all in these schedules. */
  predicate Local(who: Customer) { who.tenantId == "t" }

  lemma ThirdReadsTheGuest(who: Customer, flushes: bool)
    requires Local(who)
    ensures Reached(Opening(who, GUEST_A, Start, Claim("EUR")), flushes)
  {
    SharedOpens(who, flushes);
    Move(Opening(who, GUEST_A, Start, Start), Step(2), Opening(who, GUEST_A, Start, Claim("EUR")), flushes);
  }

  lemma AnnReadsHerCart(who: Customer, flushes: bool)
    requires Local(who)
    ensures Reached(Opening(who, GUEST_A, Claim("EUR"), Claim("EUR")), flushes)
  {
    ThirdReadsTheGuest(who, flushes);
    var w := Opening(who, GUEST_A, Start, Claim("EUR"));
    Move(w, Step(0), Opening(who, GUEST_A, Claim("EUR"), Claim("EUR")), flushes);
  }

  lemma AnnClaims(who: Customer, flushes: bool)
    requires Local(who)
    ensures Reached(Opening(who, CLAIMED_A, Commit("n"), Claim("EUR")), flushes)
  {
    AnnReadsHerCart(who, flushes);
    assert !HasOtherActive([GUEST_A, GUEST_G], 0, 7) && [GUEST_A, GUEST_G][0 := CLAIMED_A] == [CLAIMED_A, GUEST_G];
    var w := Opening(who, GUEST_A, Claim("EUR"), Claim("EUR"));
    Move(w, Step(0), Opening(who, CLAIMED_A, Commit("n"), Claim("EUR")), flushes);
  }

  /** The world once Ann's own cart is settled, with her second call at `pc1` and the third caller's at `pc2`. */
  function Second(who: Customer, g: Cart, pc1: Pc, pc2: Pc, u: Option<Unwritten>): World {
    Shared(who, OWNED_A, g, Returned(Adopted), pc1, pc2, u, multiset{})
  }

  lemma AnnOwnsOneCart(who: Customer, flushes: bool)
    requires Local(who)
    ensures Reached(Second(who, GUEST_G, Start, Claim("EUR"), None), flushes)
  {
    AnnClaims(who, flushes);
    assert [CLAIMED_A, GUEST_G][0 := OWNED_A] == [OWNED_A, GUEST_G];
    var w := Opening(who, CLAIMED_A, Commit("n"), Claim("EUR"));
    Move(w, Step(0), Second(who, GUEST_G, Start, Claim("EUR"), None), flushes);
  }

  lemma AnnFindsHerCart(who: Customer, flushes: bool)
    requires Local(who)
    ensures Reached(Second(who, GUEST_G, FindWinner("EUR"), Claim("EUR"), None), flushes)
  {
    AnnOwnsOneCart(who, flushes);
    var w := Second(who, GUEST_G, Claim("EUR"), Claim("EUR"), None);
    Move(Second(who, GUEST_G, Start, Claim("EUR"), None), Step(1), w, flushes);
    assert [OWNED_A, GUEST_G][0] == OWNED_A && HasOtherActive([OWNED_A, GUEST_G], 1, 7);
    Move(w, Step(1), Second(who, GUEST_G, FindWinner("EUR"), Claim("EUR"), None), flushes);
  }

  lemma AnnIsAboutToAbandon(who: Customer, flushes: bool)
    requires Local(who)
    ensures Reached(Second(who, GUEST_G, TryAbandon(0), Claim("EUR"), None), flushes)
  {
    AnnFindsHerCart(who, flushes);
    var w := Second(who, GUEST_G, CheckWinner("EUR", 0), Claim("EUR"), None);
    Move(Second(who, GUEST_G, FindWinner("EUR"), Claim("EUR"), None), Step(1), w, flushes);
    Move(w, Step(1), Second(who, GUEST_G, TryAbandon(0), Claim("EUR"), None), flushes);
  }

  /** The world once Ann's own cart has been ordered. */
  function Sold(who: Customer, g: Cart, pc1: Pc, pc2: Pc): World {
    Shared(who, ORDERED_A, g, Returned(Adopted), pc1, pc2, None, multiset{})
  }

  lemma AnnOrders(who: Customer, g: Cart, pc1: Pc, pc2: Pc)
    requires Reached(Second(who, g, pc1, pc2, None), false)
    ensures Reached(Sold(who, g, pc1, pc2), false)
  {
    var w := Shared(who, OWNED_A, g, Returned(Adopted), pc1, pc2, None, multiset{0});
    Move(Second(who, g, pc1, pc2, None), OrderRead(0), w, false);
    assert Ordered(OWNED_A) == ORDERED_A && [OWNED_A, g][0 := ORDERED_A] == [ORDERED_A, g];
    Move(w, PlaceOrder(0), Sold(who, g, pc1, pc2), false);
  }

  // ---------------------------------------------------------------- her own claimed cart abandoned

  const CLAIMED_G: Cart := Cart(PgRow(Active, Some(7), "n"), Blob("t", None, "b", "EUR", Active, [BOOK]))
  const TAKEN_G: Cart := Cart(PgRow(Abandoned, Some(7), "n"), Blob("t", None, "b", "EUR", Active, [BOOK]))

  lemma AnnClaimsTheGuest()
    ensures Reached(Sold(ANN, CLAIMED_G, TryAbandon(0), Commit("n")), false)
  {
    AnnIsAboutToAbandon(ANN, false);
    AnnOrders(ANN, GUEST_G, TryAbandon(0), Claim("EUR"));
    assert !HasOtherActive([ORDERED_A, GUEST_G], 1, 7);
    assert [ORDERED_A, GUEST_G][1 := CLAIMED_G] == [ORDERED_A, CLAIMED_G];
    var w := Sold(ANN, GUEST_G, TryAbandon(0), Claim("EUR"));
    Move(w, Step(2), Sold(ANN, CLAIMED_G, TryAbandon(0), Commit("n")), false);
  }

  /** Ann orders her own cart and logs in again from the guest cart: her earlier call abandons what she just claimed. */
  lemma OwnCartIsAbandoned()
    ensures Reached(Sold(ANN, CLAIMED_G, TryAbandon(0), Commit("n")), false)
    ensures Reached(Sold(ANN, TAKEN_G, Capture(0), Commit("n")), false)
  {
    AnnClaimsTheGuest();
    assert [ORDERED_A, CLAIMED_G][1 := TAKEN_G] == [ORDERED_A, TAKEN_G];
    Move(Sold(ANN, CLAIMED_G, TryAbandon(0), Commit("n")), Step(1), Sold(ANN, TAKEN_G, Capture(0), Commit("n")), false);
  }

  // ---------------------------------------------------------------- merged into an ordered cart

  lemma AnnAbandonsTheGuest(who: Customer, u: Option<Unwritten>, pc2: Pc, flushes: bool)
    requires Reached(Second(who, GUEST_G, TryAbandon(0), pc2, u), flushes)
    ensures Reached(Second(who, ABANDONED_G, Capture(0), pc2, u), flushes)
  {
    assert [OWNED_A, GUEST_G][1 := ABANDONED_G] == [OWNED_A, ABANDONED_G];
    Move(Second(who, GUEST_G, TryAbandon(0), pc2, u), Step(1), Second(who, ABANDONED_G, Capture(0), pc2, u), flushes);
  }

  lemma AnnCapturesTheGuest(who: Customer, g: Cart, pc2: Pc, u: Option<Unwritten>, flushes: bool)
    requires g.blob == GUEST_G.blob && Reached(Second(who, g, Capture(0), pc2, u), flushes)
    ensures Reached(Second(who, g.(blob := EMPTIED_G.blob), Merge(0, [BOOK]), pc2, u), flushes)
  {
    var after := g.(blob := EMPTIED_G.blob);
    assert [OWNED_A, g][1 := after] == [OWNED_A, after];
    Move(Second(who, g, Capture(0), pc2, u), Step(1), Second(who, after, Merge(0, [BOOK]), pc2, u), flushes);
  }

  lemma AnnOrdersBeforeTheMerge()
    ensures Reached(Sold(BOB, EMPTIED_G, Merge(0, [BOOK]), Claim("EUR")), false)
  {
    AnnIsAboutToAbandon(BOB, false);
    AnnAbandonsTheGuest(BOB, None, Claim("EUR"), false);
    AnnCapturesTheGuest(BOB, ABANDONED_G, Claim("EUR"), None, false);
    AnnOrders(BOB, EMPTIED_G, Merge(0, [BOOK]), Claim("EUR"));
  }

  const TWO_BOOKS: Line := BOOK.(quantity := 2, updatedAt := 0)
  const GROWN_A: Cart := ORDERED_A.(blob := ORDERED_A.blob.(items := [TWO_BOOKS]))

  lemma SingleLine(a: Line, b: Line)
    requires a.variantId == b.variantId
    ensures FirstOf([a], b.variantId) == Some(a) && CartMerge.SetEntry([a], b) == [b]
  {
    assert [a][..0] == [] && FirstOf([], b.variantId).None?;
    assert CartMerge.Replace([a], b) == [b];
  }

  lemma SingleEntries(a: Line)
    ensures CartMerge.CustomerEntries([a], 0) == [a.(updatedAt := 0)]
    ensures a.quantity > 0 ==> CartMerge.KeepPositive([a]) == [a]
  {
    assert [a][..0] == [];
  }

  lemma SingleGuest(a: Line, own: Line)
    ensures CartMerge.GuestEntries([a], [own], map[], 0)
            == CartMerge.SetEntry([own], CartMerge.GuestWrite(FirstOf([own], a.variantId), a, map[], 0))
  {
    assert [a][..0] == [] && CartMerge.GuestEntries([], [own], map[], 0) == [own];
  }

  lemma LineMergedTwice(a: Line)
    requires a.quantity > 0
    ensures CartMerge.Merged([a], [a], map[], 0) == [a.(quantity := a.quantity + a.quantity, updatedAt := 0)]
  {
    var own, both := a.(updatedAt := 0), a.(quantity := a.quantity + a.quantity, updatedAt := 0);
    SingleEntries(a);
    SingleEntries(both);
    SingleGuest(a, own);
    SingleLine(own, both);
    assert CartMerge.GuestWrite(Some(own), a, map[], 0) == both;
  }

  lemma LineReserved(a: Line, stock: map<VariantId, Supply>)
    requires a.variantId in stock && 0 < a.quantity <= stock[a.variantId].available
    ensures ReserveAll([a], stock) == Some([a])
  {
    assert [a][..0] == [] && ReserveAll([], stock) == Some([]);
    assert Reserve(stock, a.variantId, a.quantity) == Some(a.quantity) && a.(quantity := a.quantity) == a;
    assert [] + [a] == [a];
  }

  lemma BooksAddUp()
    ensures MergedLines([BOOK], ORDERED_A.blob, 0) == [TWO_BOOKS]
    ensures ReserveAll([TWO_BOOKS], CALM.stock) == Some([TWO_BOOKS])
  {
    LineMergedTwice(BOOK);
    LineReserved(TWO_BOOKS, CALM.stock);
  }

  /** The call reports a merge, and both books are in a cart that has already been ordered. */
  lemma MergedIntoAnOrder()
    ensures exists w :: Reached(w, false) && w.sys.carts == [GROWN_A, EMPTIED_G]
                        && |w.sys.runs| == 3 && w.sys.runs[1].pc == Returned(MergedInto(0))
  {
    AnnOrdersBeforeTheMerge();
    var w := Sold(BOB, EMPTIED_G, Merge(0, [BOOK]), Claim("EUR"));
    TheMergeReturns();
    Move(w, Step(1), Happen(w, Step(1)), false);
  }

  lemma TheMergeReturns()
    ensures var s := Happen(Sold(BOB, EMPTIED_G, Merge(0, [BOOK]), Claim("EUR")), Step(1)).sys;
            s.carts == [GROWN_A, EMPTIED_G] && |s.runs| == 3 && s.runs[1].pc == Returned(MergedInto(0))
  {
    BooksAddUp();
    assert [ORDERED_A, EMPTIED_G][0 := GROWN_A] == [GROWN_A, EMPTIED_G];
  }

  // ---------------------------------------------------------------- a stranger's cart captured

  const BOBS_G: Cart := Cart(PgRow(Active, Some(8), "n"), Blob("t", None, "b", "EUR", Active, [BOOK]))
  const EMPTIED_BOBS_G: Cart := Cart(PgRow(Active, Some(8), "n"), Blob("t", None, "b", "EUR", Abandoned, []))
  const READ_G: Option<Unwritten> := Some(Unwritten(1, GUEST_G.blob))

  lemma TheFlushReads(who: Customer, pc1: Pc, pc2: Pc)
    requires Reached(Second(who, GUEST_G, pc1, pc2, None), true)
    ensures Reached(Second(who, GUEST_G, pc1, pc2, READ_G), true)
  {
    Move(Second(who, GUEST_G, pc1, pc2, None), FlushRead(1), Second(who, GUEST_G, pc1, pc2, READ_G), true);
  }

  lemma TheFlushReopens(who: Customer, pc1: Pc, pc2: Pc)
    requires Reached(Second(who, ABANDONED_G, pc1, pc2, READ_G), true)
    ensures Reached(Second(who, GUEST_G, pc1, pc2, None), true)
  {
    assert Upserted(ABANDONED_G.pg, GUEST_G.blob) == GUEST_G.pg;
    assert [OWNED_A, ABANDONED_G][1 := GUEST_G] == [OWNED_A, GUEST_G];
    Move(Second(who, ABANDONED_G, pc1, pc2, READ_G), FlushWrite, Second(who, GUEST_G, pc1, pc2, None), true);
  }

  lemma BobTakesItOver()
    ensures Reached(Second(BOB, BOBS_G, Capture(0), Commit("n"), None), true)
  {
    AnnIsAboutToAbandon(BOB, true);
    TheFlushReads(BOB, TryAbandon(0), Claim("EUR"));
    AnnAbandonsTheGuest(BOB, READ_G, Claim("EUR"), true);
    TheFlushReopens(BOB, Capture(0), Claim("EUR"));
    BobClaims();
  }

  lemma BobClaims()
    requires Reached(Second(BOB, GUEST_G, Capture(0), Claim("EUR"), None), true)
    ensures Reached(Second(BOB, BOBS_G, Capture(0), Commit("n"), None), true)
  {
    assert !HasOtherActive([OWNED_A, GUEST_G], 1, 8) && [OWNED_A, GUEST_G][1 := BOBS_G] == [OWNED_A, BOBS_G];
    var w := Second(BOB, GUEST_G, Capture(0), Claim("EUR"), None);
    Move(w, Step(2), Second(BOB, BOBS_G, Capture(0), Commit("n"), None), true);
  }

  /**
   * The flush of a blob read before the abandon lets Bob claim the guest cart; Ann's call then empties it into its
   * hands, and Bob, who owns the cart in Postgres, is told that there is none.
   */
  lemma StrangersCartIsCaptured()
    ensures Reached(Second(BOB, BOBS_G, Capture(0), Commit("n"), None), true)
    ensures Reached(Second(BOB, EMPTIED_BOBS_G, Merge(0, [BOOK]), Failed(NotFound), None), true)
  {
    BobTakesItOver();
    AnnCapturesTheGuest(BOB, BOBS_G, Commit("n"), None, true);
    var w := Second(BOB, EMPTIED_BOBS_G, Merge(0, [BOOK]), Commit("n"), None);
    Move(w, Step(2), Second(BOB, EMPTIED_BOBS_G, Merge(0, [BOOK]), Failed(NotFound), None), true);
  }

  // ---------------------------------------------------------------- one guest cart captured twice

  lemma ThirdCallIsAboutToAbandon()
    ensures Reached(Second(ANN, GUEST_G, TryAbandon(0), TryAbandon(0), None), true)
  {
    AnnIsAboutToAbandon(ANN, true);
    var w := Second(ANN, GUEST_G, TryAbandon(0), FindWinner("EUR"), None);
    assert [OWNED_A, GUEST_G][0] == OWNED_A && HasOtherActive([OWNED_A, GUEST_G], 1, 7);
    Move(Second(ANN, GUEST_G, TryAbandon(0), Claim("EUR"), None), Step(2), w, true);
    ThirdCallChecksTheWinner();
  }

  lemma ThirdCallChecksTheWinner()
    requires Reached(Second(ANN, GUEST_G, TryAbandon(0), FindWinner("EUR"), None), true)
    ensures Reached(Second(ANN, GUEST_G, TryAbandon(0), TryAbandon(0), None), true)
  {
    var w := Second(ANN, GUEST_G, TryAbandon(0), CheckWinner("EUR", 0), None);
    Move(Second(ANN, GUEST_G, TryAbandon(0), FindWinner("EUR"), None), Step(2), w, true);
    Move(w, Step(2), Second(ANN, GUEST_G, TryAbandon(0), TryAbandon(0), None), true);
  }

  lemma BothCallsAbandon()
    ensures Reached(Second(ANN, ABANDONED_G, Capture(0), Capture(0), None), true)
  {
    ThirdCallIsAboutToAbandon();
    TheFlushReads(ANN, TryAbandon(0), TryAbandon(0));
    AnnAbandonsTheGuest(ANN, READ_G, TryAbandon(0), true);
    TheFlushReopens(ANN, Capture(0), TryAbandon(0));
    ThirdCallAbandons();
  }

  lemma ThirdCallAbandons()
    requires Reached(Second(ANN, GUEST_G, Capture(0), TryAbandon(0), None), true)
    ensures Reached(Second(ANN, ABANDONED_G, Capture(0), Capture(0), None), true)
  {
    var w := Second(ANN, GUEST_G, Capture(0), TryAbandon(0), None);
    assert [OWNED_A, GUEST_G][1 := ABANDONED_G] == [OWNED_A, ABANDONED_G];
    Move(w, Step(2), Second(ANN, ABANDONED_G, Capture(0), Capture(0), None), true);
  }

  /** A flush between their abandons lets two calls capture the same guest cart; the second finds it empty. */
  lemma CapturedTwice()
    ensures Reached(Second(ANN, EMPTIED_G, Merge(0, [BOOK]), Merge(0, []), None), true)
  {
    BothCallsAbandon();
    AnnCapturesTheGuest(ANN, ABANDONED_G, Capture(0), None, true);
    var w := Second(ANN, EMPTIED_G, Merge(0, [BOOK]), Capture(0), None);
    assert [OWNED_A, EMPTIED_G][1 := EMPTIED_G] == [OWNED_A, EMPTIED_G];
    Move(w, Step(2), Second(ANN, EMPTIED_G, Merge(0, [BOOK]), Merge(0, []), None), true);
  }
}
