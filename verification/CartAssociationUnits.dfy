/** Where the units go: conservation over every interleaving, and what a completed merge leaves in the winner. */
module CartAssociationUnits {
  import opened Wrappers
  import opened CartLines
  import CartMerge
  import opened CartAuthorise
  import opened CartAssociation
  import opened CartAssociationSafety

  function CartUnits(carts: seq<Cart>, v: VariantId): int {
    if carts == [] then 0 else CartUnits(carts[..|carts| - 1], v) + Units(carts[|carts| - 1].blob.items, v)
  }

  /** Units captured from a guest cart and not yet merged. */
  function FlightUnits(runs: seq<Run>, v: VariantId): int {
    if runs == [] then 0 else FlightUnits(runs[..|runs| - 1], v) + Units(InFlight(runs[|runs| - 1]), v)
  }

  /** Units shoppers put in, net of what they took out again. */
  function NetUnits(log: seq<Entry>, v: VariantId): int {
    if log == [] then 0 else NetUnits(log[..|log| - 1], v) + Units(log[|log| - 1].change, v)
  }

  /** The same for cart `g` alone. */
  function NetIn(log: seq<Entry>, g: CartId, v: VariantId): int {
    if log == [] then 0
    else NetIn(log[..|log| - 1], g, v) + if log[|log| - 1].cart == g then Units(log[|log| - 1].change, v) else 0
  }

  // ---------------------------------------------------------------- sums under one change

  lemma {:induction false} CartUnitsUpdate(carts: seq<Cart>, k: nat, cart: Cart, v: VariantId)
    requires k < |carts|
    ensures CartUnits(carts[k := cart], v)
            == CartUnits(carts, v) - Units(carts[k].blob.items, v) + Units(cart.blob.items, v)
  {
    var n := |carts| - 1;
    if k == n {
      assert carts[k := cart][..n] == carts[..n];
    } else {
      assert carts[k := cart][..n] == carts[..n][k := cart];
      CartUnitsUpdate(carts[..n], k, cart, v);
    }
  }

  lemma {:induction false} FlightUnitsUpdate(runs: seq<Run>, k: nat, run: Run, v: VariantId)
    requires k < |runs|
    ensures FlightUnits(runs[k := run], v)
            == FlightUnits(runs, v) - Units(InFlight(runs[k]), v) + Units(InFlight(run), v)
  {
    var n := |runs| - 1;
    if k == n {
      assert runs[k := run][..n] == runs[..n];
    } else {
      assert runs[k := run][..n] == runs[..n][k := run];
      FlightUnitsUpdate(runs[..n], k, run, v);
    }
  }

  lemma {:induction false} ReplaceUnits(items: seq<Line>, line: Line, v: VariantId)
    requires Distinct(items)
    ensures Units(CartMerge.Replace(items, line), v)
            == Units(items, v)
               + if v == line.variantId && FirstOf(items, v).Some?
                 then line.quantity - FirstOf(items, v).value.quantity else 0
  {
    if items != [] {
      ReplaceUnits(items[..|items| - 1], line, v);
      FirstOfIsALine(items[..|items| - 1], v);
    }
  }

  lemma AddLineUnits(items: seq<Line>, line: Line, v: VariantId)
    requires Distinct(items)
    ensures Units(AddLine(items, line), v) == Units(items, v) + LineUnits(line, v)
  {
    FirstOfIsALine(items, line.variantId);
    if FirstOf(items, line.variantId).Some? {
      var existing := FirstOf(items, line.variantId).value;
      ReplaceUnits(items, existing.(quantity := existing.quantity + line.quantity, updatedAt := line.updatedAt), v);
    } else {
      assert (items + [line])[..|items|] == items;
    }
  }

  lemma {:induction false} UpdateUnits(items: seq<Line>, k: nat, line: Line, v: VariantId)
    requires k < |items| && line.variantId == items[k].variantId
    ensures Units(items[k := line], v)
            == Units(items, v) + LineUnits(line.(quantity := line.quantity - items[k].quantity), v)
  {
    var n := |items| - 1;
    if k == n {
      assert items[k := line][..n] == items[..n];
    } else {
      assert items[k := line][..n] == items[..n][k := line];
      UpdateUnits(items[..n], k, line, v);
    }
  }

  lemma {:induction false} WithoutItemUnits(items: seq<Line>, itemId: string, v: VariantId)
    ensures Units(WithoutItem(items, itemId), v) == Units(items, v) + Units(TakenOut(items, itemId), v)
  {
    if items != [] {
      var front, last := items[..|items| - 1], items[|items| - 1];
      WithoutItemUnits(front, itemId, v);
      UnitsConcat(WithoutItem(front, itemId), [last], v);
      UnitsConcat(TakenOut(front, itemId), [last.(quantity := -last.quantity)], v);
      OneLineUnits(last, v);
      OneLineUnits(last.(quantity := -last.quantity), v);
    }
  }

  lemma OneLineUnits(line: Line, v: VariantId)
    ensures Units([line], v) == LineUnits(line, v)
  {
    assert [line][..0] == [];
  }

  /** Every edit changes the units of a cart by what the log records for it. */
  lemma EditUnits(items: seq<Line>, edit: Edit, v: VariantId)
    requires Distinct(items) && EditItems(items, edit).Some?
    ensures Units(EditItems(items, edit).value, v) == Units(items, v) + Units(Change(items, edit), v)
  {
    match edit
    case AddItem(line) =>
      AddLineUnits(items, line, v);
      OneLineUnits(line, v);
    case UpdateItem(itemId, quantity, now) =>
      var k := FindItem(items, itemId).value;
      UpdateUnits(items, k, items[k].(quantity := quantity, updatedAt := now), v);
      OneLineUnits(items[k].(quantity := quantity - items[k].quantity), v);
    case RemoveItem(itemId) => WithoutItemUnits(items, itemId, v);
  }

  /** What is granted and what is short add up to what was asked. */
  lemma {:induction false} ReserveSplits(lines: seq<Line>, stock: map<VariantId, Supply>, v: VariantId)
    requires ReserveAll(lines, stock).Some?
    ensures Units(ReserveAll(lines, stock).value, v) + Units(Shortfall(lines, stock), v) == Units(lines, v)
  {
    if lines != [] {
      var front, last := lines[..|lines| - 1], lines[|lines| - 1];
      ReserveSplits(front, stock, v);
      var got := Reserve(stock, last.variantId, last.quantity);
      var kept := ReserveAll(front, stock).value;
      assert (kept + [last.(quantity := got.value)])[..|kept|] == kept;
      var short := Shortfall(front, stock);
      var missing := last.(quantity := last.quantity - got.value);
      assert (short + [missing])[..|short|] == short;
    }
  }

  // ---------------------------------------------------------------- conservation

  ghost predicate Conserved(s: System, v: VariantId) {
    NetUnits(s.log, v) == CartUnits(s.carts, v) + FlightUnits(s.runs, v) + Units(s.dropped, v)
  }

  lemma {:induction false} SameItemsSameUnits(carts: seq<Cart>, carts': seq<Cart>, v: VariantId)
    requires |carts| == |carts'| && forall i :: 0 <= i < |carts| ==> carts'[i].blob.items == carts[i].blob.items
    ensures CartUnits(carts', v) == CartUnits(carts, v)
  {
    if carts != [] {
      SameItemsSameUnits(carts[..|carts| - 1], carts'[..|carts| - 1], v);
    }
  }

  /** All that conservation needs to know of carts and calls. */
  ghost predicate LinesOk(carts: seq<Cart>, run: Run) {
    && (forall i :: 0 <= i < |carts| ==> Distinct(carts[i].blob.items) && Positive(carts[i].blob.items))
    && (Capturing(run) ==> run.cart < |carts|)
    && (run.pc.Merge? ==> run.pc.winner < |carts| && Positive(run.pc.captured))
  }

  /** Only the capture and the merge step move units. */
  lemma OtherStepsMoveNothing(tenant: string, carts: seq<Cart>, run: Run, o: Oracle)
    requires o.fault || !Capturing(run)
    ensures var e := StepRun(tenant, carts, run, o);
            && |e.carts| == |carts| && (forall i :: 0 <= i < |carts| ==> e.carts[i].blob.items == carts[i].blob.items)
            && e.dropped + InFlight(e.run) == InFlight(run)
  {}

  /** A step takes no unit out of the sum of carts, flight and losses, and puts none in. */
  ghost predicate Balanced(carts: seq<Cart>, run: Run, e: Effect, v: VariantId) {
    CartUnits(e.carts, v) + Units(InFlight(e.run), v) + Units(e.dropped, v)
        == CartUnits(carts, v) + Units(InFlight(run), v)
  }

  lemma CaptureConserves(carts: seq<Cart>, run: Run, w: CartId, v: VariantId)
    requires LinesOk(carts, run) && run.pc == Capture(w)
    ensures Balanced(carts, run, StepCapture(carts, run, w), v)
  {
    CartUnitsUpdate(carts, run.cart, StepCapture(carts, run, w).carts[run.cart], v);
  }

  lemma OtherStepConserves(tenant: string, carts: seq<Cart>, run: Run, o: Oracle, v: VariantId)
    requires o.fault || !Capturing(run)
    ensures Balanced(carts, run, StepRun(tenant, carts, run, o), v)
  {
    var e := StepRun(tenant, carts, run, o);
    OtherStepsMoveNothing(tenant, carts, run, o);
    SameItemsSameUnits(carts, e.carts, v);
    UnitsConcat(e.dropped, InFlight(e.run), v);
  }

  lemma StepConserves(tenant: string, carts: seq<Cart>, run: Run, o: Oracle, v: VariantId)
    requires LinesOk(carts, run)
    ensures Balanced(carts, run, StepRun(tenant, carts, run, o), v)
  {
    if o.fault || !Capturing(run) {
      OtherStepConserves(tenant, carts, run, o, v);
    } else {
      CapturingStep(tenant, carts, run, o);
      if run.pc.Merge? {
        MergeStepConserves(carts, run, run.pc.winner, run.pc.captured, o, v);
      } else {
        CaptureConserves(carts, run, run.pc.winner, v);
      }
    }
  }

  lemma CapturingStep(tenant: string, carts: seq<Cart>, run: Run, o: Oracle)
    requires !o.fault && Capturing(run)
    ensures StepRun(tenant, carts, run, o)
            == if run.pc.Merge? then StepMerge(carts, run, run.pc.winner, run.pc.captured, o)
               else StepCapture(carts, run, run.pc.winner)
  {}

  lemma MergeStepConserves(carts: seq<Cart>, run: Run, w: CartId, captured: seq<Line>, o: Oracle, v: VariantId)
    requires LinesOk(carts, run) && run.pc == Merge(w, captured)
    ensures Balanced(carts, run, StepMerge(carts, run, w, captured, o), v)
  {
    var e := StepMerge(carts, run, w, captured, o);
    if e.run.pc.Returned? {
      var winner := carts[w].blob;
      CartUnitsUpdate(carts, w, e.carts[w], v);
      MergedWinner(winner, captured, o, v);
    }
  }

  ghost predicate AllLinesOk(s: System) {
    && (forall i :: 0 <= i < |s.carts| ==> Distinct(s.carts[i].blob.items) && Positive(s.carts[i].blob.items))
    && (forall r :: 0 <= r < |s.runs| ==> LinesOk(s.carts, s.runs[r]))
  }

  lemma InvLinesOk(s: System)
    requires Inv(s)
    ensures AllLinesOk(s)
  {
    forall r | 0 <= r < |s.runs| ensures LinesOk(s.carts, s.runs[r]) {
      assert RunOk(s.carts, s.runs[r]);
    }
  }

  lemma OneMoreCart(carts: seq<Cart>, cart: Cart, v: VariantId)
    ensures CartUnits(carts + [cart], v) == CartUnits(carts, v) + Units(cart.blob.items, v)
  {
    assert (carts + [cart])[..|carts|] == carts;
  }

  lemma OneMoreRun(runs: seq<Run>, run: Run, v: VariantId)
    ensures FlightUnits(runs + [run], v) == FlightUnits(runs, v) + Units(InFlight(run), v)
  {
    assert (runs + [run])[..|runs|] == runs;
  }

  lemma OneMoreEntry(log: seq<Entry>, entry: Entry, v: VariantId)
    ensures NetUnits(log + [entry], v) == NetUnits(log, v) + Units(entry.change, v)
  {
    assert (log + [entry])[..|log|] == log;
  }

  lemma AdvanceConserves(s: System, r: nat, o: Oracle, v: VariantId)
    requires AllLinesOk(s) && Conserved(s, v) && r < |s.runs|
    ensures Conserved(Next(s, Advance(r, o)), v)
  {
    var e := StepRun(s.tenant, s.carts, s.runs[r], o);
    StepConserves(s.tenant, s.carts, s.runs[r], o, v);
    EffectConserves(s, r, e, v);
  }

  lemma EffectConserves(s: System, r: nat, e: Effect, v: VariantId)
    requires Conserved(s, v) && r < |s.runs| && Balanced(s.carts, s.runs[r], e, v)
    ensures Conserved(s.(carts := e.carts, runs := s.runs[r := e.run], dropped := s.dropped + e.dropped), v)
  {
    FlightUnitsUpdate(s.runs, r, e.run, v);
    UnitsConcat(s.dropped, e.dropped, v);
  }

  lemma ShopConserves(s: System, a: Action, v: VariantId)
    requires AllLinesOk(s) && Conserved(s, v) && EditSucceeds(s, a)
    ensures Conserved(Next(s, a), v)
  {
    var cart := s.carts[a.cart];
    EditedUnits(cart, a.edit, v);
    EditBalances(s, a.cart, Edited(cart, a.edit), Change(cart.blob.items, a.edit), v);
    NextOfShop(s, a);
  }

  lemma EditedUnits(cart: Cart, edit: Edit, v: VariantId)
    requires Distinct(cart.blob.items) && EditItems(cart.blob.items, edit).Some?
    ensures Units(Edited(cart, edit).blob.items, v)
            == Units(cart.blob.items, v) + Units(Change(cart.blob.items, edit), v)
  {
    EditUnits(cart.blob.items, edit, v);
  }

  lemma NextOfShop(s: System, a: Action)
    requires EditSucceeds(s, a)
    ensures var cart := s.carts[a.cart]; var entry := Entry(a.cart, Change(cart.blob.items, a.edit));
            Next(s, a) == s.(carts := s.carts[a.cart := Edited(cart, a.edit)], log := s.log + [entry])
  {}

  lemma EditBalances(s: System, id: CartId, cart: Cart, change: seq<Line>, v: VariantId)
    requires Conserved(s, v) && id < |s.carts|
    requires Units(cart.blob.items, v) == Units(s.carts[id].blob.items, v) + Units(change, v)
    ensures Conserved(s.(carts := s.carts[id := cart], log := s.log + [Entry(id, change)]), v)
  {
    CartUnitsUpdate(s.carts, id, cart, v);
    OneMoreEntry(s.log, Entry(id, change), v);
  }

  lemma NextConserves(s: System, a: Action, v: VariantId)
    requires AllLinesOk(s) && Conserved(s, v)
    ensures Conserved(Next(s, a), v)
  {
    match a
    case Create(newToken, currency) => OneMoreCart(s.carts, NewCart(s.tenant, newToken, currency), v);
    case Begin(cart, token, customer) => OneMoreRun(s.runs, Run(cart, token, customer, Start), v);
    case Advance(r, o) => if r < |s.runs| { AdvanceConserves(s, r, o, v); }
    case Shop(_, _, _, _, _) => if EditSucceeds(s, a) { ShopConserves(s, a, v); }
  }

  /**
   * In every reachable state each unit put in and not taken out again is in a cart, in flight to a winner, or was
   * left behind by a merge.
   */
  lemma {:induction false} UnitsAreConserved(s0: System, acts: seq<Action>, v: VariantId)
    requires Initial(s0)
    ensures Conserved(Exec(s0, acts), v)
  {
    if acts != [] {
      UnitsAreConserved(s0, acts[..|acts| - 1], v);
      ExecKeeps(s0, acts[..|acts| - 1]);
      InvLinesOk(Exec(s0, acts[..|acts| - 1]));
      NextConserves(Exec(s0, acts[..|acts| - 1]), acts[|acts| - 1], v);
    }
  }

  // ---------------------------------------------------------------- what is captured is what shoppers left there

  /** A guest cart holds exactly what shoppers put in and left, until that is captured; then the capture list does. */
  ghost predicate LedgerOk(s: System, v: VariantId) {
    && (forall i :: 0 <= i < |s.log| ==> s.log[i].cart < |s.carts|)
    && (forall g :: 0 <= g < |s.carts| && IsGuest(s.carts[g]) ==>
          Units(s.carts[g].blob.items, v) == NetIn(s.log, g, v))
    && (forall r :: 0 <= r < |s.runs| && s.runs[r].pc.Merge? ==>
          Units(s.runs[r].pc.captured, v) == NetIn(s.log, s.runs[r].cart, v))
  }

  lemma {:induction false} NetOfNewCart(log: seq<Entry>, g: CartId, v: VariantId)
    requires forall i :: 0 <= i < |log| ==> log[i].cart < g
    ensures NetIn(log, g, v) == 0
  {
    if log != [] {
      NetOfNewCart(log[..|log| - 1], g, v);
    }
  }

  lemma AdvanceKeepsLedger(s: System, r: nat, o: Oracle, v: VariantId)
    requires Inv(s) && LedgerOk(s, v) && r < |s.runs|
    ensures LedgerOk(Next(s, Advance(r, o)), v)
  {
    var e := StepRun(s.tenant, s.carts, s.runs[r], o);
    assert RunOk(s.carts, s.runs[r]);
    StepKeeps(s.tenant, s.carts, s.runs[r], o);
    forall g | 0 <= g < |s.carts| && IsGuest(e.carts[g])
      ensures IsGuest(s.carts[g]) && e.carts[g].blob.items == s.carts[g].blob.items
    {
      GuestItemsUntouched(s, r, o, g);
    }
    MergesWhatItCaptured(s, r, o);
    LedgerAfterStep(s, r, e, v);
  }

  predicate IsGuest(cart: Cart) { cart.pg.owner.None? && cart.blob.status == Active }

  lemma MergesWhatItCaptured(s: System, r: nat, o: Oracle)
    requires Inv(s) && r < |s.runs|
    ensures var run := s.runs[r]; var e := StepRun(s.tenant, s.carts, run, o);
            e.run.pc.Merge? ==>
              e.run.cart == run.cart < |s.carts| && run.pc.Capture? && IsGuest(s.carts[run.cart])
              && e.run.pc.captured == s.carts[run.cart].blob.items
  {
    assert RunOk(s.carts, s.runs[r]);
    if s.runs[r].pc.Capture? { CapturingIsAbandoned(s.carts, s.runs[r]); }
  }

  lemma LedgerAfterStep(s: System, r: nat, e: Effect, v: VariantId)
    requires LedgerOk(s, v) && r < |s.runs| && |e.carts| == |s.carts|
    requires forall g :: 0 <= g < |s.carts| && IsGuest(e.carts[g]) ==>
               IsGuest(s.carts[g]) && e.carts[g].blob.items == s.carts[g].blob.items
    requires e.run.pc.Merge? ==>
               && e.run.cart < |s.carts| && IsGuest(s.carts[e.run.cart])
               && e.run.pc.captured == s.carts[e.run.cart].blob.items
    ensures LedgerOk(s.(carts := e.carts, runs := s.runs[r := e.run], dropped := s.dropped + e.dropped), v)
  {}

  lemma GuestItemsUntouched(s: System, r: nat, o: Oracle, g: CartId)
    requires Inv(s) && r < |s.runs| && g < |s.carts|
    requires var e := StepRun(s.tenant, s.carts, s.runs[r], o);
             |e.carts| == |s.carts| && e.carts[g].pg.owner.None? && e.carts[g].blob.status == Active
    ensures var e := StepRun(s.tenant, s.carts, s.runs[r], o);
            s.carts[g].pg.owner.None? && s.carts[g].blob.status == Active
                && e.carts[g].blob.items == s.carts[g].blob.items
  {
    assert RunOk(s.carts, s.runs[r]);
    StepKeeps(s.tenant, s.carts, s.runs[r], o);
    var e := StepRun(s.tenant, s.carts, s.runs[r], o);
    assert CartEvolves(s.carts[g], e.carts[g]);
  }

  lemma EditKeepsLedger(s: System, a: Action, v: VariantId)
    requires Inv(s) && LedgerOk(s, v) && a.Shop?
    ensures LedgerOk(Next(s, a), v)
  {
    if EditSucceeds(s, a) {
      var cart := s.carts[a.cart];
      assert CartOk(cart);
      EditedUnits(cart, a.edit, v);
      NotCaptured(s, a.cart);
      LedgerAfterEdit(s, a.cart, Edited(cart, a.edit), Change(cart.blob.items, a.edit), v);
      NextOfShop(s, a);
    }
  }

  lemma NotCaptured(s: System, g: CartId)
    requires Inv(s) && g < |s.carts| && s.carts[g].blob.status != Abandoned
    ensures forall r :: 0 <= r < |s.runs| && s.runs[r].pc.Merge? ==> s.runs[r].cart != g
  {
    forall r | 0 <= r < |s.runs| && s.runs[r].pc.Merge? ensures s.runs[r].cart != g {
      assert RunOk(s.carts, s.runs[r]);
    }
  }

  lemma LedgerAfterEdit(s: System, id: CartId, cart: Cart, change: seq<Line>, v: VariantId)
    requires LedgerOk(s, v) && id < |s.carts|
    requires cart.pg == s.carts[id].pg && cart.blob.status == s.carts[id].blob.status
    requires Units(cart.blob.items, v) == Units(s.carts[id].blob.items, v) + Units(change, v)
    requires forall r :: 0 <= r < |s.runs| && s.runs[r].pc.Merge? ==> s.runs[r].cart != id
    ensures LedgerOk(s.(carts := s.carts[id := cart], log := s.log + [Entry(id, change)]), v)
  {
    var log := s.log + [Entry(id, change)];
    forall g ensures NetIn(log, g, v) == NetIn(s.log, g, v) + if g == id then Units(change, v) else 0 {
      NetOfOneMore(s.log, Entry(id, change), g, v);
    }
  }

  lemma NetOfOneMore(log: seq<Entry>, entry: Entry, g: CartId, v: VariantId)
    ensures NetIn(log + [entry], g, v) == NetIn(log, g, v) + if entry.cart == g then Units(entry.change, v) else 0
  {
    assert (log + [entry])[..|log|] == log;
  }

  lemma NextKeepsLedger(s: System, a: Action, v: VariantId)
    requires Inv(s) && LedgerOk(s, v)
    ensures LedgerOk(Next(s, a), v)
  {
    match a
    case Create(_, _) => NetOfNewCart(s.log, |s.carts|, v);
    case Begin(_, _, _) =>
    case Advance(r, o) => if r < |s.runs| { AdvanceKeepsLedger(s, r, o, v); }
    case Shop(_, _, _, _, _) => EditKeepsLedger(s, a, v);
  }

  /** Every edit that succeeded before the capture is reflected in the captured list, and none succeeds after it. */
  lemma {:induction false} CapturedIsTheNet(s0: System, acts: seq<Action>, v: VariantId)
    requires Initial(s0)
    ensures LedgerOk(Exec(s0, acts), v)
  {
    if acts != [] {
      CapturedIsTheNet(s0, acts[..|acts| - 1], v);
      ExecKeeps(s0, acts[..|acts| - 1]);
      NextKeepsLedger(Exec(s0, acts[..|acts| - 1]), acts[|acts| - 1], v);
    }
  }

  // ---------------------------------------------------------------- a completed merge

  lemma {:induction false} ReservedUnits(lines: seq<Line>, stock: map<VariantId, Supply>, v: VariantId)
    requires Distinct(lines) && ReserveAll(lines, stock).Some?
    ensures FirstOf(lines, v).Some? ==> v in stock
    ensures Units(ReserveAll(lines, stock).value, v)
            == if FirstOf(lines, v).Some? then Reserve(stock, v, FirstOf(lines, v).value.quantity).value else 0
  {
    if lines != [] {
      var front, last := lines[..|lines| - 1], lines[|lines| - 1];
      ReservedUnits(front, stock, v);
      FirstOfIsALine(front, v);
      var kept := ReserveAll(front, stock).value;
      var got := Reserve(stock, last.variantId, last.quantity);
      assert (kept + [last.(quantity := got.value)])[..|kept|] == kept;
    }
  }

  /** `asked` units against the stock: everything under backorder, otherwise no more than is available. */
  function Granted(supply: Supply, asked: int): int {
    if supply.allowBackorder || asked <= supply.available then asked else Max0(supply.available)
  }

  /**
   * When a merge step succeeds, the winner holds of every variant what it held plus the net of all edits of
   * the guest cart, as far as stock grants it; the rest is recorded as dropped, the lines are distinct and positive,
   * and the guest cart is empty and abandoned in both stores.
   */
  lemma CompletedMerge(s0: System, acts: seq<Action>, r: nat, o: Oracle, v: VariantId)
    requires Initial(s0) && r < |Exec(s0, acts).runs| && Exec(s0, acts).runs[r].pc.Merge?
    requires Next(Exec(s0, acts), Advance(r, o)).runs[r].pc.Returned?
    ensures var s := Exec(s0, acts); var run := s.runs[r]; var w := run.pc.winner; var s' := Next(s, Advance(r, o));
            && s'.runs[r].pc == Returned(MergedInto(w)) && w < |s.carts| && run.cart < |s.carts|
            && var asked := Units(s.carts[w].blob.items, v) + NetIn(s.log, run.cart, v);
               && (asked > 0 ==> v in o.stock)
               && Units(s'.carts[w].blob.items, v) == (if asked > 0 then Granted(o.stock[v], asked) else 0)
               && Units(s'.dropped, v) == Units(s.dropped, v) + asked - Units(s'.carts[w].blob.items, v)
               && Distinct(s'.carts[w].blob.items) && Positive(s'.carts[w].blob.items)
               && s'.carts[run.cart].blob.status == Abandoned && s'.carts[run.cart].blob.items == []
               && s'.carts[run.cart].pg.status == Abandoned
  {
    ExecKeeps(s0, acts);
    CapturedIsTheNet(s0, acts, v);
    CompletedStep(Exec(s0, acts), r, o, v);
  }

  lemma CompletedStep(s: System, r: nat, o: Oracle, v: VariantId)
    requires Inv(s) && LedgerOk(s, v) && r < |s.runs| && s.runs[r].pc.Merge?
    requires Next(s, Advance(r, o)).runs[r].pc.Returned?
    ensures var run := s.runs[r]; var w := run.pc.winner; var s' := Next(s, Advance(r, o));
            && s'.runs[r].pc == Returned(MergedInto(w)) && w < |s.carts| && run.cart < |s.carts|
            && var asked := Units(s.carts[w].blob.items, v) + NetIn(s.log, run.cart, v);
               && (asked > 0 ==> v in o.stock)
               && Units(s'.carts[w].blob.items, v) == (if asked > 0 then Granted(o.stock[v], asked) else 0)
               && Units(s'.dropped, v) == Units(s.dropped, v) + asked - Units(s'.carts[w].blob.items, v)
               && Distinct(s'.carts[w].blob.items) && Positive(s'.carts[w].blob.items)
               && s'.carts[run.cart].blob.status == Abandoned && s'.carts[run.cart].blob.items == []
               && s'.carts[run.cart].pg.status == Abandoned
  {
    var run := s.runs[r];
    var e := StepMerge(s.carts, run, run.pc.winner, run.pc.captured, o);
    assert RunOk(s.carts, run) && CartOk(s.carts[run.cart]);
    NextOfMerge(s, r, o);
    MergeEffect(s.carts, run, o, v);
    UnitsConcat(s.dropped, e.dropped, v);
  }

  lemma NextOfMerge(s: System, r: nat, o: Oracle)
    requires r < |s.runs| && s.runs[r].pc.Merge? && Next(s, Advance(r, o)).runs[r].pc.Returned?
    ensures var run := s.runs[r]; var e := StepMerge(s.carts, run, run.pc.winner, run.pc.captured, o);
            Next(s, Advance(r, o)) == s.(carts := e.carts, runs := s.runs[r := e.run], dropped := s.dropped + e.dropped)
  {}

  lemma MergeEffect(carts: seq<Cart>, run: Run, o: Oracle, v: VariantId)
    requires GoodStart(carts, run) && run.pc.Merge?
    requires StepMerge(carts, run, run.pc.winner, run.pc.captured, o).run.pc.Returned?
    ensures var w := run.pc.winner; var e := StepMerge(carts, run, w, run.pc.captured, o);
            && e.run.pc == Returned(MergedInto(w)) && w < |carts| == |e.carts|
            && (forall i :: 0 <= i < |carts| && i != w ==> e.carts[i] == carts[i])
            && var asked := Units(carts[w].blob.items, v) + Units(run.pc.captured, v);
               && (asked > 0 ==> v in o.stock)
               && Units(e.carts[w].blob.items, v) == (if asked > 0 then Granted(o.stock[v], asked) else 0)
               && Units(e.dropped, v) == asked - Units(e.carts[w].blob.items, v)
               && Distinct(e.carts[w].blob.items) && Positive(e.carts[w].blob.items)
  {
    var w, captured := run.pc.winner, run.pc.captured;
    assert CartOk(carts[w]);
    MergedWinner(carts[w].blob, captured, o, v);
    MergedShape(captured, carts[w].blob, o);
  }

  lemma MergedWinner(winner: Blob, captured: seq<Line>, o: Oracle, v: VariantId)
    requires Distinct(winner.items) && Positive(winner.items) && Positive(captured)
    requires ReserveAll(MergedLines(captured, winner, o.now), o.stock).Some?
    ensures var merged := MergedLines(captured, winner, o.now);
            var asked := Units(winner.items, v) + Units(captured, v);
            && (asked > 0 ==> v in o.stock)
            && Units(ReserveAll(merged, o.stock).value, v) == (if asked > 0 then Granted(o.stock[v], asked) else 0)
            && Units(Shortfall(merged, o.stock), v) == asked - Units(ReserveAll(merged, o.stock).value, v)
  {
    var merged := MergedLines(captured, winner, o.now);
    CartMerge.MergeOrder(captured, winner.items, map[], o.now);
    CartMerge.MergeConserves(captured, winner.items, o.now, v);
    UnitsOfDistinct(merged, v);
    FirstOfIsALine(merged, v);
    ReservedUnits(merged, o.stock, v);
    ReserveSplits(merged, o.stock, v);
  }

  // ---------------------------------------------------------------- a schedule that loses a cart

  const EMPTY: System := System("t", [], [], [], [])
  const CALM: Oracle := Oracle(false, "n", 0, map["v" := Supply(10, false)])
  const BOOK: Line := Line("v", 1, Snapshot("l", 100, "EUR", "book", "sku"), 0)
  const ANN: Customer := Customer(7, "t")

  /** Two guest carts, a book in the second, and Ann logging in twice at once, once from each. */
  const SETUP: seq<Action> :=
    [Create("a", "EUR"), Create("b", "EUR"), Shop(1, Some("b"), None, AddItem(BOOK), true), Begin(0, Some("a"), ANN),
        Begin(1, Some("b"), ANN)]

  /** `n` undisturbed steps of call `r`. */
  function Drive(r: nat, n: nat): seq<Action> {
    if n == 0 then [] else Drive(r, n - 1) + [Advance(r, CALM)]
  }

  /**
   * Call 0 adopts its cart in Postgres but has not reached Redis yet when call 1, told by the unique index that Ann
   * has a cart, captures the second cart and tries to merge it there.
   */
  function LossSchedule(): seq<Action> { SETUP + Drive(0, 2) + Drive(1, 7) }

  lemma DriveStep(s: System, r: nat, n: nat)
    ensures Exec(s, Drive(r, n + 1)) == Next(Exec(s, Drive(r, n)), Advance(r, CALM))
  {
    assert Drive(r, n + 1)[..|Drive(r, n)|] == Drive(r, n);
  }

  /** The system with Ann's two calls at the given points. */
  function Scene(w: Cart, g: Cart, pc0: Pc, pc1: Pc): System {
    System("t", [w, g], [Run(0, Some("a"), ANN, pc0), Run(1, Some("b"), ANN, pc1)], [Entry(1, [BOOK])], [])
  }

  const GUEST_W: Cart := Cart(PgRow(Active, None, "a"), Blob("t", None, "a", "EUR", Active, []))
  const CLAIMED_W: Cart := Cart(PgRow(Active, Some(7), "n"), Blob("t", None, "a", "EUR", Active, []))
  const GUEST_G: Cart := Cart(PgRow(Active, None, "b"), Blob("t", None, "b", "EUR", Active, [BOOK]))
  const ABANDONED_G: Cart := Cart(PgRow(Abandoned, None, "b"), Blob("t", None, "b", "EUR", Active, [BOOK]))
  const EMPTIED_G: Cart := Cart(PgRow(Abandoned, None, "b"), Blob("t", None, "b", "EUR", Abandoned, []))

  lemma SceneIsSet()
    ensures Exec(EMPTY, SETUP) == Scene(GUEST_W, GUEST_G, Start, Start)
  {
    assert SETUP[..4][..3] == SETUP[..3] && SETUP[..3][..2] == SETUP[..2] && SETUP[..2][..1] == SETUP[..1]
           && SETUP[..1][..0] == [];
    var g0 := NewCart("t", "b", "EUR");
    assert Exec(EMPTY, SETUP[..1]) == System("t", [GUEST_W], [], [], []);
    assert Exec(EMPTY, SETUP[..2]) == System("t", [GUEST_W, g0], [], [], []);
    assert AddLine([], BOOK) == [BOOK];
    assert [GUEST_W, g0][1 := GUEST_G] == [GUEST_W, GUEST_G];
    assert Exec(EMPTY, SETUP[..3]) == System("t", [GUEST_W, GUEST_G], [], [Entry(1, [BOOK])], []);
  }

  lemma FirstCallClaims()
    ensures Next(Next(Scene(GUEST_W, GUEST_G, Start, Start), Advance(0, CALM)), Advance(0, CALM))
            == Scene(CLAIMED_W, GUEST_G, Commit("n"), Start)
  {
    assert Next(Scene(GUEST_W, GUEST_G, Start, Start), Advance(0, CALM))
           == Scene(GUEST_W, GUEST_G, Claim("EUR"), Start);
    assert !HasOtherActive([GUEST_W, GUEST_G], 0, 7);
    assert [GUEST_W, GUEST_G][0 := CLAIMED_W] == [CLAIMED_W, GUEST_G];
  }

  lemma SecondCallFindsWinner()
    ensures Next(Scene(CLAIMED_W, GUEST_G, Commit("n"), Start), Advance(1, CALM))
            == Scene(CLAIMED_W, GUEST_G, Commit("n"), Claim("EUR"))
    ensures Next(Scene(CLAIMED_W, GUEST_G, Commit("n"), Claim("EUR")), Advance(1, CALM))
            == Scene(CLAIMED_W, GUEST_G, Commit("n"), FindWinner("EUR"))
    ensures Next(Scene(CLAIMED_W, GUEST_G, Commit("n"), FindWinner("EUR")), Advance(1, CALM))
            == Scene(CLAIMED_W, GUEST_G, Commit("n"), CheckWinner("EUR", 0))
  {
    assert [CLAIMED_W, GUEST_G][0] == CLAIMED_W;
    assert HasOtherActive([CLAIMED_W, GUEST_G], 1, 7);
  }

  lemma SecondCallCaptures()
    ensures Next(Scene(CLAIMED_W, GUEST_G, Commit("n"), CheckWinner("EUR", 0)), Advance(1, CALM))
            == Scene(CLAIMED_W, GUEST_G, Commit("n"), TryAbandon(0))
    ensures Next(Scene(CLAIMED_W, GUEST_G, Commit("n"), TryAbandon(0)), Advance(1, CALM))
            == Scene(CLAIMED_W, ABANDONED_G, Commit("n"), Capture(0))
    ensures Next(Scene(CLAIMED_W, ABANDONED_G, Commit("n"), Capture(0)), Advance(1, CALM))
            == Scene(CLAIMED_W, EMPTIED_G, Commit("n"), Merge(0, [BOOK]))
    ensures Next(Scene(CLAIMED_W, EMPTIED_G, Commit("n"), Merge(0, [BOOK])), Advance(1, CALM))
            == Scene(CLAIMED_W, EMPTIED_G, Commit("n"), Failed(Conflict)).(dropped := [BOOK])
  {
    assert [CLAIMED_W, GUEST_G][1 := ABANDONED_G] == [CLAIMED_W, ABANDONED_G];
    assert [CLAIMED_W, ABANDONED_G][1 := EMPTIED_G] == [CLAIMED_W, EMPTIED_G];
  }

  /** No step of the schedule throws, every variant is in stock, and yet Ann's book ends in no cart. */
  lemma CapturedUnitsCanBeLost()
    ensures Initial(EMPTY)
    ensures Exec(EMPTY, LossSchedule())
            == Scene(CLAIMED_W, EMPTIED_G, Commit("n"), Failed(Conflict)).(dropped := [BOOK])
  {
    ExecConcat(EMPTY, SETUP + Drive(0, 2), Drive(1, 7));
    ExecConcat(EMPTY, SETUP, Drive(0, 2));
    SceneIsSet();
    var s := Exec(EMPTY, SETUP);
    DriveStep(s, 0, 0);
    DriveStep(s, 0, 1);
    FirstCallClaims();
    var s' := Scene(CLAIMED_W, GUEST_G, Commit("n"), Start);
    assert Exec(s, Drive(0, 2)) == s';
    SecondCallFindsWinner();
    SecondCallCaptures();
    forall n: nat | n < 7 { DriveStep(s', 1, n); }
    assert Exec(s', Drive(1, 0)) == s';
  }
}
