/** What shoppers' edits do to a cart, line by line, and who may make them (`apps/api/src/cart/cart.service.ts`). */
module CartAssociationEdits {
  import opened Wrappers
  import opened CartLines
  import CartMerge
  import opened CartAuthorise
  import opened CartAssociation

  /** The source's own refusals, besides authorisation: nothing to add, or no such item to update. */
  predicate Refused(items: seq<Line>, edit: Edit) {
    match edit
    case AddItem(line) => line.quantity <= 0
    case UpdateItem(itemId, quantity, _) =>
      quantity <= 0 || forall k :: 0 <= k < |items| ==> items[k].snapshot.lineId != itemId
    case RemoveItem(_) => false
  }

  /** The line of `v` after `line` was added to what was there. */
  function Topped(before: Option<Line>, line: Line, v: VariantId): Option<Line> {
    if v != line.variantId then before
    else if before.None? then Some(line)
    else Some(before.value.(quantity := before.value.quantity + line.quantity, updatedAt := line.updatedAt))
  }

  /** What an addition leaves: the known line of its variant topped up in place, or a new line at the end. */
  ghost predicate Added(before: seq<Line>, after: seq<Line>, line: Line) {
    && (forall v :: FirstOf(after, v) == Topped(FirstOf(before, v), line, v))
    && Ids(after) == if FirstOf(before, line.variantId).Some? then Ids(before) else Ids(before) + [line.variantId]
  }

  /** What an update leaves: the first line of that id with the new quantity, and every other line as it was. */
  ghost predicate Updated(before: seq<Line>, after: seq<Line>, itemId: string, quantity: int, now: int) {
    exists k :: 0 <= k < |before| && before[k].snapshot.lineId == itemId
                && (forall j :: 0 <= j < k ==> before[j].snapshot.lineId != itemId)
                && after == before[k := before[k].(quantity := quantity, updatedAt := now)]
  }

  /** What a removal leaves: the other lines, each where it was, in their order. */
  ghost predicate Removed(before: seq<Line>, after: seq<Line>, itemId: string) {
    exists kept :: Keeps(kept, before, after) && Others(kept, before, itemId)
  }

  /** `after` is what stands at the ascending positions `kept` of `before`. */
  ghost predicate Keeps(kept: seq<nat>, before: seq<Line>, after: seq<Line>) {
    && |kept| == |after|
    && (forall i :: 0 <= i < |kept| ==> kept[i] < |before| && after[i] == before[kept[i]])
    && (forall i, j :: 0 <= i < j < |kept| ==> kept[i] < kept[j])
  }

  ghost predicate Others(kept: seq<nat>, before: seq<Line>, itemId: string) {
    forall k: nat :: k in kept <==> k < |before| && before[k].snapshot.lineId != itemId
  }

  ghost predicate LeavesLines(before: seq<Line>, after: seq<Line>, edit: Edit) {
    match edit
    case AddItem(line) => Added(before, after, line)
    case UpdateItem(itemId, quantity, now) => Updated(before, after, itemId, quantity, now)
    case RemoveItem(itemId) => Removed(before, after, itemId)
  }

  lemma AddsExactly(items: seq<Line>, line: Line)
    ensures Added(items, AddLine(items, line), line)
  {
    forall v ensures FirstOf(AddLine(items, line), v) == Topped(FirstOf(items, v), line, v) {
      AddedLine(items, line, v);
    }
    AddedLine(items, line, line.variantId);
  }

  lemma AddedLine(items: seq<Line>, line: Line, v: VariantId)
    ensures FirstOf(AddLine(items, line), v) == Topped(FirstOf(items, v), line, v)
    ensures Ids(AddLine(items, line))
            == if FirstOf(items, line.variantId).Some? then Ids(items) else Ids(items) + [line.variantId]
  {
    FirstOfIsALine(items, line.variantId);
    var existing := FirstOf(items, line.variantId);
    if existing.Some? {
      var topped := existing.value.(quantity := existing.value.quantity + line.quantity, updatedAt := line.updatedAt);
      CartMerge.ReplaceLookup(items, topped, v);
    } else {
      assert (items + [line])[..|items|] == items;
      FirstOfIsALine(items, v);
    }
  }

  lemma {:induction false} RemovesExactly(items: seq<Line>, itemId: string) returns (kept: seq<nat>)
    ensures Keeps(kept, items, WithoutItem(items, itemId)) && Others(kept, items, itemId)
  {
    kept := [];
    if items != [] {
      var n := |items| - 1;
      kept := RemovesExactly(items[..n], itemId);
      OneMoreKept(kept, items, WithoutItem(items[..n], itemId));
      OneMoreOther(kept, items, itemId);
      if items[n].snapshot.lineId != itemId { kept := kept + [n]; }
    }
  }

  lemma OneMoreKept(kept: seq<nat>, items: seq<Line>, after: seq<Line>)
    requires items != [] && Keeps(kept, items[..|items| - 1], after)
    ensures Keeps(kept, items, after) && Keeps(kept + [|items| - 1], items, after + [items[|items| - 1]])
  {}

  lemma OneMoreOther(kept: seq<nat>, items: seq<Line>, itemId: string)
    requires items != [] && Others(kept, items[..|items| - 1], itemId)
    ensures var n := |items| - 1;
            Others(if items[n].snapshot.lineId == itemId then kept else kept + [n], items, itemId)
  {
    var n := |items| - 1;
    forall k: nat | k < n ensures k in kept <==> items[k].snapshot.lineId != itemId {
      assert items[..n][k] == items[k];
    }
  }

  /** An edit goes through exactly when it is not refused, and leaves exactly the lines it should. */
  lemma EditsExactly(items: seq<Line>, edit: Edit)
    ensures EditItems(items, edit).None? <==> Refused(items, edit)
    ensures EditItems(items, edit).Some? ==> LeavesLines(items, EditItems(items, edit).value, edit)
  {
    match edit
    case AddItem(line) => AddsExactly(items, line);
    case UpdateItem(_, _, _) =>
    case RemoveItem(itemId) => var kept := RemovesExactly(items, itemId);
  }

  /**
   * A shopper's action changes something exactly when she holds the token or owns the cart, it is not abandoned, and
   * neither the edit nor anything else refuses; then it changes the lines of that cart and nothing else in the stores.
   */
  lemma ShopsExactly(s: System, a: Action)
    requires a.Shop?
    ensures var blob := Read(s.carts, a.cart);
            if Live(blob) && (HoldsToken(blob.value, a.token) || OwnsByJwt(blob.value, a.principal)) && a.admitted
              && !Refused(blob.value.items, a.edit) then
              && Next(s, a).runs == s.runs
              && exists items ::
                   && LeavesLines(blob.value.items, items, a.edit)
                   && Next(s, a).carts == s.carts[a.cart := s.carts[a.cart].(blob := blob.value.(items := items))]
            else Next(s, a) == s
  {
    AuthorisedExactly(Read(s.carts, a.cart), a.token, a.principal);
    if a.cart < |s.carts| { EditsExactly(s.carts[a.cart].blob.items, a.edit); }
  }
}
