/**
 * Guest-to-customer association (`apps/api/src/cart/cart-associate.service.ts`) as a protocol: any number of
 * `associateCustomer` calls for one tenant, interleaved at every `await`, over two stores.
 *
 * A cart is its Postgres row and its Redis blob; carts are numbered, and a number with no cart stands for an id
 * absent from both stores.  Each step below is one awaited store operation: `mutate` is one atomic
 * read-modify-write of one blob, and `claimCustomer` / `tryAbandonOwnGuestCart` are one guarded SQL update each.
 */
module CartAssociation {
  import opened Wrappers
  import opened CartLines
  import CartMerge
  import opened CartAuthorise

  type CartId = nat

  datatype PgRow = PgRow(status: Status, owner: Option<CustomerId>, token: string)

  datatype Cart = Cart(pg: PgRow, blob: Blob)

  datatype Pc =
    | Start
    | Claim(currency: string)
    | Commit(newToken: string)
    | ReadAfterBlocked
    | FindWinner(currency: string)
    | CheckWinner(currency: string, winner: CartId)
    | TryAbandon(winner: CartId)
    | ReadAfterRefused
    | Capture(winner: CartId)
    | Merge(winner: CartId, captured: seq<Line>)
    | Returned(result: Success)
    | Failed(error: Error)

  datatype Success = AlreadyMine | Adopted | RacedToOurs | MergedInto(winner: CartId)

  /** One call of `associateCustomer`. */
  datatype Run = Run(cart: CartId, token: Option<string>, customer: Customer, pc: Pc)

  /** What a shopper does to the lines of a cart: `addItem`, `updateItem`, `removeItem`. */
  datatype Edit =
    | AddItem(line: Line)
    | UpdateItem(itemId: string, quantity: int, now: int)
    | RemoveItem(itemId: string)

  /** One successful edit: the signed change in units, line by line. */
  datatype Entry = Entry(cart: CartId, change: seq<Line>)

  /** `log` and `dropped` only record history: what shoppers changed, and what a merge step left behind. */
  datatype System = System(tenant: string, carts: seq<Cart>, runs: seq<Run>, log: seq<Entry>, dropped: seq<Line>)

  /** What `reserve` finds for a variant: stock less the holds of other carts. */
  datatype Supply = Supply(available: int, allowBackorder: bool)

  /** What a step reads from outside the model: a fresh token, the clock, stock, and whether anything throws. */
  datatype Oracle = Oracle(fault: bool, newToken: string, now: int, stock: map<VariantId, Supply>)

  datatype Action =
    | Create(newToken: string, currency: string)
    | Begin(cart: CartId, token: Option<string>, customer: Customer)
    | Advance(run: nat, oracle: Oracle)
    | Shop(cart: CartId, token: Option<string>, principal: Option<Customer>, edit: Edit, admitted: bool)

  // ---------------------------------------------------------------- the store operations

  function Read(carts: seq<Cart>, id: CartId): Option<Blob> {
    if id < |carts| then Some(carts[id].blob) else None
  }

  datatype ClaimResult = Claimed | NoRow | UniqueViolation

  predicate UnownedOrMine(row: PgRow, c: CustomerId) {
    row.status == Active && (row.owner.None? || row.owner == Some(c))
  }

  /** The partial unique index: another active row of the same customer. */
  predicate HasOtherActive(carts: seq<Cart>, id: CartId, c: CustomerId) {
    exists j :: 0 <= j < |carts| && j != id && carts[j].pg.status == Active && carts[j].pg.owner == Some(c)
  }

  function ClaimCustomer(carts: seq<Cart>, id: CartId, c: CustomerId): ClaimResult {
    if id >= |carts| || !UnownedOrMine(carts[id].pg, c) then NoRow
    else if HasOtherActive(carts, id, c) then UniqueViolation
    else Claimed
  }

  /** `findActiveCartIdByCustomer` (`LIMIT 1`), scanning from row `from`. */
  function FindActive(carts: seq<Cart>, c: CustomerId, from: nat): (r: Option<CartId>)
    requires from <= |carts|
    ensures r.Some? ==> r.value < |carts| && carts[r.value].pg.status == Active && carts[r.value].pg.owner == Some(c)
    ensures r.None? ==>
              forall j :: from <= j < |carts| ==> !(carts[j].pg.status == Active && carts[j].pg.owner == Some(c))
    decreases |carts| - from
  {
    if from == |carts| then None
    else if carts[from].pg.status == Active && carts[from].pg.owner == Some(c) then Some(from)
    else FindActive(carts, c, from + 1)
  }

  /** `reserve` with `clampToAvailable`: `None` when the variant is gone (the source throws). */
  function Reserve(stock: map<VariantId, Supply>, v: VariantId, quantity: int): Option<int> {
    if v !in stock then None
    else
      var clamps := !stock[v].allowBackorder && quantity > stock[v].available;
      var qty := if clamps then Max0(stock[v].available) else quantity;
      Some(Max0(qty))
  }

  /** The reservation loop: keep each line at what was granted, drop it when nothing was. */
  function ReserveAll(lines: seq<Line>, stock: map<VariantId, Supply>): Option<seq<Line>> {
    if lines == [] then Some([])
    else
      var front := ReserveAll(lines[..|lines| - 1], stock);
      var last := lines[|lines| - 1];
      var got := Reserve(stock, last.variantId, last.quantity);
      if front.None? || got.None? then None
      else if got.value > 0 then Some(front.value + [last.(quantity := got.value)])
      else front
  }

  /** What the reservation loop did not grant, line by line. */
  function Shortfall(lines: seq<Line>, stock: map<VariantId, Supply>): seq<Line> {
    if lines == [] then []
    else
      var last := lines[|lines| - 1];
      var got := Reserve(stock, last.variantId, last.quantity);
      Shortfall(lines[..|lines| - 1], stock) + [last.(quantity := last.quantity - QuantityOrZero(got))]
  }

  function QuantityOrZero(got: Option<int>): int { if got.Some? then got.value else 0 }

  // ---------------------------------------------------------------- the mutate callbacks

  /** The adoption callback: ownership and the rotated token. */
  function CommitBlob(blob: Blob, c: CustomerId, newToken: string): Blob {
    if blob.owner == Some(c) then blob else blob.(owner := Some(c), token := newToken)
  }

  function CaptureBlob(blob: Blob): Blob { blob.(status := Abandoned, items := []) }

  predicate MayMergeInto(winner: Option<Blob>, c: CustomerId) {
    winner.Some? && winner.value.status == Active && winner.value.owner == Some(c)
  }

  function MergedLines(captured: seq<Line>, winner: Blob, now: int): seq<Line> {
    CartMerge.Merged(captured, winner.items, map[], now)
  }

  // ---------------------------------------------------------------- one step of one call

  /** The effect of one step: the carts and the call afterwards, and the lines left behind. */
  datatype Effect = Effect(carts: seq<Cart>, run: Run, dropped: seq<Line>)

  function At(carts: seq<Cart>, run: Run, pc: Pc): Effect { Effect(carts, run.(pc := pc), []) }

  function StepStart(tenant: string, carts: seq<Cart>, run: Run): Effect {
    if run.customer.tenantId != tenant then At(carts, run, Failed(Forbidden))
    else
      var guest := Read(carts, run.cart);
      var refused := Authorise(guest, run.token, None);
      if refused.Some? then At(carts, run, Failed(refused.value))
      else if guest.value.owner.Some? && guest.value.owner.value != run.customer.id
      then At(carts, run, Failed(Forbidden))
      else if guest.value.owner == Some(run.customer.id) then At(carts, run, Returned(AlreadyMine))
      else At(carts, run, Claim(guest.value.currency))
  }

  function StepClaim(carts: seq<Cart>, run: Run, currency: string, newToken: string): Effect {
    match ClaimCustomer(carts, run.cart, run.customer.id)
    case Claimed =>
      var cart := carts[run.cart];
      var row := cart.pg.(owner := Some(run.customer.id), token := newToken);
      At(carts[run.cart := cart.(pg := row)], run, Commit(newToken))
    case UniqueViolation => At(carts, run, FindWinner(currency))
    case NoRow => At(carts, run, ReadAfterBlocked)
  }

  function StepCommit(carts: seq<Cart>, run: Run, newToken: string): Effect {
    var state := Read(carts, run.cart);
    var refused := Authorise(state, run.token, None);
    if refused.Some? then At(carts, run, Failed(refused.value))
    else
      var cart := carts[run.cart];
      At(carts[run.cart := cart.(blob := CommitBlob(cart.blob, run.customer.id, newToken))], run, Returned(Adopted))
  }

  function StepReadAfterBlocked(carts: seq<Cart>, run: Run): Effect {
    var latest := Read(carts, run.cart);
    if latest.Some? && latest.value.owner.Some? && latest.value.owner.value != run.customer.id
    then At(carts, run, Failed(Forbidden))
    else if latest.Some? && latest.value.owner == Some(run.customer.id) then At(carts, run, Returned(RacedToOurs))
    else At(carts, run, Failed(Conflict))
  }

  function StepFindWinner(carts: seq<Cart>, run: Run, currency: string): Effect {
    var winner := FindActive(carts, run.customer.id, 0);
    if winner.None? || winner.value == run.cart then At(carts, run, Failed(Conflict))
    else At(carts, run, CheckWinner(currency, winner.value))
  }

  function StepCheckWinner(carts: seq<Cart>, run: Run, currency: string, winner: CartId): Effect {
    var state := Read(carts, winner);
    if state.None? || state.value.status != Active then At(carts, run, Failed(Conflict))
    else if currency != state.value.currency then At(carts, run, Failed(CurrencyMismatch))
    else At(carts, run, TryAbandon(winner))
  }

  function StepTryAbandon(carts: seq<Cart>, run: Run, winner: CartId): Effect {
    if run.cart < |carts| && UnownedOrMine(carts[run.cart].pg, run.customer.id) then
      var cart := carts[run.cart];
      At(carts[run.cart := cart.(pg := cart.pg.(status := Abandoned))], run, Capture(winner))
    else At(carts, run, ReadAfterRefused)
  }

  function StepReadAfterRefused(carts: seq<Cart>, run: Run): Effect {
    var latest := Read(carts, run.cart);
    if latest.Some? && latest.value.owner.Some? && latest.value.owner.value != run.customer.id
    then At(carts, run, Failed(Forbidden))
    else At(carts, run, Failed(Conflict))
  }

  function StepCapture(carts: seq<Cart>, run: Run, winner: CartId): Effect {
    var state := Read(carts, run.cart);
    if state.None? then At(carts, run, Merge(winner, []))
    else if state.value.owner.Some? && state.value.owner.value != run.customer.id then At(carts, run, Failed(Forbidden))
    else
      var cart := carts[run.cart];
      At(carts[run.cart := cart.(blob := CaptureBlob(cart.blob))], run, Merge(winner, cart.blob.items))
  }

  function StepMerge(carts: seq<Cart>, run: Run, winner: CartId, captured: seq<Line>, o: Oracle): Effect {
    if !MayMergeInto(Read(carts, winner), run.customer.id) then Effect(carts, run.(pc := Failed(Conflict)), captured)
    else
      var cart := carts[winner];
      var merged := MergedLines(captured, cart.blob, o.now);
      match ReserveAll(merged, o.stock)
      case None => Effect(carts, run.(pc := Failed(VariantMissing)), captured)
      case Some(survivors) =>
        Effect(carts[winner := cart.(blob := cart.blob.(items := survivors))], run.(pc := Returned(MergedInto(winner))),
               Shortfall(merged, o.stock))
  }

  /** Anything awaited may throw; then nothing is written and the call ends, with whatever it had captured. */
  function StepFault(carts: seq<Cart>, run: Run): Effect {
    if Finished(run) then At(carts, run, run.pc)
    else Effect(carts, run.(pc := Failed(Fault)), InFlight(run))
  }

  predicate Finished(run: Run) { run.pc.Returned? || run.pc.Failed? }

  /** Units a call holds between capture and merge, in no store. */
  function InFlight(run: Run): seq<Line> { if run.pc.Merge? then run.pc.captured else [] }

  /** The tenant guard comes before the first await. */
  predicate Awaits(tenant: string, run: Run) { run.pc.Start? ==> run.customer.tenantId == tenant }

  function StepRun(tenant: string, carts: seq<Cart>, run: Run, o: Oracle): Effect {
    if o.fault && Awaits(tenant, run) then StepFault(carts, run)
    else match run.pc
      case Start => StepStart(tenant, carts, run)
      case Claim(currency) => StepClaim(carts, run, currency, o.newToken)
      case Commit(newToken) => StepCommit(carts, run, newToken)
      case ReadAfterBlocked => StepReadAfterBlocked(carts, run)
      case FindWinner(currency) => StepFindWinner(carts, run, currency)
      case CheckWinner(currency, winner) => StepCheckWinner(carts, run, currency, winner)
      case TryAbandon(winner) => StepTryAbandon(carts, run, winner)
      case ReadAfterRefused => StepReadAfterRefused(carts, run)
      case Capture(winner) => StepCapture(carts, run, winner)
      case Merge(winner, captured) => StepMerge(carts, run, winner, captured, o)
      case Returned(_) => At(carts, run, run.pc)
      case Failed(_) => At(carts, run, run.pc)
  }

  // ---------------------------------------------------------------- the whole system

  function NewCart(tenant: string, token: string, currency: string): Cart {
    Cart(PgRow(Active, None, token), Blob(tenant, None, token, currency, Active, []))
  }

  /** `addItem` on a line list: sum into the line of the variant, or append. */
  function AddLine(items: seq<Line>, line: Line): seq<Line> {
    match FirstOf(items, line.variantId)
    case None => items + [line]
    case Some(existing) =>
      CartMerge.Replace(items, existing.(quantity := existing.quantity + line.quantity, updatedAt := line.updatedAt))
  }

  /** `findIndex` by line id. */
  function FindItem(items: seq<Line>, itemId: string): (r: Option<nat>)
    ensures r.Some? ==> r.value < |items| && items[r.value].snapshot.lineId == itemId
    ensures forall k :: 0 <= k < (if r.Some? then r.value else |items|) ==> items[k].snapshot.lineId != itemId
  {
    if items == [] then None
    else
      var front := FindItem(items[..|items| - 1], itemId);
      if front.Some? then front
      else if items[|items| - 1].snapshot.lineId == itemId then Some(|items| - 1)
      else None
  }

  function WithoutItem(items: seq<Line>, itemId: string): seq<Line> {
    if items == [] then []
    else
      var front := WithoutItem(items[..|items| - 1], itemId);
      if items[|items| - 1].snapshot.lineId == itemId then front else front + [items[|items| - 1]]
  }

  /** The lines that `WithoutItem` takes out, counted negatively. */
  function TakenOut(items: seq<Line>, itemId: string): seq<Line> {
    if items == [] then []
    else
      var front, last := TakenOut(items[..|items| - 1], itemId), items[|items| - 1];
      if last.snapshot.lineId == itemId then front + [last.(quantity := -last.quantity)] else front
  }

  /** The lines after an edit; `None` for a quantity that is not positive or an item that is not there. */
  function EditItems(items: seq<Line>, edit: Edit): Option<seq<Line>> {
    match edit
    case AddItem(line) => if line.quantity > 0 then Some(AddLine(items, line)) else None
    case UpdateItem(itemId, quantity, now) =>
      var k := FindItem(items, itemId);
      if k.None? || quantity <= 0 then None
      else Some(items[k.value := items[k.value].(quantity := quantity, updatedAt := now)])
    case RemoveItem(itemId) => Some(WithoutItem(items, itemId))
  }

  /** The signed units an edit puts in, line by line. */
  function Change(items: seq<Line>, edit: Edit): seq<Line> {
    match edit
    case AddItem(line) => [line]
    case UpdateItem(itemId, quantity, _) =>
      var k := FindItem(items, itemId);
      if k.None? then [] else [items[k.value].(quantity := quantity - items[k.value].quantity)]
    case RemoveItem(itemId) => TakenOut(items, itemId)
  }

  /** An edit passes the authorisation guard; `admitted` stands for whatever else the service checks. */
  predicate EditSucceeds(s: System, a: Action) {
    && a.Shop? && a.admitted && Authorise(Read(s.carts, a.cart), a.token, a.principal).None?
    && EditItems(s.carts[a.cart].blob.items, a.edit).Some?
  }

  function Edited(cart: Cart, edit: Edit): Cart
    requires EditItems(cart.blob.items, edit).Some?
  {
    cart.(blob := cart.blob.(items := EditItems(cart.blob.items, edit).value))
  }

  function Next(s: System, a: Action): System {
    match a
    case Create(newToken, currency) => s.(carts := s.carts + [NewCart(s.tenant, newToken, currency)])
    case Begin(cart, token, customer) => s.(runs := s.runs + [Run(cart, token, customer, Start)])
    case Advance(r, o) =>
      if r >= |s.runs| then s
      else
        var e := StepRun(s.tenant, s.carts, s.runs[r], o);
        s.(carts := e.carts, runs := s.runs[r := e.run], dropped := s.dropped + e.dropped)
    case Shop(id, _, _, edit, _) =>
      if !EditSucceeds(s, a) then s
      else
        var cart := s.carts[id];
        s.(carts := s.carts[id := Edited(cart, edit)], log := s.log + [Entry(id, Change(cart.blob.items, edit))])
  }

  /** Any interleaving is a list of actions. */
  function Exec(s: System, acts: seq<Action>): System {
    if acts == [] then s else Next(Exec(s, acts[..|acts| - 1]), acts[|acts| - 1])
  }

  predicate Initial(s: System) { s.carts == [] && s.runs == [] && s.log == [] && s.dropped == [] }

  lemma {:induction false} ExecConcat(s: System, a: seq<Action>, b: seq<Action>)
    ensures Exec(s, a + b) == Exec(Exec(s, a), b)
  {
    if b == [] {
      assert a + b == a;
    } else {
      assert (a + b)[..|a + b| - 1] == a + b[..|b| - 1];
      ExecConcat(s, a, b[..|b| - 1]);
    }
  }
}
