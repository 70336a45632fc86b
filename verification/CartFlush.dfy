/**
 * The write-behind flush of dirty carts (`apps/api/src/cart/cart-flush.repository.ts`), one tenant: Redis blobs,
 * their Postgres rows, and the dirty set.
 *
 * `System` interleaves one flusher with any number of writers at every `await`; `FlushDirty` is the source's loop
 * with nobody else writing.
 */
module CartFlush {
  import opened Wrappers

  type CartId = string

  /** A cart state, stamped by `queueSave` with the clock in milliseconds. */
  datatype Blob = Blob(updatedAt: int, content: string)

  datatype Store = Store(redis: map<CartId, Blob>, pg: map<CartId, Blob>, dirty: set<CartId>)

  // ---------------------------------------------------------------- the awaited store operations

  /** SETEX and SADD in one MULTI: `queueSave`. */
  function Save(st: Store, c: CartId, blob: Blob): Store {
    st.(redis := st.redis[c := blob], dirty := st.dirty + {c})
  }

  /** `findById`: Redis first, else the Postgres row, which re-warms Redis. */
  function Find(st: Store, c: CartId): (Store, Option<Blob>) {
    if c in st.redis then (st, Some(st.redis[c]))
    else if c in st.pg then (st.(redis := st.redis[c := st.pg[c]]), Some(st.pg[c]))
    else (st, None)
  }

  function Upsert(st: Store, c: CartId, blob: Blob): Store { st.(pg := st.pg[c := blob]) }

  function Srem(st: Store, c: CartId): Store { st.(dirty := st.dirty - {c}) }

  predicate StillCurrent(st: Store, c: CartId, flushedUpdatedAt: int) {
    c in st.redis && st.redis[c].updatedAt == flushedUpdatedAt
  }

  // ---------------------------------------------------------------- one flusher among writers

  /** Where the flusher stands between two awaits; `todo` starts with the cart being flushed. */
  datatype Flusher =
    | Idle
    | Reading(todo: seq<CartId>)
    | RemovingStale(todo: seq<CartId>)
    | Upserting(todo: seq<CartId>, state: Blob)
    | Rechecking(todo: seq<CartId>, flushedUpdatedAt: int)
    | Removing(todo: seq<CartId>)

  datatype System = System(store: Store, flusher: Flusher)

  datatype Action =
    | Write(cart: CartId, blob: Blob)
    | BeginPass(cartIds: seq<CartId>)
    | Step(fault: bool)

  function Members(cartIds: seq<CartId>): set<CartId> { set c | c in cartIds }

  /** A reply of SMEMBERS: the members in some order, each once. */
  predicate ListsExactly(cartIds: seq<CartId>, members: set<CartId>) {
    && Members(cartIds) == members
    && NoRepeats(cartIds)
  }

  function StepFlusher(s: System, fault: bool): System {
    match s.flusher
    case Idle => s
    case Reading(todo) =>
      if todo == [] then s.(flusher := Idle)
      else if fault then s.(flusher := Reading(todo[1..]))
      else
        var (store, state) := Find(s.store, todo[0]);
        if state.None? then System(store, RemovingStale(todo)) else System(store, Upserting(todo, state.value))
    case RemovingStale(todo) =>
      if todo == [] then s.(flusher := Idle)
      else System(if fault then s.store else Srem(s.store, todo[0]), Reading(todo[1..]))
    case Upserting(todo, state) =>
      if todo == [] then s.(flusher := Idle)
      else if fault then s.(flusher := Reading(todo[1..]))
      else System(Upsert(s.store, todo[0], state), Rechecking(todo, state.updatedAt))
    case Rechecking(todo, at) =>
      if todo == [] then s.(flusher := Idle)
      else if !fault && StillCurrent(s.store, todo[0], at) then s.(flusher := Removing(todo))
      else s.(flusher := Reading(todo[1..]))
    case Removing(todo) =>
      if todo == [] then s.(flusher := Idle)
      else System(if fault then s.store else Srem(s.store, todo[0]), Reading(todo[1..]))
  }

  function Next(s: System, a: Action): System {
    match a
    case Write(c, blob) => s.(store := Save(s.store, c, blob))
    case BeginPass(cartIds) =>
      if s.flusher.Idle? && ListsExactly(cartIds, s.store.dirty) then s.(flusher := Reading(cartIds)) else s
    case Step(fault) => StepFlusher(s, fault)
  }

  function Exec(s: System, acts: seq<Action>): System {
    if acts == [] then s else Next(Exec(s, acts[..|acts| - 1]), acts[|acts| - 1])
  }

  // ---------------------------------------------------------------- the promise of the dirty set

  /** The cart's row agrees with its blob, or the cart is flagged for the next pass. */
  predicate Covered(st: Store, c: CartId) {
    c in st.redis ==> c in st.dirty || (c in st.pg && st.pg[c] == st.redis[c])
  }

  /** Nothing under way, and `c` not lost yet. */
  predicate Initial(s: System, c: CartId) { s.flusher.Idle? && Covered(s.store, c) }

  /** The flusher is past its read of `c` and has not moved on. */
  predicate Flushing(f: Flusher, c: CartId) {
    !f.Idle? && !f.Reading? && f.todo != [] && f.todo[0] == c
  }

  /** The flusher has made up its mind to clear `c`'s flag: after the recheck GET, or after finding no state. */
  predicate InWindow(f: Flusher, c: CartId) {
    Flushing(f, c) && (f.Removing? || f.RemovingStale?)
  }

  // ---------------------------------------------------------------- the history that matters to one cart

  /** What the flusher's last fault-free read of a cart found, and the last blob written to that cart since. */
  datatype Memory = Memory(found: Option<Blob>, written: Option<Blob>)

  function Remember(s: System, m: Memory, a: Action, c: CartId): Memory {
    match a
    case Write(d, blob) => if d == c then m.(written := Some(blob)) else m
    case BeginPass(_) => m
    case Step(fault) =>
      if !fault && s.flusher.Reading? && s.flusher.todo != [] && s.flusher.todo[0] == c
      then Memory(Find(s.store, c).1, None)
      else m
  }

  function Recall(s: System, acts: seq<Action>, c: CartId): Memory {
    if acts == [] then Memory(None, None)
    else
      var front := acts[..|acts| - 1];
      Remember(Exec(s, front), Recall(s, front, c), acts[|acts| - 1], c)
  }

  /** What the cart holds by now is no longer what was found. */
  predicate Overtaken(m: Memory) { m.written.Some? && m.written != m.found }

  /** The last SREM of `c` came after a write that the flusher did not find, and no write of `c` has followed. */
  predicate Lost(s: System, acts: seq<Action>, c: CartId) {
    if acts == [] then false
    else
      var front := acts[..|acts| - 1];
      match acts[|acts| - 1]
      case Write(d, _) => d != c && Lost(s, front, c)
      case BeginPass(_) => Lost(s, front, c)
      case Step(fault) =>
        if !fault && InWindow(Exec(s, front).flusher, c) then Overtaken(Recall(s, front, c)) else Lost(s, front, c)
  }

  // ---------------------------------------------------------------- the invariant

  function Todo(f: Flusher): seq<CartId> { if f.Idle? then [] else f.todo }

  /** The carts still to be flushed are distinct and dirty. */
  ghost predicate Queued(s: System) {
    && (forall c :: c in Todo(s.flusher) ==> c in s.store.dirty)
    && NoRepeats(Todo(s.flusher))
  }

  function Lookup(m: map<CartId, Blob>, c: CartId): Option<Blob> { if c in m then Some(m[c]) else None }

  /** While `c` is being flushed its blob is the last one written, or else the one found; then so is its row. */
  ghost predicate Tracked(s: System, m: Memory, c: CartId) {
    Flushing(s.flusher, c) ==>
      && Lookup(s.store.redis, c) == (if m.written.Some? then m.written else m.found)
      && match s.flusher
         case RemovingStale(_) => m.found.None? && c !in s.store.pg
         case Upserting(_, state) => m.found == Some(state)
         case Rechecking(_, at) => m.found.Some? && m.found == Lookup(s.store.pg, c) && at == m.found.value.updatedAt
         case Removing(_) => m.found.Some? && m.found == Lookup(s.store.pg, c)
         case _ => true
  }

  lemma TailOfDistinct(todo: seq<CartId>)
    requires todo != [] && NoRepeats(todo)
    ensures forall c :: c in todo[1..] ==> c in todo && c != todo[0]
    ensures NoRepeats(todo[1..])
  {
    forall c | c in todo[1..] ensures c in todo && c != todo[0] {
      var i :| 0 <= i < |todo[1..]| && todo[1..][i] == c;
      assert todo[i + 1] == c;
    }
  }

  lemma StepQueued(s: System, fault: bool)
    requires Queued(s)
    ensures Queued(StepFlusher(s, fault))
  {
    if Todo(s.flusher) != [] {
      TailOfDistinct(Todo(s.flusher));
    }
  }

  lemma NextQueued(s: System, a: Action)
    requires Queued(s)
    ensures Queued(Next(s, a))
  {
    if a.Step? { StepQueued(s, a.fault); }
  }

  lemma NextTracked(s: System, m: Memory, a: Action, c: CartId)
    requires Tracked(s, m, c)
    ensures Tracked(Next(s, a), Remember(s, m, a, c), c)
  {}

  /** Only a write or the SREM of a cart changes whether it is covered. */
  lemma NextCovered(s: System, m: Memory, a: Action, c: CartId)
    requires Queued(s) && Tracked(s, m, c)
    ensures Covered(Next(s, a).store, c)
            <==> match a
                 case Write(d, _) => d == c || Covered(s.store, c)
                 case BeginPass(_) => Covered(s.store, c)
                 case Step(fault) => if !fault && InWindow(s.flusher, c) then !Overtaken(m) else Covered(s.store, c)
  {}

  lemma {:induction false} ExecTracked(s0: System, acts: seq<Action>, c: CartId)
    requires s0.flusher.Idle?
    ensures Queued(Exec(s0, acts)) && Tracked(Exec(s0, acts), Recall(s0, acts, c), c)
  {
    if acts != [] {
      var front, a := acts[..|acts| - 1], acts[|acts| - 1];
      ExecTracked(s0, front, c);
      NextQueued(Exec(s0, front), a);
      NextTracked(Exec(s0, front), Recall(s0, front, c), a, c);
    }
  }

  /**
   * The exact flush invariant, for one flusher and any writes whatever their stamps: a cart is out of step with its
   * row without being dirty exactly when the SREM followed a write that differs from the state the flusher found,
   * and no write came after that SREM.
   */
  lemma {:induction false} FlushIsExact(s0: System, acts: seq<Action>, c: CartId)
    requires Initial(s0, c)
    ensures !Covered(Exec(s0, acts).store, c) <==> Lost(s0, acts, c)
  {
    if acts != [] {
      var front, a := acts[..|acts| - 1], acts[|acts| - 1];
      FlushIsExact(s0, front, c);
      ExecTracked(s0, front, c);
      NextCovered(Exec(s0, front), Recall(s0, front, c), a, c);
    }
  }

  /** A lost cart stays lost, pass after pass, until somebody writes it again. */
  lemma {:induction false} LostUntilNextWrite(s0: System, acts: seq<Action>, more: seq<Action>, c: CartId)
    requires Initial(s0, c) && Lost(s0, acts, c)
    requires forall i :: 0 <= i < |more| ==> !(more[i].Write? && more[i].cart == c)
    ensures Lost(s0, acts + more, c) && !Covered(Exec(s0, acts + more).store, c)
  {
    if more == [] {
      assert acts + more == acts;
    } else {
      var front := more[..|more| - 1];
      assert (acts + more)[..|acts + more| - 1] == acts + front;
      LostUntilNextWrite(s0, acts, front, c);
      ExecTracked(s0, acts + front, c);
      var f := Exec(s0, acts + front).flusher;
      assert InWindow(f, c) ==> c in Todo(f);
    }
    FlushIsExact(s0, acts + more, c);
  }

  // ---------------------------------------------------------------- what the three stores hold, by history

  /** The last state the flusher found in `c` and went on to upsert without a throw; at first the initial row. */
  function LastUpserted(s: System, acts: seq<Action>, c: CartId): Option<Blob> {
    if acts == [] then Lookup(s.store.pg, c)
    else
      var front := acts[..|acts| - 1];
      var f := Exec(s, front).flusher;
      if acts[|acts| - 1] == Step(false) && f.Upserting? && Flushing(f, c) then Recall(s, front, c).found
      else LastUpserted(s, front, c)
  }

  /**
   * Whatever writers do meanwhile, the row of a cart is the state the flusher found at its last read whose upsert did
   * not throw: a write that lands between the read and the upsert neither stops nor changes it.
   */
  lemma {:induction false} RowIsLastFound(s0: System, acts: seq<Action>, c: CartId)
    requires s0.flusher.Idle?
    ensures Lookup(Exec(s0, acts).store.pg, c) == LastUpserted(s0, acts, c)
  {
    if acts != [] {
      RowIsLastFound(s0, acts[..|acts| - 1], c);
      ExecTracked(s0, acts[..|acts| - 1], c);
    }
  }

  /** A write flags the cart; only the SREM of a step that does not throw, inside the window, takes the flag away. */
  predicate Flagged(s: System, acts: seq<Action>, c: CartId) {
    if acts == [] then c in s.store.dirty
    else
      var front, a := acts[..|acts| - 1], acts[|acts| - 1];
      (a.Write? && a.cart == c) || (Flagged(s, front, c) && !(a == Step(false) && InWindow(Exec(s, front).flusher, c)))
  }

  lemma {:induction false} FlagIsExact(s0: System, acts: seq<Action>, c: CartId)
    ensures c in Exec(s0, acts).store.dirty <==> Flagged(s0, acts, c)
  {
    if acts != [] {
      FlagIsExact(s0, acts[..|acts| - 1], c);
    }
  }

  /** The last blob written to `c`; without any, what a read re-warmed from the row, or the initial blob. */
  function LastBlob(s: System, acts: seq<Action>, c: CartId): Option<Blob> {
    if acts == [] then Lookup(s.store.redis, c)
    else
      var front, a := acts[..|acts| - 1], acts[|acts| - 1];
      var before, f := LastBlob(s, front, c), Exec(s, front).flusher;
      if a.Write? && a.cart == c then Some(a.blob)
      else if a == Step(false) && f.Reading? && f.todo != [] && f.todo[0] == c && before.None?
      then LastUpserted(s, front, c)
      else before
  }

  lemma {:induction false} BlobIsLastWritten(s0: System, acts: seq<Action>, c: CartId)
    requires s0.flusher.Idle?
    ensures Lookup(Exec(s0, acts).store.redis, c) == LastBlob(s0, acts, c)
  {
    if acts != [] {
      BlobIsLastWritten(s0, acts[..|acts| - 1], c);
      RowIsLastFound(s0, acts[..|acts| - 1], c);
    }
  }

  /** Steps left of a pass: at most four for each cart still listed, and one to end it. */
  function StepsLeft(f: Flusher): nat {
    match f
    case Idle => 0
    case Reading(todo) => 4 * |todo| + 1
    case RemovingStale(todo) => 4 * |todo|
    case Upserting(todo, _) => 4 * |todo|
    case Rechecking(todo, _) => 4 * |todo| - if todo == [] then 0 else 1
    case Removing(todo) => 4 * |todo| - if todo == [] then 0 else 2
  }

  /** Each step of the flusher, throwing or not, brings its pass nearer to the end, whatever writers do between. */
  lemma PassEnds(s0: System, acts: seq<Action>, fault: bool)
    requires s0.flusher.Idle?
    ensures var f := Exec(s0, acts).flusher;
            && (!f.Idle? ==> StepsLeft(StepFlusher(Exec(s0, acts), fault).flusher) < StepsLeft(f))
            && (forall c, blob :: Next(Exec(s0, acts), Write(c, blob)).flusher == f)
            && (!f.Idle? ==> forall cartIds :: Next(Exec(s0, acts), BeginPass(cartIds)) == Exec(s0, acts))
  {
    BusyHasWork(s0, acts);
  }

  /** Past its read, the flusher has a cart in hand. */
  lemma {:induction false} BusyHasWork(s0: System, acts: seq<Action>)
    requires s0.flusher.Idle?
    ensures var f := Exec(s0, acts).flusher; !f.Idle? && !f.Reading? ==> f.todo != []
  {
    if acts != [] {
      BusyHasWork(s0, acts[..|acts| - 1]);
    }
  }

  /** A pass takes up exactly the carts that are dirty when it begins, each once. */
  lemma PassTakesUpDirty(s: System, cartIds: seq<CartId>)
    requires s.flusher.Idle?
    ensures Next(s, BeginPass(cartIds)).flusher
            == if NoRepeats(cartIds) && (forall c :: c in cartIds <==> c in s.store.dirty) then Reading(cartIds)
               else Idle
  {
    assert Members(cartIds) == s.store.dirty <==> forall c :: c in cartIds <==> c in s.store.dirty;
  }

  // ---------------------------------------------------------------- when every write has its own millisecond

  /** The write carries a later millisecond than the blob it replaces. */
  predicate Later(st: Store, a: Action) {
    a.Write? && a.cart in st.redis ==> st.redis[a.cart].updatedAt < a.blob.updatedAt
  }

  predicate WellTimed(s: System, acts: seq<Action>) {
    acts == [] || (WellTimed(s, acts[..|acts| - 1]) && Later(Exec(s, acts[..|acts| - 1]).store, acts[|acts| - 1]))
  }

  /** A write of `c` landed inside the window the flusher is in now. */
  predicate RacedNow(s: System, acts: seq<Action>, c: CartId) {
    if acts == [] then false
    else
      var before := Exec(s, acts[..|acts| - 1]);
      var a := acts[|acts| - 1];
      InWindow(before.flusher, c) && InWindow(Next(before, a).flusher, c)
      && ((a.Write? && a.cart == c) || RacedNow(s, acts[..|acts| - 1], c))
  }

  /** A write in the window, then the SREM, and no write of `c` since. */
  predicate LostInWindow(s: System, acts: seq<Action>, c: CartId) {
    if acts == [] then false
    else
      var front := acts[..|acts| - 1];
      match acts[|acts| - 1]
      case Write(d, _) => d != c && LostInWindow(s, front, c)
      case BeginPass(_) => LostInWindow(s, front, c)
      case Step(fault) =>
        if !fault && InWindow(Exec(s, front).flusher, c) then RacedNow(s, front, c) else LostInWindow(s, front, c)
  }

  /** Stamps tell a write from what was found, so a write that the recheck let pass landed inside the window. */
  ghost predicate Stamped(s: System, m: Memory, c: CartId, raced: bool) {
    && (Flushing(s.flusher, c) && m.found.Some? && m.written.Some? ==>
       m.found.value.updatedAt < m.written.value.updatedAt)
    && (InWindow(s.flusher, c) ==> (raced <==> m.written.Some?))
  }

  lemma {:induction false} ExecStamped(s0: System, acts: seq<Action>, c: CartId)
    requires s0.flusher.Idle? && WellTimed(s0, acts)
    ensures Stamped(Exec(s0, acts), Recall(s0, acts, c), c, RacedNow(s0, acts, c))
  {
    if acts != [] {
      var front, a := acts[..|acts| - 1], acts[|acts| - 1];
      ExecStamped(s0, front, c);
      ExecTracked(s0, front, c);
      NextStamped(Exec(s0, front), Recall(s0, front, c), a, c, RacedNow(s0, front, c));
    }
  }

  lemma NextStamped(s: System, m: Memory, a: Action, c: CartId, raced: bool)
    requires Tracked(s, m, c) && Stamped(s, m, c, raced) && Later(s.store, a)
    ensures Stamped(Next(s, a), Remember(s, m, a, c), c,
              InWindow(s.flusher, c) && InWindow(Next(s, a).flusher, c) && ((a.Write? && a.cart == c) || raced))
  {}

  /**
   * With distinct milliseconds the window is all: a cart is lost exactly when a write landed between the decision to
   * clear its flag and that SREM, and none has followed.  Writes at any other moment never lose their flag.
   */
  lemma {:induction false} LostOnlyInWindow(s0: System, acts: seq<Action>, c: CartId)
    requires Initial(s0, c) && WellTimed(s0, acts)
    ensures Lost(s0, acts, c) <==> LostInWindow(s0, acts, c)
    ensures !Covered(Exec(s0, acts).store, c) <==> LostInWindow(s0, acts, c)
  {
    if acts != [] {
      LostOnlyInWindow(s0, acts[..|acts| - 1], c);
      ExecStamped(s0, acts[..|acts| - 1], c);
    }
    FlushIsExact(s0, acts, c);
  }

  /** Inside the window a write costs the cart its flag exactly when it differs from what the flusher found. */
  lemma WindowWriteLosesFlag(s0: System, acts: seq<Action>, c: CartId, blob: Blob)
    requires Initial(s0, c) && InWindow(Exec(s0, acts).flusher, c)
    ensures var all := acts + [Write(c, blob), Step(false)];
            !Covered(Exec(s0, all).store, c) <==> Recall(s0, acts, c).found != Some(blob)
  {
    var written := acts + [Write(c, blob)];
    assert written[..|acts|] == acts;
    var all := acts + [Write(c, blob), Step(false)];
    assert all[..|written|] == written;
    FlushIsExact(s0, all, c);
  }

  /**
   * Without distinct milliseconds it is not: a different state written between the first read and the recheck under
   * the same `updatedAt` is taken for the flushed one, and is lost although no write met the window.
   */
  lemma SameMillisecondWriteIsLost(s0: System, acts: seq<Action>, blob: Blob)
    requires s0.flusher.Idle?
    requires var f := Exec(s0, acts).flusher;
             f.Upserting? && f.todo != [] && blob.updatedAt == f.state.updatedAt && blob != f.state
    ensures var c := Exec(s0, acts).flusher.todo[0];
            var all := acts + [Write(c, blob), Step(false), Step(false), Step(false)];
            Lost(s0, all, c) && !LostInWindow(s0, all, c)
  {
    var c := Exec(s0, acts).flusher.todo[0];
    ExecTracked(s0, acts, c);
    var a1 := acts + [Write(c, blob)];
    var a2 := a1 + [Step(false)];
    var a3 := a2 + [Step(false)];
    var a4 := a3 + [Step(false)];
    assert a1[..|acts|] == acts && a2[..|a1|] == a1 && a3[..|a2|] == a2 && a4[..|a3|] == a3;
    assert acts + [Write(c, blob), Step(false), Step(false), Step(false)] == a4;
    assert Exec(s0, a1).flusher == Exec(s0, acts).flusher && Recall(s0, a1, c).written == Some(blob);
    assert Exec(s0, a2).flusher.Rechecking? && Exec(s0, a3).flusher.Removing?;
  }

  // ---------------------------------------------------------------- a pass with nobody else writing

  /** One iteration; `fails` is whether the upsert throws. */
  function FlushOne(st: Store, c: CartId, fails: bool): (Store, nat) {
    var (found, state) := Find(st, c);
    if state.None? then (Srem(found, c), 0)
    else if fails then (found, 0)
    else (Srem(Upsert(found, c, state.value), c), 1)
  }

  function FlushPass(st: Store, cartIds: seq<CartId>, failing: set<CartId>): (Store, nat)
    decreases |cartIds|
  {
    if cartIds == [] then (st, 0)
    else
      var (st1, n1) := FlushOne(st, cartIds[0], cartIds[0] in failing);
      var (st2, n2) := FlushPass(st1, cartIds[1..], failing);
      (st2, n1 + n2)
  }

  predicate Known(st: Store, c: CartId) { c in st.redis || c in st.pg }

  /** The carts of `work` a pass writes to Postgres. */
  function Flushable(st: Store, work: set<CartId>, failing: set<CartId>): set<CartId> {
    set c | c in work && Known(st, c) && c !in failing
  }

  function DrainedRedis(st: Store, work: set<CartId>): map<CartId, Blob> {
    st.redis + map c | c in work && c in st.pg && c !in st.redis :: st.pg[c]
  }

  function DrainedPg(st: Store, work: set<CartId>, failing: set<CartId>): map<CartId, Blob> {
    st.pg + map c | c in work && c in st.redis && c !in failing :: st.redis[c]
  }

  function DrainedDirty(st: Store, work: set<CartId>, failing: set<CartId>): set<CartId> {
    st.dirty - set c | c in work && !(Known(st, c) && c in failing)
  }

  /** What a pass over `work` leaves, said of all carts at once. */
  function Drained(st: Store, work: set<CartId>, failing: set<CartId>): Store {
    Store(DrainedRedis(st, work), DrainedPg(st, work, failing), DrainedDirty(st, work, failing))
  }

  lemma NothingToDrain(st: Store, failing: set<CartId>)
    ensures Flushable(st, {}, failing) == {} && Drained(st, {}, failing) == st
  {
    assert Flushable(st, {}, failing) == {};
  }

  lemma FirstAndRest(cartIds: seq<CartId>)
    requires cartIds != []
    ensures Members(cartIds) == {cartIds[0]} + Members(cartIds[1..])
  {
    assert cartIds == [cartIds[0]] + cartIds[1..];
  }

  lemma {:induction false} FlushPassDrains(st: Store, cartIds: seq<CartId>, failing: set<CartId>)
    requires NoRepeats(cartIds)
    ensures var work := Members(cartIds);
            FlushPass(st, cartIds, failing) == (Drained(st, work, failing), |Flushable(st, work, failing)|)
    decreases |cartIds|
  {
    if cartIds == [] {
      assert Members(cartIds) == {};
      NothingToDrain(st, failing);
    } else {
      TailOfDistinct(cartIds);
      FirstAndRest(cartIds);
      FlushPassDrains(FlushOne(st, cartIds[0], cartIds[0] in failing).0, cartIds[1..], failing);
      OneMoreDrains(st, cartIds, Members(cartIds[1..]), failing);
    }
  }

  lemma OneMoreDrains(st: Store, cartIds: seq<CartId>, left: set<CartId>, failing: set<CartId>)
    requires cartIds != [] && cartIds[0] !in left
    requires var st1 := FlushOne(st, cartIds[0], cartIds[0] in failing).0;
             FlushPass(st1, cartIds[1..], failing) == (Drained(st1, left, failing), |Flushable(st1, left, failing)|)
    ensures var work := {cartIds[0]} + left;
            FlushPass(st, cartIds, failing) == (Drained(st, work, failing), |Flushable(st, work, failing)|)
  {
    DrainOneMore(st, cartIds[0], left, failing);
  }

  lemma DrainOneMore(st: Store, c: CartId, left: set<CartId>, failing: set<CartId>)
    requires c !in left
    ensures var (st1, n1) := FlushOne(st, c, c in failing);
            Drained(st1, left, failing) == Drained(st, {c} + left, failing)
            && n1 + |Flushable(st1, left, failing)| == |Flushable(st, {c} + left, failing)|
  {
    DrainOneMoreRedis(st, c, left, failing);
    DrainOneMorePg(st, c, left, failing);
    DrainOneMoreDirty(st, c, left, failing);
    DrainOneMoreCount(st, c, left, failing);
  }

  lemma DrainOneMoreRedis(st: Store, c: CartId, left: set<CartId>, failing: set<CartId>)
    requires c !in left
    ensures DrainedRedis(FlushOne(st, c, c in failing).0, left) == DrainedRedis(st, {c} + left)
  {
    var st1 := FlushOne(st, c, c in failing).0;
    FlushOneTouchesOnly(st, c, c in failing);
    var a, b := DrainedRedis(st1, left), DrainedRedis(st, {c} + left);
    forall d ensures (d in a <==> d in b) && (d in a ==> a[d] == b[d]) {}
  }

  lemma DrainOneMorePg(st: Store, c: CartId, left: set<CartId>, failing: set<CartId>)
    requires c !in left
    ensures DrainedPg(FlushOne(st, c, c in failing).0, left, failing) == DrainedPg(st, {c} + left, failing)
  {
    var st1 := FlushOne(st, c, c in failing).0;
    FlushOneTouchesOnly(st, c, c in failing);
    var a, b := DrainedPg(st1, left, failing), DrainedPg(st, {c} + left, failing);
    forall d ensures (d in a <==> d in b) && (d in a ==> a[d] == b[d]) {}
  }

  lemma DrainOneMoreDirty(st: Store, c: CartId, left: set<CartId>, failing: set<CartId>)
    requires c !in left
    ensures DrainedDirty(FlushOne(st, c, c in failing).0, left, failing) == DrainedDirty(st, {c} + left, failing)
  {
    FlushOneTouchesOnly(st, c, c in failing);
  }

  lemma DrainOneMoreCount(st: Store, c: CartId, left: set<CartId>, failing: set<CartId>)
    requires c !in left
    ensures var (st1, n1) := FlushOne(st, c, c in failing);
            n1 + |Flushable(st1, left, failing)| == |Flushable(st, {c} + left, failing)|
  {
    var (st1, n1) := FlushOne(st, c, c in failing);
    FlushOneTouchesOnly(st, c, c in failing);
    assert Flushable(st1, left, failing) == Flushable(st, left, failing);
    if n1 == 1 {
      assert Flushable(st, {c} + left, failing) == Flushable(st, left, failing) + {c};
    } else {
      assert Flushable(st, {c} + left, failing) == Flushable(st, left, failing);
    }
  }

  /** One iteration said component by component. */
  lemma FlushOneTouchesOnly(st: Store, c: CartId, fails: bool)
    ensures var (st1, n1) := FlushOne(st, c, fails);
            && st1.redis == (if c in st.pg && c !in st.redis then st.redis[c := st.pg[c]] else st.redis)
            && st1.pg == (if c in st.redis && !fails then st.pg[c := st.redis[c]] else st.pg)
            && st1.dirty == (if Known(st, c) && fails then st.dirty else st.dirty - {c})
            && n1 == (if Known(st, c) && !fails then 1 else 0)
  {}

  /** Redis and Postgres as `flushDirty` sees them, with its loop. */
  class CartFlushRepository {
    var redis: map<CartId, Blob>
    var pg: map<CartId, Blob>
    var dirty: set<CartId>

    function View(): Store
      reads this
    {
      Store(redis, pg, dirty)
    }

    constructor (st: Store)
      ensures View() == st
    {
      redis, pg, dirty := st.redis, st.pg, st.dirty;
    }

    method SMembers() returns (cartIds: seq<CartId>)
      ensures ListsExactly(cartIds, dirty)
    {
      cartIds := [];
      var rest := dirty;
      while rest != {}
        invariant rest <= dirty
        invariant ListsExactly(cartIds, dirty - rest)
        decreases rest
      {
        var c :| c in rest;
        assert c !in Members(cartIds);
        assert Members(cartIds + [c]) == Members(cartIds) + {c};
        cartIds := cartIds + [c];
        rest := rest - {c};
      }
      assert dirty - rest == dirty;
    }

    method FindById(c: CartId) returns (state: Option<Blob>)
      modifies this
      ensures (View(), state) == Find(old(View()), c)
    {
      if c in redis { return Some(redis[c]); }
      if c !in pg { return None; }
      redis := redis[c := pg[c]];
      state := Some(pg[c]);
    }

    /** The body of the loop; `fails` is whether the upsert throws into the per-cart `catch`. */
    method FlushCart(c: CartId, fails: bool) returns (flushed: nat)
      modifies this
      ensures (View(), flushed) == FlushOne(old(View()), c, fails)
    {
      var state := FindById(c);
      if state.None? {
        dirty := dirty - {c};
        return 0;
      }
      if fails { return 0; }
      pg := pg[c := state.value];
      var stillCurrent := c in redis && redis[c].updatedAt == state.value.updatedAt;
      if stillCurrent {
        dirty := dirty - {c};
      }
      flushed := 1;
    }

    method FlushAll(cartIds: seq<CartId>, failing: set<CartId>) returns (flushed: nat)
      modifies this
      ensures (View(), flushed) == FlushPass(old(View()), cartIds, failing)
    {
      flushed := 0;
      for n := 0 to |cartIds|
        invariant FlushPass(old(View()), cartIds, failing).0 == FlushPass(View(), cartIds[n..], failing).0
        invariant FlushPass(old(View()), cartIds, failing).1 == flushed + FlushPass(View(), cartIds[n..], failing).1
      {
        assert cartIds[n..][1..] == cartIds[n + 1..];
        var one := FlushCart(cartIds[n], cartIds[n] in failing);
        flushed := flushed + one;
      }
    }

    /**
     * A pass that nobody disturbs and whose upserts fail for exactly the carts in `failing`: of the dirty carts it
     * knows, all others are written, counted and cleared; the failing ones stay dirty and hold nobody up.
     */
    method FlushDirty(failing: set<CartId>) returns (flushed: nat)
      modifies this
      ensures View() == Drained(old(View()), old(dirty), failing)
      ensures flushed == |Flushable(old(View()), old(dirty), failing)|
    {
      var cartIds := SMembers();
      FlushPassDrains(View(), cartIds, failing);
      if |cartIds| == 0 {
        return 0;
      }
      flushed := FlushAll(cartIds, failing);
    }
  }

  /** With every dirty cart live in Redis, a quiet pass leaves dirty exactly the failures, all others agreeing. */
  lemma QuietPass(st: Store, failing: set<CartId>)
    requires forall c :: Covered(st, c)
    requires forall c :: c in st.dirty ==> c in st.redis
    ensures var after := Drained(st, st.dirty, failing);
            && after.dirty == st.dirty * failing && after.redis == st.redis
            && (forall c :: c in st.redis && c !in after.dirty ==> c in after.pg && after.pg[c] == st.redis[c])
            && (forall c :: c in after.dirty || c !in st.dirty ==>
               (c in after.pg <==> c in st.pg) && (c in st.pg ==> after.pg[c] == st.pg[c]))
            && Flushable(st, st.dirty, failing) == st.dirty - failing
  {
    var after := Drained(st, st.dirty, failing);
    forall c | c in st.redis && c !in after.dirty ensures c in after.pg && after.pg[c] == st.redis[c] {
      assert Covered(st, c);
    }
  }

  /** After a pass without failures there is nothing dirty, and the next pass counts nothing and changes nothing. */
  lemma SecondPassIsIdle(st: Store, failing: set<CartId>)
    requires forall c :: c in st.dirty ==> c in st.redis
    ensures var retried := Drained(Drained(st, st.dirty, failing), Drained(st, st.dirty, failing).dirty, {});
            && retried.dirty == {} && retried == Drained(st, st.dirty, {})
            && Drained(retried, retried.dirty, {}) == retried && Flushable(retried, retried.dirty, {}) == {}
  {
    var once := Drained(st, st.dirty, failing);
    assert once.dirty == st.dirty * failing;
    DrainLive(st, st.dirty, failing);
    DrainLive(once, once.dirty, {});
    DrainLive(st, st.dirty, {});
    RetriedPg(st, failing);
  }

  /** Carts live in Redis need no re-warming. */
  lemma DrainLive(st: Store, work: set<CartId>, failing: set<CartId>)
    requires forall c :: c in work ==> c in st.redis
    ensures DrainedRedis(st, work) == st.redis
    ensures work == st.dirty && failing == {} ==>
            DrainedDirty(st, work, failing) == {} && Flushable(st, work, failing) == work
  {}

  lemma RetriedPg(st: Store, failing: set<CartId>)
    requires forall c :: c in st.dirty ==> c in st.redis
    ensures var once := Drained(st, st.dirty, failing);
            DrainedPg(once, once.dirty, {}) == DrainedPg(st, st.dirty, {})
  {
    DrainLive(st, st.dirty, failing);
    var once := Drained(st, st.dirty, failing);
    var a, b := DrainedPg(once, once.dirty, {}), DrainedPg(st, st.dirty, {});
    forall d ensures (d in a <==> d in b) && (d in a ==> a[d] == b[d]) {}
  }

  // ---------------------------------------------------------------- the loop is the undisturbed flusher

  /** The flusher's steps over one cart when nobody writes; an upsert of a failing cart throws. */
  function CartSteps(st: Store, c: CartId, fails: bool): seq<Action> {
    if !Known(st, c) then [Step(false), Step(false)]
    else if fails then [Step(false), Step(true)]
    else [Step(false), Step(false), Step(false), Step(false)]
  }

  function PassSteps(st: Store, cartIds: seq<CartId>, failing: set<CartId>): seq<Action>
    decreases |cartIds|
  {
    if cartIds == [] then [Step(false)]
    else
      CartSteps(st, cartIds[0], cartIds[0] in failing)
      + PassSteps(FlushOne(st, cartIds[0], cartIds[0] in failing).0, cartIds[1..], failing)
  }

  lemma {:induction false} ExecConcat(s: System, a: seq<Action>, b: seq<Action>)
    ensures Exec(s, a + b) == Exec(Exec(s, a), b)
  {
    if b == [] {
      assert a + b == a;
    } else {
      assert (a + b)[..|a + b| - 1] == a + b[..|b| - 1];
      ExecConcat(s, a, b[..|b| - 1]);
    }
  }

  lemma CartStepsFlushOne(st: Store, todo: seq<CartId>, fails: bool)
    requires todo != []
    ensures Exec(System(st, Reading(todo)), CartSteps(st, todo[0], fails))
            == System(FlushOne(st, todo[0], fails).0, Reading(todo[1..]))
  {
    var s := System(st, Reading(todo));
    Exec2(s, Step(false), Step(fails));
    Exec2(s, Step(false), Step(false));
    Exec2(Next(Next(s, Step(false)), Step(false)), Step(false), Step(false));
    ExecConcat(s, [Step(false), Step(false)], [Step(false), Step(false)]);
    assert [Step(false), Step(false)] + [Step(false), Step(false)]
           == [Step(false), Step(false), Step(false), Step(false)];
    if Known(st, todo[0]) && fails {
      assert CartSteps(st, todo[0], fails) == [Step(false), Step(fails)];
    }
  }

  lemma Exec2(s: System, a: Action, b: Action)
    ensures Exec(s, [a, b]) == Next(Next(s, a), b)
  {
    assert [a, b][..1] == [a] && [a][..0] == [];
    assert Exec(s, [a]) == Next(s, a);
  }

  /** `FlushDirty`'s loop is what the interleaved flusher does on a schedule without writers. */
  lemma {:induction false} UndisturbedPass(st: Store, cartIds: seq<CartId>, failing: set<CartId>)
    ensures Exec(System(st, Reading(cartIds)), PassSteps(st, cartIds, failing))
            == System(FlushPass(st, cartIds, failing).0, Idle)
    decreases |cartIds|
  {
    var s := System(st, Reading(cartIds));
    if cartIds == [] {
      assert [Step(false)][..0] == [];
    } else {
      var fails := cartIds[0] in failing;
      var st1 := FlushOne(st, cartIds[0], fails).0;
      ExecConcat(s, CartSteps(st, cartIds[0], fails), PassSteps(st1, cartIds[1..], failing));
      CartStepsFlushOne(st, cartIds, fails);
      assert PassSteps(st, cartIds, failing)
             == CartSteps(st, cartIds[0], fails) + PassSteps(st1, cartIds[1..], failing);
      UndisturbedPass(st1, cartIds[1..], failing);
      assert FlushPass(st, cartIds, failing).0 == FlushPass(st1, cartIds[1..], failing).0;
    }
  }
}
