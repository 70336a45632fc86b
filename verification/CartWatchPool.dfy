/**
 * The pool of dedicated WATCH connections (`apps/api/src/cart/cart-watch-pool.ts`).
 *
 * `System` interleaves any number of callers at the awaits of `acquire`, `release` and `onModuleDestroy`.
 * `CartWatchPool` holds the source's fields, with where each connection is as ghost state; its methods are the
 * stretches of those three between two awaits, and each is proved to be the step of `System` it stands for.
 */
module CartWatchPool {
  import opened Wrappers

  type Conn = nat

  const POOL_CAP := 16
  const MAX_TOTAL_CONNS := 64

  /** The fields of the pool object. */
  datatype Pool = Pool(idle: seq<Conn>, owned: int, transientInFlight: int, destroyed: bool)

  datatype Outcome = Reuse(conn: Conn) | Wait | Connect(transient: bool)

  /** One round of the `acquire` loop, up to its first await. */
  function TryAcquire(p: Pool): (Pool, Outcome) {
    if p.idle != [] then (p.(idle := p.idle[..|p.idle| - 1]), Reuse(p.idle[|p.idle| - 1]))
    else if p.owned + p.transientInFlight >= MAX_TOTAL_CONNS then (p, Wait)
    else (p, Connect(p.owned >= POOL_CAP))
  }

  /** After `connect()` has resolved. */
  function Connected(p: Pool, transient: bool): Pool {
    if transient then p.(transientInFlight := p.transientInFlight + 1) else p.(owned := p.owned + 1)
  }

  datatype Disposal = Quit | Unwatch

  /** `release` up to its first await. */
  function BeginRelease(p: Pool, transient: bool): (Pool, Disposal) {
    if transient || p.destroyed then
      (if transient then p.(transientInFlight := Max0(p.transientInFlight - 1)) else p, Quit)
    else (p, Unwatch)
  }

  function Unwatched(p: Pool, conn: Conn): Pool { p.(idle := p.idle + [conn]) }

  function UnwatchFailed(p: Pool): Pool { p.(owned := Max0(p.owned - 1)) }

  function Destroyed(p: Pool): Pool { p.(destroyed := true, idle := []) }

  // ---------------------------------------------------------------- callers and connections

  /**
   * Connections are numbered in the order of creation.  `pending` connects and `held` connections carry the flag the
   * caller got; `resetting` ones await their UNWATCH and `quitting` ones their QUIT, after which they are closed;
   * `watching` ones have a WATCH outstanding.
   */
  datatype System = System(pool: Pool, held: map<Conn, bool>, pending: map<Conn, bool>, resetting: set<Conn>,
      quitting: set<Conn>, watching: set<Conn>, next: Conn)

  datatype Action =
    | Acquire
    | ConnectOk(conn: Conn)
    | ConnectFails(conn: Conn)
    | Watch(conn: Conn)
    | Release(conn: Conn)
    | UnwatchOk(conn: Conn)
    | UnwatchFails(conn: Conn)
    | QuitEnds(conn: Conn)
    | Destroy

  function StepAcquire(s: System): System {
    var (pool, outcome) := TryAcquire(s.pool);
    match outcome
    case Reuse(conn) => s.(pool := pool, held := s.held[conn := false])
    case Wait => s
    case Connect(transient) => s.(pending := s.pending[s.next := transient], next := s.next + 1)
  }

  function StepRelease(s: System, conn: Conn): System
    requires conn in s.held
  {
    var (pool, disposal) := BeginRelease(s.pool, s.held[conn]);
    var s' := s.(pool := pool, held := s.held - {conn});
    if disposal == Unwatch then s'.(resetting := s.resetting + {conn})
    else s'.(watching := s.watching - {conn}, quitting := s.quitting + {conn})
  }

  /** Each holder releases what it holds, once, with its own flag; a step that is not possible changes nothing. */
  function Next(s: System, a: Action): System {
    match a
    case Acquire => StepAcquire(s)
    case ConnectOk(c) =>
      if c in s.pending then
        var t := s.pending[c];
        s.(pool := Connected(s.pool, t), held := s.held[c := t], pending := s.pending - {c})
      else s
    case ConnectFails(c) => if c in s.pending then s.(pending := s.pending - {c}) else s
    case Watch(c) => if c in s.held then s.(watching := s.watching + {c}) else s
    case Release(c) => if c in s.held then StepRelease(s, c) else s
    case UnwatchOk(c) =>
      if c in s.resetting then
        s.(pool := Unwatched(s.pool, c), resetting := s.resetting - {c}, watching := s.watching - {c})
      else s
    case UnwatchFails(c) =>
      if c in s.resetting then
        s.(pool := UnwatchFailed(s.pool), resetting := s.resetting - {c}, watching := s.watching - {c},
           quitting := s.quitting + {c})
      else s
    case QuitEnds(c) => s.(quitting := s.quitting - {c})
    case Destroy => s.(pool := Destroyed(s.pool), quitting := s.quitting + set c | c in s.pool.idle)
  }

  function Exec(s: System, acts: seq<Action>): System {
    if acts == [] then s else Next(Exec(s, acts[..|acts| - 1]), acts[|acts| - 1])
  }

  /** What the pool's two counters say. */
  function Counted(s: System): int { s.pool.owned + s.pool.transientInFlight }

  /** The connections that are open: in the pool, with a caller, or on their way out. */
  function Open(s: System): int { |s.pool.idle| + |s.held| + |s.resetting| + |s.quitting| }

  const INITIAL: System := System(Pool([], 0, 0, false), map[], map[], {}, {}, {}, 0)

  // ---------------------------------------------------------------- exclusivity and accounting

  function HeldAs(held: map<Conn, bool>, transient: bool): set<Conn> { set c | c in held && held[c] == transient }

  /** No connection is in two places, and none is idle with a WATCH outstanding. */
  ghost predicate Exclusive(s: System) {
    && NoRepeats(s.pool.idle)
    && (forall c :: c in s.pool.idle ==>
       c !in s.held && c !in s.pending && c !in s.resetting && c !in s.watching && c < s.next)
    && (forall c :: c in s.held ==> c !in s.pending && c !in s.resetting && c < s.next)
    && (forall c :: c in s.pending ==> c !in s.resetting && c !in s.watching && c < s.next)
    && (forall c :: c in s.resetting ==> c < s.next)
    && (forall c :: c in s.quitting ==>
       c !in s.pool.idle && c !in s.held && c !in s.pending && c !in s.resetting && c < s.next)
    && (forall c :: c in s.watching ==> c in s.held || c in s.resetting)
  }

  /** The counters are the populations they stand for; destroying the pool stops `owned` from following. */
  ghost predicate Accounted(s: System) {
    && s.pool.transientInFlight == |HeldAs(s.held, true)|
    && s.pool.owned >= |s.pool.idle| + |HeldAs(s.held, false)| + |s.resetting|
    && (!s.pool.destroyed ==> s.pool.owned == |s.pool.idle| + |HeldAs(s.held, false)| + |s.resetting|)
  }

  lemma HeldPlus(held: map<Conn, bool>, c: Conn, t: bool)
    requires c !in held
    ensures HeldAs(held[c := t], t) == HeldAs(held, t) + {c} && |HeldAs(held[c := t], t)| == |HeldAs(held, t)| + 1
    ensures HeldAs(held[c := t], !t) == HeldAs(held, !t)
  {
    assert HeldAs(held[c := t], t) == HeldAs(held, t) + {c};
  }

  lemma HeldMinus(held: map<Conn, bool>, c: Conn)
    requires c in held
    ensures |HeldAs(held - {c}, held[c])| == |HeldAs(held, held[c])| - 1
    ensures HeldAs(held - {c}, !held[c]) == HeldAs(held, !held[c])
  {
    assert HeldAs(held - {c}, held[c]) == HeldAs(held, held[c]) - {c};
  }

  lemma AcquireExclusive(s: System)
    requires Exclusive(s)
    ensures Exclusive(StepAcquire(s))
  {
    if s.pool.idle != [] {
      var n := |s.pool.idle| - 1;
      var popped := s.pool.idle[..n];
      assert forall c :: c in popped ==> c in s.pool.idle && c != s.pool.idle[n];
    }
  }

  lemma ReleaseExclusive(s: System, c: Conn)
    requires Exclusive(s) && c in s.held
    ensures Exclusive(StepRelease(s, c))
  {}

  lemma AcquireAccounted(s: System)
    requires Exclusive(s) && Accounted(s)
    ensures Accounted(StepAcquire(s))
  {
    if s.pool.idle != [] {
      var c := s.pool.idle[|s.pool.idle| - 1];
      assert c in s.pool.idle;
      HeldPlus(s.held, c, false);
    }
  }

  /** The clamp in `release` never acts: a transient holder is counted. */
  lemma ReleaseAccounted(s: System, c: Conn)
    requires Exclusive(s) && Accounted(s) && c in s.held
    ensures Accounted(Next(s, Release(c)))
    ensures s.held[c] ==> s.pool.transientInFlight >= 1
  {
    HeldMinus(s.held, c);
  }

  /** Nor does the one after a failed UNWATCH: a resetting connection is owned. */
  lemma ResetAccounted(s: System, c: Conn, failed: bool)
    requires Exclusive(s) && Accounted(s) && c in s.resetting
    ensures Accounted(Next(s, if failed then UnwatchFails(c) else UnwatchOk(c)))
    ensures s.pool.owned >= 1
  {
    assert |s.resetting| >= 1 && |s.resetting - {c}| == |s.resetting| - 1;
  }

  lemma NextExclusive(s: System, a: Action)
    requires Exclusive(s)
    ensures Exclusive(Next(s, a))
  {
    match a
    case Acquire => AcquireExclusive(s);
    case Release(c) => if c in s.held { ReleaseExclusive(s, c); }
    case _ =>
  }

  lemma NextAccounted(s: System, a: Action)
    requires Exclusive(s) && Accounted(s)
    ensures Accounted(Next(s, a))
  {
    match a
    case Acquire => AcquireAccounted(s);
    case ConnectOk(c) => if c in s.pending { HeldPlus(s.held, c, s.pending[c]); }
    case Release(c) => if c in s.held { ReleaseAccounted(s, c); }
    case UnwatchOk(c) => if c in s.resetting { ResetAccounted(s, c, false); }
    case UnwatchFails(c) => if c in s.resetting { ResetAccounted(s, c, true); }
    case _ =>
  }

  /** In every interleaving connections are exclusive, idle ones are unwatched, and the counters are exact. */
  lemma {:induction false} PoolIsSound(acts: seq<Action>)
    ensures Exclusive(Exec(INITIAL, acts)) && Accounted(Exec(INITIAL, acts))
  {
    if acts == [] {
      assert HeldAs(map[], true) == {} && HeldAs(map[], false) == {};
    } else {
      PoolIsSound(acts[..|acts| - 1]);
      NextExclusive(Exec(INITIAL, acts[..|acts| - 1]), acts[|acts| - 1]);
      NextAccounted(Exec(INITIAL, acts[..|acts| - 1]), acts[|acts| - 1]);
    }
  }

  /** Neither `Math.max(0, ...)` ever changes a value. */
  lemma ClampsNeverAct(acts: seq<Action>, c: Conn)
    ensures var s := Exec(INITIAL, acts);
            && (c in s.held && s.held[c] ==> s.pool.transientInFlight >= 1)
            && (c in s.resetting ==> s.pool.owned >= 1)
  {
    PoolIsSound(acts);
    var s := Exec(INITIAL, acts);
    if c in s.held { ReleaseAccounted(s, c); }
    if c in s.resetting { ResetAccounted(s, c, true); }
  }

  // ---------------------------------------------------------------- the pool object

  ghost predicate Sound(s: System) { Exclusive(s) && Accounted(s) }

  lemma NextSound(s: System, a: Action)
    requires Sound(s)
    ensures Sound(Next(s, a))
  {
    NextExclusive(s, a);
    NextAccounted(s, a);
  }

  lemma ReuseIsExclusive(s: System)
    requires Sound(s) && s.pool.idle != []
    ensures var conn := s.pool.idle[|s.pool.idle| - 1]; conn !in s.held && conn !in s.watching
  {
    assert s.pool.idle[|s.pool.idle| - 1] in s.pool.idle;
  }

  lemma FreshConnect(s: System)
    requires Sound(s)
    ensures s.next !in s.pending
  {}

  lemma ConnectHands(s: System, c: Conn)
    requires Sound(s) && c in s.pending
    ensures c !in s.held
  {}

  /** What a release leaves: the connection is nobody's, and `transientInFlight` went down without its clamp. */
  lemma ReleaseLeaves(s: System, c: Conn)
    requires Sound(s) && c in s.held
    ensures var s' := Next(s, Release(c));
            && Sound(s')
            && s'.pool.transientInFlight == s.pool.transientInFlight - (if s.held[c] then 1 else 0)
            && c !in s'.held && c !in s'.pool.idle && (c !in s'.resetting ==> c !in s'.watching)
            && (c in s'.resetting <==> !s.held[c] && !s.pool.destroyed) && (c in s'.quitting <==> c !in s'.resetting)
  {
    NextSound(s, Release(c));
    ReleaseAccounted(s, c);
  }

  /** What the end of an UNWATCH leaves, again without the clamp. */
  lemma ResetLeaves(s: System, c: Conn, failed: bool)
    requires Sound(s) && c in s.resetting
    ensures var s' := Next(s, if failed then UnwatchFails(c) else UnwatchOk(c));
            && Sound(s') && s'.pool.owned == s.pool.owned - (if failed then 1 else 0)
            && c !in s'.watching && c !in s'.held && (c in s'.pool.idle <==> !failed) && (c in s'.quitting <==> failed)
  {
    NextSound(s, if failed then UnwatchFails(c) else UnwatchOk(c));
    ResetAccounted(s, c, failed);
  }

  lemma IdleIsFree(s: System)
    requires Sound(s)
    ensures forall c :: c in s.pool.idle ==> c !in s.held && c !in s.watching && c !in s.resetting
    ensures NoRepeats(s.pool.idle)
  {}

  class CartWatchPool {
    var idle: seq<Conn>
    var owned: int
    var transientInFlight: int
    var destroyed: bool

    ghost var held: map<Conn, bool>
    ghost var pending: map<Conn, bool>
    ghost var resetting: set<Conn>
    ghost var quitting: set<Conn>
    ghost var watching: set<Conn>
    ghost var next: Conn

    ghost function View(): System
      reads this
    {
      System(Pool(idle, owned, transientInFlight, destroyed), held, pending, resetting, quitting, watching, next)
    }

    ghost predicate Valid()
      reads this
    {
      Sound(View())
    }

    constructor ()
      ensures Valid() && View() == INITIAL
    {
      idle, owned, transientInFlight, destroyed := [], 0, 0, false;
      held, pending, resetting, quitting, watching, next := map[], map[], {}, {}, {}, 0;
      new;
      PoolIsSound([]);
    }

    /** One round of the loop: a connection handed out again was nobody's and has no WATCH outstanding. */
    method AcquireRound() returns (outcome: Outcome)
      requires Valid()
      modifies this
      ensures Valid() && View() == Next(old(View()), Acquire)
      ensures outcome.Reuse? ==>
                outcome.conn !in old(held) && outcome.conn !in watching && held == old(held)[outcome.conn := false]
      ensures outcome.Reuse? ==> old(idle) == idle + [outcome.conn]
      ensures owned == old(owned) && transientInFlight == old(transientInFlight)
      ensures outcome.Wait? ==> pending == old(pending) && held == old(held)
      ensures outcome.Wait? <==> old(idle) == [] && Counted(old(View())) >= MAX_TOTAL_CONNS
      ensures outcome.Connect? ==> old(idle) == [] && (outcome.transient <==> old(owned) >= 16)
      ensures outcome.Connect? ==> pending == old(pending)[old(next) := outcome.transient] && old(next) !in old(pending)
    {
      ghost var after := Next(View(), Acquire);
      NextSound(View(), Acquire);
      FreshConnect(View());
      if |idle| > 0 {
        var pooled := idle[|idle| - 1];
        ReuseIsExclusive(View());
        idle := idle[..|idle| - 1];
        held := held[pooled := false];
        assert View() == after;
        return Reuse(pooled);
      }
      if owned + transientInFlight >= MAX_TOTAL_CONNS {
        return Wait;
      }
      outcome := Connect(owned >= POOL_CAP);
      pending, next := pending[next := outcome.transient], next + 1;
      assert View() == after;
    }

    /** After `connect()` has resolved: counted only now, as what it was meant to be before the await. */
    method AfterConnect(conn: Conn, transient: bool)
      requires Valid() && conn in pending && pending[conn] == transient
      modifies this
      ensures Valid() && View() == Next(old(View()), ConnectOk(conn))
      ensures Counted(View()) == Counted(old(View())) + 1 && owned == old(owned) + (if transient then 0 else 1)
      ensures conn !in old(held) && held == old(held)[conn := transient] && conn !in pending
    {
      ghost var after := Next(View(), ConnectOk(conn));
      NextSound(View(), ConnectOk(conn));
      ConnectHands(View(), conn);
      if transient {
        transientInFlight := transientInFlight + 1;
      } else {
        owned := owned + 1;
      }
      held, pending := held[conn := transient], pending - {conn};
      assert View() == after;
    }

    /** `release` up to its first await; the clamp changes nothing. */
    method Release(conn: Conn, transient: bool) returns (disposal: Disposal)
      requires Valid() && conn in held && held[conn] == transient
      modifies this
      ensures Valid() && View() == Next(old(View()), Action.Release(conn))
      ensures transientInFlight == old(transientInFlight) - (if transient then 1 else 0) && owned == old(owned)
      ensures (disposal == Unwatch <==> conn in resetting) && (disposal == Quit <==> conn in quitting)
      ensures held == old(held) - {conn} && conn !in idle && (disposal == Quit ==> conn !in watching)
      ensures (disposal == Quit <==> transient || destroyed) && idle == old(idle)
    {
      ghost var after := Next(View(), Action.Release(conn));
      ReleaseLeaves(View(), conn);
      held := held - {conn};
      if transient || destroyed {
        if transient { transientInFlight := Max0(transientInFlight - 1); }
        watching, quitting := watching - {conn}, quitting + {conn};
        disposal := Quit;
      } else {
        resetting := resetting + {conn};
        disposal := Unwatch;
      }
      assert View() == after;
    }

    /** After the UNWATCH: back to idle without a WATCH, or no longer owned; again the clamp changes nothing. */
    method AfterUnwatch(conn: Conn, failed: bool)
      requires Valid() && conn in resetting
      modifies this
      ensures Valid() && View() == Next(old(View()), if failed then UnwatchFails(conn) else UnwatchOk(conn))
      ensures owned == old(owned) - (if failed then 1 else 0) && transientInFlight == old(transientInFlight)
      ensures conn !in watching && conn !in held && (conn in idle <==> !failed) && (conn in quitting <==> failed)
      ensures idle == (if failed then old(idle) else old(idle) + [conn]) && held == old(held)
    {
      ghost var after := Next(View(), if failed then UnwatchFails(conn) else UnwatchOk(conn));
      ResetLeaves(View(), conn, failed);
      if failed {
        owned := Max0(owned - 1);
        quitting := quitting + {conn};
      } else {
        idle := idle + [conn];
      }
      resetting, watching := resetting - {conn}, watching - {conn};
      assert View() == after;
    }

    /** The connections handed back to be quit are distinct and in nobody's use. */
    method OnModuleDestroy() returns (conns: seq<Conn>)
      requires Valid()
      modifies this
      ensures Valid() && View() == Next(old(View()), Destroy)
      ensures destroyed && owned == old(owned) && transientInFlight == old(transientInFlight)
      ensures conns == old(idle) && idle == [] && forall c :: c in conns ==>
              c !in held && c !in watching && c !in resetting
      ensures NoRepeats(conns) && held == old(held) && resetting == old(resetting)
    {
      NextSound(View(), Destroy);
      IdleIsFree(View());
      destroyed := true;
      conns := idle;
      quitting := quitting + set c | c in idle;
      idle := [];
    }

    /** A connect that throws, and a holder's WATCH, touch no field of the pool. */
    ghost method ConnectFailed(conn: Conn)
      requires Valid() && conn in pending
      modifies this`pending
      ensures Valid() && View() == Next(old(View()), ConnectFails(conn))
      ensures pending == old(pending) - {conn}
    {
      NextSound(View(), ConnectFails(conn));
      pending := pending - {conn};
    }

    /** Nor does the end of a QUIT. */
    ghost method QuitEnded(conn: Conn)
      requires Valid() && conn in quitting
      modifies this`quitting
      ensures Valid() && View() == Next(old(View()), QuitEnds(conn))
      ensures quitting == old(quitting) - {conn}
    {
      NextSound(View(), QuitEnds(conn));
      quitting := quitting - {conn};
    }

    ghost method Watched(conn: Conn)
      requires Valid() && conn in held
      modifies this`watching
      ensures Valid() && View() == Next(old(View()), Watch(conn))
      ensures watching == old(watching) + {conn}
    {
      NextSound(View(), Watch(conn));
      watching := watching + {conn};
    }
  }

  // ---------------------------------------------------------------- after the pool has been destroyed

  /** Nothing but what was resetting when `s` was destroyed can be resetting or idle in `s'`. */
  ghost predicate Retired(s: System, s': System) {
    && s'.pool.destroyed
    && (forall c :: c in s'.resetting || c in s'.pool.idle ==> c in s.resetting)
  }

  lemma RetiredNext(s: System, s': System, a: Action)
    requires Retired(s, s') && Sound(s')
    ensures Retired(s, Next(s', a))
  {
    if a.Acquire? && s'.pool.idle != [] {
      assert forall c :: c in s'.pool.idle[..|s'.pool.idle| - 1] ==> c in s'.pool.idle;
    }
  }

  /**
   * Destroying the pool quits what is idle, and for good: whatever happens afterwards, any connection released is
   * quit, and only those whose UNWATCH was under way at that moment can still turn up idle.
   */
  lemma {:induction false} DestroyedForGood(acts: seq<Action>, more: seq<Action>)
    ensures var s := Exec(INITIAL, acts); var gone := Next(s, Destroy); var later := Exec(gone, more);
            && gone.pool.idle == [] && (forall c :: c in s.pool.idle ==> c in gone.quitting)
            && Counted(gone) == Counted(s) && gone.held == s.held && gone.resetting == s.resetting
            && Sound(later) && Retired(s, later)
            && forall c :: c in later.held ==> Discarded(Next(later, Release(c)), c)
  {
    var s := Exec(INITIAL, acts);
    var gone := Next(s, Destroy);
    PoolIsSound(acts);
    if more == [] {
      NextSound(s, Destroy);
    } else {
      var front := more[..|more| - 1];
      DestroyedForGood(acts, front);
      NextSound(Exec(gone, front), more[|more| - 1]);
      RetiredNext(s, Exec(gone, front), more[|more| - 1]);
    }
    var later := Exec(gone, more);
    forall c | c in later.held ensures Discarded(Next(later, Release(c)), c) { ReleaseDiscards(later, c); }
  }

  predicate Discarded(s: System, c: Conn) {
    c in s.quitting && c !in s.pool.idle && c !in s.held && c !in s.resetting && c !in s.watching
  }

  lemma ReleaseDiscards(s: System, c: Conn)
    requires Sound(s) && s.pool.destroyed && c in s.held
    ensures Discarded(Next(s, Release(c)), c)
  {
    ReleaseLeaves(s, c);
  }

  // ---------------------------------------------------------------- the bound under overlapping connects

  /** The most connects ever pending at once. */
  function Overlap(s: System, acts: seq<Action>): (most: nat)
    ensures |Exec(s, acts).pending| <= most
  {
    var now := |Exec(s, acts).pending|;
    if acts == [] then now
    else
      var before := Overlap(s, acts[..|acts| - 1]);
      if now <= before then before else now
  }

  /** The most QUITs ever outstanding at once. */
  function Quits(s: System, acts: seq<Action>): (most: nat)
    ensures |Exec(s, acts).quitting| <= most
  {
    var now := |Exec(s, acts).quitting|;
    if acts == [] then now
    else
      var before := Quits(s, acts[..|acts| - 1]);
      if now <= before then before else now
  }

  /** At no time more than `k` connects pending or `q` QUITs outstanding. */
  predicate Keeps(acts: seq<Action>, k: nat, q: nat) { Overlap(INITIAL, acts) <= k && Quits(INITIAL, acts) <= q }

  ghost predicate Bounded(s: System, k: nat) {
    && s.pool.owned + s.pool.transientInFlight + |s.pending| <= MAX_TOTAL_CONNS - 1 + k
    && s.pool.owned + |HeldAs(s.pending, false)| <= POOL_CAP - 1 + k
  }

  lemma {:induction false} SubsetSize(a: set<Conn>, b: set<Conn>)
    requires a <= b
    ensures |a| <= |b|
  {
    if a != {} {
      var c :| c in a;
      SubsetSize(a - {c}, b - {c});
    }
  }

  lemma AcquireBounded(s: System, k: nat)
    requires Exclusive(s) && Bounded(s, k) && |StepAcquire(s).pending| <= k
    ensures Bounded(StepAcquire(s), k)
  {
    var s' := StepAcquire(s);
    if s'.next != s.next {
      assert s.next !in s.pending;
      var t := s'.pending[s.next];
      HeldPlus(s.pending, s.next, t);
      SubsetSize(HeldAs(s'.pending, false), s'.pending.Keys);
      assert |s'.pending| == |s.pending| + 1;
    }
  }

  lemma ConnectBounded(s: System, c: Conn, k: nat)
    requires Bounded(s, k) && c in s.pending
    ensures Bounded(Next(s, ConnectOk(c)), k) && Bounded(Next(s, ConnectFails(c)), k)
  {
    HeldMinus(s.pending, c);
    assert (s.pending - {c}).Keys == s.pending.Keys - {c};
    assert |s.pending - {c}| == |s.pending| - 1;
  }

  /** Every other step leaves the connects alone and no counter higher. */
  lemma FreeingBounded(s: System, a: Action, k: nat)
    requires Exclusive(s) && Accounted(s) && Bounded(s, k) && !a.Acquire? && !a.ConnectOk? && !a.ConnectFails?
    ensures Next(s, a).pending == s.pending && Bounded(Next(s, a), k)
  {
    if a.UnwatchFails? && a.conn in s.resetting { ResetAccounted(s, a.conn, true); }
    if a.Release? && a.conn in s.held { ReleaseAccounted(s, a.conn); }
  }

  lemma BoundedNext(s: System, a: Action, k: nat)
    requires Exclusive(s) && Accounted(s) && Bounded(s, k) && |Next(s, a).pending| <= k
    ensures Bounded(Next(s, a), k)
  {
    match a
    case Acquire => AcquireBounded(s, k);
    case ConnectOk(c) => if c in s.pending { ConnectBounded(s, c, k); }
    case ConnectFails(c) => if c in s.pending { ConnectBounded(s, c, k); }
    case _ => FreeingBounded(s, a, k);
  }

  /** With at most `k` connects pending at once, the counters stay below 64 + k in all and 16 + k for pooled ones. */
  lemma {:induction false} PoolBound(acts: seq<Action>, k: nat)
    requires Overlap(INITIAL, acts) <= k
    ensures var s := Exec(INITIAL, acts);
            && s.pool.owned + s.pool.transientInFlight + |s.pending| <= MAX_TOTAL_CONNS - 1 + k
            && s.pool.owned <= POOL_CAP - 1 + k
    ensures Bounded(Exec(INITIAL, acts), k)
  {
    if acts == [] {
      assert HeldAs(map[], false) == {};
    } else {
      PoolBound(acts[..|acts| - 1], k);
      PoolIsSound(acts[..|acts| - 1]);
      BoundedNext(Exec(INITIAL, acts[..|acts| - 1]), acts[|acts| - 1], k);
    }
  }

  lemma HeldSplits(held: map<Conn, bool>)
    ensures |held| == |HeldAs(held, true)| + |HeldAs(held, false)|
  {
    assert held.Keys == HeldAs(held, true) + HeldAs(held, false);
  }

  /** The open connections stay below 64 + k + q when, besides, at most `q` QUITs are outstanding at once. */
  lemma OpenBound(acts: seq<Action>, k: nat, q: nat)
    requires Keeps(acts, k, q)
    ensures var s := Exec(INITIAL, acts); Open(s) + |s.pending| <= MAX_TOTAL_CONNS - 1 + k + q
  {
    PoolBound(acts, k);
    PoolIsSound(acts);
    HeldSplits(Exec(INITIAL, acts).held);
  }

  // ---------------------------------------------------------------- the bounds are attained

  /** Connects `lo` to `hi - 1`, all with the same flag. */
  function Range(lo: nat, hi: nat, t: bool): (r: map<Conn, bool>)
    requires lo <= hi
    ensures forall c :: c in r <==> lo <= c < hi
    ensures forall c :: c in r ==> r[c] == t
    ensures |r| == hi - lo
  {
    if lo == hi then map[] else Range(lo, hi - 1, t)[hi - 1 := t]
  }

  function Max(a: nat, b: nat): nat { if b <= a then a else b }

  lemma ExecAppend(s: System, acts: seq<Action>, a: Action)
    ensures Exec(s, acts + [a]) == Next(Exec(s, acts), a)
    ensures Overlap(s, acts + [a]) == Max(Overlap(s, acts), |Exec(s, acts + [a]).pending|)
    ensures Quits(s, acts + [a]) == Max(Quits(s, acts), |Exec(s, acts + [a]).quitting|)
  {
    assert (acts + [a])[..|acts|] == acts;
  }

  /** Some interleaving with at most `k` connects pending and `q` QUITs outstanding at once ends in `s`. */
  ghost predicate Reached(s: System, k: nat, q: nat) {
    exists acts :: Keeps(acts, k, q) && Exec(INITIAL, acts) == s
  }

  lemma ReachedNext(s: System, a: Action, k: nat, q: nat)
    requires Reached(s, k, q) && |Next(s, a).pending| <= k && |Next(s, a).quitting| <= q
    ensures Reached(Next(s, a), k, q)
  {
    var acts :| Keeps(acts, k, q) && Exec(INITIAL, acts) == s;
    ExecAppend(INITIAL, acts, a);
    assert Keeps(acts + [a], k, q);
  }

  lemma ReachedSound(s: System, k: nat, q: nat)
    requires Reached(s, k, q)
    ensures Sound(s) && |s.pending| <= k && |s.quitting| <= q
  {
    var acts :| Keeps(acts, k, q) && Exec(INITIAL, acts) == s;
    PoolIsSound(acts);
  }

  lemma ReachedInitial(k: nat, q: nat)
    ensures Reached(INITIAL, k, q)
  {
    assert Exec(INITIAL, []) == INITIAL && Keeps([], k, q);
  }

  /** Nothing idle or resetting, the counters as given, connects `lo` to `next - 1` pending, all with one flag. */
  ghost predicate Busy(s: System, owned: int, inFlight: int, lo: nat) {
    && s.pool == Pool([], owned, inFlight, false)
    && lo <= s.next && s.pending == Range(lo, s.next, owned >= POOL_CAP)
  }

  lemma AcquireConnects(s: System, owned: int, inFlight: int, lo: nat) returns (s': System)
    requires Busy(s, owned, inFlight, lo) && owned + inFlight < MAX_TOTAL_CONNS
    ensures s' == Next(s, Acquire) && Busy(s', owned, inFlight, lo) && s'.next == s.next + 1
    ensures |s'.pending| == s.next + 1 - lo && s'.quitting == s.quitting
  {
    s' := Next(s, Acquire);
    var t := owned >= POOL_CAP;
    assert Range(lo, s.next + 1, t) == Range(lo, s.next, t)[s.next := t];
  }

  lemma RangeDropFirst(lo: nat, hi: nat, t: bool)
    requires lo < hi
    ensures Range(lo, hi, t) - {lo} == Range(lo + 1, hi, t)
  {
    var a, b := Range(lo, hi, t) - {lo}, Range(lo + 1, hi, t);
    assert forall c :: c in a <==> c in b;
  }

  lemma FirstConnects(s: System, lo: nat, hi: nat, t: bool, k: nat, q: nat) returns (s': System)
    requires lo < hi <= lo + k && s.pending == Range(lo, hi, t) && Reached(s, k, q)
    ensures s'.pending == Range(lo + 1, hi, t) && Reached(s', k, q)
    ensures s'.pool == Connected(s.pool, t) && s'.quitting == s.quitting && s'.next == s.next
  {
    s' := Next(s, ConnectOk(lo));
    RangeDropFirst(lo, hi, t);
    ReachedSound(s, k, q);
    ReachedNext(s, ConnectOk(lo), k, q);
  }

  /** One more caller, connected before anybody else comes. */
  lemma OneMoreCaller(s: System, owned: int, inFlight: int, k: nat, q: nat) returns (s': System)
    requires Reached(s, k, q) && Busy(s, owned, inFlight, s.next) && owned + inFlight < MAX_TOTAL_CONNS && 1 <= k
    ensures Reached(s', k, q) && s'.next == s.next + 1 && s'.quitting == s.quitting && s'.pending == map[]
    ensures s'.pool == Connected(s.pool, owned >= POOL_CAP)
  {
    var during := AcquireConnects(s, owned, inFlight, s.next);
    ReachedSound(s, k, q);
    ReachedNext(s, Acquire, k, q);
    s' := FirstConnects(during, s.next, during.next, owned >= POOL_CAP, k, q);
    assert Range(s'.next, s'.next, owned >= POOL_CAP) == map[];
  }

  function PooledOf(n: nat): nat { if n <= POOL_CAP then n else POOL_CAP }

  /** `n` callers one after the other: pooled first, transient from the seventeenth on. */
  lemma {:induction false} OneByOne(n: nat, k: nat, q: nat) returns (s: System)
    requires n < MAX_TOTAL_CONNS && 1 <= k
    ensures Reached(s, k, q) && s.next == n && s.quitting == {} && Busy(s, PooledOf(n), n - PooledOf(n), n)
  {
    if n == 0 {
      ReachedInitial(k, q);
      s := INITIAL;
    } else {
      var before := OneByOne(n - 1, k, q);
      s := OneMoreCaller(before, PooledOf(n - 1), n - 1 - PooledOf(n - 1), k, q);
      assert Range(n, n, PooledOf(n) >= POOL_CAP) == map[];
    }
  }

  /** A transient holder releases and another caller takes his place while the QUIT is still outstanding. */
  lemma TransientReplaced(s: System, k: nat, q: nat) returns (s': System)
    requires Reached(s, k, q) && Busy(s, 16, 47, s.next) && |s.quitting| < q && 1 <= k
    ensures Reached(s', k, q) && Busy(s', 16, 47, s'.next) && |s'.quitting| == |s.quitting| + 1
  {
    ReachedSound(s, k, q);
    assert HeldAs(s.held, true) != {};
    var c :| c in HeldAs(s.held, true);
    var released := Next(s, Release(c));
    assert c !in s.quitting;
    ReachedNext(s, Release(c), k, q);
    assert Busy(released, 16, 46, released.next);
    s' := OneMoreCaller(released, 16, 46, k, q);
    assert Range(s'.next, s'.next, true) == map[];
  }

  /** All but one of the 64 places taken, and `n` transient connections on their way out. */
  lemma {:induction false} Churn(n: nat, k: nat, q: nat) returns (s: System)
    requires n <= q && 1 <= k
    ensures Reached(s, k, q) && Busy(s, 16, 47, s.next) && |s.quitting| == n
  {
    if n == 0 {
      s := OneByOne(63, k, q);
    } else {
      var before := Churn(n - 1, k, q);
      s := TransientReplaced(before, k, q);
    }
  }

  /** Then `n` callers at once: all of them see the same counters, so all get the same flag. */
  lemma {:induction false} BurstBegins(start: System, owned: int, inFlight: int, n: nat, k: nat, q: nat)
    returns (s: System)
    requires Reached(start, k, q) && Busy(start, owned, inFlight, start.next)
    requires owned + inFlight < MAX_TOTAL_CONNS && n <= k
    ensures Reached(s, k, q) && s.next == start.next + n && s.quitting == start.quitting
    ensures Busy(s, owned, inFlight, start.next)
  {
    if n == 0 {
      s := start;
    } else {
      var before := BurstBegins(start, owned, inFlight, n - 1, k, q);
      s := AcquireConnects(before, owned, inFlight, start.next);
      ReachedSound(before, k, q);
      ReachedNext(before, Acquire, k, q);
    }
  }

  /** And then all their connects resolve. */
  lemma {:induction false} AllConnect(s: System, lo: nat, hi: nat, t: bool, k: nat, q: nat) returns (s': System)
    requires lo <= hi <= lo + k && s.pending == Range(lo, hi, t) && Reached(s, k, q)
    ensures Reached(s', k, q) && s'.quitting == s.quitting
    ensures s'.pool.idle == s.pool.idle && s'.pool.destroyed == s.pool.destroyed
    ensures s'.pool.owned == s.pool.owned + (if t then 0 else hi - lo)
    ensures s'.pool.transientInFlight == s.pool.transientInFlight + (if t then hi - lo else 0)
    decreases hi - lo
  {
    if lo == hi {
      s' := s;
    } else {
      var next := FirstConnects(s, lo, hi, t, k, q);
      s' := AllConnect(next, lo + 1, hi, t, k, q);
    }
  }

  /** As long as the pool stands, what is open is what is counted and what is on its way out. */
  lemma OpenIsCounted(s: System)
    requires Sound(s) && !s.pool.destroyed
    ensures Open(s) == Counted(s) + |s.quitting|
  {
    HeldSplits(s.held);
  }

  /**
   * For every `k` and `q` some interleaving that keeps to them opens 63 + k + q connections, 63 + k of them counted,
   * and some pools 15 + k.
   */
  lemma BoundsAreAttained(k: nat, q: nat)
    requires 1 <= k
    ensures exists acts :: Keeps(acts, k, q) && Fills(Exec(INITIAL, acts), 63 + k, 63 + k + q)
    ensures exists acts :: Keeps(acts, k, q) && Exec(INITIAL, acts).pool.owned == 15 + k
  {
    var s := MostOpen(k, q);
    var acts :| Keeps(acts, k, q) && Exec(INITIAL, acts) == s;
    assert Fills(Exec(INITIAL, acts), 63 + k, 63 + k + q);
    var p := MostPooled(k, q);
    var acts' :| Keeps(acts', k, q) && Exec(INITIAL, acts') == p;
  }

  predicate Fills(s: System, counted: int, open: int) { Counted(s) == counted && Open(s) == open }

  lemma MostOpen(k: nat, q: nat) returns (s: System)
    requires 1 <= k
    ensures Reached(s, k, q) && Fills(s, 63 + k, 63 + k + q)
  {
    var start := Churn(q, k, q);
    var burst := BurstBegins(start, 16, 47, k, k, q);
    s := AllConnect(burst, start.next, burst.next, true, k, q);
    ReachedSound(s, k, q);
    OpenIsCounted(s);
  }

  lemma MostPooled(k: nat, q: nat) returns (s: System)
    requires 1 <= k
    ensures Reached(s, k, q) && s.pool.owned == 15 + k
  {
    var start := OneByOne(15, k, q);
    var burst := BurstBegins(start, 15, 0, k, k, q);
    s := AllConnect(burst, start.next, burst.next, false, k, q);
  }

  predicate CountersKept(s: System) { Counted(s) <= MAX_TOTAL_CONNS && s.pool.owned <= POOL_CAP }

  /** The counters keep the two ceilings, 64 in all and 16 pooled, exactly when connects never overlap. */
  lemma CountersHoldExactlyWithoutOverlap(k: nat)
    ensures (forall acts :: Overlap(INITIAL, acts) <= k ==> CountersKept(Exec(INITIAL, acts))) <==> k <= 1
  {
    if k <= 1 {
      forall acts | Overlap(INITIAL, acts) <= k ensures CountersKept(Exec(INITIAL, acts)) { PoolBound(acts, k); }
    } else {
      BoundsAreAttained(k, 0);
      var acts :| Keeps(acts, k, 0) && Fills(Exec(INITIAL, acts), 63 + k, 63 + k + 0);
      assert !CountersKept(Exec(INITIAL, acts));
    }
  }

  /** Nothing is open where nothing ever connects. */
  lemma {:induction false} NothingConnects(acts: seq<Action>)
    requires Overlap(INITIAL, acts) == 0
    ensures var s := Exec(INITIAL, acts); s.next == 0 && s.pool.idle == [] && Open(s) == 0
  {
    var s := Exec(INITIAL, acts);
    PoolIsSound(acts);
    if acts != [] {
      NothingConnects(acts[..|acts| - 1]);
      assert s.pending == map[];
    }
    assert s.held == map[] && s.resetting == {} && s.quitting == {};
  }

  /**
   * The documented ceiling of 64 live connections is kept over all interleavings with at most `k` connects pending
   * and at most `q` QUITs outstanding exactly when nothing connects at all, or connects do not overlap and no QUIT is
   * ever outstanding.
   */
  lemma CeilingHoldsExactly(k: nat, q: nat)
    ensures (forall acts :: Keeps(acts, k, q) ==> Open(Exec(INITIAL, acts)) <= MAX_TOTAL_CONNS)
            <==> k == 0 || k + q <= 1
  {
    if k == 0 || k + q <= 1 {
      forall acts | Keeps(acts, k, q) ensures Open(Exec(INITIAL, acts)) <= MAX_TOTAL_CONNS {
        if k == 0 { NothingConnects(acts); } else { OpenBound(acts, k, q); }
      }
    } else {
      BoundsAreAttained(k, q);
      var acts :| Keeps(acts, k, q) && Fills(Exec(INITIAL, acts), 63 + k, 63 + k + q);
      assert Open(Exec(INITIAL, acts)) > MAX_TOTAL_CONNS;
    }
  }
}
