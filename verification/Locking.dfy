/**
 * The order in which a node's handlers take its locks (blockchain/src/app.rs).
 *
 * `sync_chain` takes chain, seen-set and peer table; `add_block_to_chain` takes chain and seen-set;
 * `push_chain_sync` and `save_chain` take peer table and then chain; every other section takes one
 * lock. A section holds what it has taken until it has all of its locks and is done.
 */
module Locking {

  datatype Lock = ChainLock | SeenLock | PeersLock

  datatype Section = Sync | AddBlock | PushOrSave | Only(lock: Lock)

  /** A thread inside a lock section that has taken the first `held` of its locks. */
  datatype Thread = Thread(section: Section, held: nat)

  type Threads = map<nat, Thread>

  datatype Action = Enter(tid: nat, section: Section) | Acquire(tid: nat) | Release(tid: nat)

  function LocksOf(s: Section): seq<Lock> {
    match s
    case Sync => [ChainLock, SeenLock, PeersLock]
    case AddBlock => [ChainLock, SeenLock]
    case PushOrSave => [PeersLock, ChainLock]
    case Only(lock) => [lock]
  }

  predicate Holds(t: Thread, lock: Lock) {
    t.held <= |LocksOf(t.section)| && lock in LocksOf(t.section)[..t.held]
  }

  predicate Free(ts: Threads, lock: Lock) {
    forall tid :: tid in ts ==> !Holds(ts[tid], lock)
  }

  /** The lock a thread waits for next, until it has all of them. */
  predicate Wants(t: Thread, lock: Lock) {
    t.held < |LocksOf(t.section)| && LocksOf(t.section)[t.held] == lock
  }

  predicate Can(ts: Threads, a: Action) {
    match a
    case Enter(tid, _) => tid !in ts
    case Acquire(tid) => tid in ts && ts[tid].held < |LocksOf(ts[tid].section)| && Free(ts, LocksOf(ts[tid].section)[ts[tid].held])
    case Release(tid) => tid in ts && ts[tid].held == |LocksOf(ts[tid].section)|
  }

  function Do(ts: Threads, a: Action): Threads
    requires Can(ts, a)
  {
    match a
    case Enter(tid, section) => ts[tid := Thread(section, 0)]
    case Acquire(tid) => ts[tid := ts[tid].(held := ts[tid].held + 1)]
    case Release(tid) => ts - {tid}
  }

  predicate Legal(ts: Threads, run: seq<Action>)
    decreases |run|
  {
    run != [] ==> Can(ts, run[0]) && Legal(Do(ts, run[0]), run[1..])
  }

  function After(ts: Threads, run: seq<Action>): Threads
    requires Legal(ts, run)
    decreases |run|
  {
    if run == [] then ts else After(Do(ts, run[0]), run[1..])
  }

  /** Every lock has at most one holder. */
  ghost predicate Exclusive(ts: Threads) {
    && (forall tid :: tid in ts ==> ts[tid].held <= |LocksOf(ts[tid].section)|)
    && (forall t, u, lock :: t in ts && u in ts && Holds(ts[t], lock) && Holds(ts[u], lock) ==> t == u)
  }

  /** A chain adoption that waits for the peer table, and a push that waits for the chain, each holding what the other needs. */
  predicate Crossed(ts: Threads, t: nat, u: nat) {
    t in ts && u in ts && ts[t] == Thread(Sync, 2) && ts[u] == Thread(PushOrSave, 1)
  }

  ghost predicate Deadlocked(ts: Threads) {
    exists t, u :: Crossed(ts, t, u)
  }

  /** Some thread already in its section can take its next lock or leave. */
  ghost predicate CanMove(ts: Threads, tid: nat) {
    Can(ts, Acquire(tid)) || Can(ts, Release(tid))
  }

  /** A thread holds exactly the locks it has taken so far, in its section's order. */
  lemma HoldsTaken(t: Thread, lock: Lock)
    requires t.held <= |LocksOf(t.section)|
    ensures Holds(t, lock) <==> exists k :: 0 <= k < t.held && LocksOf(t.section)[k] == lock
  {
    hide LocksOf;
    var locks := LocksOf(t.section);
    if Holds(t, lock) {
      var k :| 0 <= k < t.held && locks[..t.held][k] == lock;
      assert locks[k] == lock;
    }
    if k :| 0 <= k < t.held && locks[k] == lock {
      assert locks[..t.held][k] == lock;
    }
  }

  /** A step gives a thread at most the one lock it wanted, takes all of them from one that leaves, and touches no other. */
  lemma StepMoves(ts: Threads, a: Action, t: nat, lock: Lock)
    requires Exclusive(ts) && Can(ts, a)
    ensures t in Do(ts, a) <==> (t in ts && a != Release(t)) || (a.Enter? && a.tid == t)
    ensures t in Do(ts, a) && Holds(Do(ts, a)[t], lock) <==>
            t in ts && a != Release(t) && (Holds(ts[t], lock) || (a == Acquire(t) && Wants(ts[t], lock)))
  {
    hide LocksOf;
    if t in ts && a == Acquire(t) {
      var locks, held := LocksOf(ts[t].section), ts[t].held;
      assert locks[..held + 1] == locks[..held] + [locks[held]];
    }
  }

  lemma DoExclusive(ts: Threads, a: Action)
    requires Exclusive(ts) && Can(ts, a)
    ensures Exclusive(Do(ts, a))
  {
    hide LocksOf;
    var ts' := Do(ts, a);
    forall t, u, lock | t in ts' && u in ts' && Holds(ts'[t], lock) && Holds(ts'[u], lock) ensures t == u {
      HoldsOneMore(ts, a, t, lock);
      HoldsOneMore(ts, a, u, lock);
    }
  }

  /** Only the lock just acquired, which was free, is newly held. */
  lemma HoldsOneMore(ts: Threads, a: Action, t: nat, lock: Lock)
    requires Can(ts, a) && t in Do(ts, a) && Holds(Do(ts, a)[t], lock)
    ensures (t in ts && Holds(ts[t], lock)) || (a == Acquire(t) && Free(ts, lock))
  {
    hide LocksOf;
    if a == Acquire(t) {
      var locks, held := LocksOf(ts[t].section), ts[t].held;
      assert locks[..held + 1] == locks[..held] + [locks[held]];
    }
  }

  lemma {:induction false} RunExclusive(ts: Threads, run: seq<Action>)
    requires Exclusive(ts) && Legal(ts, run)
    ensures Exclusive(After(ts, run))
    decreases |run|
  {
    hide Can, Do, Exclusive;
    if run != [] {
      DoExclusive(ts, run[0]);
      RunExclusive(Do(ts, run[0]), run[1..]);
    }
  }

  // ---- Once crossed, for ever ----

  lemma HeldLocks(t: Thread)
    ensures t == Thread(Sync, 2) ==> Holds(t, ChainLock) && Wants(t, PeersLock)
    ensures t == Thread(PushOrSave, 1) ==> Holds(t, PeersLock) && Wants(t, ChainLock)
  {
    assert LocksOf(Sync)[..2] == [ChainLock, SeenLock];
    assert LocksOf(PushOrSave)[..1] == [PeersLock];
  }

  lemma CrossedStays(ts: Threads, a: Action, t: nat, u: nat)
    requires Crossed(ts, t, u) && Can(ts, a)
    ensures Crossed(Do(ts, a), t, u)
  {
    hide Holds;
    HeldLocks(ts[t]);
    HeldLocks(ts[u]);
  }

  lemma {:induction false} CrossedForEver(ts: Threads, run: seq<Action>, t: nat, u: nat)
    requires Crossed(ts, t, u) && Legal(ts, run)
    ensures Crossed(After(ts, run), t, u)
    decreases |run|
  {
    hide Can, Do, Crossed;
    if run != [] {
      CrossedStays(ts, run[0], t, u);
      CrossedForEver(Do(ts, run[0]), run[1..], t, u);
    }
  }

  // ---- Otherwise someone can move ----

  lemma Moves(ts: Threads, tid: nat)
    requires tid in ts && ts[tid].held <= |LocksOf(ts[tid].section)|
    ensures CanMove(ts, tid) || exists lock :: Wants(ts[tid], lock) && !Free(ts, lock)
  {
    if ts[tid].held < |LocksOf(ts[tid].section)| {
      assert Wants(ts[tid], LocksOf(ts[tid].section)[ts[tid].held]);
    }
  }

  /** Who holds the seen-set and still waits holds the chain too. */
  lemma SeenHolder(t: Thread)
    requires Holds(t, SeenLock)
    ensures t.held == |LocksOf(t.section)| || (t == Thread(Sync, 2) && Holds(t, ChainLock))
  {
    assert LocksOf(Sync)[..1] == LocksOf(AddBlock)[..1] == [ChainLock];
    assert LocksOf(Sync)[..2] == [ChainLock, SeenLock];
  }

  lemma ChainHolder(t: Thread)
    requires Holds(t, ChainLock)
    ensures t.held == |LocksOf(t.section)| || t == Thread(Sync, 2) || Wants(t, SeenLock)
  {
  }

  lemma PeersHolder(t: Thread)
    requires Holds(t, PeersLock)
    ensures t.held == |LocksOf(t.section)| || (t == Thread(PushOrSave, 1) && Wants(t, ChainLock))
  {
  }

  /** A thread waiting for a lock whose holder waits in turn: somewhere along the line someone can move, unless two are crossed. */
  lemma SomeoneMoves(ts: Threads, tid: nat)
    requires Exclusive(ts) && tid in ts && !Deadlocked(ts)
    ensures exists t :: CanMove(ts, t)
  {
    hide LocksOf, Holds, Wants, Exclusive;
    InBounds(ts, tid);
    Moves(ts, tid);
    if !CanMove(ts, tid) {
      var lock :| Wants(ts[tid], lock) && !Free(ts, lock);
      var holder :| holder in ts && Holds(ts[holder], lock);
      match lock
      case SeenLock => SeenMoves(ts, holder);
      case ChainLock => ChainMoves(ts, holder);
      case PeersLock => PeersMoves(ts, holder);
    }
  }

  lemma InBounds(ts: Threads, tid: nat)
    requires Exclusive(ts) && tid in ts
    ensures ts[tid].held <= |LocksOf(ts[tid].section)|
  {
  }

  lemma PeersMoves(ts: Threads, x: nat)
    requires Exclusive(ts) && !Deadlocked(ts) && x in ts && Holds(ts[x], PeersLock)
    ensures exists t :: CanMove(ts, t)
  {
    hide LocksOf, Holds, Wants;
    PeersHolder(ts[x]);
    if ts[x].held == |LocksOf(ts[x].section)| {
      assert CanMove(ts, x);
    } else if Free(ts, ChainLock) {
      WantedFree(ts, x, ChainLock);
    } else {
      var y :| y in ts && Holds(ts[y], ChainLock);
      ChainHolder(ts[y]);
      NotCrossed(ts, y, x);
      ChainMoves(ts, y);
    }
  }

  lemma ChainMoves(ts: Threads, x: nat)
    requires Exclusive(ts) && !Deadlocked(ts) && x in ts && Holds(ts[x], ChainLock)
    ensures exists t :: CanMove(ts, t)
  {
    hide LocksOf, Holds, Wants;
    ChainHolder(ts[x]);
    if ts[x].held == |LocksOf(ts[x].section)| {
      assert CanMove(ts, x);
    } else if ts[x] == Thread(Sync, 2) {
      SyncMoves(ts, x);
    } else if Free(ts, SeenLock) {
      WantedFree(ts, x, SeenLock);
    } else {
      var y :| y in ts && Holds(ts[y], SeenLock);
      SeenHolder(ts[y]);
      if ts[y].held == |LocksOf(ts[y].section)| {
        assert CanMove(ts, y);
      }
    }
  }

  lemma SeenMoves(ts: Threads, x: nat)
    requires Exclusive(ts) && !Deadlocked(ts) && x in ts && Holds(ts[x], SeenLock)
    ensures exists t :: CanMove(ts, t)
  {
    hide LocksOf, Holds, Wants;
    SeenHolder(ts[x]);
    if ts[x].held == |LocksOf(ts[x].section)| {
      assert CanMove(ts, x);
    } else {
      SyncMoves(ts, x);
    }
  }

  /** An adoption that has chain and seen-set waits only for someone who is done with the peer table. */
  lemma SyncMoves(ts: Threads, x: nat)
    requires Exclusive(ts) && !Deadlocked(ts) && x in ts && ts[x] == Thread(Sync, 2)
    ensures exists t :: CanMove(ts, t)
  {
    hide LocksOf, Holds, Wants;
    HeldLocks(ts[x]);
    if Free(ts, PeersLock) {
      WantedFree(ts, x, PeersLock);
    } else {
      var y :| y in ts && Holds(ts[y], PeersLock);
      PeersHolder(ts[y]);
      NotCrossed(ts, x, y);
      assert CanMove(ts, y);
    }
  }

  lemma NotCrossed(ts: Threads, t: nat, u: nat)
    requires !Deadlocked(ts)
    ensures !Crossed(ts, t, u)
  {
  }

  lemma WantedFree(ts: Threads, x: nat, lock: Lock)
    requires x in ts && Wants(ts[x], lock) && Free(ts, lock)
    ensures CanMove(ts, x)
  {
  }

  /**
   * Where handlers can block each other for good. In every reachable state someone inside a lock section
   * can move, unless a chain adoption and a push hold what the other waits for; and such a pair never
   * gets free again, whatever other threads do.
   */
  lemma DeadlockIsCrossing(run: seq<Action>)
    requires Legal(map[], run)
    ensures var ts := After(map[], run);
            && (!Deadlocked(ts) && ts != map[] ==> exists t :: CanMove(ts, t))
            && (forall t, u, more: seq<Action> :: Crossed(ts, t, u) && Legal(ts, more) ==> Crossed(After(ts, more), t, u))
  {
    hide Can, Do, Crossed, CanMove, Legal, After;
    RunExclusive(map[], run);
    var ts := After(map[], run);
    if !Deadlocked(ts) && ts != map[] {
      var tid :| tid in ts;
      SomeoneMoves(ts, tid);
    }
    forall t, u, more: seq<Action> | Crossed(ts, t, u) && Legal(ts, more) ensures Crossed(After(ts, more), t, u) {
      CrossedForEver(ts, more, t, u);
    }
  }

  lemma {:induction false} OneMore(ts: Threads, run: seq<Action>, a: Action)
    requires Legal(ts, run) && Can(After(ts, run), a)
    ensures Legal(ts, run + [a]) && After(ts, run + [a]) == Do(After(ts, run), a)
    decreases |run|
  {
    hide Can, Do;
    if run == [] {
      assert (run + [a])[1..] == [];
    } else {
      OneMore(Do(ts, run[0]), run[1..], a);
      assert (run + [a])[1..] == run[1..] + [a];
    }
  }

  lemma TwoThreadsCan()
    ensures var ts := map[0 := Thread(Sync, 0), 1 := Thread(PushOrSave, 0)];
            Can(ts, Acquire(0)) && Do(ts, Acquire(0)) == map[0 := Thread(Sync, 1), 1 := Thread(PushOrSave, 0)]
    ensures var ts := map[0 := Thread(Sync, 1), 1 := Thread(PushOrSave, 0)];
            Can(ts, Acquire(0)) && Do(ts, Acquire(0)) == map[0 := Thread(Sync, 2), 1 := Thread(PushOrSave, 0)]
    ensures var ts := map[0 := Thread(Sync, 2), 1 := Thread(PushOrSave, 0)];
            Can(ts, Acquire(1)) && Do(ts, Acquire(1)) == map[0 := Thread(Sync, 2), 1 := Thread(PushOrSave, 1)]
  {
    assert LocksOf(Sync)[..1] == [ChainLock] && LocksOf(Sync)[..2] == [ChainLock, SeenLock];
  }

  /** Such a pair is reachable: an adoption and a push that start at the same time. */
  lemma CrossingIsReachable() returns (run: seq<Action>)
    ensures Legal(map[], run) && Deadlocked(After(map[], run))
  {
    hide Legal, After, LocksOf;
    run := [];
    assert Legal(map[], run) && After(map[], run) == map[] by {
      Nothing();
    }
    OneMore(map[], run, Enter(0, Sync));
    run := run + [Enter(0, Sync)];
    OneMore(map[], run, Enter(1, PushOrSave));
    run := run + [Enter(1, PushOrSave)];
    assert After(map[], run) == map[0 := Thread(Sync, 0), 1 := Thread(PushOrSave, 0)];
    hide Can, Do;
    TwoThreadsCan();
    OneMore(map[], run, Acquire(0));
    run := run + [Acquire(0)];
    OneMore(map[], run, Acquire(0));
    run := run + [Acquire(0)];
    OneMore(map[], run, Acquire(1));
    run := run + [Acquire(1)];
    assert Crossed(After(map[], run), 0, 1);
  }

  lemma Nothing()
    ensures Legal(map[], []) && After(map[], []) == map[]
  {
  }
}
