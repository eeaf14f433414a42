/**
 * The guard of module Tallying is exact: once a step crosses a pending cache write, some order of the
 * writes then pending leaves the node settled with a cache that is not its chain's.
 */
module Crossings {
  import opened Blocks
  import opened Chains
  import opened Replicas
  import opened Network
  import opened Safety
  import opened Tallying
  import opened Handlers

  /** A run that only lets handlers already under way go on: votes recorded, waiting threads advanced. */
  predicate OnlyWrites(run: seq<Action>) {
    forall i :: 0 <= i < |run| ==> run[i].Record? || run[i].Advance?
  }

  /** Every node without a pending write tallies exactly its chain. */
  ghost predicate SettledRight(net: Net) {
    forall p :: p in net.nodes && !WritePending(net.nodes[p]) ==> Tallies(net.nodes[p].replica.cache, net.nodes[p].replica.chain)
  }

  /** However the writes pending in this state are ordered, they settle right. */
  ghost predicate WritesSettleRight(rules: Rules, net: Net) {
    forall tail :: Legal(rules, net, tail) && OnlyWrites(tail) ==> SettledRight(After(rules, net, tail))
  }

  /** The same of every state the run passes through. */
  ghost predicate SettlesRight(rules: Rules, net: Net, run: seq<Action>)
    requires Legal(rules, net, run)
    decreases |run|
  {
    && WritesSettleRight(rules, net)
    && (run != [] ==> SettlesRight(rules, Next(rules, net, run[0]), run[1..]))
  }

  // ---- A chain has one cache ----

  lemma OneCache(a: Cache, b: Cache, chain: seq<Block>)
    requires Tallies(a, chain) && Tallies(b, chain)
    ensures a == b
  {
    hide TallySum, Counting;
    forall c: string ensures c in a.tally <==> c in b.tally {
      assert TalliesFor(a, chain, c) && TalliesFor(b, chain, c);
    }
    forall c | c in a.tally ensures a.tally[c] == b.tally[c] {
      assert TalliesFor(a, chain, c) && TalliesFor(b, chain, c);
    }
    assert a.tally == b.tally;
  }

  lemma NotTheChains(cache: Cache, chain: seq<Block>)
    requires cache != Rebuild(chain)
    ensures !Tallies(cache, chain)
  {
    hide Tallies, Rebuild;
    RebuildTallies(chain);
    if Tallies(cache, chain) {
      OneCache(cache, Rebuild(chain), chain);
    }
  }

  // ---- Choosing the order of the pending writes ----

  function Waiting(n: Node): set<nat> {
    set tid | tid in n.threads && n.threads[tid].Caching?
  }

  /** Node p of `now` has this chain and cache, this miner, and no rebuilt cache left to write. */
  ghost predicate Flushed(now: Net, p: Peer, chain: seq<Block>, cache: Cache, miner: Miner) {
    && p in now.nodes
    && now.nodes[p].replica.chain == chain && now.nodes[p].replica.cache == cache
    && now.nodes[p].miner == miner && forall tid :: !CachingAt(now.nodes[p], tid)
  }

  lemma WriteOne(rules: Rules, net: Net, p: Peer, tid: nat)
    requires p in net.nodes && CachingAt(net.nodes[p], tid)
    ensures Enabled(rules, net, Advance(p, tid))
    ensures var n, now := net.nodes[p], Next(rules, net, Advance(p, tid));
            && p in now.nodes
            && now.nodes[p].replica == n.replica.(cache := n.threads[tid].cache)
            && now.nodes[p].miner == n.miner
            && Waiting(now.nodes[p]) == Waiting(n) - {tid}
            && forall other :: CachingAt(n, other) && other != tid ==> CachingAt(now.nodes[p], other) && now.nodes[p].threads[other] == n.threads[other]
  {
  }

  /** The rebuilt caches can be written so that a chosen one comes last. */
  lemma {:induction false} FlushTo(rules: Rules, net: Net, p: Peer, last: nat) returns (tail: seq<Action>)
    requires p in net.nodes && CachingAt(net.nodes[p], last)
    ensures OnlyWrites(tail) && Legal(rules, net, tail)
    ensures var n := net.nodes[p];
            Flushed(After(rules, net, tail), p, n.replica.chain, n.threads[last].cache, n.miner)
    decreases |Waiting(net.nodes[p])|
  {
    hide Enabled, Next, Legal, After;
    var n := net.nodes[p];
    assert last in Waiting(n);
    if tid :| tid in Waiting(n) && tid != last {
      WriteOne(rules, net, p, tid);
      var rest := FlushTo(rules, Next(rules, net, Advance(p, tid)), p, last);
      LegalCons(rules, net, Advance(p, tid), rest);
      tail := [Advance(p, tid)] + rest;
    } else {
      WriteOne(rules, net, p, last);
      var now := Next(rules, net, Advance(p, last));
      assert Waiting(now.nodes[p]) == {};
      assert forall tid :: CachingAt(now.nodes[p], tid) ==> tid in Waiting(now.nodes[p]);
      NoSteps(rules, now);
      LegalCons(rules, net, Advance(p, last), []);
      tail := [Advance(p, last)] + [];
    }
  }

  lemma NoSteps(rules: Rules, net: Net)
    ensures Legal(rules, net, []) && After(rules, net, []) == net
  {
  }

  lemma RecordOne(rules: Rules, net: Net, p: Peer)
    requires p in net.nodes && net.nodes[p].miner.Recording?
    ensures Enabled(rules, net, Record(p))
    ensures var n, now := net.nodes[p], Next(rules, net, Record(p));
            && p in now.nodes
            && now.nodes[p].replica == n.replica.(cache := Recorded(n))
            && now.nodes[p].miner == Announcing && now.nodes[p].threads == n.threads
  {
    hide RecordVote;
  }

  lemma NothingPending(n: Node)
    requires !n.miner.Recording? && forall tid :: !CachingAt(n, tid)
    ensures !WritePending(n)
  {
    assert forall tid :: tid in n.threads && n.threads[tid].Caching? ==> CachingAt(n, tid);
  }

  /** A chosen rebuilt cache can be the last write of all. */
  lemma SettleWith(rules: Rules, net: Net, p: Peer, last: nat) returns (tail: seq<Action>)
    requires p in net.nodes && CachingAt(net.nodes[p], last)
    ensures OnlyWrites(tail) && Legal(rules, net, tail)
    ensures var n, now := net.nodes[p], After(rules, net, tail);
            && p in now.nodes && !WritePending(now.nodes[p])
            && now.nodes[p].replica.chain == n.replica.chain && now.nodes[p].replica.cache == n.threads[last].cache
  {
    hide Enabled, Next, Legal, After, Recorded;
    if net.nodes[p].miner.Recording? {
      RecordOne(rules, net, p);
      var rest := FlushTo(rules, Next(rules, net, Record(p)), p, last);
      LegalCons(rules, net, Record(p), rest);
      tail := [Record(p)] + rest;
    } else {
      tail := FlushTo(rules, net, p, last);
    }
    NothingPending(After(rules, net, tail).nodes[p]);
  }

  /** So can the vote that waits to be recorded. */
  lemma SettleWithVote(rules: Rules, net: Net, p: Peer, tid: nat) returns (tail: seq<Action>)
    requires p in net.nodes && CachingAt(net.nodes[p], tid) && net.nodes[p].miner.Recording?
    ensures OnlyWrites(tail) && Legal(rules, net, tail)
    ensures var n, now := net.nodes[p], After(rules, net, tail);
            && p in now.nodes && !WritePending(now.nodes[p])
            && now.nodes[p].replica.chain == n.replica.chain && n.miner.keyImage in now.nodes[p].replica.cache.counted
  {
    hide Enabled, Next, Legal, After;
    var flush := FlushTo(rules, net, p, tid);
    var net1 := After(rules, net, flush);
    RecordOne(rules, net1, p);
    var now := Next(rules, net1, Record(p));
    NoSteps(rules, now);
    LegalCons(rules, net1, Record(p), []);
    LegalConcat(rules, net, flush, [Record(p)] + []);
    assert forall t :: CachingAt(now.nodes[p], t) <==> CachingAt(net1.nodes[p], t);
    NothingPending(now.nodes[p]);
    tail := flush + ([Record(p)] + []);
  }

  // ---- Every crossing can go wrong ----

  /** Some order of the pending writes leaves the node at p settled and wrong. */
  ghost predicate SettlesWrong(rules: Rules, net: Net, p: Peer, tail: seq<Action>) {
    && OnlyWrites(tail) && Legal(rules, net, tail)
    && var now := After(rules, net, tail);
       && p in now.nodes && !WritePending(now.nodes[p])
       && !Tallies(now.nodes[p].replica.cache, now.nodes[p].replica.chain)
  }

  lemma MineCrossed(rules: Rules, net: Net, a: Action) returns (tail: seq<Action>)
    requires NetOk(rules, net) && CachesOk(net) && Enabled(rules, net, a)
    requires a.Mine? && MineCrosses(rules, net.nodes[a.at], a.timestamp, a.nonce)
    ensures SettlesWrong(rules, Next(rules, net, a), a.at, tail)
  {
    hide ChainOk, TasksOk, SnapshotOk, HistoryOk, Rebuild, RecordVote, ValidateAddition, Mined, Tallies, Legal, After, WritePending, KeyImages;
    var n, net1 := net.nodes[a.at], Next(rules, net, a);
    var b := Mined(rules, n.miner, a.timestamp, a.nonce);
    var last :| CachingAt(n, last);
    assert CacheOk(n) && NodeOk(rules, n);
    assert net1.nodes[a.at].threads == n.threads && net1.nodes[a.at].replica.chain == n.replica.chain + [b];
    tail := SettleWith(rules, net1, a.at, last);
    ImageIsNew(rules, n, b);
    KeyImagesAppend(n.replica.chain, b);
    RebuildCounts(n.replica.chain);
    RebuildCounts(n.replica.chain + [b]);
    NotTheChains(Rebuild(n.replica.chain), n.replica.chain + [b]);
  }

  lemma ImageIsNew(rules: Rules, n: Node, b: Block)
    requires ValidateAddition(rules, n.replica.seen, n.replica.chain, b) == AddBlock
    ensures b.keyImage !in n.replica.seen
  {
  }

  lemma RebuildCounts(chain: seq<Block>)
    ensures Rebuild(chain).counted == KeyImages(chain)
  {
    hide TallySum, TalliesFor, KeyImages;
    RebuildTallies(chain);
  }

  lemma DeliverCrossed(rules: Rules, net: Net, a: Action) returns (tail: seq<Action>)
    requires Enabled(rules, net, a)
    requires a.Deliver? && DeliverCrosses(rules, net.nodes[a.push.to], a.push.chain)
    ensures SettlesWrong(rules, Next(rules, net, a), a.push.to, tail)
  {
    hide Rebuild, RecordVote, Tallies, Legal, After, WritePending, KeyImages, TailOk, RankOf;
    var p, chain := a.push.to, a.push.chain;
    var n, net1 := net.nodes[p], Next(rules, net, a);
    var n' := net1.nodes[p];
    assert n' == DeliverAt(rules, n, a.push, a.tid);
    assert CachingAt(n', a.tid) && n'.replica.chain == chain && n'.miner == n.miner;
    if n.miner.Recording? && n.miner.keyImage !in KeyImages(chain) {
      tail := SettleWithVote(rules, net1, p, a.tid);
      RebuildCounts(chain);
      NotTheChains(After(rules, net1, tail).nodes[p].replica.cache, chain);
    } else {
      var last :| CachingAt(n, last) && n.threads[last].cache != Rebuild(chain);
      assert CachingAt(n', last) && n'.threads[last] == n.threads[last];
      tail := SettleWith(rules, net1, p, last);
      NotTheChains(n.threads[last].cache, chain);
    }
  }

  /**
   * From a network whose caches are in step, a step crosses a pending write exactly when some order of
   * the writes then pending settles wrong.
   */
  lemma CrossingIsExact(rules: Rules, net: Net, a: Action)
    requires NetOk(rules, net) && CachesOk(net) && Enabled(rules, net, a)
    ensures Orderly(rules, net, a) <==> WritesSettleRight(rules, Next(rules, net, a))
  {
    hide NetOk, CachesOk, Enabled, Next, Legal, After, WritePending, Tallies, MineCrosses, DeliverCrosses;
    if Orderly(rules, net, a) {
      CachesStep(rules, net, a);
      InStepSettles(rules, Next(rules, net, a));
    } else {
      hide *;
      WrongOrder(rules, net, a);
    }
  }

  lemma WrongOrder(rules: Rules, net: Net, a: Action)
    requires NetOk(rules, net) && CachesOk(net) && Enabled(rules, net, a) && !Orderly(rules, net, a)
    ensures !WritesSettleRight(rules, Next(rules, net, a))
  {
    hide NetOk, CachesOk, Enabled, Next, Legal, After, WritePending, Tallies, MineCrosses, DeliverCrosses;
    var tail;
    var p;
    if a.Mine? {
      tail := MineCrossed(rules, net, a);
      p := a.at;
    } else {
      tail := DeliverCrossed(rules, net, a);
      p := a.push.to;
    }
    assert Legal(rules, Next(rules, net, a), tail) && OnlyWrites(tail);
    assert !SettledRight(After(rules, Next(rules, net, a), tail));
  }

  /** Writes alone never cross one another. */
  lemma {:induction false} WritesAreOrderly(rules: Rules, net: Net, tail: seq<Action>)
    requires Legal(rules, net, tail) && OnlyWrites(tail)
    ensures OrderlyRun(rules, net, tail)
    decreases |tail|
  {
    hide Enabled, Next;
    if tail != [] {
      assert tail[0].Record? || tail[0].Advance?;
      WritesAreOrderly(rules, Next(rules, net, tail[0]), tail[1..]);
    }
  }

  lemma InStepSettles(rules: Rules, net: Net)
    requires CachesOk(net)
    ensures WritesSettleRight(rules, net)
  {
    hide CacheOk, Legal, After, WritePending, Tallies, OnlyWrites, OrderlyRun;
    forall tail | Legal(rules, net, tail) && OnlyWrites(tail) ensures SettledRight(After(rules, net, tail)) {
      WritesAreOrderly(rules, net, tail);
      CachesRun(rules, net, tail);
      var now := After(rules, net, tail);
      forall p | p in now.nodes && !WritePending(now.nodes[p]) ensures Tallies(now.nodes[p].replica.cache, now.nodes[p].replica.chain) {
        SettledTallies(now.nodes[p]);
      }
    }
  }

  lemma {:induction false} OrderlyRunIsExact(rules: Rules, net: Net, run: seq<Action>)
    requires NetOk(rules, net) && CachesOk(net) && Legal(rules, net, run)
    ensures OrderlyRun(rules, net, run) <==> SettlesRight(rules, net, run)
    decreases |run|
  {
    hide NetOk, CachesOk, Enabled, Next, Orderly, WritesSettleRight;
    InStepSettles(rules, net);
    if run != [] {
      var net1 := Next(rules, net, run[0]);
      NextKeeps(rules, net, run[0]);
      CrossingIsExact(rules, net, run[0]);
      if Orderly(rules, net, run[0]) {
        CachesStep(rules, net, run[0]);
        OrderlyRunIsExact(rules, net1, run[1..]);
      }
    }
  }

  /**
   * The tally's promise, exactly. Every state a run passes through settles right, in whatever order its
   * pending cache writes happen, if and only if no step of the run changes a chain under a pending write
   * that disagrees with the new chain.
   */
  lemma TalliesSettleRight(rules: Rules, net: Net, run: seq<Action>)
    requires Initial(net) && Legal(rules, net, run)
    ensures SettlesRight(rules, net, run) <==> OrderlyRun(rules, net, run)
  {
    hide NetOk, CachesOk, Initial, SettlesRight, OrderlyRun, Legal;
    InitialOk(rules, net);
    InitialCaches(net);
    OrderlyRunIsExact(rules, net, run);
  }
}
