/**
 * The vote cache against the chain. The cache is written after the chain's locks are released, so
 * writes of several changes can be pending at once and happen in any order.
 */
module Tallying {
  import opened Bytes
  import opened Wrappers
  import opened Blocks
  import opened Chains
  import opened Replicas
  import opened Network
  import opened Safety

  /** A cache write that belongs to the latest change of the chain has not happened yet. */
  predicate WritePending(n: Node) {
    n.miner.Recording? || exists tid :: tid in n.threads && n.threads[tid].Caching?
  }

  predicate CachingAt(n: Node, tid: nat) {
    tid in n.threads && n.threads[tid].Caching?
  }

  /** The cache once the miner's own pending vote, if any, is recorded in it. */
  function Recorded(n: Node): Cache {
    if n.miner.Recording? then RecordVote(n.replica.cache, n.miner.keyImage, n.miner.candidate) else n.replica.cache
  }

  /**
   * However the pending writes are ordered, the last one leaves the cache of this chain: every
   * rebuilt cache is of this chain, and a vote waiting to be recorded is on it.
   */
  ghost predicate CacheOk(n: Node) {
    var r := n.replica;
    && (forall tid :: CachingAt(n, tid) ==> n.threads[tid].cache == Rebuild(r.chain))
    && (n.miner.Recording? ==> n.miner.keyImage in KeyImages(r.chain))
    && ((forall tid :: !CachingAt(n, tid)) ==> Recorded(n) == Rebuild(r.chain))
  }

  /** Adding a block while the cache of an adopted chain waits to be written. */
  ghost predicate MineCrosses(rules: Rules, n: Node, timestamp: nat, nonce: nat)
    requires n.miner.Working? && Solves(rules, WorkHeader(n.miner, timestamp), nonce)
  {
    && ValidateAddition(rules, n.replica.seen, n.replica.chain, Mined(rules, n.miner, timestamp, nonce)) == AddBlock
    && exists tid :: CachingAt(n, tid)
  }

  /** Adopting a chain that lacks a vote waiting to be recorded, or whose cache differs from one waiting to be written. */
  ghost predicate DeliverCrosses(rules: Rules, n: Node, chain: seq<Block>) {
    && Adoptable(rules, chain, n.replica.chain)
    && (|| (n.miner.Recording? && n.miner.keyImage !in KeyImages(chain))
        || exists tid :: CachingAt(n, tid) && n.threads[tid].cache != Rebuild(chain))
  }

  /** The step does not change a chain under a pending write that disagrees with the new one. */
  ghost predicate Orderly(rules: Rules, net: Net, a: Action)
    requires Enabled(rules, net, a)
  {
    match a
    case Mine(p, t, nonce) => !MineCrosses(rules, net.nodes[p], t, nonce)
    case Deliver(m, _) => !DeliverCrosses(rules, net.nodes[m.to], m.chain)
    case _ => true
  }

  ghost predicate OrderlyRun(rules: Rules, net: Net, run: seq<Action>)
    requires Legal(rules, net, run)
    decreases |run|
  {
    run != [] ==> Orderly(rules, net, run[0]) && OrderlyRun(rules, Next(rules, net, run[0]), run[1..])
  }

  ghost predicate CachesOk(net: Net) {
    forall p :: p in net.nodes ==> CacheOk(net.nodes[p])
  }

  lemma RebuildAppend(chain: seq<Block>, b: Block)
    ensures Rebuild(chain + [b]) == RecordVote(Rebuild(chain), b.keyImage, b.data)
  {
    assert (chain + [b])[..|chain|] == chain;
  }

  /** Recording a vote that a rebuilt cache already counts changes nothing. */
  lemma RecordedAlready(chain: seq<Block>, keyImage: bytes, candidate: string)
    requires keyImage in KeyImages(chain)
    ensures RecordVote(Rebuild(chain), keyImage, candidate) == Rebuild(chain)
  {
    hide TallySum;
    RebuildTallies(chain);
  }

  lemma MineCache(rules: Rules, n: Node, timestamp: nat, nonce: nat)
    requires CacheOk(n) && n.miner.Working? && Solves(rules, WorkHeader(n.miner, timestamp), nonce)
    requires !MineCrosses(rules, n, timestamp, nonce)
    ensures CacheOk(MineAt(rules, n, timestamp, nonce))
  {
    hide ValidateAddition, Mined, Rebuild, RecordVote, KeyImages;
    var n' := MineAt(rules, n, timestamp, nonce);
    assert forall tid :: CachingAt(n', tid) <==> CachingAt(n, tid);
    if n'.miner.Recording? {
      var b := Mined(rules, n.miner, timestamp, nonce);
      RebuildAppend(n.replica.chain, b);
      KeyImagesAppend(n.replica.chain, b);
    }
  }

  lemma DeliverCache(rules: Rules, n: Node, m: Push, tid: nat)
    requires CacheOk(n) && tid !in n.threads && !DeliverCrosses(rules, n, m.chain)
    ensures CacheOk(DeliverAt(rules, n, m, tid))
  {
    hide Rebuild, RecordVote, TailOk, RankOf, KeyImages;
    var n' := DeliverAt(rules, n, m, tid);
    if Adoptable(rules, m.chain, n.replica.chain) {
      assert CachingAt(n', tid);
      assert forall other :: other != tid ==> (CachingAt(n', other) <==> CachingAt(n, other));
    }
  }

  lemma AdvanceCache(rules: Rules, n: Node, tid: nat)
    requires CacheOk(n) && tid in n.threads
    ensures CacheOk(AdvanceAt(rules, n, tid))
  {
    hide Rebuild, RecordVote, AddTask, Matching, UpdateChainHashAll, KeyImages;
    var n' := AdvanceAt(rules, n, tid);
    assert n'.replica.chain == n.replica.chain && n'.miner == n.miner;
    assert forall other :: CachingAt(n', other) <==> CachingAt(n, other) && other != tid;
    if n.miner.Recording? {
      RecordedAlready(n.replica.chain, n.miner.keyImage, n.miner.candidate);
    }
    if CachingAt(n, tid) {
      assert n'.replica.cache == Rebuild(n.replica.chain);
    }
  }

  lemma OtherCache(rules: Rules, n: Node, a: Action)
    requires CacheOk(n) && Actor(a).Some? && CanStep(rules, n, a)
    requires !a.Mine? && !a.Deliver? && !a.Advance?
    ensures CacheOk(StepAt(rules, n, a))
  {
    hide Rebuild, RecordVote, TaskValid, KeyImages;
    var n' := StepAt(rules, n, a);
    assert forall tid :: CachingAt(n', tid) <==> CachingAt(n, tid);
  }

  lemma CachesStep(rules: Rules, net: Net, a: Action)
    requires CachesOk(net) && Enabled(rules, net, a) && Orderly(rules, net, a)
    ensures CachesOk(Next(rules, net, a))
  {
    hide CacheOk, MineCrosses, DeliverCrosses, MineAt, DeliverAt, AdvanceAt, SubmitAt, TakeAt, CheckSeenAt, SnapshotAt, RecordAt, RequeueAt;
    if Actor(a).Some? {
      var n := net.nodes[Actor(a).value];
      match a
      case Mine(_, t, nonce) => MineCache(rules, n, t, nonce);
      case Deliver(m, tid) => DeliverCache(rules, n, m, tid);
      case Advance(_, tid) => AdvanceCache(rules, n, tid);
      case _ => OtherCache(rules, n, a);
    }
  }

  lemma {:induction false} CachesRun(rules: Rules, net: Net, run: seq<Action>)
    requires CachesOk(net) && Legal(rules, net, run) && OrderlyRun(rules, net, run)
    ensures CachesOk(After(rules, net, run))
    decreases |run|
  {
    hide CachesOk, Orderly, Next, Enabled;
    if run != [] {
      CachesStep(rules, net, run[0]);
      CachesRun(rules, Next(rules, net, run[0]), run[1..]);
    }
  }

  lemma InitialCaches(net: Net)
    requires Initial(net)
    ensures CachesOk(net)
  {
    assert Rebuild([]) == EMPTY_CACHE;
  }

  /** A node whose cache is in step and has no write pending tallies exactly its chain. */
  lemma SettledTallies(n: Node)
    requires CacheOk(n) && !WritePending(n)
    ensures Tallies(n.replica.cache, n.replica.chain)
  {
    hide Tallies, Rebuild;
    assert forall tid :: !CachingAt(n, tid);
    RebuildTallies(n.replica.chain);
  }

  /**
   * The tally refines the chain. Whenever no cache write is pending at a node, its count for each
   * candidate is the number of blocks on its chain naming that candidate, the counts add up to the
   * total, and the total is the chain's length.
   */
  lemma TallyRefinesChain(rules: Rules, net: Net, run: seq<Action>, p: Peer)
    requires Initial(net) && Legal(rules, net, run) && OrderlyRun(rules, net, run)
    requires p in After(rules, net, run).nodes && !WritePending(After(rules, net, run).nodes[p])
    ensures var r := After(rules, net, run).nodes[p].replica;
            && (forall c: string :: Votes(r.cache.tally, c) == |set i: nat | i < |r.chain| && r.chain[i].data == c|)
            && TallySum(r.cache.tally) == |r.cache.counted| == |r.chain|
  {
    hide TallySum, NodeOk, ChainOk, CacheOk, Tallies;
    InitialOk(rules, net);
    InitialCaches(net);
    RunKeeps(rules, net, run);
    CachesRun(rules, net, run);
    var n := After(rules, net, run).nodes[p];
    OwnChainOk(rules, n);
    OkIsDistinct(rules, n.replica.chain);
    SettledTallies(n);
    DistinctAllCount(n.replica.cache, n.replica.chain);
  }

  lemma OkIsDistinct(rules: Rules, chain: seq<Block>)
    requires ChainOk(rules, chain)
    ensures DistinctImages(chain)
  {
  }
}
