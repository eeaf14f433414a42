/**
 * Which runs end in one chain. A network that has fallen quiet holds a single chain exactly when the
 * blocks mined along the way had a single best one; blocks below the best do not matter.
 */
module Forks {
  import opened Wrappers
  import opened Blocks
  import opened Chains
  import opened Replicas
  import opened Network
  import opened Safety
  import opened Convergence
  import opened Termination

  /** The block this step puts on its node's chain, if it does. */
  ghost function AddedBy(rules: Rules, net: Net, a: Action): set<Block>
    requires Enabled(rules, net, a)
  {
    if AddsBlock(rules, net, a) then {Mined(rules, net.nodes[a.at].miner, a.timestamp, a.nonce)} else {}
  }

  /** Every block the run's mining steps put on a chain. */
  ghost function Added(rules: Rules, net: Net, run: seq<Action>): set<Block>
    requires Legal(rules, net, run)
    decreases |run|
  {
    if run == [] then {} else AddedBy(rules, net, run[0]) + Added(rules, Next(rules, net, run[0]), run[1..])
  }

  /** The rank of a chain with this block at its tip. */
  function BlockRank(b: Block): Rank {
    Rank(b.idx + 1, b.timestamp)
  }

  /** The added blocks that no added block outranks. */
  ghost function Best(added: set<Block>): set<Block> {
    set b | b in added && forall c :: c in added ==> AtMost(BlockRank(c), BlockRank(b))
  }

  ghost predicate OneBest(added: set<Block>) {
    forall b, c :: b in Best(added) && c in Best(added) ==> b == c
  }

  ghost predicate OneChain(net: Net) {
    forall p, q :: p in net.nodes && q in net.nodes ==> net.nodes[p].replica.chain == net.nodes[q].replica.chain
  }

  // ---- What relates chains to the blocks added so far ----

  /** The chain is empty or ends in one of these blocks. */
  predicate EndsIn(chain: seq<Block>, blocks: set<Block>) {
    chain != [] ==> chain[|chain| - 1] in blocks
  }

  predicate EndsAt(chain: seq<Block>, b: Block) {
    chain != [] && chain[|chain| - 1] == b
  }

  /** The node at p still has this block at its tip, or has moved on to something better. */
  ghost predicate Keeps(net: Net, p: Peer, b: Block) {
    p in net.nodes && (EndsAt(net.nodes[p].replica.chain, b) || Below(BlockRank(b), Rk(net, p)))
  }

  ghost predicate Kept(net: Net, b: Block) {
    exists p :: Keeps(net, p, b)
  }

  ghost predicate Traced(net: Net, added: set<Block>) {
    && (forall p :: p in net.nodes ==> EndsIn(net.nodes[p].replica.chain, added))
    && (forall m :: m in net.inflight ==> EndsIn(m.chain, added))
    && (forall b :: b in added ==> Kept(net, b))
  }

  /** What a step does to its node's chain: nothing, adopt the delivered one, or add the block just mined. */
  lemma ChainStep(rules: Rules, net: Net, a: Action)
    requires NetOk(rules, net) && Enabled(rules, net, a) && Actor(a).Some?
    ensures var n, n' := net.nodes[Actor(a).value], Next(rules, net, a).nodes[Actor(a).value];
            if AddsBlock(rules, net, a) then
              var b := Mined(rules, n.miner, a.timestamp, a.nonce);
              && n'.replica.chain == n.replica.chain + [b]
              && Below(RankOf(n.replica.chain), RankOf(n'.replica.chain))
            else
              || n'.replica.chain == n.replica.chain
              || (a.Deliver? && n'.replica.chain == a.push.chain && Below(RankOf(n.replica.chain), RankOf(a.push.chain)))
  {
    hide ChainOk, ValidateAddition, Mined, TaskValid, RecordVote, TailOk, TasksOk, SnapshotOk, HistoryOk, RankOf;
    if a.Mine? {
      MineOutcome(rules, net.nodes[a.at], a.timestamp, a.nonce);
    }
  }

  /** Only the pushes of the node's own chain are new in flight. */
  lemma SentChains(n: Node, a: Action, m: Push)
    requires m in SentBy(n, a)
    ensures m.chain == n.replica.chain
  {
  }

  lemma KeptStep(rules: Rules, net: Net, a: Action, b: Block)
    requires NetOk(rules, net) && Enabled(rules, net, a) && Kept(net, b)
    ensures Kept(Next(rules, net, a), b)
  {
    hide NodeOk, ChainOk, CanStep, StepAt, AddsBlock, Mined, SentBy;
    var p :| Keeps(net, p, b);
    var net' := Next(rules, net, a);
    if Actor(a) == Some(p) {
      ChainStep(rules, net, a);
      if EndsAt(net.nodes[p].replica.chain, b) {
        TipRank(rules, net, p);
      }
    }
    assert Keeps(net', p, b);
  }

  /** A held chain has the rank of its tip. */
  lemma TipRank(rules: Rules, net: Net, p: Peer)
    requires NetOk(rules, net) && p in net.nodes && net.nodes[p].replica.chain != []
    ensures var chain := net.nodes[p].replica.chain; BlockRank(chain[|chain| - 1]) == Rk(net, p)
  {
    hide BlockValid, Linked, DistinctImages, TasksOk, SnapshotOk, HistoryOk;
    assert NodeOk(rules, net.nodes[p]);
  }

  lemma TracedStep(rules: Rules, net: Net, added: set<Block>, a: Action)
    requires NetOk(rules, net) && Enabled(rules, net, a) && Traced(net, added)
    ensures Traced(Next(rules, net, a), added + AddedBy(rules, net, a))
  {
    hide NodeOk, ChainOk, CanStep, StepAt, Mined, SentBy, Kept, RankOf;
    var net', all := Next(rules, net, a), added + AddedBy(rules, net, a);
    if Actor(a).Some? {
      ChainStep(rules, net, a);
    }
    forall m | m in net'.inflight ensures EndsIn(m.chain, all) {
      if m !in net.inflight {
        SentChains(net.nodes[Actor(a).value], a, m);
      }
    }
    forall b | b in all ensures Kept(net', b) {
      if b in added {
        KeptStep(rules, net, a, b);
      } else {
        NewIsKept(rules, net, a, b);
      }
    }
  }

  lemma NewIsKept(rules: Rules, net: Net, a: Action, b: Block)
    requires NetOk(rules, net) && Enabled(rules, net, a) && b in AddedBy(rules, net, a)
    ensures Kept(Next(rules, net, a), b)
  {
    hide NetOk, CanStep, StepAt, Mined, SentBy, RankOf;
    ChainStep(rules, net, a);
    assert Keeps(Next(rules, net, a), a.at, b);
  }

  lemma {:induction false} TracedRun(rules: Rules, net: Net, added: set<Block>, run: seq<Action>)
    requires NetOk(rules, net) && Legal(rules, net, run) && Traced(net, added)
    ensures Traced(After(rules, net, run), added + Added(rules, net, run))
    decreases |run|
  {
    hide NetOk, Enabled, Next, Traced, AddedBy;
    if run == [] {
      assert added + {} == added;
    } else {
      var net1, one := Next(rules, net, run[0]), AddedBy(rules, net, run[0]);
      TracedStep(rules, net, added, run[0]);
      NextKeeps(rules, net, run[0]);
      TracedRun(rules, net1, added + one, run[1..]);
      assert added + one + Added(rules, net1, run[1..]) == added + Added(rules, net, run);
    }
  }

  lemma InitialTraced(net: Net)
    requires Initial(net)
    ensures Traced(net, {})
  {
    assert forall p :: p in net.nodes ==> FreshNode(net.nodes[p]);
  }

  lemma ReachedTraced(rules: Rules, net: Net, run: seq<Action>)
    requires Initial(net) && Legal(rules, net, run)
    ensures NetOk(rules, After(rules, net, run)) && Traced(After(rules, net, run), Added(rules, net, run))
  {
    hide NetOk, Traced;
    InitialOk(rules, net);
    InitialTraced(net);
    RunKeeps(rules, net, run);
    TracedRun(rules, net, {}, run);
    assert {} + Added(rules, net, run) == Added(rules, net, run);
  }

  // ---- One best block, one chain ----

  /** A best block is still the tip of some node: nothing better was ever there to adopt. */
  lemma BestIsHeld(rules: Rules, net: Net, added: set<Block>, b: Block) returns (p: Peer)
    requires NetOk(rules, net) && Traced(net, added) && b in Best(added)
    ensures p in net.nodes && EndsAt(net.nodes[p].replica.chain, b)
  {
    hide NetOk;
    assert Kept(net, b);
    p :| Keeps(net, p, b);
    var chain := net.nodes[p].replica.chain;
    if !EndsAt(chain, b) {
      TipRank(rules, net, p);
      TracedTip(net, added, p);
    }
  }

  /** If any block was added there is a best one. */
  lemma {:induction false} BestExists(added: set<Block>)
    requires added != {}
    ensures Best(added) != {}
    decreases |added|
  {
    var b :| b in added;
    var rest := added - {b};
    if rest == {} {
      assert added == {b};
    } else {
      BestExists(rest);
      var c :| c in Best(rest);
      var top := if Below(BlockRank(c), BlockRank(b)) then b else c;
      forall d | d in added ensures AtMost(BlockRank(d), BlockRank(top)) {
        assert d == b || d in rest;
      }
      assert top in Best(added);
    }
  }

  /** Nodes of one rank whose tips are added blocks have a best block at their tips, if any was added. */
  lemma TipsAreBest(rules: Rules, net: Net, added: set<Block>, p: Peer)
    requires NetOk(rules, net) && Traced(net, added) && p in net.nodes
    requires forall q :: q in net.nodes ==> Rk(net, q) == Rk(net, p)
    ensures EndsIn(net.nodes[p].replica.chain, Best(added))
    ensures net.nodes[p].replica.chain == [] ==> added == {}
  {
    hide NetOk, Traced, Kept;
    if added != {} {
      BestExists(added);
      var b :| b in Best(added);
      var q := BestIsHeld(rules, net, added, b);
      TipRank(rules, net, q);
      assert Rk(net, q) == Rk(net, p);
      TipRank(rules, net, p);
    }
    TracedTip(net, added, p);
  }

  lemma TracedTip(net: Net, added: set<Block>, p: Peer)
    requires Traced(net, added) && p in net.nodes
    ensures EndsIn(net.nodes[p].replica.chain, added)
  {
  }

  /** Two best blocks are at the tips of two nodes that will never agree. */
  lemma TwoBestFork(rules: Rules, net: Net, added: set<Block>)
    requires NetOk(rules, net) && Traced(net, added) && OneChain(net)
    ensures OneBest(added)
  {
    hide NetOk, Traced, Best;
    forall b, c | b in Best(added) && c in Best(added) ensures b == c {
      var p := BestIsHeld(rules, net, added, b);
      var q := BestIsHeld(rules, net, added, c);
    }
  }

  /**
   * Convergence on a chain, exactly. When no push is lost and the network has fallen quiet, all nodes
   * hold the same chain if and only if the blocks mined in the run have no more than one best: no two
   * different blocks share the greatest (height, timestamp).
   */
  lemma QuietMeansOneChain(rules: Rules, net: Net, run: seq<Action>)
    requires Initial(net) && WellNamed(net) && StronglyConnected(net) && DigestsDistinct(rules) && CollisionFree(rules)
    requires Legal(rules, net, run) && Lossless(run) && Quiet(After(rules, net, run))
    ensures OneChain(After(rules, net, run)) <==> OneBest(Added(rules, net, run))
  {
    hide Initial, WellNamed, StronglyConnected, DigestsDistinct, CollisionFree, Lossless, Quiet, NetOk, Traced, Best, RankOf;
    var now, added := After(rules, net, run), Added(rules, net, run);
    ReachedTraced(rules, net, run);
    if OneChain(now) {
      TwoBestFork(rules, now, added);
    }
    if OneBest(added) {
      forall p, q | p in now.nodes && q in now.nodes ensures now.nodes[p].replica.chain == now.nodes[q].replica.chain {
        SameBestSameChain(rules, net, run, p, q);
      }
    }
  }

  lemma SameBestSameChain(rules: Rules, net: Net, run: seq<Action>, p: Peer, q: Peer)
    requires Initial(net) && WellNamed(net) && StronglyConnected(net) && DigestsDistinct(rules) && CollisionFree(rules)
    requires Legal(rules, net, run) && Lossless(run) && Quiet(After(rules, net, run))
    requires OneBest(Added(rules, net, run)) && p in After(rules, net, run).nodes && q in After(rules, net, run).nodes
    ensures After(rules, net, run).nodes[p].replica.chain == After(rules, net, run).nodes[q].replica.chain
  {
    hide Initial, WellNamed, StronglyConnected, DigestsDistinct, CollisionFree, Lossless, Quiet, NetOk, Traced, Best;
    var now, added := After(rules, net, run), Added(rules, net, run);
    ReachedTraced(rules, net, run);
    NodesStay(rules, net, run);
    forall r | r in now.nodes ensures Rk(now, r) == Rk(now, p) && Rk(now, r) == Rk(now, q) {
      QuietMeansSameRank(rules, net, run, r, p);
      QuietMeansSameRank(rules, net, run, r, q);
    }
    TipsAreBest(rules, now, added, p);
    TipsAreBest(rules, now, added, q);
    QuietMeansSameChain(rules, net, run, p, q);
  }

  lemma {:induction false} NodesStay(rules: Rules, net: Net, run: seq<Action>)
    requires Legal(rules, net, run)
    ensures After(rules, net, run).nodes.Keys == net.nodes.Keys
    decreases |run|
  {
    hide CanStep, StepAt, SentBy;
    if run != [] {
      NodesStay(rules, Next(rules, net, run[0]), run[1..]);
    }
  }

  /** Enough for a caller: blocks mined at one height never carry the same timestamp. */
  lemma DistinctClocksOneChain(rules: Rules, net: Net, run: seq<Action>)
    requires Initial(net) && WellNamed(net) && StronglyConnected(net) && DigestsDistinct(rules) && CollisionFree(rules)
    requires Legal(rules, net, run) && Lossless(run) && Quiet(After(rules, net, run))
    requires forall b, c :: b in Added(rules, net, run) && c in Added(rules, net, run) && BlockRank(b) == BlockRank(c) ==> b == c
    ensures OneChain(After(rules, net, run))
  {
    hide Initial, WellNamed, StronglyConnected, DigestsDistinct, CollisionFree, Lossless, Quiet, Legal, After, OneChain;
    QuietMeansOneChain(rules, net, run);
  }
}
