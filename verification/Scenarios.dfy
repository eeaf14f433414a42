/** Two runs of a pair of nodes that show what equal clocks and interleaved handlers allow. */
module Scenarios {
  import opened Wrappers
  import opened Blocks
  import opened Chains
  import opened Replicas
  import opened Network
  import opened Safety
  import opened Convergence
  import opened Tallying
  import opened Handlers

  const A := Peer(0, 0)
  const B := Peer(0, 1)

  function Start(id: string, contact: string, peer: Peer): Node {
    Node(Replica(id, [], {}, map[contact := Entry(peer, "")], [], EMPTY_CACHE, 0), map[], Idle, History(0, 0, 0, 0, 0, {}, {}))
  }

  /** Two nodes with ids x and y, each in the other's table. */
  function Pair(x: string, y: string): Net {
    Net(map[A := Start(x, y, B), B := Start(y, x, A)], multiset{})
  }

  lemma StartIsFresh(id: string, contact: string, peer: Peer)
    ensures FreshNode(Start(id, contact, peer))
    ensures Start(id, contact, peer).replica.id == id
    ensures Start(id, contact, peer).replica.table == map[contact := Entry(peer, "")]
  {
  }

  lemma PairStarts(x: string, y: string)
    requires x != y
    ensures Initial(Pair(x, y)) && WellNamed(Pair(x, y))
  {
    hide Start, FreshNode;
    StartIsFresh(x, y, B);
    StartIsFresh(y, x, A);
    assert Pair(x, y).nodes.Keys == {A, B};
  }

  lemma PairEdges(x: string, y: string)
    ensures Edge(Pair(x, y), A, B) && Edge(Pair(x, y), B, A)
  {
    hide Start, FreshNode;
    StartIsFresh(x, y, B);
    StartIsFresh(y, x, A);
    assert y in Pair(x, y).nodes[A].replica.table;
    assert x in Pair(x, y).nodes[B].replica.table;
  }

  lemma PairConnected(x: string, y: string)
    ensures StronglyConnected(Pair(x, y))
  {
    hide Start, Edge;
    PairEdges(x, y);
    var net := Pair(x, y);
    assert net.nodes.Keys == {A, B};
    forall p, q ensures Connected(net, p, q) {
      if p in net.nodes && q in net.nodes {
        var path := if p == q then [p] else [p, q];
        assert Path(net, path);
      }
    }
  }

  /** Refusing a push changes nothing but the bag of pushes. */
  lemma Refuse(rules: Rules, net: Net, m: Push)
    requires m in net.inflight && m.to in net.nodes && 0 !in net.nodes[m.to].threads
    requires !Below(RankOf(net.nodes[m.to].replica.chain), RankOf(m.chain))
    ensures Enabled(rules, net, Deliver(m, 0))
    ensures Next(rules, net, Deliver(m, 0)) == net.(inflight := net.inflight - multiset{m})
  {
    hide RankOf, TailOk;
    assert net.nodes[m.to := net.nodes[m.to]] == net.nodes;
    assert net.inflight - multiset{m} + multiset(SentBy(net.nodes[m.to], Deliver(m, 0))) == net.inflight - multiset{m};
  }

  /** At rest, with one contact. */
  ghost predicate Resting(n: Node, contact: string, peer: Peer) {
    && n.threads == map[] && n.miner.Idle? && n.replica.pool == []
    && n.replica.table.Keys == {contact} && n.replica.table[contact].peer == peer
  }

  /** A resting node with one contact mines a ballot and pushes its chain to that contact. */
  lemma MineOne(rules: Rules, net: Net, p: Peer, contact: string, peer: Peer, task: MiningTask, time: nat, nonce: nat)
    requires NetOk(rules, net) && p in net.nodes && Resting(net.nodes[p], contact, peer)
    requires TaskValid(rules, task) && task.keyImage !in net.nodes[p].replica.seen
    requires Solves(rules, Header(task, TipOf(net.nodes[p].replica.chain), PreIdx(net.nodes[p].replica.chain), time), nonce)
    ensures var chain := net.nodes[p].replica.chain;
            var b := MineBlock(rules, task, TipOf(chain), PreIdx(chain), time, nonce);
            var run := BallotRun(p, 0, task, time, nonce);
            && Legal(rules, net, run)
            && var now := After(rules, net, run);
               && NetOk(rules, now)
               && now.nodes.Keys == net.nodes.Keys
               && (forall q :: q in net.nodes && q != p ==> now.nodes[q] == net.nodes[q])
               && now.nodes[p].replica.chain == chain + [b]
               && now.nodes[p].replica.seen == net.nodes[p].replica.seen + {task.keyImage}
               && now.nodes[p].replica.id == net.nodes[p].replica.id
               && Resting(now.nodes[p], contact, peer)
               && now.inflight == net.inflight + multiset{Push(peer, chain + [b], net.nodes[p].replica.id, {contact})}
  {
    hide NetOk, TaskValid, Solves, Legal, After, RecordVote, ValidateAddition;
    var chain := net.nodes[p].replica.chain;
    var b := MineBlock(rules, task, TipOf(chain), PreIdx(chain), time, nonce);
    BallotUninterrupted(rules, net, p, 0, task, time, nonce);
    RunKeeps(rules, net, BallotRun(p, 0, task, time, nonce));
    PairPush(AddWhole(rules, net.nodes[p].replica, b).0, contact, peer);
  }

  lemma PairPush(r: Replica, contact: string, peer: Peer)
    requires r.table.Keys == {contact} && r.table[contact].peer == peer
    ensures Pushes(r, {}) == {Push(peer, r.chain, r.id, {contact})}
  {
    assert r.table.Keys - {} == {contact};
    assert Push(peer, r.chain, r.id, {contact}) in Pushes(r, {});
  }

  lemma LegalOne(rules: Rules, net: Net, a: Action)
    requires Enabled(rules, net, a)
    ensures Legal(rules, net, [a]) && After(rules, net, [a]) == Next(rules, net, a)
  {
    assert [a][1..] == [];
  }

  lemma RefuseBoth(rules: Rules, net: Net, m: Push, k: Push)
    requires net.inflight == multiset{m, k} && m.to in net.nodes && k.to in net.nodes
    requires net.nodes[m.to].threads == map[] && net.nodes[k.to].threads == map[]
    requires RankOf(net.nodes[m.to].replica.chain) == RankOf(m.chain)
    requires RankOf(net.nodes[k.to].replica.chain) == RankOf(k.chain)
    ensures Legal(rules, net, [Deliver(m, 0), Deliver(k, 0)])
    ensures After(rules, net, [Deliver(m, 0), Deliver(k, 0)]) == net.(inflight := multiset{})
  {
    hide RankOf, Legal, After, Enabled, Next;
    Refuse(rules, net, m);
    var net1 := Next(rules, net, Deliver(m, 0));
    assert net1.inflight == multiset{k};
    Refuse(rules, net1, k);
    LegalOne(rules, net1, Deliver(k, 0));
    LegalCons(rules, net, Deliver(m, 0), [Deliver(k, 0)]);
    assert [Deliver(m, 0)] + [Deliver(k, 0)] == [Deliver(m, 0), Deliver(k, 0)];
  }

  lemma BallotRunLossless(p: Peer, task: MiningTask, time: nat, nonce: nat)
    ensures Lossless(BallotRun(p, 0, task, time, nonce))
  {
  }

  /**
   * Equal clocks fork for good: two nodes that each mine a different ballot in the same millisecond
   * refuse each other's chain, and the network falls quiet with different chains.
   */
  lemma EqualClocksFork(rules: Rules, x: string, y: string, t: MiningTask, u: MiningTask, time: nat, tn: nat, un: nat) returns (run: seq<Action>)
    requires x != y
    requires TaskValid(rules, t) && TaskValid(rules, u) && t.keyImage != u.keyImage
    requires Solves(rules, Header(t, None, 0, time), tn) && Solves(rules, Header(u, None, 0, time), un)
    ensures Initial(Pair(x, y)) && WellNamed(Pair(x, y)) && StronglyConnected(Pair(x, y))
    ensures Legal(rules, Pair(x, y), run) && Lossless(run) && Quiet(After(rules, Pair(x, y), run))
    ensures var now := After(rules, Pair(x, y), run);
            A in now.nodes && B in now.nodes && now.nodes[A].replica.chain != now.nodes[B].replica.chain
  {
    hide NetOk, TaskValid, Solves, Legal, After, Lossless, Initial, WellNamed, StronglyConnected, BallotRun;
    var ra, rb := BallotRun(A, 0, t, time, tn), BallotRun(B, 0, u, time, un);
    var ba, bb := MineBlock(rules, t, None, 0, time, tn), MineBlock(rules, u, None, 0, time, un);
    PairStarts(x, y);
    PairConnected(x, y);
    InitialOk(rules, Pair(x, y));
    MineOne(rules, Pair(x, y), A, y, B, t, time, tn);
    var net1 := After(rules, Pair(x, y), ra);
    MineOne(rules, net1, B, x, A, u, time, un);
    var net2 := After(rules, net1, rb);
    var ma, mb := Push(B, [ba], x, {y}), Push(A, [bb], y, {x});
    assert [] + [ba] == [ba] && [] + [bb] == [bb];
    var rc := [Deliver(ma, 0), Deliver(mb, 0)];
    RefuseBoth(rules, net2, ma, mb);
    LegalConcat(rules, net1, rb, rc);
    LegalConcat(rules, Pair(x, y), ra, rb + rc);
    run := ra + (rb + rc);
    BallotRunLossless(A, t, time, tn);
    BallotRunLossless(B, u, time, un);
    JoinLossless(ra, rb, rc);
  }

  lemma JoinLossless(a: seq<Action>, b: seq<Action>, c: seq<Action>)
    requires Lossless(a) && Lossless(b) && forall i :: 0 <= i < |c| ==> c[i].Deliver?
    ensures Lossless(a + (b + c))
  {
  }

  /**
   * The tally can lag the chain for good when handlers interleave: two adoptions whose cache writes
   * happen in the opposite order leave the older chain's tally, with no write pending.
   */
  lemma CrossedCacheWrites(rules: Rules, x: string, y: string, t: MiningTask, u: MiningTask, time: nat, tn: nat, un: nat) returns (run: seq<Action>)
    requires x != y
    requires TaskValid(rules, t) && TaskValid(rules, u) && t.keyImage != u.keyImage
    requires Solves(rules, Header(t, None, 0, time), tn)
    requires Solves(rules, Header(u, Some(MineBlock(rules, t, None, 0, time, tn)), 0, time), un)
    ensures Initial(Pair(x, y)) && Legal(rules, Pair(x, y), run)
    ensures var now := After(rules, Pair(x, y), run);
            && A in now.nodes && !WritePending(now.nodes[A])
            && |now.nodes[A].replica.chain| == 2 && |now.nodes[A].replica.cache.counted| == 1
  {
    hide NetOk, TaskValid, Solves, Legal, After, Initial, WellNamed, BallotRun, WritePending;
    var b1 := MineBlock(rules, t, None, 0, time, tn);
    var b2 := MineBlock(rules, u, Some(b1), 0, time, un);
    var r1, r2 := BallotRun(B, 0, t, time, tn), BallotRun(B, 0, u, time, un);
    PairStarts(x, y);
    InitialOk(rules, Pair(x, y));
    MineOne(rules, Pair(x, y), B, x, A, t, time, tn);
    var net1 := After(rules, Pair(x, y), r1);
    assert [] + [b1] == [b1];
    MineOne(rules, net1, B, x, A, u, time, un);
    var net2 := After(rules, net1, r2);
    assert [b1] + [b2] == [b1, b2];
    var m1, m2 := Push(A, [b1], y, {x}), Push(A, [b1, b2], y, {x});
    var tail := CrossedTail(rules, x, y, net2, m1, m2);
    LegalConcat(rules, net1, r2, tail);
    LegalConcat(rules, Pair(x, y), r1, r2 + tail);
    run := r1 + (r2 + tail);
  }

  lemma LongerIsAdopted(rules: Rules, n: Node, m: Push, tid: nat)
    requires ChainOk(rules, m.chain) && |n.replica.chain| < |m.chain|
    ensures DeliverAt(rules, n, m, tid).replica.chain == m.chain
    ensures DeliverAt(rules, n, m, tid).threads == n.threads[tid := Caching(Rebuild(m.chain), rules.chainHash(m.chain), m.sentTo)]
    ensures DeliverAt(rules, n, m, tid).miner == n.miner
  {
    HeadAndTail(rules, m.chain);
    hide ChainOk, TailOk, Rebuild, KeyImages, UpdateChainHash;
  }

  /** Adopting a longer chain leaves the rest of the work to a thread. */
  lemma AdoptLonger(rules: Rules, net: Net, m: Push, tid: nat)
    requires NetOk(rules, net) && m in net.inflight && m.to in net.nodes && tid !in net.nodes[m.to].threads
    requires |net.nodes[m.to].replica.chain| < |m.chain|
    ensures Enabled(rules, net, Deliver(m, tid))
    ensures var now, n := Next(rules, net, Deliver(m, tid)), net.nodes[m.to];
            && NetOk(rules, now) && m.to in now.nodes
            && now.inflight == net.inflight - multiset{m}
            && now.nodes[m.to].replica.chain == m.chain
            && now.nodes[m.to].threads == n.threads[tid := Caching(Rebuild(m.chain), rules.chainHash(m.chain), m.sentTo)]
            && now.nodes[m.to].miner == n.miner
  {
    hide ChainOk, Rebuild, DeliverAt, NodeOk;
    LongerIsAdopted(rules, net.nodes[m.to], m, tid);
    NextKeeps(rules, net, Deliver(m, tid));
    assert net.inflight - multiset{m} + multiset(SentBy(net.nodes[m.to], Deliver(m, tid))) == net.inflight - multiset{m};
  }

  lemma WriteCache(rules: Rules, net: Net, p: Peer, tid: nat)
    requires p in net.nodes && tid in net.nodes[p].threads && net.nodes[p].threads[tid].Caching?
    ensures Enabled(rules, net, Advance(p, tid))
    ensures var now, n, t := Next(rules, net, Advance(p, tid)), net.nodes[p], net.nodes[p].threads[tid];
            && p in now.nodes
            && now.nodes[p].replica == n.replica.(cache := t.cache)
            && now.nodes[p].threads == n.threads[tid := Filtering(t.hash, t.already)]
            && now.nodes[p].miner == n.miner
  {
  }

  lemma CrossedTail(rules: Rules, x: string, y: string, net: Net, m1: Push, m2: Push) returns (run: seq<Action>)
    requires NetOk(rules, net) && A in net.nodes && net.nodes[A] == Start(x, y, B)
    requires m1 in net.inflight && m2 in net.inflight && m1 != m2 && m1.to == A && m2.to == A
    requires |m1.chain| == 1 && |m2.chain| == 2
    ensures Legal(rules, net, run)
    ensures var now := After(rules, net, run);
            && A in now.nodes && !WritePending(now.nodes[A])
            && |now.nodes[A].replica.chain| == 2 && |now.nodes[A].replica.cache.counted| == 1
  {
    hide NetOk, Rebuild, Enabled, Next, Legal, After;
    AdoptLonger(rules, net, m1, 0);
    var net1 := Next(rules, net, Deliver(m1, 0));
    AdoptLonger(rules, net1, m2, 1);
    var net2 := Next(rules, net1, Deliver(m2, 1));
    WriteCache(rules, net2, A, 1);
    var net3 := Next(rules, net2, Advance(A, 1));
    WriteCache(rules, net3, A, 0);
    LegalOne(rules, net3, Advance(A, 0));
    LegalCons(rules, net2, Advance(A, 1), [Advance(A, 0)]);
    LegalCons(rules, net1, Deliver(m2, 1), [Advance(A, 1)] + [Advance(A, 0)]);
    LegalCons(rules, net, Deliver(m1, 0), [Deliver(m2, 1)] + ([Advance(A, 1)] + [Advance(A, 0)]));
    run := [Deliver(m1, 0)] + ([Deliver(m2, 1)] + ([Advance(A, 1)] + [Advance(A, 0)]));
    OneBlockCounts(m1.chain);
  }

  lemma OneBlockCounts(chain: seq<Block>)
    requires |chain| == 1
    ensures |Rebuild(chain).counted| == 1
  {
    assert chain[..0] == [];
    assert Rebuild(chain[..0]) == EMPTY_CACHE;
    assert Rebuild(chain) == RecordVote(EMPTY_CACHE, chain[0].keyImage, chain[0].data);
  }
}
