/**
 * Handlers that run without interruption: the lock-by-lock steps of the network add up to the whole
 * handlers of module Replicas.
 */
module Handlers {
  import opened Wrappers
  import opened Blocks
  import opened Chains
  import opened Replicas
  import opened Network
  import opened Safety

  lemma LegalCons(rules: Rules, net: Net, a: Action, rest: seq<Action>)
    requires Enabled(rules, net, a) && Legal(rules, Next(rules, net, a), rest)
    ensures Legal(rules, net, [a] + rest)
    ensures After(rules, net, [a] + rest) == After(rules, Next(rules, net, a), rest)
  {
    assert ([a] + rest)[1..] == rest;
  }

  lemma {:induction false} LegalConcat(rules: Rules, net: Net, first: seq<Action>, second: seq<Action>)
    requires Legal(rules, net, first) && Legal(rules, After(rules, net, first), second)
    ensures Legal(rules, net, first + second)
    ensures After(rules, net, first + second) == After(rules, After(rules, net, first), second)
    decreases |first|
  {
    hide Enabled, Next;
    if first == [] {
      assert first + second == second;
    } else {
      LegalConcat(rules, Next(rules, net, first[0]), first[1..], second);
      LegalCons(rules, net, first[0], first[1..] + second);
      assert [first[0]] + (first[1..] + second) == first + second;
    }
  }

  /** Only node p has changed, to the given data, and exactly these pushes were sent. */
  ghost predicate OnlyAt(net: Net, now: Net, p: Peer, r: Replica, inflight: multiset<Push>) {
    && p in net.nodes && now.nodes.Keys == net.nodes.Keys
    && (forall q :: q in net.nodes && q != p ==> now.nodes[q] == net.nodes[q])
    && now.nodes[p].replica == r
    && now.nodes[p].threads == net.nodes[p].threads
    && now.nodes[p].miner == net.nodes[p].miner
    && now.inflight == inflight
  }

  function SyncRun(m: Push, tid: nat): seq<Action> {
    [Deliver(m, tid), Advance(m.to, tid), Advance(m.to, tid), Advance(m.to, tid), Advance(m.to, tid)]
  }

  lemma SyncTail(rules: Rules, net: Net, p: Peer, tid: nat)
    requires p in net.nodes && tid in net.nodes[p].threads && net.nodes[p].threads[tid].Caching?
    ensures var run := [Advance(p, tid), Advance(p, tid), Advance(p, tid), Advance(p, tid)];
            && Legal(rules, net, run)
            && var n, t := net.nodes[p], net.nodes[p].threads[tid];
               var r1 := n.replica.(cache := t.cache);
               var r2 := r1.(table := UpdateChainHashAll(r1.table, t.hash));
               After(rules, net, run) ==
               Net(net.nodes[p := n.(replica := r2, threads := n.threads - {tid})],
                   net.inflight + multiset(Pushes(r2, Matching(r1.table, t.hash) + t.already)))
  {
    hide Pushes, Matching, UpdateChainHashAll;
    var a := Advance(p, tid);
    var n, t := net.nodes[p], net.nodes[p].threads[tid];
    var r1 := n.replica.(cache := t.cache);
    var r2 := r1.(table := UpdateChainHashAll(r1.table, t.hash));
    var ignore := Matching(r1.table, t.hash) + t.already;
    var net1 := Next(rules, net, a);
    assert net1 == net.(nodes := net.nodes[p := n.(replica := r1, threads := n.threads[tid := Filtering(t.hash, t.already)])]);
    var net2 := Next(rules, net1, a);
    assert net1.nodes[p].threads[tid := Marking(t.hash, ignore)] == n.threads[tid := Marking(t.hash, ignore)];
    assert net2.nodes[p] == n.(replica := r1, threads := n.threads[tid := Marking(t.hash, ignore)]);
    assert net2 == net.(nodes := net.nodes[p := n.(replica := r1, threads := n.threads[tid := Marking(t.hash, ignore)])]);
    var net3 := Next(rules, net2, a);
    assert net2.nodes[p].threads[tid := Pushing(ignore)] == n.threads[tid := Pushing(ignore)];
    assert net3.nodes[p] == n.(replica := r2, threads := n.threads[tid := Pushing(ignore)]);
    assert net3 == net.(nodes := net.nodes[p := n.(replica := r2, threads := n.threads[tid := Pushing(ignore)])]);
    var net4 := Next(rules, net3, a);
    assert n.threads[tid := Pushing(ignore)] - {tid} == n.threads - {tid};
    assert net4 == Net(net.nodes[p := n.(replica := r2, threads := n.threads - {tid})], net.inflight + multiset(Pushes(r2, ignore)));
    LegalCons(rules, net3, a, []);
    LegalCons(rules, net2, a, [a]);
    LegalCons(rules, net1, a, [a, a]);
    LegalCons(rules, net, a, [a, a, a]);
    assert [a] + [] == [a] && [a] + [a] == [a, a] && [a] + [a, a] == [a, a, a] && [a] + [a, a, a] == [a, a, a, a];
  }

  /** Receiving a push and running the rest of `sync_chain` at once is `SyncWhole`. */
  lemma SyncUninterrupted(rules: Rules, net: Net, m: Push, tid: nat)
    requires m in net.inflight && m.to in net.nodes && tid !in net.nodes[m.to].threads
    requires Adoptable(rules, m.chain, net.nodes[m.to].replica.chain)
    ensures Legal(rules, net, SyncRun(m, tid))
    ensures var (r, sent) := SyncWhole(rules, net.nodes[m.to].replica, m.chain, m.sender, m.sentTo);
            OnlyAt(net, After(rules, net, SyncRun(m, tid)), m.to, r, net.inflight - multiset{m} + multiset(sent))
  {
    hide Pushes, Matching, UpdateChainHashAll, UpdateChainHash, Adoptable, Rebuild, KeyImages, Legal, After;
    var p := m.to;
    var first := Next(rules, net, Deliver(m, tid));
    SyncTail(rules, first, p, tid);
    LegalCons(rules, net, Deliver(m, tid), SyncRun(m, tid)[1..]);
    assert [Deliver(m, tid)] + SyncRun(m, tid)[1..] == SyncRun(m, tid);
    assert first.nodes[p].threads - {tid} == net.nodes[p].threads;
  }

  /** Submitting a ballot and running its handler at once is `Enqueue`: a refusal is counted and leaves no thread. */
  lemma SubmitUninterrupted(rules: Rules, net: Net, p: Peer, tid: nat, task: MiningTask)
    requires p in net.nodes && tid !in net.nodes[p].threads
    ensures var now := Next(rules, net, Submit(p, tid, task));
            var r := Enqueue(rules, net.nodes[p].replica, task);
            if tid in now.nodes[p].threads then OnlyAt(net, Next(rules, now, Advance(p, tid)), p, r, net.inflight)
            else OnlyAt(net, now, p, r, net.inflight)
  {
    hide TaskValid, AddTask;
    var n := net.nodes[p];
    var now := Next(rules, net, Submit(p, tid, task));
    if tid in now.nodes[p].threads {
      assert now.nodes[p] == n.(threads := n.threads[tid := Queueing(task)]);
      assert n.threads[tid := Queueing(task)] - {tid} == n.threads;
    }
  }

  /** The miner goes on with a task exactly when its image is not recorded yet; looking changes nothing else. */
  lemma RecordedIsSkipped(rules: Rules, net: Net, p: Peer)
    requires p in net.nodes && net.nodes[p].miner.Took?
    ensures var n, now := net.nodes[p], Next(rules, net, CheckSeen(p));
            && now == Net(net.nodes[p := now.nodes[p]], net.inflight)
            && now.nodes[p] == n.(miner := now.nodes[p].miner)
            && now.nodes[p].miner == (if n.miner.task.keyImage in n.replica.seen then Idle else Ready(n.miner.task))
  {
  }

  /** One ballot from submission to announcement at an idle node. */
  function BallotRun(p: Peer, tid: nat, task: MiningTask, timestamp: nat, nonce: nat): seq<Action> {
    [Submit(p, tid, task), Advance(p, tid), Take(p), CheckSeen(p), Snapshot(p), Mine(p, timestamp, nonce), Record(p), Announce(p)]
  }

  function TipOf(chain: seq<Block>): Option<Block> {
    if chain == [] then None else Some(chain[|chain| - 1])
  }

  function PreIdx(chain: seq<Block>): nat {
    if |chain| > 0 then |chain| - 1 else 0
  }

  lemma BallotQueued(rules: Rules, net: Net, p: Peer, tid: nat, task: MiningTask)
    requires p in net.nodes && tid !in net.nodes[p].threads
    requires net.nodes[p].miner.Idle? && net.nodes[p].replica.pool == []
    requires TaskValid(rules, task) && task.keyImage !in net.nodes[p].replica.seen
    ensures var run := [Submit(p, tid, task), Advance(p, tid), Take(p), CheckSeen(p), Snapshot(p)];
            && Legal(rules, net, run)
            && var now, chain := After(rules, net, run), net.nodes[p].replica.chain;
               && p in now.nodes
               && now == net.(nodes := net.nodes[p := now.nodes[p]])
               && now.nodes[p].replica == net.nodes[p].replica
               && now.nodes[p].threads == net.nodes[p].threads
               && now.nodes[p].miner == Working(task, TipOf(chain), |chain|, now.nodes[p].history.adoptions)
  {
    hide TaskValid, Legal, After, Enabled, Next;
    var first, second := [Submit(p, tid, task), Advance(p, tid)], [Take(p), CheckSeen(p), Snapshot(p)];
    BallotSubmitted(rules, net, p, tid, task);
    var mid := After(rules, net, first);
    BallotTaken(rules, mid, p, task);
    LegalConcat(rules, net, first, second);
    assert first + second == [Submit(p, tid, task), Advance(p, tid), Take(p), CheckSeen(p), Snapshot(p)];
    assert net.nodes[p := mid.nodes[p]][p := After(rules, mid, second).nodes[p]] == net.nodes[p := After(rules, mid, second).nodes[p]];
  }

  /** Submitted and queued. */
  lemma BallotSubmitted(rules: Rules, net: Net, p: Peer, tid: nat, task: MiningTask)
    requires p in net.nodes && tid !in net.nodes[p].threads
    requires net.nodes[p].miner.Idle? && net.nodes[p].replica.pool == []
    requires TaskValid(rules, task) && task.keyImage !in net.nodes[p].replica.seen
    ensures var run := [Submit(p, tid, task), Advance(p, tid)];
            && Legal(rules, net, run)
            && var now := After(rules, net, run);
               && p in now.nodes
               && now == net.(nodes := net.nodes[p := now.nodes[p]])
               && now.nodes[p].replica == net.nodes[p].replica.(pool := [task])
               && now.nodes[p].threads == net.nodes[p].threads
               && now.nodes[p].miner == Idle
  {
    ValidTaskNamesCandidate(rules, task);
    hide TaskValid;
    var n := net.nodes[p];
    var net1 := Next(rules, net, Submit(p, tid, task));
    assert net1.nodes[p] == n.(threads := n.threads[tid := Queueing(task)]);
    assert n.threads[tid := Queueing(task)] - {tid} == n.threads;
    assert net.nodes[p := net1.nodes[p]][p := AdvanceAt(rules, net1.nodes[p], tid)] == net.nodes[p := AdvanceAt(rules, net1.nodes[p], tid)];
    assert [] + [task] == [task];
    LegalCons(rules, net1, Advance(p, tid), []);
    LegalCons(rules, net, Submit(p, tid, task), [Advance(p, tid)]);
    assert [Advance(p, tid)] + [] == [Advance(p, tid)];
    assert [Submit(p, tid, task)] + [Advance(p, tid)] == [Submit(p, tid, task), Advance(p, tid)];
  }

  /** Taken by the miner, found unrecorded, and mined on a snapshot of the chain. */
  lemma BallotTaken(rules: Rules, net: Net, p: Peer, task: MiningTask)
    requires p in net.nodes && net.nodes[p].miner.Idle? && net.nodes[p].replica.pool == [task]
    requires task.keyImage !in net.nodes[p].replica.seen
    ensures var run := [Take(p), CheckSeen(p), Snapshot(p)];
            && Legal(rules, net, run)
            && var now, chain := After(rules, net, run), net.nodes[p].replica.chain;
               && p in now.nodes
               && now == net.(nodes := net.nodes[p := now.nodes[p]])
               && now.nodes[p].replica == net.nodes[p].replica.(pool := [])
               && now.nodes[p].threads == net.nodes[p].threads
               && now.nodes[p].miner == Working(task, TipOf(chain), |chain|, now.nodes[p].history.adoptions)
  {
    var net1 := Next(rules, net, Take(p));
    var net2 := Next(rules, net1, CheckSeen(p));
    LegalCons(rules, net2, Snapshot(p), []);
    LegalCons(rules, net1, CheckSeen(p), [Snapshot(p)]);
    LegalCons(rules, net, Take(p), [CheckSeen(p), Snapshot(p)]);
    assert [Snapshot(p)] + [] == [Snapshot(p)];
    assert [CheckSeen(p)] + [Snapshot(p)] == [CheckSeen(p), Snapshot(p)];
    assert [Take(p)] + [CheckSeen(p), Snapshot(p)] == [Take(p), CheckSeen(p), Snapshot(p)];
  }

  lemma BallotMined(rules: Rules, net: Net, p: Peer, timestamp: nat, nonce: nat, b: Block)
    requires p in net.nodes && net.nodes[p].miner.Working?
    requires Solves(rules, WorkHeader(net.nodes[p].miner, timestamp), nonce)
    requires b == Mined(rules, net.nodes[p].miner, timestamp, nonce)
    requires ValidateAddition(rules, net.nodes[p].replica.seen, net.nodes[p].replica.chain, b) == AddBlock
    ensures var run := [Mine(p, timestamp, nonce), Record(p), Announce(p)];
            && Legal(rules, net, run)
            && var now, (r, _, sent) := After(rules, net, run), AddWhole(rules, net.nodes[p].replica, b);
               && p in now.nodes
               && now == Net(net.nodes[p := now.nodes[p]], net.inflight + multiset(sent))
               && now.nodes[p].replica == r
               && now.nodes[p].threads == net.nodes[p].threads
               && now.nodes[p].miner == Idle
  {
    hide ValidateAddition, Mined, RecordVote, Pushes;
    var net1 := Next(rules, net, Mine(p, timestamp, nonce));
    assert net1.nodes[p].replica == AddLocked(net.nodes[p].replica, b);
    var net2 := Next(rules, net1, Record(p));
    LegalCons(rules, net2, Announce(p), []);
    LegalCons(rules, net1, Record(p), [Announce(p)]);
    LegalCons(rules, net, Mine(p, timestamp, nonce), [Record(p), Announce(p)]);
    assert [Announce(p)] + [] == [Announce(p)];
    assert [Record(p)] + [Announce(p)] == [Record(p), Announce(p)];
    assert [Mine(p, timestamp, nonce)] + [Record(p), Announce(p)] == [Mine(p, timestamp, nonce), Record(p), Announce(p)];
  }

  /**
   * A verified, unrecorded ballot submitted to an idle node is on its chain and announced to all its
   * contacts after eight uninterrupted steps, and the result is that of `AddWhole`.
   */
  lemma BallotUninterrupted(rules: Rules, net: Net, p: Peer, tid: nat, task: MiningTask, timestamp: nat, nonce: nat)
    requires NetOk(rules, net)
    requires p in net.nodes && tid !in net.nodes[p].threads
    requires net.nodes[p].miner.Idle? && net.nodes[p].replica.pool == []
    requires TaskValid(rules, task) && task.keyImage !in net.nodes[p].replica.seen
    requires Solves(rules, Header(task, TipOf(net.nodes[p].replica.chain), PreIdx(net.nodes[p].replica.chain), timestamp), nonce)
    ensures var chain := net.nodes[p].replica.chain;
            var b := MineBlock(rules, task, TipOf(chain), PreIdx(chain), timestamp, nonce);
            var run := BallotRun(p, tid, task, timestamp, nonce);
            var (r, result, sent) := AddWhole(rules, net.nodes[p].replica, b);
            && result == AddBlock && r.chain == chain + [b]
            && Legal(rules, net, run)
            && OnlyAt(net, After(rules, net, run), p, r, net.inflight + multiset(sent))
  {
    hide NodeOk, Pushes, RecordVote, TaskValid, Solves, Legal, After, Enabled, AddWhole;
    var chain := net.nodes[p].replica.chain;
    var b := MineBlock(rules, task, TipOf(chain), PreIdx(chain), timestamp, nonce);
    BallotQueued(rules, net, p, tid, task);
    var front := [Submit(p, tid, task), Advance(p, tid), Take(p), CheckSeen(p), Snapshot(p)];
    var back := [Mine(p, timestamp, nonce), Record(p), Announce(p)];
    var mid := After(rules, net, front);
    RunKeeps(rules, net, front);
    FreshlyMinedIsAdded(rules, mid.nodes[p], timestamp, nonce, b);
    BallotMined(rules, mid, p, timestamp, nonce, b);
    AddWholeAdds(rules, net.nodes[p].replica, b);
    LegalConcat(rules, net, front, back);
    assert front + back == BallotRun(p, tid, task, timestamp, nonce);
  }

  lemma AddWholeAdds(rules: Rules, r: Replica, b: Block)
    requires ValidateAddition(rules, r.seen, r.chain, b) == AddBlock
    ensures AddWhole(rules, r, b).1 == AddBlock && AddWhole(rules, r, b).0.chain == r.chain + [b]
  {
    hide ValidateAddition, RecordVote, Pushes;
  }

  lemma FreshlyMinedIsAdded(rules: Rules, n: Node, timestamp: nat, nonce: nat, b: Block)
    requires NodeOk(rules, n) && n.miner.Working? && n.miner.at == n.history.adoptions
    requires Solves(rules, WorkHeader(n.miner, timestamp), nonce) && b == Mined(rules, n.miner, timestamp, nonce)
    requires n.miner.task.keyImage !in n.replica.seen
    ensures ValidateAddition(rules, n.replica.seen, n.replica.chain, b) == AddBlock
  {
    MineOutcome(rules, n, timestamp, nonce);
  }
}
