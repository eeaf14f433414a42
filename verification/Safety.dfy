/** Invariants of the whole network, under any interleaving, reordering, loss and duplication. */
module Safety {
  import opened Bytes
  import opened Wrappers
  import opened Blocks
  import opened Chains
  import opened Replicas
  import opened Network

  ghost predicate LedgerOk(rules: Rules, n: Node) {
    ChainOk(rules, n.replica.chain) && n.replica.seen == KeyImages(n.replica.chain)
  }

  /** Everything waiting to be mined has passed verification. */
  ghost predicate TasksOk(rules: Rules, n: Node) {
    && (forall i :: 0 <= i < |n.replica.pool| ==> TaskValid(rules, n.replica.pool[i]))
    && (forall tid :: tid in n.threads && n.threads[tid].Queueing? ==> TaskValid(rules, n.threads[tid].task))
    && (n.miner.Took? || n.miner.Ready? || n.miner.Working? || n.miner.Requeueing? ==> TaskValid(rules, n.miner.task))
  }

  /** The miner's snapshot is no longer than the chain, and is the tip if nothing was adopted since. */
  ghost predicate SnapshotOk(n: Node) {
    n.miner.Working? ==>
      var chain := n.replica.chain;
      && n.miner.len <= |chain|
      && (n.miner.len == 0 <==> n.miner.last.None?)
      && n.miner.at <= n.history.adoptions
      && (n.miner.at == n.history.adoptions ==>
            n.miner.len == |chain| && (chain != [] ==> n.miner.last == Some(chain[|chain| - 1])))
  }

  function MinerImages(miner: Miner): set<bytes> {
    match miner
    case Took(task) => {task.keyImage}
    case Ready(task) => {task.keyImage}
    case Working(task, _, _, _) => {task.keyImage}
    case Requeueing(task) => {task.keyImage}
    case _ => {}
  }

  /** Tasks are conserved, retries are paid for by adoptions, and no queued ballot vanishes. */
  ghost predicate HistoryOk(n: Node) {
    var h := n.history;
    && h.enqueued + h.requeued == h.taken + |n.replica.pool|
    && h.lateAdds == h.requeued + (if n.miner.Requeueing? then 1 else 0)
    && h.lateAdds <= (if n.miner.Working? then n.miner.at else h.adoptions)
    && KeyImages(n.replica.chain) <= h.everOnChain
    && h.queuedImages <= PoolImages(n.replica.pool) + MinerImages(n.miner) + h.everOnChain
  }

  ghost predicate NodeOk(rules: Rules, n: Node) {
    LedgerOk(rules, n) && TasksOk(rules, n) && SnapshotOk(n) && HistoryOk(n)
  }

  ghost predicate NetOk(rules: Rules, net: Net) {
    && (forall p :: p in net.nodes ==> NodeOk(rules, net.nodes[p]))
    && (forall m :: m in net.inflight ==> ChainOk(rules, m.chain))
  }

  // ---- Steps of one node ----

  lemma SubmitKeeps(rules: Rules, n: Node, tid: nat, task: MiningTask)
    requires NodeOk(rules, n) && tid !in n.threads
    ensures NodeOk(rules, SubmitAt(rules, n, tid, task))
  {
    hide ChainOk, TaskValid;
  }

  lemma PoolImagesAppend(pool: seq<MiningTask>, task: MiningTask)
    ensures PoolImages(pool + [task]) == PoolImages(pool) + {task.keyImage}
  {
    var next := pool + [task];
    forall k | k in PoolImages(pool) ensures k in PoolImages(next) {
      var i :| 0 <= i < |pool| && pool[i].keyImage == k;
      assert next[i].keyImage == k;
    }
    assert next[|pool|].keyImage in PoolImages(next);
  }

  lemma TakeKeeps(rules: Rules, n: Node)
    requires NodeOk(rules, n) && n.miner.Idle? && n.replica.pool != []
    ensures NodeOk(rules, TakeAt(n))
  {
    hide ChainOk, TaskValid;
    var k := |n.replica.pool| - 1;
    PoolImagesAppend(n.replica.pool[..k], n.replica.pool[k]);
    assert n.replica.pool == n.replica.pool[..k] + [n.replica.pool[k]];
  }

  lemma CheckAndSnapshotKeep(rules: Rules, n: Node)
    requires NodeOk(rules, n)
    ensures n.miner.Took? ==> NodeOk(rules, CheckSeenAt(n))
    ensures n.miner.Ready? ==> NodeOk(rules, SnapshotAt(n))
  {
    hide ChainOk, TaskValid;
  }

  /**
   * The only three outcomes of a mined block: recorded now, retried because the chain was replaced
   * since the snapshot, or its ballot is already on the chain.
   */
  lemma MineOutcome(rules: Rules, n: Node, timestamp: nat, nonce: nat)
    requires NodeOk(rules, n) && n.miner.Working? && Solves(rules, WorkHeader(n.miner, timestamp), nonce)
    ensures var b := Mined(rules, n.miner, timestamp, nonce);
            var r := ValidateAddition(rules, n.replica.seen, n.replica.chain, b);
            && b.keyImage == n.miner.task.keyImage
            && (r == IgnoreBlock <==> n.miner.task.keyImage in KeyImages(n.replica.chain))
            && (r == AttemptedLateAdd ==> n.miner.at < n.history.adoptions)
            && (r == AddBlock ==>
                  && ChainOk(rules, n.replica.chain + [b])
                  && KeyImages(n.replica.chain + [b]) == n.replica.seen + {b.keyImage}
                  && Below(RankOf(n.replica.chain), RankOf(n.replica.chain + [b])))
  {
    hide ChainOk, BlockValid, ValidateAddition, HistoryOk;
    var b := Mined(rules, n.miner, timestamp, nonce);
    MinedBlockOutcome(rules, n.replica.chain, n.miner.task, n.miner.last, n.miner.len, timestamp, nonce);
    if ValidateAddition(rules, n.replica.seen, n.replica.chain, b) == AddBlock {
      AddKeepsChainOk(rules, n.replica.chain, b);
    }
  }

  lemma MineKeeps(rules: Rules, n: Node, timestamp: nat, nonce: nat)
    requires NodeOk(rules, n) && n.miner.Working? && Solves(rules, WorkHeader(n.miner, timestamp), nonce)
    ensures NodeOk(rules, MineAt(rules, n, timestamp, nonce))
  {
    hide ChainOk, BlockValid, ValidateAddition, TaskValid, Mined;
    MineOutcome(rules, n, timestamp, nonce);
  }

  lemma MinerTailKeeps(rules: Rules, n: Node)
    requires NodeOk(rules, n)
    ensures n.miner.Recording? ==> NodeOk(rules, RecordAt(n))
    ensures n.miner.Announcing? ==> NodeOk(rules, n.(miner := Idle))
    ensures n.miner.Requeueing? ==> NodeOk(rules, RequeueAt(n))
  {
    hide ChainOk, TaskValid;
    if n.miner.Requeueing? {
      PoolImagesAppend(n.replica.pool, n.miner.task);
    }
  }

  lemma DeliverKeeps(rules: Rules, n: Node, m: Push, tid: nat)
    requires NodeOk(rules, n) && ChainOk(rules, m.chain) && tid !in n.threads
    ensures NodeOk(rules, DeliverAt(rules, n, m, tid))
  {
    hide ChainOk, TaskValid, TailOk;
  }

  lemma AdvanceKeeps(rules: Rules, n: Node, tid: nat)
    requires NodeOk(rules, n) && tid in n.threads
    ensures NodeOk(rules, AdvanceAt(rules, n, tid))
  {
    hide ChainOk, TaskValid;
    if n.threads[tid].Queueing? {
      var task := n.threads[tid].task;
      PoolImagesAppend(n.replica.pool, task);
      if Queued(n.replica.pool, task.keyImage) {
        assert task.keyImage in PoolImages(n.replica.pool);
      }
      assert rules.candidateOk(task.candidate) by {
        ValidTaskNamesCandidate(rules, task);
      }
    }
  }

  lemma ValidTaskNamesCandidate(rules: Rules, task: MiningTask)
    requires TaskValid(rules, task)
    ensures rules.candidateOk(task.candidate)
  {
  }

  // ---- Steps of the network ----

  lemma StepKeeps(rules: Rules, n: Node, a: Action)
    requires NodeOk(rules, n) && Actor(a).Some? && CanStep(rules, n, a)
    requires a.Deliver? ==> ChainOk(rules, a.push.chain)
    ensures NodeOk(rules, StepAt(rules, n, a))
  {
    hide NodeOk, ChainOk, SubmitAt, TakeAt, CheckSeenAt, SnapshotAt, MineAt, RecordAt, RequeueAt, DeliverAt, AdvanceAt;
    match a
    case Submit(_, tid, task) => SubmitKeeps(rules, n, tid, task);
    case Take(_) => TakeKeeps(rules, n);
    case CheckSeen(_) => CheckAndSnapshotKeep(rules, n);
    case Snapshot(_) => CheckAndSnapshotKeep(rules, n);
    case Mine(_, t, nonce) => MineKeeps(rules, n, t, nonce);
    case Record(_) => MinerTailKeeps(rules, n);
    case Announce(_) => MinerTailKeeps(rules, n);
    case Requeue(_) => MinerTailKeeps(rules, n);
    case Deliver(m, tid) => DeliverKeeps(rules, n, m, tid);
    case Advance(_, tid) => AdvanceKeeps(rules, n, tid);
  }

  lemma NextKeeps(rules: Rules, net: Net, a: Action)
    requires NetOk(rules, net) && Enabled(rules, net, a)
    ensures NetOk(rules, Next(rules, net, a))
  {
    hide NodeOk, ChainOk, CanStep, StepAt;
    if Actor(a).Some? {
      StepKeeps(rules, net.nodes[Actor(a).value], a);
      OwnChainOk(rules, net.nodes[Actor(a).value]);
    }
  }

  lemma OwnChainOk(rules: Rules, n: Node)
    requires NodeOk(rules, n)
    ensures ChainOk(rules, n.replica.chain)
  {
  }

  lemma InitialOk(rules: Rules, net: Net)
    requires Initial(net)
    ensures NetOk(rules, net)
  {
  }

  lemma {:induction false} RunKeeps(rules: Rules, net: Net, run: seq<Action>)
    requires NetOk(rules, net) && Legal(rules, net, run)
    ensures NetOk(rules, After(rules, net, run))
    decreases |run|
  {
    if run != [] {
      NextKeeps(rules, net, run[0]);
      RunKeeps(rules, Next(rules, net, run[0]), run[1..]);
    }
  }

  /**
   * Network safety. In every reachable state, every node's chain and every chain in flight is
   * numbered by position, hash-linked, made of valid blocks and free of repeated key images, and
   * every node's seen-set is exactly the key images of its chain.
   */
  lemma NetworkSafety(rules: Rules, net: Net, run: seq<Action>)
    requires Initial(net) && Legal(rules, net, run)
    ensures var now := After(rules, net, run);
            && (forall p :: p in now.nodes ==> ChainOk(rules, now.nodes[p].replica.chain)
                                               && now.nodes[p].replica.seen == KeyImages(now.nodes[p].replica.chain))
            && (forall m :: m in now.inflight ==> ChainOk(rules, m.chain))
  {
    hide ChainOk, TasksOk, SnapshotOk, HistoryOk;
    InitialOk(rules, net);
    RunKeeps(rules, net, run);
  }

  /**
   * Every block anywhere was worked for and carries a verified ballot: in every reachable state each
   * block of each chain held or in flight has twenty leading zero bits, hashes to what it says, and
   * names a candidate and a ballot that pass the checks.
   */
  lemma EveryBlockIsSolved(rules: Rules, net: Net, run: seq<Action>, chain: seq<Block>, i: nat)
    requires Initial(net) && Legal(rules, net, run) && i < |chain|
    requires var now := After(rules, net, run);
             || (exists p :: p in now.nodes && now.nodes[p].replica.chain == chain)
             || (exists m :: m in now.inflight && m.chain == chain)
    ensures var b := chain[i];
            && 20 <= 8 * |b.hash| && (forall k: nat :: k < 20 ==> !BitSet(b.hash, k))
            && b.nonce.Some? && rules.powHash(b.(nonce := None, hash := []), b.nonce.value) == b.hash
            && rules.candidateOk(b.data) && rules.ballotOk(b.ringId, b.data, b.keyImage, b.signature)
            && b.idx == i && b.prevHash == (if i == 0 then [] else chain[i - 1].hash)
  {
    hide BlockValid, BitSet;
    NetworkSafety(rules, net, run);
    assert ChainOk(rules, chain);
    BlockValidMeans(rules, chain[i]);
  }

  /**
   * No ballot is lost to a race. In every reachable state each ballot a node ever queued is still in
   * its pool, in the hands of its miner, or has been on its chain.
   */
  lemma NoQueuedBallotVanishes(rules: Rules, net: Net, run: seq<Action>, p: Peer)
    requires Initial(net) && Legal(rules, net, run)
    requires p in After(rules, net, run).nodes
    ensures var n := After(rules, net, run).nodes[p];
            n.history.queuedImages <= PoolImages(n.replica.pool) + MinerImages(n.miner) + n.history.everOnChain
  {
    hide LedgerOk, TasksOk, SnapshotOk;
    InitialOk(rules, net);
    RunKeeps(rules, net, run);
  }

  // ---- The same without bookkeeping ----

  function Held(n: Node): set<bytes> {
    PoolImages(n.replica.pool) + MinerImages(n.miner)
  }

  /** At some point of the run, its ends included, the node's chain has a block with this image. */
  ghost predicate OnChainSometime(rules: Rules, net: Net, run: seq<Action>, p: Peer, image: bytes)
    requires Legal(rules, net, run)
    decreases |run|
  {
    || (p in net.nodes && image in KeyImages(net.nodes[p].replica.chain))
    || (run != [] && OnChainSometime(rules, Next(rules, net, run[0]), run[1..], p, image))
  }

  lemma StepKeepsBallot(rules: Rules, n: Node, a: Action, image: bytes)
    requires NodeOk(rules, n) && Actor(a).Some? && CanStep(rules, n, a)
    requires image in Held(n) && image !in KeyImages(n.replica.chain)
    ensures var n' := StepAt(rules, n, a);
            image in Held(n') || image in KeyImages(n'.replica.chain)
  {
    hide ChainOk, TasksOk, ValidateAddition, Mined, SnapshotOk, HistoryOk, AddTask, TaskValid, AdoptLocked, Solves;
    match a
    case Take(_) =>
      var k := |n.replica.pool| - 1;
      PoolImagesAppend(n.replica.pool[..k], n.replica.pool[k]);
      assert n.replica.pool == n.replica.pool[..k] + [n.replica.pool[k]];
    case Mine(_, t, nonce) =>
      MineOutcome(rules, n, t, nonce);
    case Requeue(_) =>
      PoolImagesAppend(n.replica.pool, n.miner.task);
    case Deliver(m, _) =>
      AdoptionKeepsPool(rules, n.replica, m);
    case Advance(_, tid) =>
      if n.threads[tid].Queueing? {
        AddTaskKeepsImages(rules, n.replica.pool, n.threads[tid].task);
      }
    case _ =>
  }

  lemma AdoptionKeepsPool(rules: Rules, r: Replica, m: Push)
    ensures AdoptLocked(rules, r, m.chain, m.sender).pool == r.pool
  {
  }

  lemma AddTaskKeepsImages(rules: Rules, pool: seq<MiningTask>, task: MiningTask)
    ensures PoolImages(pool) <= PoolImages(AddTask(rules, pool, task))
  {
    PoolImagesAppend(pool, task);
  }

  /**
   * In every reachable state each ballot in a node's pool or in the hands of its miner stays there until
   * the node's chain records it, however the network goes on.
   */
  lemma {:induction false} BallotStays(rules: Rules, net: Net, run: seq<Action>, p: Peer, image: bytes)
    requires NetOk(rules, net) && Legal(rules, net, run) && p in net.nodes && image in Held(net.nodes[p])
    ensures p in After(rules, net, run).nodes
    ensures image in Held(After(rules, net, run).nodes[p]) || OnChainSometime(rules, net, run, p, image)
    decreases |run|
  {
    hide NodeOk, StepAt, CanStep, Held, KeyImages;
    if run != [] {
      var a, now := run[0], Next(rules, net, run[0]);
      NextKeeps(rules, net, a);
      if image !in KeyImages(net.nodes[p].replica.chain) {
        if Actor(a) == Some(p) {
          StepKeepsBallot(rules, net.nodes[p], a, image);
        }
        if image in Held(now.nodes[p]) {
          BallotStays(rules, now, run[1..], p, image);
        }
      }
      StillThere(rules, now, run[1..], p);
    }
  }

  lemma {:induction false} StillThere(rules: Rules, net: Net, run: seq<Action>, p: Peer)
    requires Legal(rules, net, run) && p in net.nodes
    ensures p in After(rules, net, run).nodes
    decreases |run|
  {
    hide StepAt, CanStep;
    if run != [] {
      StillThere(rules, Next(rules, net, run[0]), run[1..], p);
    }
  }

  lemma PooledBallotStays(rules: Rules, start: Net, first: seq<Action>, rest: seq<Action>, p: Peer, image: bytes)
    requires Initial(start) && Legal(rules, start, first)
    requires Legal(rules, After(rules, start, first), rest)
    requires p in After(rules, start, first).nodes && image in Held(After(rules, start, first).nodes[p])
    ensures var net := After(rules, start, first);
            && p in After(rules, net, rest).nodes
            && (image in Held(After(rules, net, rest).nodes[p]) || OnChainSometime(rules, net, rest, p, image))
  {
    hide NetOk, Held, OnChainSometime;
    InitialOk(rules, start);
    RunKeeps(rules, start, first);
    BallotStays(rules, After(rules, start, first), rest, p, image);
  }

  /** What the bookkeeping counts, step by step. */
  lemma HistoryTells(rules: Rules, n: Node, a: Action)
    requires NodeOk(rules, n) && Actor(a).Some? && CanStep(rules, n, a)
    ensures var n' := StepAt(rules, n, a);
            var h, h' := n.history, n'.history;
            && h'.taken == h.taken + (if a.Take? then 1 else 0)
            && h'.requeued == h.requeued + (if a.Requeue? then 1 else 0)
            && h'.enqueued == h.enqueued + (if a.Advance? then |n'.replica.pool| - |n.replica.pool| else 0)
            && h'.adoptions == h.adoptions + (if a.Deliver? && n'.replica.chain != n.replica.chain then 1 else 0)
            && h'.lateAdds == h.lateAdds + (if a.Mine? && n'.miner.Requeueing? then 1 else 0)
            && h'.queuedImages == h.queuedImages + (if a.Advance? && n.threads[a.tid].Queueing? then {n.threads[a.tid].task.keyImage} else {})
            && h'.everOnChain == h.everOnChain + KeyImages(n'.replica.chain)
  {
    hide ChainOk, TasksOk, ValidateAddition, Mined, SnapshotOk, AddTask, TaskValid, TailOk, Solves;
    match a
    case Mine(_, t, nonce) => MineOutcome(rules, n, t, nonce);
    case _ =>
  }

  /**
   * The mining loop, step by step: the newest task is taken, a recorded one dropped, the tip read, and
   * the mined ballot recorded, dropped because it already is, or put back; pushes and submissions
   * leave the miner alone.
   */
  lemma MinerMoves(rules: Rules, n: Node, a: Action)
    requires NodeOk(rules, n) && Actor(a).Some? && CanStep(rules, n, a)
    ensures var n' := StepAt(rules, n, a);
            var r, r' := n.replica, n'.replica;
            match a
            case Take(_) => n'.miner.Took? && r.pool == r'.pool + [n'.miner.task] && r' == r.(pool := r'.pool)
            case CheckSeen(_) =>
              r' == r && n'.miner == (if n.miner.task.keyImage in KeyImages(r.chain) then Idle else Ready(n.miner.task))
            case Snapshot(_) =>
              && r' == r && n'.miner.Working? && n'.miner.task == n.miner.task && n'.miner.len == |r.chain|
              && n'.miner.last == (if r.chain == [] then None else Some(r.chain[|r.chain| - 1]))
            case Mine(_, t, nonce) =>
              var task := n.miner.task;
              if task.keyImage in KeyImages(r.chain) then n'.miner == Idle && r' == r
              else if r'.chain == r.chain then n'.miner == Requeueing(task) && r' == r
              else
                && n'.miner == Recording(task.keyImage, task.candidate) && r'.seen == r.seen + {task.keyImage}
                && |r'.chain| == |r.chain| + 1 && r'.chain[..|r.chain|] == r.chain
                && var b := r'.chain[|r.chain|];
                   && b.data == task.candidate && b.ringId == task.ringId && b.keyImage == task.keyImage
                   && b.signature == task.signature && b.timestamp == t && b.nonce == Some(nonce)
            case Record(_) => n'.miner == Announcing && r' == r.(cache := RecordVote(r.cache, n.miner.keyImage, n.miner.candidate))
            case Announce(_) => n'.miner == Idle && r' == r
            case Requeue(_) => n'.miner == Idle && r' == r.(pool := r.pool + [n.miner.task])
            case _ => n'.miner == n.miner
  {
    hide ChainOk, TasksOk, ValidateAddition, SnapshotOk, HistoryOk, AddTask, TaskValid, TailOk, Solves, RecordVote;
    match a
    case Mine(_, t, nonce) => MineOutcome(rules, n, t, nonce);
    case _ =>
  }

  /** Of any push a delivery or a loss takes one copy away, a repetition adds one, and a step adds what it sends. */
  lemma TransitMoves(rules: Rules, net: Net, a: Action, m: Push)
    requires Enabled(rules, net, a)
    ensures var now := Next(rules, net, a);
            && now.inflight[m] == net.inflight[m]
                 - (if (a.Deliver? || a.Drop?) && a.push == m then 1 else 0)
                 + (if a.Duplicate? && a.push == m then 1 else 0)
                 + (if Actor(a).Some? && m in SentBy(net.nodes[Actor(a).value], a) then 1 else 0)
            && (forall p :: p in net.nodes && Actor(a) != Some(p) ==> p in now.nodes && now.nodes[p] == net.nodes[p])
  {
    hide CanStep, StepAt, SentBy;
  }

  /** The drain loop takes at most one task per queued ballot plus one per chain adoption. */
  lemma DrainIsBounded(rules: Rules, net: Net, run: seq<Action>, p: Peer)
    requires Initial(net) && Legal(rules, net, run)
    requires p in After(rules, net, run).nodes
    ensures var h := After(rules, net, run).nodes[p].history;
            h.requeued <= h.adoptions && h.taken <= h.enqueued + h.adoptions
  {
    hide LedgerOk, TasksOk;
    InitialOk(rules, net);
    RunKeeps(rules, net, run);
  }
}
