/**
 * Any number of nodes running blockchain/src/app.rs, one lock section at a time.
 *
 * A handler that releases its locks between sections becomes a thread that other handlers of the
 * same node may interleave with. Pushes travel in a bag and may be delivered in any order, lost or
 * duplicated. Every step is a function of the state and of an action that names its choices.
 */
module Network {
  import opened Bytes
  import opened Wrappers
  import opened Blocks
  import opened Chains
  import opened Replicas

  /**
   * Where a handler stands between lock sections. `sync_chain` passes through Caching, Filtering,
   * Marking and Pushing; `add_mining_task` waits in Queueing after its seen-set check.
   */
  datatype Thread =
    | Queueing(task: MiningTask)
    | Caching(cache: Cache, hash: string, already: set<string>)
    | Filtering(hash: string, already: set<string>)
    | Marking(hash: string, ignore: set<string>)
    | Pushing(ignore: set<string>)

  /** The one holder of the mining lock. `at` counts the adoptions before its snapshot of the chain. */
  datatype Miner =
    | Idle
    | Took(task: MiningTask)
    | Ready(task: MiningTask)
    | Working(task: MiningTask, last: Option<Block>, len: nat, at: nat)
    | Recording(keyImage: bytes, candidate: string)
    | Announcing
    | Requeueing(task: MiningTask)

  /** Bookkeeping that no handler reads: what has happened at this node so far. */
  datatype History = History(
    enqueued: nat, taken: nat, lateAdds: nat, requeued: nat, adoptions: nat,
    queuedImages: set<bytes>, everOnChain: set<bytes>)

  datatype Node = Node(replica: Replica, threads: map<nat, Thread>, miner: Miner, history: History)

  datatype Net = Net(nodes: map<Peer, Node>, inflight: multiset<Push>)

  datatype Action =
    | Submit(at: Peer, tid: nat, task: MiningTask)
    | Take(at: Peer)
    | CheckSeen(at: Peer)
    | Snapshot(at: Peer)
    | Mine(at: Peer, timestamp: nat, nonce: nat)
    | Record(at: Peer)
    | Announce(at: Peer)
    | Requeue(at: Peer)
    | Deliver(push: Push, tid: nat)
    | Advance(at: Peer, tid: nat)
    | Drop(push: Push)
    | Duplicate(push: Push)

  function WorkHeader(miner: Miner, timestamp: nat): Block
    requires miner.Working?
  {
    Header(miner.task, miner.last, if miner.len > 0 then miner.len - 1 else 0, timestamp)
  }

  function Mined(rules: Rules, miner: Miner, timestamp: nat, nonce: nat): Block
    requires miner.Working? && Solves(rules, WorkHeader(miner, timestamp), nonce)
  {
    MineBlock(rules, miner.task, miner.last, if miner.len > 0 then miner.len - 1 else 0, timestamp, nonce)
  }

  // ---- What one node does ----

  /** `add_mining_task` up to its seen-set check; a refusal is counted. */
  function SubmitAt(rules: Rules, n: Node, tid: nat, task: MiningTask): Node {
    if !TaskValid(rules, task) || task.keyImage in n.replica.seen then
      n.(replica := n.replica.(rejected := n.replica.rejected + 1))
    else n.(threads := n.threads[tid := Queueing(task)])
  }

  function TakeAt(n: Node): Node
    requires n.replica.pool != []
  {
    var k := |n.replica.pool| - 1;
    n.(replica := n.replica.(pool := n.replica.pool[..k]),
       miner := Took(n.replica.pool[k]),
       history := n.history.(taken := n.history.taken + 1))
  }

  function CheckSeenAt(n: Node): Node
    requires n.miner.Took?
  {
    n.(miner := if n.miner.task.keyImage in n.replica.seen then Idle else Ready(n.miner.task))
  }

  function SnapshotAt(n: Node): Node
    requires n.miner.Ready?
  {
    var chain := n.replica.chain;
    n.(miner := Working(n.miner.task, if chain == [] then None else Some(chain[|chain| - 1]), |chain|, n.history.adoptions))
  }

  /** The locked section of `add_block_to_chain` for the block just mined. */
  function MineAt(rules: Rules, n: Node, timestamp: nat, nonce: nat): Node
    requires n.miner.Working? && Solves(rules, WorkHeader(n.miner, timestamp), nonce)
  {
    var b := Mined(rules, n.miner, timestamp, nonce);
    match ValidateAddition(rules, n.replica.seen, n.replica.chain, b)
    case AddBlock =>
      n.(replica := AddLocked(n.replica, b),
         miner := Recording(b.keyImage, b.data),
         history := n.history.(everOnChain := n.history.everOnChain + {b.keyImage}))
    case AttemptedLateAdd =>
      n.(miner := Requeueing(n.miner.task), history := n.history.(lateAdds := n.history.lateAdds + 1))
    case IgnoreBlock => n.(miner := Idle)
  }

  function RecordAt(n: Node): Node
    requires n.miner.Recording?
  {
    n.(replica := n.replica.(cache := RecordVote(n.replica.cache, n.miner.keyImage, n.miner.candidate)),
       miner := Announcing)
  }

  function RequeueAt(n: Node): Node
    requires n.miner.Requeueing?
  {
    n.(replica := n.replica.(pool := n.replica.pool + [n.miner.task]),
       miner := Idle,
       history := n.history.(requeued := n.history.requeued + 1))
  }

  /** The locked section of `sync_chain`; an accepted chain leaves a thread with the rest of the work. */
  ghost function DeliverAt(rules: Rules, n: Node, m: Push, tid: nat): Node {
    if Adoptable(rules, m.chain, n.replica.chain) then
      n.(replica := AdoptLocked(rules, n.replica, m.chain, m.sender),
         threads := n.threads[tid := Caching(Rebuild(m.chain), rules.chainHash(m.chain), m.sentTo)],
         history := n.history.(adoptions := n.history.adoptions + 1,
                               everOnChain := n.history.everOnChain + KeyImages(m.chain)))
    else n
  }

  /** The next lock section of a waiting handler. */
  function AdvanceAt(rules: Rules, n: Node, tid: nat): Node
    requires tid in n.threads
  {
    var r := n.replica;
    match n.threads[tid]
    case Queueing(task) =>
      var pool := AddTask(rules, r.pool, task);
      n.(replica := r.(pool := pool), threads := n.threads - {tid},
         history := n.history.(enqueued := n.history.enqueued + |pool| - |r.pool|,
                               queuedImages := n.history.queuedImages + {task.keyImage}))
    case Caching(cache, hash, already) =>
      n.(replica := r.(cache := cache), threads := n.threads[tid := Filtering(hash, already)])
    case Filtering(hash, already) =>
      n.(threads := n.threads[tid := Marking(hash, Matching(r.table, hash) + already)])
    case Marking(hash, ignore) =>
      n.(replica := r.(table := UpdateChainHashAll(r.table, hash)), threads := n.threads[tid := Pushing(ignore)])
    case Pushing(_) => n.(threads := n.threads - {tid})
  }

  // ---- Steps ----

  /** The node a step happens at; losing or repeating a push happens at none. */
  function Actor(a: Action): Option<Peer> {
    match a
    case Deliver(m, _) => Some(m.to)
    case Drop(_) => None
    case Duplicate(_) => None
    case _ => Some(a.at)
  }

  ghost predicate CanStep(rules: Rules, n: Node, a: Action)
    requires Actor(a).Some?
  {
    match a
    case Submit(_, tid, _) => tid !in n.threads
    case Take(_) => n.miner.Idle? && n.replica.pool != []
    case CheckSeen(_) => n.miner.Took?
    case Snapshot(_) => n.miner.Ready?
    case Mine(_, t, nonce) => n.miner.Working? && Solves(rules, WorkHeader(n.miner, t), nonce)
    case Record(_) => n.miner.Recording?
    case Announce(_) => n.miner.Announcing?
    case Requeue(_) => n.miner.Requeueing?
    case Deliver(_, tid) => tid !in n.threads
    case Advance(_, tid) => tid in n.threads
  }

  ghost function StepAt(rules: Rules, n: Node, a: Action): Node
    requires Actor(a).Some? && CanStep(rules, n, a)
  {
    match a
    case Submit(_, tid, task) => SubmitAt(rules, n, tid, task)
    case Take(_) => TakeAt(n)
    case CheckSeen(_) => CheckSeenAt(n)
    case Snapshot(_) => SnapshotAt(n)
    case Mine(_, t, nonce) => MineAt(rules, n, t, nonce)
    case Record(_) => RecordAt(n)
    case Announce(_) => n.(miner := Idle)
    case Requeue(_) => RequeueAt(n)
    case Deliver(m, tid) => DeliverAt(rules, n, m, tid)
    case Advance(_, tid) => AdvanceAt(rules, n, tid)
  }

  /** The pushes a step at this node sends. */
  function SentBy(n: Node, a: Action): set<Push> {
    match a
    case Announce(_) => Pushes(n.replica, {})
    case Advance(_, tid) =>
      if tid in n.threads && n.threads[tid].Pushing? then Pushes(n.replica, n.threads[tid].ignore) else {}
    case _ => {}
  }

  ghost predicate Enabled(rules: Rules, net: Net, a: Action) {
    && (a.Deliver? || a.Drop? || a.Duplicate? ==> a.push in net.inflight)
    && (Actor(a).Some? ==> Actor(a).value in net.nodes && CanStep(rules, net.nodes[Actor(a).value], a))
  }

  ghost function Next(rules: Rules, net: Net, a: Action): Net
    requires Enabled(rules, net, a)
  {
    match Actor(a)
    case None => net.(inflight := if a.Drop? then net.inflight - multiset{a.push} else net.inflight + multiset{a.push})
    case Some(p) =>
      var rest := if a.Deliver? then net.inflight - multiset{a.push} else net.inflight;
      Net(net.nodes[p := StepAt(rules, net.nodes[p], a)], rest + multiset(SentBy(net.nodes[p], a)))
  }

  ghost predicate Legal(rules: Rules, net: Net, run: seq<Action>)
    decreases |run|
  {
    run != [] ==> Enabled(rules, net, run[0]) && Legal(rules, Next(rules, net, run[0]), run[1..])
  }

  ghost function After(rules: Rules, net: Net, run: seq<Action>): Net
    requires Legal(rules, net, run)
    decreases |run|
  {
    if run == [] then net else After(rules, Next(rules, net, run[0]), run[1..])
  }

  /** A node as it starts: nothing stored, nothing running, a peer table with no digests yet. */
  predicate FreshNode(n: Node) {
    && n.replica.chain == [] && n.replica.seen == {} && n.replica.pool == []
    && n.replica.cache == EMPTY_CACHE && n.replica.rejected == 0
    && (forall id :: id in n.replica.table ==> n.replica.table[id].chainHash == "")
    && n.threads == map[] && n.miner == Idle
    && n.history == History(0, 0, 0, 0, 0, {}, {})
  }

  predicate Initial(net: Net) {
    && (forall p :: p in net.nodes ==> FreshNode(net.nodes[p]))
    && net.inflight == multiset{}
  }
}
