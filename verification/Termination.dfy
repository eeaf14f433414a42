/**
 * Between additions of blocks, gossip dies out: a potential counts every push that can still be
 * sent and every gossip step that can still be taken.
 */
module Termination {
  import opened Wrappers
  import opened Sums
  import opened Blocks
  import opened Chains
  import opened Replicas
  import opened Network
  import opened Safety
  import opened Convergence

  /** The step puts a new block on a chain; every other step only moves known chains around. */
  ghost predicate AddsBlock(rules: Rules, net: Net, a: Action)
    requires Enabled(rules, net, a)
  {
    a.Mine? && StepAt(rules, net.nodes[a.at], a).miner.Recording?
  }

  /** Deliveries and the lock sections of handlers that lead up to a push. */
  predicate IsGossip(net: Net, a: Action) {
    || a.Deliver? || a.Record? || a.Announce?
    || (a.Advance? && a.at in net.nodes && a.tid in net.nodes[a.at].threads && !net.nodes[a.at].threads[a.tid].Queueing?)
  }

  // ---- The potential ----

  function Ranks(net: Net): set<Rank> {
    (set p | p in net.nodes :: RankOf(net.nodes[p].replica.chain)) + (set m | m in net.inflight :: RankOf(m.chain))
  }

  /** Known ranks a node has not reached yet. */
  function Above(net: Net, p: Peer): set<Rank>
    requires p in net.nodes
  {
    set r | r in Ranks(net) && Below(Rk(net, p), r)
  }

  function ThreadWeight(fan: nat, t: Thread): nat {
    match t
    case Queueing(_) => 0
    case Caching(_, _, _) => 2 * fan + 4
    case Filtering(_, _) => 2 * fan + 3
    case Marking(_, _) => 2 * fan + 2
    case Pushing(_) => 2 * fan + 1
  }

  function MinerWeight(fan: nat, miner: Miner): nat {
    if miner.Recording? then 2 * fan + 2 else if miner.Announcing? then 2 * fan + 1 else 0
  }

  function WeightIn(fan: nat, threads: map<nat, Thread>): nat -> nat {
    tid => if tid in threads then ThreadWeight(fan, threads[tid]) else 0
  }

  ghost function Load(fan: nat, n: Node): nat {
    Total(n.threads.Keys, WeightIn(fan, n.threads)) + MinerWeight(fan, n.miner)
  }

  ghost function Share(fan: nat, net: Net, p: Peer): nat {
    if p in net.nodes then (2 * fan + 4) * |Above(net, p)| + Load(fan, net.nodes[p]) else 0
  }

  ghost function ShareIn(fan: nat, net: Net): Peer -> nat {
    p => Share(fan, net, p)
  }

  ghost function Potential(fan: nat, net: Net): nat {
    Total(net.nodes.Keys, ShareIn(fan, net)) + |net.inflight|
  }

  /** What a step spends: one unit for a gossip step and one for each push it sends. */
  function Cost(net: Net, a: Action): nat {
    (if IsGossip(net, a) then 1 else 0) + |Sends(net, a)|
  }

  function Sends(net: Net, a: Action): set<Push> {
    if Actor(a).Some? && Actor(a).value in net.nodes then SentBy(net.nodes[Actor(a).value], a) else {}
  }

  ghost predicate FanBound(fan: nat, net: Net) {
    forall p :: p in net.nodes ==> |net.nodes[p].replica.table| <= fan
  }

  // ---- One node's load ----

  function PushTo(r: Replica, ignore: set<string>, id: string): Push
    requires id in r.table
  {
    Push(r.table[id].peer, r.chain, r.id, r.table.Keys - ignore)
  }

  lemma {:induction false} PushToSize(r: Replica, ignore: set<string>, ids: set<string>)
    requires ids <= r.table.Keys
    ensures |set id | id in ids :: PushTo(r, ignore, id)| <= |ids|
    decreases |ids|
  {
    if ids != {} {
      var one :| one in ids;
      PushToSize(r, ignore, ids - {one});
      var all, rest := (set id | id in ids :: PushTo(r, ignore, id)), (set id | id in ids - {one} :: PushTo(r, ignore, id));
      forall m | m in all ensures m in rest + {PushTo(r, ignore, one)} {
        var id :| id in ids && m == PushTo(r, ignore, id);
        assert id != one ==> id in ids - {one};
      }
      SubsetSize(all, rest + {PushTo(r, ignore, one)});
    }
  }

  lemma PushesSize(r: Replica, ignore: set<string>)
    ensures |Pushes(r, ignore)| <= |r.table|
  {
    var ids := r.table.Keys - ignore;
    PushToSize(r, ignore, ids);
    var all := set id | id in ids :: PushTo(r, ignore, id);
    forall m | m in Pushes(r, ignore) ensures m in all {
      var id :| id in r.table && id !in ignore && m == PushTo(r, ignore, id);
      assert id in ids;
    }
    SubsetSize(Pushes(r, ignore), all);
    SubsetSize(ids, r.table.Keys);
    assert |r.table.Keys| == |r.table|;
  }

  lemma LoadChange(fan: nat, n: Node, n': Node, tid: nat)
    requires n'.threads.Keys - {tid} == n.threads.Keys - {tid}
    requires forall t :: t in n.threads && t in n'.threads && t != tid ==> n'.threads[t] == n.threads[t]
    ensures Load(fan, n') + WeightIn(fan, n.threads)(tid) + MinerWeight(fan, n.miner)
            == Load(fan, n) + WeightIn(fan, n'.threads)(tid) + MinerWeight(fan, n'.miner)
  {
    var f, g := WeightIn(fan, n.threads), WeightIn(fan, n'.threads);
    forall t | t in n.threads.Keys - {tid} ensures f(t) == g(t) {
      assert t in n'.threads.Keys - {tid};
    }
    TotalAgree(n.threads.Keys - {tid}, f, g);
    if tid in n.threads { TotalPick(n.threads.Keys, f, tid); }
    else { assert n.threads.Keys - {tid} == n.threads.Keys; }
    if tid in n'.threads { TotalPick(n'.threads.Keys, g, tid); }
    else { assert n'.threads.Keys - {tid} == n'.threads.Keys; }
  }

  lemma AdvanceLoad(rules: Rules, fan: nat, n: Node, tid: nat)
    requires tid in n.threads && |n.replica.table| <= fan
    ensures Load(fan, AdvanceAt(rules, n, tid))
            + (if n.threads[tid].Pushing? then 2 * |Pushes(n.replica, n.threads[tid].ignore)| else 0)
            + (if n.threads[tid].Queueing? then 0 else 1)
            <= Load(fan, n)
  {
    hide Load, Pushes, AddTask, Matching, UpdateChainHashAll;
    LoadChange(fan, n, AdvanceAt(rules, n, tid), tid);
    if n.threads[tid].Pushing? {
      PushesSize(n.replica, n.threads[tid].ignore);
    }
  }

  lemma DeliverLoad(rules: Rules, fan: nat, n: Node, m: Push, tid: nat)
    requires tid !in n.threads
    ensures Load(fan, DeliverAt(rules, n, m, tid)) ==
            Load(fan, n) + (if Adoptable(rules, m.chain, n.replica.chain) then 2 * fan + 4 else 0)
  {
    hide Load, Adoptable, Rebuild, KeyImages, AdoptLocked;
    LoadChange(fan, n, DeliverAt(rules, n, m, tid), tid);
  }

  /** Steps of the miner, apart from adding a block, only ever shed weight. */
  lemma MinerLoad(rules: Rules, fan: nat, n: Node, a: Action)
    requires Actor(a).Some? && CanStep(rules, n, a) && |n.replica.table| <= fan
    requires !a.Submit? && !a.Deliver? && !a.Advance?
    requires a.Mine? ==> !StepAt(rules, n, a).miner.Recording?
    ensures Load(fan, StepAt(rules, n, a)) + 2 * |SentBy(n, a)| + (if a.Record? || a.Announce? then 1 else 0) <= Load(fan, n)
  {
    hide ValidateAddition, Mined, RecordVote, Load, Pushes;
    LoadChange(fan, n, StepAt(rules, n, a), 0);
    PushesSize(n.replica, {});
  }

  lemma SubmitLoad(rules: Rules, fan: nat, n: Node, tid: nat, task: MiningTask)
    requires tid !in n.threads
    ensures Load(fan, SubmitAt(rules, n, tid, task)) == Load(fan, n)
  {
    hide Load, TaskValid;
    LoadChange(fan, n, SubmitAt(rules, n, tid, task), tid);
  }

  /** Apart from an adoption, a step lowers its node's load by what it spends. */
  lemma StepLoad(rules: Rules, fan: nat, n: Node, a: Action)
    requires Actor(a).Some? && CanStep(rules, n, a) && |n.replica.table| <= fan
    requires a.Mine? ==> !StepAt(rules, n, a).miner.Recording?
    ensures !a.Deliver? ==>
              Load(fan, StepAt(rules, n, a)) + 2 * |SentBy(n, a)|
              + (if a.Record? || a.Announce? || (a.Advance? && !n.threads[a.tid].Queueing?) then 1 else 0)
              <= Load(fan, n)
    ensures a.Deliver? ==>
              && SentBy(n, a) == {}
              && Load(fan, StepAt(rules, n, a)) ==
                 Load(fan, n) + (if Adoptable(rules, a.push.chain, n.replica.chain) then 2 * fan + 4 else 0)
  {
    hide Load, Adoptable, Pushes, AdvanceAt, DeliverAt, SubmitAt, TakeAt, CheckSeenAt, SnapshotAt, MineAt, RecordAt, RequeueAt;
    match a
    case Advance(_, tid) => AdvanceLoad(rules, fan, n, tid);
    case Deliver(m, tid) => DeliverLoad(rules, fan, n, m, tid);
    case Submit(_, tid, task) => SubmitLoad(rules, fan, n, tid, task);
    case _ => MinerLoad(rules, fan, n, a);
  }

  // ---- The whole network ----

  lemma RankKept(rules: Rules, n: Node, a: Action)
    requires NodeOk(rules, n) && Actor(a).Some? && CanStep(rules, n, a)
    requires a.Mine? ==> !StepAt(rules, n, a).miner.Recording?
    ensures var n' := StepAt(rules, n, a);
            RankOf(n'.replica.chain) == RankOf(n.replica.chain)
            || (a.Deliver? && n'.replica.chain == a.push.chain
                && Adoptable(rules, a.push.chain, n.replica.chain))
    ensures a.Deliver? && Adoptable(rules, a.push.chain, n.replica.chain) ==>
              StepAt(rules, n, a).replica.chain == a.push.chain
  {
    hide NodeOk, ChainOk, RankOf, TailOk, ValidateAddition, Mined, TaskValid, RecordVote, Rebuild, KeyImages;
  }

  lemma SentChain(n: Node, a: Action, m: Push)
    requires m in SentBy(n, a)
    ensures m.chain == n.replica.chain
  {
  }

  /** A step that adds no block brings no new rank into the network. */
  lemma RanksShrink(rules: Rules, net: Net, a: Action)
    requires NetOk(rules, net) && Enabled(rules, net, a) && !AddsBlock(rules, net, a)
    ensures Ranks(Next(rules, net, a)) <= Ranks(net)
  {
    hide NodeOk, ChainOk, CanStep, StepAt, RankOf, SentBy, Adoptable;
    var net' := Next(rules, net, a);
    if Actor(a).Some? {
      RankKept(rules, net.nodes[Actor(a).value], a);
    }
    forall m | m in net'.inflight ensures RankOf(m.chain) in Ranks(net) {
      if m !in net.inflight {
        SentChain(net.nodes[Actor(a).value], a, m);
      }
    }
    forall p | p in net'.nodes ensures RankOf(net'.nodes[p].replica.chain) in Ranks(net) {
      if Actor(a) == Some(p) && RankOf(net'.nodes[p].replica.chain) != RankOf(net.nodes[p].replica.chain) {
        assert a.push in net.inflight;
      } else {
        assert p in net.nodes;
      }
    }
  }

  lemma AboveShrinks(rules: Rules, net: Net, a: Action, p: Peer)
    requires NetOk(rules, net) && Enabled(rules, net, a) && !AddsBlock(rules, net, a) && p in net.nodes
    ensures p in Next(rules, net, a).nodes
    ensures var net' := Next(rules, net, a);
            && |Above(net', p)| <= |Above(net, p)|
            && (a.Deliver? && a.push.to == p && Adoptable(rules, a.push.chain, net.nodes[p].replica.chain) ==>
                  |Above(net', p)| < |Above(net, p)|)
  {
    hide NodeOk, ChainOk, CanStep, StepAt, RankOf, SentBy, TailOk, Ranks;
    var net' := Next(rules, net, a);
    RanksShrink(rules, net, a);
    if Actor(a) == Some(p) {
      StepAdvances(rules, net.nodes[p], a);
      RankKept(rules, net.nodes[p], a);
    }
    SubsetSize(Above(net', p), Above(net, p));
    if a.Deliver? && a.push.to == p && Adoptable(rules, a.push.chain, net.nodes[p].replica.chain) {
      PushRankKnown(net, a.push);
      assert RankOf(a.push.chain) in Above(net, p) && RankOf(a.push.chain) !in Above(net', p);
    }
  }

  lemma PushRankKnown(net: Net, m: Push)
    requires m in net.inflight
    ensures RankOf(m.chain) in Ranks(net)
  {
  }

  lemma {:induction false} Scale(c: nat, x: nat, y: nat)
    requires x <= y
    ensures c * x <= c * y && (x < y ==> c * x + c <= c * y)
    decreases y
  {
    if x < y {
      Scale(c, x, y - 1);
      assert c * y == c * (y - 1) + c;
    }
  }

  /** The acting node's share falls by what the step spends, bar the push a delivery takes in. */
  lemma ActorShare(rules: Rules, fan: nat, net: Net, a: Action)
    requires NetOk(rules, net) && FanBound(fan, net) && Enabled(rules, net, a) && Actor(a).Some?
    requires !AddsBlock(rules, net, a)
    ensures var p := Actor(a).value;
            Share(fan, Next(rules, net, a), p) + |Sends(net, a)| + Cost(net, a)
            <= Share(fan, net, p) + (if a.Deliver? then 1 else 0)
  {
    hide NodeOk, ChainOk, CanStep, StepAt, SentBy, Above, Load, Adoptable, RankOf;
    var p := Actor(a).value;
    AboveShrinks(rules, net, a, p);
    StepLoad(rules, fan, net.nodes[p], a);
    Scale(2 * fan + 4, |Above(Next(rules, net, a), p)|, |Above(net, p)|);
  }

  lemma BystanderShare(rules: Rules, fan: nat, net: Net, a: Action, p: Peer)
    requires NetOk(rules, net) && Enabled(rules, net, a) && !AddsBlock(rules, net, a)
    requires p in net.nodes && Actor(a) != Some(p)
    ensures Share(fan, Next(rules, net, a), p) <= Share(fan, net, p)
  {
    hide NodeOk, ChainOk, CanStep, StepAt, SentBy, Above, Load;
    AboveShrinks(rules, net, a, p);
    Scale(2 * fan + 4, |Above(Next(rules, net, a), p)|, |Above(net, p)|);
  }

  /** Every step that adds no block and repeats no push lowers the potential by what it spends. */
  lemma StepSpends(rules: Rules, fan: nat, net: Net, a: Action)
    requires NetOk(rules, net) && FanBound(fan, net) && Enabled(rules, net, a)
    requires !AddsBlock(rules, net, a) && !a.Duplicate?
    ensures Potential(fan, Next(rules, net, a)) + Cost(net, a) <= Potential(fan, net)
  {
    hide NetOk, FanBound, CanStep, StepAt, SentBy, Share, AddsBlock, IsGossip, Contacts;
    var net' := Next(rules, net, a);
    var f, g := ShareIn(fan, net), ShareIn(fan, net');
    StepSameGraph(rules, net, a);
    forall p | p in net.nodes && Actor(a) != Some(p) ensures g(p) <= f(p) {
      BystanderShare(rules, fan, net, a, p);
    }
    if Actor(a).None? {
      TotalAtMost(net.nodes.Keys, g, f);
      DropSpendsNothing(net, a);
    } else {
      var p := Actor(a).value;
      ActorShare(rules, fan, net, a);
      TotalPick(net.nodes.Keys, f, p);
      TotalPick(net.nodes.Keys, g, p);
      TotalAtMost(net.nodes.Keys - {p}, g, f);
    }
  }

  lemma DropSpendsNothing(net: Net, a: Action)
    ensures Actor(a).None? ==> Cost(net, a) == 0
  {
  }

  lemma FanKept(rules: Rules, fan: nat, net: Net, a: Action)
    requires NetOk(rules, net) && FanBound(fan, net) && Enabled(rules, net, a)
    ensures FanBound(fan, Next(rules, net, a))
  {
    hide NodeOk, ChainOk, CanStep, StepAt, SentBy, Contacts;
    var net' := Next(rules, net, a);
    StepSameGraph(rules, net, a);
    forall p | p in net'.nodes ensures |net'.nodes[p].replica.table| <= fan {
      ContactsAgree(net.nodes[p].replica.table, net'.nodes[p].replica.table);
      assert |net'.nodes[p].replica.table.Keys| == |net.nodes[p].replica.table.Keys|;
    }
  }

  /** No step of the run adds a block or repeats a push. */
  ghost predicate OnlyGossip(rules: Rules, net: Net, run: seq<Action>)
    requires Legal(rules, net, run)
    decreases |run|
  {
    run != [] ==> !AddsBlock(rules, net, run[0]) && !run[0].Duplicate? && OnlyGossip(rules, Next(rules, net, run[0]), run[1..])
  }

  /** Gossip steps taken plus pushes sent over a run. */
  ghost function Spent(rules: Rules, net: Net, run: seq<Action>): nat
    requires Legal(rules, net, run)
    decreases |run|
  {
    if run == [] then 0 else Cost(net, run[0]) + Spent(rules, Next(rules, net, run[0]), run[1..])
  }

  /**
   * Gossip terminates. From any reachable state, however long a run goes on without a new block,
   * its gossip steps and the pushes it sends together number at most the potential at its start.
   */
  lemma {:induction false} GossipTerminates(rules: Rules, fan: nat, net: Net, run: seq<Action>)
    requires NetOk(rules, net) && FanBound(fan, net)
    requires Legal(rules, net, run) && OnlyGossip(rules, net, run)
    ensures Spent(rules, net, run) + Potential(fan, After(rules, net, run)) <= Potential(fan, net)
    decreases |run|
  {
    hide NetOk, FanBound, Enabled, AddsBlock, Potential, Cost, Next;
    if run != [] {
      StepSpends(rules, fan, net, run[0]);
      NextKeeps(rules, net, run[0]);
      FanKept(rules, fan, net, run[0]);
      GossipTerminates(rules, fan, Next(rules, net, run[0]), run[1..]);
    }
  }
}
