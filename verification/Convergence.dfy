/**
 * Gossip brings every node to the same height and tip timestamp.
 *
 * Claimed for fixed peer tables over a strongly connected graph, with distinct node ids, digests
 * that do not collide and pushes that are not lost; delivery order, duplication and the interleaving
 * of handlers are arbitrary.
 */
module Convergence {
  import opened Bytes
  import opened Wrappers
  import opened Blocks
  import opened Chains
  import opened Replicas
  import opened Network
  import opened Safety

  // ---- The fixed peer graph ----

  /** Who each node's table entries point at; handlers only ever rewrite the digests beside them. */
  function Contacts(table: Table): map<string, Peer> {
    map id | id in table :: table[id].peer
  }

  function Rk(net: Net, p: Peer): Rank
    requires p in net.nodes
  {
    RankOf(net.nodes[p].replica.chain)
  }

  /** Ids are distinct, and a table entry for an id points at the node that has it. */
  ghost predicate WellNamed(net: Net) {
    && (forall p, q :: p in net.nodes && q in net.nodes && net.nodes[p].replica.id == net.nodes[q].replica.id ==> p == q)
    && (forall p, id :: p in net.nodes && id in net.nodes[p].replica.table ==>
          var q := net.nodes[p].replica.table[id].peer;
          q in net.nodes && net.nodes[q].replica.id == id)
  }

  ghost predicate Edge(net: Net, p: Peer, q: Peer) {
    p in net.nodes && exists id :: id in net.nodes[p].replica.table && net.nodes[p].replica.table[id].peer == q
  }

  ghost predicate Path(net: Net, path: seq<Peer>) {
    forall i :: 0 <= i < |path| - 1 ==> Edge(net, path[i], path[i + 1])
  }

  ghost predicate Reaches(net: Net, p: Peer, q: Peer) {
    exists path: seq<Peer> :: |path| > 0 && path[0] == p && path[|path| - 1] == q && Path(net, path)
  }

  ghost predicate Connected(net: Net, p: Peer, q: Peer) {
    p in net.nodes && q in net.nodes ==> Reaches(net, p, q)
  }

  ghost predicate StronglyConnected(net: Net) {
    forall p, q :: Connected(net, p, q)
  }

  /** Chain digests are distinct, and none is the empty string a new table entry starts with. */
  ghost predicate DigestsDistinct(rules: Rules) {
    && (forall c: seq<Block>, d: seq<Block> :: rules.chainHash(c) == rules.chainHash(d) ==> c == d)
    && (forall c: seq<Block> :: rules.chainHash(c) != "")
  }

  // ---- The inductive facts ----

  /** Node q has rank at least r, or a push of at least that rank is on its way to it. */
  ghost predicate Covered(net: Net, q: Peer, r: Rank) {
    && q in net.nodes
    && (AtMost(r, Rk(net, q)) || exists m :: m in net.inflight && m.to == q && AtMost(r, RankOf(m.chain)))
  }

  /** The handler in thread t will push to `id` when it gets there. */
  predicate ThreadWillPush(table: Table, t: Thread, id: string)
    requires id in table
  {
    match t
    case Queueing(_) => false
    case Caching(_, hash, already) => id !in already && table[id].chainHash != hash
    case Filtering(hash, already) => id !in already && table[id].chainHash != hash
    case Marking(_, ignore) => id !in ignore
    case Pushing(ignore) => id !in ignore
  }

  ghost predicate WillPush(n: Node, id: string)
    requires id in n.replica.table
  {
    || n.miner.Recording? || n.miner.Announcing?
    || exists tid :: tid in n.threads && ThreadWillPush(n.replica.table, n.threads[tid], id)
  }

  /** The inductive fact about an edge: its far end is covered, or this end still has a push to make. */
  ghost predicate EdgesOk(net: Net, p: Peer)
    requires p in net.nodes
  {
    forall id :: id in net.nodes[p].replica.table ==>
      Covered(net, net.nodes[p].replica.table[id].peer, Rk(net, p)) || WillPush(net.nodes[p], id)
  }

  /** Everyone a push names as already served, its sender included, is covered for that chain. */
  ghost predicate PushOk(net: Net, m: Push) {
    forall q :: q in net.nodes && (net.nodes[q].replica.id == m.sender || net.nodes[q].replica.id in m.sentTo) ==>
      Covered(net, q, RankOf(m.chain))
  }

  predicate Hashed(t: Thread) {
    t.Caching? || t.Filtering? || t.Marking?
  }

  /** The digest is unset, or belongs to a chain no higher than the node's own. */
  ghost predicate Known(rules: Rules, n: Node, hash: string) {
    hash == "" || exists c: seq<Block> :: rules.chainHash(c) == hash && AtMost(RankOf(c), RankOf(n.replica.chain))
  }

  /** Digests a node holds belong to the past, and each running adoption has its own. */
  ghost predicate DigestsOk(rules: Rules, n: Node) {
    && (forall id :: id in n.replica.table ==> Known(rules, n, n.replica.table[id].chainHash))
    && (forall tid :: tid in n.threads && Hashed(n.threads[tid]) ==> n.threads[tid].hash != "" && Known(rules, n, n.threads[tid].hash))
    && (forall t, u :: t in n.threads && u in n.threads && t != u && Hashed(n.threads[t]) && Hashed(n.threads[u]) ==>
          n.threads[t].hash != n.threads[u].hash)
  }

  ghost predicate GossipOk(rules: Rules, net: Net) {
    && NetOk(rules, net)
    && WellNamed(net)
    && (forall p :: p in net.nodes ==> DigestsOk(rules, net.nodes[p]) && EdgesOk(net, p))
    && (forall m :: m in net.inflight ==> PushOk(net, m))
  }

  // ---- What a step does to ranks and coverage ----

  /** The chain part of a step: a node's rank never falls, and its identity and contacts never change. */
  ghost predicate Advances(n: Node, n': Node) {
    && n'.replica.id == n.replica.id
    && Contacts(n'.replica.table) == Contacts(n.replica.table)
    && AtMost(RankOf(n.replica.chain), RankOf(n'.replica.chain))
  }

  lemma StepAdvances(rules: Rules, n: Node, a: Action)
    requires NodeOk(rules, n) && Actor(a).Some? && CanStep(rules, n, a)
    ensures Advances(n, StepAt(rules, n, a))
  {
    hide ChainOk, TasksOk, HistoryOk, TailOk, BlockValid, ValidateAddition, Mined;
    if a.Mine? {
      MineOutcome(rules, n, a.timestamp, a.nonce);
    }
  }

  /** A push is refused only by a node whose rank is already as high, so coverage is never lost. */
  lemma StepCovers(rules: Rules, net: Net, a: Action, q: Peer, r: Rank)
    requires NetOk(rules, net) && Enabled(rules, net, a) && !a.Drop?
    requires Covered(net, q, r)
    ensures Covered(Next(rules, net, a), q, r)
  {
    hide NodeOk, ChainOk, CanStep, StepAt;
    var net' := Next(rules, net, a);
    if Actor(a) == Some(q) {
      StepAdvances(rules, net.nodes[q], a);
    }
    if !AtMost(r, Rk(net', q)) {
      var m :| m in net.inflight && m.to == q && AtMost(r, RankOf(m.chain));
      if a.Deliver? && a.push == m {
        DeliveredRank(rules, net.nodes[q], a);
      }
      assert m in net'.inflight;
    }
  }

  lemma DeliveredRank(rules: Rules, n: Node, a: Action)
    requires a.Deliver? && CanStep(rules, n, a) && ChainOk(rules, a.push.chain)
    ensures AtMost(RankOf(a.push.chain), RankOf(StepAt(rules, n, a).replica.chain))
  {
    hide ChainOk, TailOk;
    HeadAndTail(rules, a.push.chain);
  }

  // ---- Digests stay in the past ----

  predicate Hashing(n: Node, tid: nat) {
    tid in n.threads && Hashed(n.threads[tid])
  }

  /** Every digest in n' was already held by n: beside the same contact, or by the same thread. */
  ghost predicate CarriesDigests(n: Node, n': Node) {
    && (forall id :: id in n'.replica.table ==>
          && id in n.replica.table
          && (n'.replica.table[id].chainHash == n.replica.table[id].chainHash
              || exists tid :: Hashing(n, tid) && n.threads[tid].hash == n'.replica.table[id].chainHash))
    && (forall tid :: Hashing(n', tid) ==> Hashing(n, tid) && n'.threads[tid].hash == n.threads[tid].hash)
  }

  lemma DigestsCarry(rules: Rules, n: Node, n': Node)
    requires DigestsOk(rules, n) && Advances(n, n') && CarriesDigests(n, n')
    ensures DigestsOk(rules, n')
  {
    hide Contacts, RankOf;
    forall hash | Known(rules, n, hash) ensures Known(rules, n', hash) {
      if hash != "" {
        var c: seq<Block> :| rules.chainHash(c) == hash && AtMost(RankOf(c), RankOf(n.replica.chain));
        assert AtMost(RankOf(c), RankOf(n'.replica.chain));
      }
    }
    forall tid | Hashing(n', tid) ensures n'.threads[tid].hash != "" && Known(rules, n', n'.threads[tid].hash) {
      assert Hashing(n, tid);
    }
    forall id | id in n'.replica.table ensures Known(rules, n', n'.replica.table[id].chainHash) {
    }
    forall t, u | Hashing(n', t) && Hashing(n', u) && t != u ensures n'.threads[t].hash != n'.threads[u].hash {
      assert Hashing(n, t) && Hashing(n, u);
    }
  }

  lemma StepCarriesDigests(rules: Rules, n: Node, a: Action)
    requires Actor(a).Some? && CanStep(rules, n, a) && !a.Deliver?
    ensures CarriesDigests(n, StepAt(rules, n, a))
  {
    hide ValidateAddition, Mined, TaskValid, RecordVote;
    var n' := StepAt(rules, n, a);
    if a.Advance? && n.threads[a.tid].Marking? {
      assert Hashing(n, a.tid);
    }
  }

  /** An adopted chain outranks everything this node has a digest of, so its digest is new here. */
  lemma AdoptedDigestIsNew(rules: Rules, n: Node, c: seq<Block>, hash: string)
    requires DigestsDistinct(rules) && Known(rules, n, hash)
    requires Below(RankOf(n.replica.chain), RankOf(c))
    ensures hash != rules.chainHash(c)
  {
  }

  lemma DeliverDigests(rules: Rules, n: Node, m: Push, tid: nat)
    requires DigestsDistinct(rules) && DigestsOk(rules, n) && tid !in n.threads
    ensures DigestsOk(rules, DeliverAt(rules, n, m, tid))
  {
    hide TailOk, RankOf, KeyImages, Rebuild;
    var n' := DeliverAt(rules, n, m, tid);
    if n' != n {
      var hash := rules.chainHash(m.chain);
      forall h | Known(rules, n, h) ensures Known(rules, n', h) && h != hash {
        AdoptedDigestIsNew(rules, n, m.chain, h);
      }
      assert Known(rules, n', hash);
    }
  }

  lemma StepDigests(rules: Rules, n: Node, a: Action)
    requires NodeOk(rules, n) && DigestsDistinct(rules) && DigestsOk(rules, n)
    requires Actor(a).Some? && CanStep(rules, n, a)
    ensures DigestsOk(rules, StepAt(rules, n, a))
  {
    hide NodeOk, DigestsOk, DigestsDistinct, DeliverAt, Advances, CarriesDigests;
    if a.Deliver? {
      DeliverDigests(rules, n, a.push, a.tid);
    } else {
      StepAdvances(rules, n, a);
      StepCarriesDigests(rules, n, a);
      DigestsCarry(rules, n, StepAt(rules, n, a));
    }
  }

  // ---- Every edge stays covered or about to be served ----

  /** This step sends n's chain to the contact named `id`. */
  predicate PushesTo(n: Node, a: Action, id: string)
    requires id in n.replica.table
  {
    exists m :: m in SentBy(n, a) && m.to == n.replica.table[id].peer && m.chain == n.replica.chain
  }

  /** An announced or woken push goes to every contact it promised. */
  lemma PromiseKept(rules: Rules, n: Node, a: Action, id: string)
    requires Actor(a).Some? && CanStep(rules, n, a) && id in n.replica.table
    requires a.Announce? || (a.Advance? && n.threads[a.tid].Pushing? && id !in n.threads[a.tid].ignore)
    ensures PushesTo(n, a, id)
  {
    var ignore := if a.Announce? then {} else n.threads[a.tid].ignore;
    assert Push(n.replica.table[id].peer, n.replica.chain, n.replica.id, n.replica.table.Keys - ignore) in SentBy(n, a);
  }

  lemma PromiseCarried(rules: Rules, n: Node, a: Action, id: string)
    requires DigestsOk(rules, n) && Actor(a).Some? && CanStep(rules, n, a) && !a.Deliver?
    requires id in n.replica.table && WillPush(n, id)
    requires id in StepAt(rules, n, a).replica.table
    ensures WillPush(StepAt(rules, n, a), id) || PushesTo(n, a, id)
  {
    hide Known, ValidateAddition, Mined, TaskValid, RecordVote, PushesTo;
    var n' := StepAt(rules, n, a);
    if a.Announce? {
      PromiseKept(rules, n, a, id);
    } else if !n.miner.Recording? && !n.miner.Announcing? {
      var tid :| tid in n.threads && ThreadWillPush(n.replica.table, n.threads[tid], id);
      if a.Advance? && a.tid == tid && n.threads[tid].Pushing? {
        PromiseKept(rules, n, a, id);
      } else {
        assert tid in n'.threads && ThreadWillPush(n'.replica.table, n'.threads[tid], id);
      }
    }
  }

  /** Mining a block that is not added, and every step that is neither mining nor delivery, keeps the chain. */
  lemma StepKeepsChain(rules: Rules, n: Node, a: Action)
    requires Actor(a).Some? && CanStep(rules, n, a) && !a.Deliver?
    ensures var n' := StepAt(rules, n, a);
            n'.miner.Recording? || n'.replica.chain == n.replica.chain
  {
    hide ValidateAddition, Mined, TaskValid, RecordVote;
  }

  /** After adopting a pushed chain, each contact was named by that push or will be pushed to next. */
  lemma AdoptionPromises(rules: Rules, n: Node, m: Push, tid: nat, id: string)
    requires DigestsDistinct(rules) && DigestsOk(rules, n) && tid !in n.threads
    requires id in n.replica.table && id !in m.sentTo && id != m.sender
    requires Adoptable(rules, m.chain, n.replica.chain)
    ensures WillPush(DeliverAt(rules, n, m, tid), id)
  {
    hide TailOk, RankOf, KeyImages, Rebuild;
    AdoptedDigestIsNew(rules, n, m.chain, n.replica.table[id].chainHash);
    var n' := DeliverAt(rules, n, m, tid);
    assert tid in n'.threads && ThreadWillPush(n'.replica.table, n'.threads[tid], id);
  }

  lemma RecordingPromises(n: Node, id: string)
    requires n.miner.Recording? && id in n.replica.table
    ensures WillPush(n, id)
  {
  }

  lemma DeliveryEdge(rules: Rules, net: Net, a: Action, id: string)
    requires GossipOk(rules, net) && DigestsDistinct(rules)
    requires Enabled(rules, net, a) && a.Deliver? && id in net.nodes[a.push.to].replica.table
    requires id in Next(rules, net, a).nodes[a.push.to].replica.table
    ensures var p, net' := a.push.to, Next(rules, net, a);
            Covered(net', net.nodes[p].replica.table[id].peer, Rk(net', p)) || WillPush(net'.nodes[p], id)
  {
    hide NodeOk, ChainOk, DigestsOk, DigestsDistinct, WillPush, TailOk, RankOf, Covered;
    var m, p := a.push, a.push.to;
    var n, q := net.nodes[p], net.nodes[p].replica.table[id].peer;
    if !Adoptable(rules, m.chain, n.replica.chain) {
      if !WillPush(n, id) {
        StepCovers(rules, net, a, q, Rk(net, p));
      }
    } else if id in m.sentTo || id == m.sender {
      assert PushOk(net, m);
      StepCovers(rules, net, a, q, RankOf(m.chain));
    } else {
      AdoptionPromises(rules, n, m, a.tid, id);
    }
  }

  lemma EdgeOfActor(rules: Rules, net: Net, a: Action, p: Peer, id: string)
    requires GossipOk(rules, net) && DigestsDistinct(rules)
    requires Enabled(rules, net, a) && Actor(a) == Some(p) && id in net.nodes[p].replica.table
    requires id in Next(rules, net, a).nodes[p].replica.table
    ensures var net' := Next(rules, net, a);
            Covered(net', net.nodes[p].replica.table[id].peer, Rk(net', p)) || WillPush(net'.nodes[p], id)
  {
    hide NodeOk, ChainOk, CanStep, StepAt, DigestsOk, DigestsDistinct, WillPush, SentBy, TailOk, RankOf;
    var n, net' := net.nodes[p], Next(rules, net, a);
    var n', q := net'.nodes[p], n.replica.table[id].peer;
    if a.Deliver? {
      DeliveryEdge(rules, net, a, id);
    } else {
      StepKeepsChain(rules, n, a);
      if n'.miner.Recording? {
        RecordingPromises(n', id);
      } else if WillPush(n, id) {
        PromiseCarried(rules, n, a, id);
        if PushesTo(n, a, id) {
          var m :| m in SentBy(n, a) && m.to == q && m.chain == n.replica.chain;
          assert m in net'.inflight;
        }
      } else {
        StepCovers(rules, net, a, q, Rk(net, p));
      }
    }
  }

  /** Ids and contacts, and the node set, are the same in both states. */
  ghost predicate SameGraph(net: Net, net': Net) {
    && net'.nodes.Keys == net.nodes.Keys
    && (forall p :: p in net.nodes ==>
          && net'.nodes[p].replica.id == net.nodes[p].replica.id
          && Contacts(net'.nodes[p].replica.table) == Contacts(net.nodes[p].replica.table))
  }

  lemma StepSameGraph(rules: Rules, net: Net, a: Action)
    requires NetOk(rules, net) && Enabled(rules, net, a)
    ensures SameGraph(net, Next(rules, net, a))
  {
    hide NodeOk, ChainOk, CanStep, StepAt;
    if Actor(a).Some? {
      StepAdvances(rules, net.nodes[Actor(a).value], a);
    }
  }

  lemma ContactsAgree(t: Table, t': Table)
    requires Contacts(t) == Contacts(t')
    ensures t.Keys == t'.Keys && forall id :: id in t ==> t[id].peer == t'[id].peer
  {
    assert forall id :: id in t <==> id in Contacts(t);
    assert forall id :: id in t' <==> id in Contacts(t');
    assert forall id :: id in t ==> Contacts(t)[id] == t[id].peer && Contacts(t')[id] == t'[id].peer;
  }

  lemma SameGraphNamed(net: Net, net': Net)
    requires SameGraph(net, net') && WellNamed(net)
    ensures WellNamed(net')
  {
    hide Contacts;
    forall p, id | p in net'.nodes && id in net'.nodes[p].replica.table
      ensures var q := net'.nodes[p].replica.table[id].peer; q in net'.nodes && net'.nodes[q].replica.id == id
    {
      ContactsAgree(net.nodes[p].replica.table, net'.nodes[p].replica.table);
      assert id in net.nodes[p].replica.table;
    }
  }

  /** Pushes just sent name only contacts that were sent the same chain. */
  lemma NewPushOk(rules: Rules, net: Net, a: Action, m: Push)
    requires GossipOk(rules, net) && Enabled(rules, net, a) && Actor(a).Some?
    requires m in SentBy(net.nodes[Actor(a).value], a)
    ensures PushOk(Next(rules, net, a), m)
  {
    hide NodeOk, ChainOk, CanStep, DigestsOk, StepAt;
    var p, net' := Actor(a).value, Next(rules, net, a);
    var n := net.nodes[p];
    StepSameGraph(rules, net, a);
    StepAdvances(rules, n, a);
    forall q | q in net'.nodes && (net'.nodes[q].replica.id == m.sender || net'.nodes[q].replica.id in m.sentTo)
      ensures Covered(net', q, RankOf(m.chain))
    {
      if net'.nodes[q].replica.id == m.sender {
        assert q == p;
      } else {
        var id := net'.nodes[q].replica.id;
        assert n.replica.table[id].peer == q;
        var twin := Push(q, n.replica.chain, n.replica.id, m.sentTo);
        assert twin in SentBy(n, a);
        assert twin in net'.inflight;
      }
    }
  }

  lemma OldPushOk(rules: Rules, net: Net, a: Action, m: Push)
    requires GossipOk(rules, net) && Enabled(rules, net, a) && !a.Drop?
    requires m in net.inflight
    ensures PushOk(Next(rules, net, a), m)
  {
    hide NodeOk, ChainOk, CanStep, DigestsOk, StepAt, Covered, SentBy, EdgesOk;
    StepSameGraph(rules, net, a);
    assert PushOk(net, m);
    var net' := Next(rules, net, a);
    forall q | q in net'.nodes && (net'.nodes[q].replica.id == m.sender || net'.nodes[q].replica.id in m.sentTo)
      ensures Covered(net', q, RankOf(m.chain))
    {
      StepCovers(rules, net, a, q, RankOf(m.chain));
    }
  }

  /** Every edge from the acting node. */
  lemma ActorEdges(rules: Rules, net: Net, a: Action, p: Peer)
    requires GossipOk(rules, net) && DigestsDistinct(rules) && Enabled(rules, net, a) && Actor(a) == Some(p)
    ensures p in Next(rules, net, a).nodes && EdgesOk(Next(rules, net, a), p)
  {
    hide GossipOk, CanStep, DigestsDistinct, StepAt, Covered, SentBy, WillPush, RankOf, Contacts;
    GossipIsNetOk(rules, net);
    StepSameGraph(rules, net, a);
    var net' := Next(rules, net, a);
    ContactsAgree(net.nodes[p].replica.table, net'.nodes[p].replica.table);
    forall id | id in net'.nodes[p].replica.table
      ensures Covered(net', net'.nodes[p].replica.table[id].peer, Rk(net', p)) || WillPush(net'.nodes[p], id)
    {
      EdgeOfActor(rules, net, a, p, id);
    }
  }

  /** Every edge from a node the step does not touch: its own promises stand, and coverage is never lost. */
  lemma BystanderEdges(rules: Rules, net: Net, a: Action, p: Peer)
    requires NetOk(rules, net) && Enabled(rules, net, a) && !a.Drop? && Actor(a) != Some(p)
    requires p in net.nodes && EdgesOk(net, p)
    ensures p in Next(rules, net, a).nodes && EdgesOk(Next(rules, net, a), p)
  {
    hide NetOk, CanStep, StepAt, Covered, SentBy, WillPush, RankOf;
    var n, net' := net.nodes[p], Next(rules, net, a);
    assert net'.nodes[p] == n;
    forall id | id in n.replica.table && !WillPush(n, id) ensures Covered(net', n.replica.table[id].peer, Rk(net', p)) {
      StepCovers(rules, net, a, n.replica.table[id].peer, Rk(net, p));
    }
  }

  lemma EdgesStep(rules: Rules, net: Net, a: Action, p: Peer)
    requires GossipOk(rules, net) && DigestsDistinct(rules) && Enabled(rules, net, a) && !a.Drop?
    requires p in net.nodes
    ensures p in Next(rules, net, a).nodes && EdgesOk(Next(rules, net, a), p)
  {
    hide NetOk, WellNamed, DigestsOk, EdgesOk, PushOk, Enabled, Next, DigestsDistinct;
    if Actor(a) == Some(p) {
      ActorEdges(rules, net, a, p);
    } else {
      BystanderEdges(rules, net, a, p);
    }
  }

  lemma GossipKeeps(rules: Rules, net: Net, a: Action)
    requires GossipOk(rules, net) && DigestsDistinct(rules) && Enabled(rules, net, a) && !a.Drop?
    ensures GossipOk(rules, Next(rules, net, a))
  {
    hide NodeOk, ChainOk, CanStep, DigestsOk, DigestsDistinct, StepAt, SentBy, EdgesOk, PushOk, WellNamed;
    var net' := Next(rules, net, a);
    NextKeeps(rules, net, a);
    StepSameGraph(rules, net, a);
    SameGraphNamed(net, net');
    forall p | p in net'.nodes ensures DigestsOk(rules, net'.nodes[p]) && EdgesOk(net', p) {
      assert p in net.nodes;
      EdgesStep(rules, net, a, p);
      if Actor(a) == Some(p) {
        StepDigests(rules, net.nodes[p], a);
      }
    }
    forall m | m in net'.inflight ensures PushOk(net', m) {
      if m in net.inflight {
        OldPushOk(rules, net, a, m);
      } else {
        NewPushOk(rules, net, a, m);
      }
    }
  }

  // ---- Whole runs ----

  ghost predicate Lossless(run: seq<Action>) {
    forall i :: 0 <= i < |run| ==> !run[i].Drop?
  }

  lemma {:induction false} GossipRun(rules: Rules, net: Net, run: seq<Action>)
    requires GossipOk(rules, net) && DigestsDistinct(rules) && Legal(rules, net, run) && Lossless(run)
    ensures GossipOk(rules, After(rules, net, run))
    ensures SameGraph(net, After(rules, net, run))
    decreases |run|
  {
    hide GossipOk, Enabled, DigestsDistinct, Contacts;
    if run != [] {
      assert !run[0].Drop?;
      GossipKeeps(rules, net, run[0]);
      GossipIsNetOk(rules, net);
      StepSameGraph(rules, net, run[0]);
      GossipRun(rules, Next(rules, net, run[0]), run[1..]);
    }
  }

  lemma GossipIsNetOk(rules: Rules, net: Net)
    requires GossipOk(rules, net)
    ensures NetOk(rules, net)
  {
  }

  lemma InitialGossip(rules: Rules, net: Net)
    requires Initial(net) && WellNamed(net)
    ensures GossipOk(rules, net)
  {
    hide NetOk;
    InitialOk(rules, net);
    forall p | p in net.nodes ensures EdgesOk(net, p) {
      forall id | id in net.nodes[p].replica.table ensures Covered(net, net.nodes[p].replica.table[id].peer, Rk(net, p)) {
        assert FreshNode(net.nodes[net.nodes[p].replica.table[id].peer]);
      }
    }
  }

  /** Nothing is in flight and no handler is on its way to sending. */
  ghost predicate Quiet(net: Net) {
    && net.inflight == multiset{}
    && (forall p :: p in net.nodes ==>
          && !net.nodes[p].miner.Recording? && !net.nodes[p].miner.Announcing?
          && forall tid :: tid in net.nodes[p].threads ==> net.nodes[p].threads[tid].Queueing?)
  }

  lemma QuietEdge(rules: Rules, net: Net, p: Peer, q: Peer)
    requires GossipOk(rules, net) && Quiet(net) && Edge(net, p, q)
    ensures q in net.nodes && AtMost(Rk(net, p), Rk(net, q))
  {
    hide NodeOk, ChainOk, DigestsOk, RankOf, PushOk;
    var id :| id in net.nodes[p].replica.table && net.nodes[p].replica.table[id].peer == q;
    assert EdgesOk(net, p);
    assert !WillPush(net.nodes[p], id);
  }

  lemma {:induction false} QuietPath(rules: Rules, net: Net, path: seq<Peer>)
    requires GossipOk(rules, net) && Quiet(net)
    requires |path| > 0 && path[0] in net.nodes && Path(net, path)
    ensures path[|path| - 1] in net.nodes && AtMost(Rk(net, path[0]), Rk(net, path[|path| - 1]))
    decreases |path|
  {
    hide GossipOk, Quiet, Edge, RankOf;
    if |path| > 1 {
      assert Edge(net, path[0], path[1]);
      QuietEdge(rules, net, path[0], path[1]);
      forall i | 0 <= i < |path[1..]| - 1 ensures Edge(net, path[1..][i], path[1..][i + 1]) {
        assert Edge(net, path[i + 1], path[i + 2]);
      }
      QuietPath(rules, net, path[1..]);
    }
  }

  lemma SameGraphEdge(net: Net, net': Net, p: Peer, q: Peer)
    requires SameGraph(net, net') && Edge(net, p, q)
    ensures Edge(net', p, q)
  {
    hide Contacts;
    ContactsAgree(net.nodes[p].replica.table, net'.nodes[p].replica.table);
  }

  /**
   * Convergence. However handlers and deliveries interleave, whenever no push is left to send or
   * deliver, all nodes have the same height and the same tip timestamp.
   */
  lemma QuietMeansSameRank(rules: Rules, net: Net, run: seq<Action>, p: Peer, q: Peer)
    requires Initial(net) && WellNamed(net) && StronglyConnected(net) && DigestsDistinct(rules)
    requires Legal(rules, net, run) && Lossless(run) && Quiet(After(rules, net, run))
    requires p in net.nodes && q in net.nodes
    ensures p in After(rules, net, run).nodes && q in After(rules, net, run).nodes
    ensures Rk(After(rules, net, run), p) == Rk(After(rules, net, run), q)
    ensures var a, b := After(rules, net, run).nodes[p].replica.chain, After(rules, net, run).nodes[q].replica.chain;
            |a| == |b| && (a != [] ==> a[|a| - 1].timestamp == b[|b| - 1].timestamp)
  {
    hide Initial, WellNamed, GossipOk, Quiet, DigestsDistinct, RankOf, Edge, Lossless, SameGraph;
    var now := After(rules, net, run);
    InitialGossip(rules, net);
    GossipRun(rules, net, run);
    RankNotBelow(rules, net, now, p, q);
    RankNotBelow(rules, net, now, q, p);
    RanksAgree(now.nodes[p].replica.chain, now.nodes[q].replica.chain);
  }

  lemma RanksAgree(a: seq<Block>, b: seq<Block>)
    requires AtMost(RankOf(a), RankOf(b)) && AtMost(RankOf(b), RankOf(a))
    ensures RankOf(a) == RankOf(b)
    ensures |a| == |b| && (a != [] ==> a[|a| - 1].timestamp == b[|b| - 1].timestamp)
  {
  }

  lemma RankNotBelow(rules: Rules, net: Net, now: Net, p: Peer, q: Peer)
    requires StronglyConnected(net) && SameGraph(net, now) && GossipOk(rules, now) && Quiet(now)
    requires p in net.nodes && q in net.nodes
    ensures p in now.nodes && q in now.nodes && AtMost(Rk(now, p), Rk(now, q))
  {
    hide GossipOk, Quiet, RankOf, Edge, Contacts;
    assert Connected(net, p, q);
    var path: seq<Peer> :| |path| > 0 && path[0] == p && path[|path| - 1] == q && Path(net, path);
    forall i | 0 <= i < |path| - 1 ensures Edge(now, path[i], path[i + 1]) {
      assert Edge(net, path[i], path[i + 1]);
      SameGraphEdge(net, now, path[i], path[i + 1]);
    }
    QuietPath(rules, now, path);
  }

  function TipHash(net: Net, p: Peer): bytes
    requires p in net.nodes
  {
    var chain := net.nodes[p].replica.chain;
    if chain == [] then [] else chain[|chain| - 1].hash
  }

  /** Two nodes of a quiet network hold the same chain when they hold the same tip; module Forks says which runs end so. */
  lemma QuietMeansSameChain(rules: Rules, net: Net, run: seq<Action>, p: Peer, q: Peer)
    requires Initial(net) && WellNamed(net) && StronglyConnected(net) && DigestsDistinct(rules) && CollisionFree(rules)
    requires Legal(rules, net, run) && Lossless(run) && Quiet(After(rules, net, run))
    requires p in net.nodes && q in net.nodes
    ensures p in After(rules, net, run).nodes && q in After(rules, net, run).nodes
    ensures var now := After(rules, net, run);
            now.nodes[p].replica.chain == now.nodes[q].replica.chain <==> TipHash(now, p) == TipHash(now, q)
  {
    hide GossipOk, Initial, WellNamed, StronglyConnected, DigestsDistinct, CollisionFree, ChainOk, Quiet, Lossless;
    var now := After(rules, net, run);
    QuietMeansSameRank(rules, net, run, p, q);
    NetworkSafety(rules, net, run);
    if TipHash(now, p) == TipHash(now, q) {
      SameTipSameChain(rules, now.nodes[p].replica.chain, now.nodes[q].replica.chain);
    }
  }
}
