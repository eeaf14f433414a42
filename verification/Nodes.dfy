/**
 * One node's objects and handlers as the code runs them (blockchain/src/app.rs and the structures it
 * locks), each proved against the value functions of module Replicas.
 */
module Nodes {
  import opened Bytes
  import opened Wrappers
  import opened Blocks
  import opened Chains
  import opened Replicas

  class VoteCache {
    var countedKeyImages: set<bytes>
    var tally: map<string, nat>

    function Value(): Cache
      reads this
    {
      Cache(countedKeyImages, tally)
    }

    constructor ()
      ensures Value() == EMPTY_CACHE
    {
      countedKeyImages, tally := {}, map[];
    }

    method Record(keyImage: bytes, candidate: string)
      modifies this
      ensures Value() == RecordVote(old(Value()), keyImage, candidate)
    {
      if keyImage !in countedKeyImages {
        countedKeyImages := countedKeyImages + {keyImage};
        if candidate !in tally {
          tally := tally[candidate := 0];
        }
        tally := tally[candidate := tally[candidate] + 1];
      }
    }

    method TotalVotes() returns (n: nat)
      ensures n == |Value().counted|
    {
      n := |countedKeyImages|;
    }
  }

  class KnownPeers {
    var peers: seq<Peer>
    var idMap: Table

    constructor ()
      ensures peers == [] && idMap == map[]
    {
      peers, idMap := [], map[];
    }

    /** A new peer's chain digest is not known yet. */
    method AddPeer(peer: Peer, id: string)
      modifies this
      ensures peers == old(peers) + [peer]
      ensures idMap == old(idMap)[id := Entry(peer, "")]
    {
      peers := peers + [peer];
      idMap := idMap[id := Entry(peer, "")];
    }

    /** Drops every mention of a peer, and says whether it was listed. */
    method RemovePeer(peer: Peer) returns (removed: bool)
      modifies this
      ensures removed <==> peer in old(peers)
      ensures peer !in peers && multiset(peers) == multiset(old(peers))[peer := 0]
      ensures idMap == map id | id in old(idMap) && old(idMap)[id].peer != peer :: old(idMap)[id]
    {
      var kept: seq<Peer> := [];
      for i := 0 to |peers|
        invariant peers == old(peers) && idMap == old(idMap)
        invariant peer !in kept && |kept| <= i
        invariant |kept| == i <==> peer !in peers[..i]
        invariant multiset(kept) == multiset(peers[..i])[peer := 0]
      {
        assert peers[..i + 1] == peers[..i] + [peers[i]];
        if peers[i] != peer {
          kept := kept + [peers[i]];
        }
      }
      assert peers[..|peers|] == peers;
      removed := |kept| != |peers|;
      peers := kept;
      idMap := map id | id in idMap && idMap[id].peer != peer :: idMap[id];
    }

    method UpdateHash(id: string, hash: string)
      modifies this`idMap
      ensures idMap == UpdateChainHash(old(idMap), id, hash)
    {
      if id in idMap {
        idMap := idMap[id := idMap[id].(chainHash := hash)];
      }
    }

    method UpdateHashAll(hash: string)
      modifies this`idMap
      ensures idMap == UpdateChainHashAll(old(idMap), hash)
    {
      var todo := idMap.Keys;
      while todo != {}
        invariant todo <= idMap.Keys == old(idMap.Keys)
        invariant forall id :: id in idMap ==>
                    idMap[id] == if id in todo then old(idMap)[id] else old(idMap)[id].(chainHash := hash)
        decreases |todo|
      {
        var id :| id in todo;
        idMap := idMap[id := idMap[id].(chainHash := hash)];
        todo := todo - {id};
      }
    }
  }

  class MiningPool {
    var tasks: seq<MiningTask>

    constructor ()
      ensures tasks == []
    {
      tasks := [];
    }

    method Add(task: MiningTask, rules: Rules) returns (added: bool)
      modifies this
      ensures tasks == AddTask(rules, old(tasks), task)
      ensures added <==> tasks != old(tasks)
    {
      if Queued(tasks, task.keyImage) {
        return false;
      }
      if !rules.candidateOk(task.candidate) {
        return false;
      }
      tasks := tasks + [task];
      return true;
    }

    method TakeLast() returns (task: Option<MiningTask>)
      modifies this
      ensures old(tasks) == [] ==> task == None && tasks == []
      ensures old(tasks) != [] ==> task.Some? && old(tasks) == tasks + [task.value]
    {
      if tasks == [] {
        return None;
      }
      task := Some(tasks[|tasks| - 1]);
      tasks := tasks[..|tasks| - 1];
    }

    method Requeue(task: MiningTask)
      modifies this
      ensures tasks == old(tasks) + [task]
    {
      tasks := tasks + [task];
    }
  }

  class App {
    const nodeId: string
    const rules: Rules
    const chain: Chain
    const miningPool: MiningPool
    const knownPeers: KnownPeers
    var seenKeyImages: set<bytes>
    var rejectedBallots: nat
    var votesCache: VoteCache

    function State(): Replica
      reads this, chain, miningPool, knownPeers, votesCache
    {
      Replica(nodeId, chain.blocks, seenKeyImages, knownPeers.idMap, miningPool.tasks, votesCache.Value(), rejectedBallots)
    }

    constructor (nodeId: string, rules: Rules)
      ensures this.nodeId == nodeId && this.rules == rules
      ensures State() == Replica(nodeId, [], {}, map[], [], EMPTY_CACHE, 0)
      ensures fresh(chain) && fresh(miningPool) && fresh(knownPeers) && fresh(votesCache)
    {
      this.nodeId, this.rules := nodeId, rules;
      chain := new Chain();
      miningPool := new MiningPool();
      knownPeers := new KnownPeers();
      votesCache := new VoteCache();
      seenKeyImages, rejectedBallots := {}, 0;
    }

    /** `push_chain_sync`: what is sent for the current chain and table. */
    method PushChainSync(ignore: set<string>) returns (sent: set<Push>)
      ensures sent == Pushes(State(), ignore)
    {
      var table, blocks := knownPeers.idMap, chain.blocks;
      var sentIds := set id | id in table && id !in ignore;
      sent := set id | id in sentIds :: Push(table[id].peer, blocks, nodeId, sentIds);
      assert sentIds == table.Keys - ignore;
    }

    /** The loop of `sync_chain` that refills the seen-set and a new vote cache. */
    method Recount(newChain: seq<Block>) returns (seen: set<bytes>, cache: VoteCache)
      ensures seen == KeyImages(newChain)
      ensures fresh(cache) && cache.Value() == Rebuild(newChain)
    {
      hide RecordVote, KeyImages, Rebuild;
      RecountEmpty();
      seen := {};
      cache := new VoteCache();
      for i := 0 to |newChain|
        invariant seen == KeyImages(newChain[..i])
        invariant fresh(cache) && cache.Value() == Rebuild(newChain[..i])
      {
        RecountOne(newChain, i);
        seen := seen + {newChain[i].keyImage};
        cache.Record(newChain[i].keyImage, newChain[i].data);
      }
      assert newChain[..|newChain|] == newChain;
    }

    /** `sync_chain`. */
    method SyncChain(newChain: seq<Block>, sender: string, alreadySent: set<string>) returns (sent: set<Push>)
      modifies this, chain, knownPeers
      ensures (State(), sent) == SyncWhole(rules, old(State()), newChain, sender, alreadySent)
      ensures votesCache == old(votesCache) || fresh(votesCache)
    {
      hide Adoptable, KeyImages, Rebuild, Pushes, Matching, UpdateChainHashAll, UpdateChainHash, RecordVote;
      assert [] + newChain == newChain;
      var verdict := Chain.Validate(newChain, chain.blocks, rules);
      if verdict.Err? {
        return {};
      }
      chain.Clear();
      var seen, cache := Recount(newChain);
      seenKeyImages := seen;
      chain.Extend(newChain);
      var chainHash := rules.chainHash(chain.blocks);
      knownPeers.UpdateHash(sender, chainHash);
      votesCache := cache;
      var peersToIgnore := Matching(knownPeers.idMap, chainHash);
      knownPeers.UpdateHashAll(chainHash);
      sent := PushChainSync(peersToIgnore + alreadySent);
    }

    /** `add_block_to_chain`. */
    method AddBlockToChain(b: Block) returns (result: AdditionResult, sent: set<Push>)
      modifies this`seenKeyImages, chain, votesCache
      ensures (State(), result, sent) == AddWhole(rules, old(State()), b)
    {
      result := ValidateAddition(rules, seenKeyImages, chain.blocks, b);
      sent := {};
      if result == AddBlock {
        chain.Push(b);
        seenKeyImages := seenKeyImages + {b.keyImage};
        votesCache.Record(b.keyImage, b.data);
        sent := PushChainSync({});
      }
    }

    /** `add_mining_task` up to the start of mining. */
    method QueueTask(task: MiningTask) returns (queued: bool)
      modifies this`rejectedBallots, miningPool
      ensures State() == Enqueue(rules, old(State()), task)
      ensures queued <==> |State().pool| > |old(State()).pool|
    {
      if !TaskValid(rules, task) {
        rejectedBallots := rejectedBallots + 1;
        return false;
      }
      if task.keyImage in seenKeyImages {
        rejectedBallots := rejectedBallots + 1;
        return false;
      }
      queued := miningPool.Add(task, rules);
    }

    /** What other handlers do while this one holds no lock: pushes are processed and ballots queued, in order. */
    method Meanwhile(events: seq<Event>) returns (adopted: nat, queued: nat)
      requires ReplicaOk(rules, State()) && Sound(rules, events)
      modifies this, chain, knownPeers, miningPool
      ensures ReplicaOk(rules, State())
      ensures old(State().pool) <= State().pool && |State().pool| == |old(State().pool)| + queued
      ensures |old(State().chain)| <= |State().chain|
      ensures adopted <= Pushed(events)
      ensures adopted == 0 ==> State().chain == old(State().chain) && State().seen == old(State().seen)
      ensures events == [] ==> State() == old(State()) && adopted == 0
      ensures votesCache == old(votesCache) || fresh(votesCache)
    {
      hide TaskValid, ChainOk, Enqueue, SyncWhole, ReplicaOk, Pushed;
      adopted, queued := 0, 0;
      NonePushed();
      for i := 0 to |events|
        invariant ReplicaOk(rules, State())
        invariant old(State().pool) <= State().pool && |State().pool| == |old(State().pool)| + queued
        invariant |old(State().chain)| <= |State().chain|
        invariant adopted <= Pushed(events[..i])
        invariant adopted == 0 ==> State().chain == old(State().chain) && State().seen == old(State().seen)
        invariant i == 0 ==> State() == old(State()) && adopted == 0
        invariant votesCache == old(votesCache) || fresh(votesCache)
      {
        ghost var before := State();
        OneMorePushed(events, i);
        match events[i]
        case Arrives(m) =>
          var tip := RankOf(chain.blocks);
          SyncStep(rules, before, m);
          var _ := SyncChain(m.chain, m.sender, m.sentTo);
          if RankOf(chain.blocks) != tip {
            adopted := adopted + 1;
          }
        case Submits(task) =>
          EnqueueStep(rules, before, task);
          var more := QueueTask(task);
          if more {
            queued := queued + 1;
          }
      }
      assert events[..|events|] == events;
    }

    /**
     * One task of the drain loop that is not on the chain yet: snapshot the chain, mine, and try to
     * add the block, with what other handlers do while it is being mined.
     */
    method MineTask(work: Work, k: nat, task: MiningTask, mining: seq<Event>)
      returns (result: AdditionResult, adopted: nat, queued: nat, pushed: set<Push>)
      requires ReplicaOk(rules, State()) && Mines(rules, work) && TaskValid(rules, task) && Sound(rules, mining)
      modifies this, chain, knownPeers, miningPool, votesCache
      ensures ReplicaOk(rules, State())
      ensures old(State().pool) <= State().pool && |State().pool| == |old(State().pool)| + queued
      ensures task.keyImage in State().seen || result == AttemptedLateAdd
      ensures result == AttemptedLateAdd ==> adopted > 0
      ensures adopted <= Pushed(mining)
      ensures mining == [] ==>
                (State(), result, pushed) == AddWhole(rules, old(State()), MinedOn(rules, work, k, old(State().chain), task))
      ensures votesCache == old(votesCache) || fresh(votesCache)
    {
      hide TaskValid, BlockValid, Tallies, ChainOk, RecordVote, ValidateAddition, Pushes, Sound, Pushed;
      var last := if chain.blocks == [] then None else Some(chain.blocks[|chain.blocks| - 1]);
      var len := |chain.blocks|;
      adopted, queued := Meanwhile(mining);
      var header := Header(task, last, if len > 0 then len - 1 else 0, work.clock(k));
      var b := MineBlock(rules, task, last, if len > 0 then len - 1 else 0, work.clock(k), work.search(header));
      LateOrRecorded(rules, State(), task, last, len, work.clock(k), work.search(header));
      result, pushed := AddBlockToChain(b);
    }

    /** The rest of a turn once the task is known not to be on the chain: mine it, and put it back if the chain moved. */
    method MineTurn(work: Work, k: nat, task: MiningTask, turn: Turn)
      returns (result: AdditionResult, adopted: nat, queued: nat, pushed: set<Push>)
      requires ReplicaOk(rules, State()) && Mines(rules, work) && TaskValid(rules, task) && SoundTurn(rules, turn)
      modifies this, chain, knownPeers, miningPool, votesCache
      ensures ReplicaOk(rules, State())
      ensures |State().pool| <= |old(State().pool)| + queued + adopted
      ensures Pushed(turn.afterTake) + adopted <= PushedDuring(turn)
      ensures turn == IDLE_TURN ==>
                && adopted == 0 && queued == 0 && |State().pool| == |old(State().pool)|
                && (State(), result, pushed) == AddWhole(rules, old(State()), MinedOn(rules, work, k, old(State().chain), task))
      ensures votesCache == old(votesCache) || fresh(votesCache)
    {
      hide TaskValid, ReplicaOk, AddWhole, MinedOn, Mines, Sound, Pushed;
      NonePushed();
      AddKeepsPool(rules, State(), MinedOn(rules, work, k, State().chain, task));
      var a1, q1 := Meanwhile(turn.beforeSnapshot);
      var a2, q2;
      result, a2, q2, pushed := MineTask(work, k, task, turn.mining);
      var a3, q3 := Meanwhile(turn.beforeRequeue);
      adopted, queued := a1 + a2 + a3, q1 + q2 + q3;
      if result == AttemptedLateAdd {
        PoolGrows(rules, State(), task);
        miningPool.Requeue(task);
      }
    }

    /**
     * `drive_mining_pool`, with what other handlers do in the i-th turn wherever the loop holds no lock.
     * A block mined on a chain that was replaced meanwhile is retried; each retry is paid for by an
     * adoption, and every other turn by a queued ballot.
     */
    method DriveMiningPool(work: Work, turns: seq<Turn>)
      returns (taken: nat, adoptions: nat, queued: nat, sent: seq<set<Push>>)
      requires ReplicaOk(rules, State()) && Mines(rules, work)
      requires forall i :: 0 <= i < |turns| ==> SoundTurn(rules, turns[i])
      modifies this, chain, miningPool, knownPeers, votesCache
      ensures ReplicaOk(rules, State()) && State().pool == []
      ensures taken <= |old(State().pool)| + queued + adoptions && adoptions <= PushedIn(turns)
      ensures turns == [] ==> (State(), sent) == Drain(rules, work, old(State()), 0) && queued == 0
    {
      hide TaskValid, ReplicaOk, AddWhole, MinedOn, Mines, Drain, Sound, SoundTurn, Pushed, PushedIn, PushedDuring;
      taken, adoptions, queued, sent := 0, 0, 0, [];
      var i, k := 0, 0;
      PrependEmpty(Drain(rules, work, State(), 0));
      NoTurns(turns);
      while true
        invariant ReplicaOk(rules, State())
        invariant taken + |State().pool| <= |old(State().pool)| + queued + adoptions
        invariant adoptions <= PushedIn(turns[..if i < |turns| then i else |turns|])
        invariant votesCache == old(votesCache) || fresh(votesCache)
        invariant turns == [] ==> Drain(rules, work, old(State()), 0) == Prepend(sent, Drain(rules, work, State(), k)) && queued == 0
        decreases if i < |turns| then |turns| - i else 0, |State().pool|
      {
        ghost var before := State();
        var next := miningPool.TakeLast();
        if next.None? {
          DrainEmpty(rules, work, before, k);
          assert sent + [] == sent;
          NextTurn(turns, i);
          break;
        }
        taken := taken + 1;
        var task := next.value;
        PoolShrinks(rules, before, State().pool, task);
        DrainTurn(rules, work, before, State().pool, task, k);
        var turn := TurnAt(turns, i);
        NextTurn(turns, i);
        TurnIsSound(rules, turns, i);
        i := i + 1;
        var a0, q0 := Meanwhile(turn.afterTake);
        adoptions, queued := adoptions + a0, queued + q0;
        if task.keyImage in seenKeyImages {
          continue;
        }
        var result, adopted, more, pushed := MineTurn(work, k, task, turn);
        k := k + 1;
        adoptions, queued := adoptions + adopted, queued + more;
        if result == AddBlock {
          sent := sent + [pushed];
        }
      }
    }
  }

  // ---- What other handlers do meanwhile ----

  /** Another handler of the same node runs: a pushed chain arrives, or a ballot is submitted. */
  datatype Event = Arrives(push: Push) | Submits(task: MiningTask)

  /** What happens in one turn of the drain loop, at each point where the loop holds no lock. */
  datatype Turn = Turn(afterTake: seq<Event>, beforeSnapshot: seq<Event>, mining: seq<Event>, beforeRequeue: seq<Event>)

  const IDLE_TURN: Turn := Turn([], [], [], [])

  ghost predicate Sound(rules: Rules, events: seq<Event>) {
    forall i :: 0 <= i < |events| && events[i].Arrives? ==> ChainOk(rules, events[i].push.chain)
  }

  ghost predicate SoundTurn(rules: Rules, turn: Turn) {
    Sound(rules, turn.afterTake) && Sound(rules, turn.beforeSnapshot) && Sound(rules, turn.mining) && Sound(rules, turn.beforeRequeue)
  }

  /** How many pushes arrive. */
  function Pushed(events: seq<Event>): nat {
    if events == [] then 0
    else Pushed(events[..|events| - 1]) + if events[|events| - 1].Arrives? then 1 else 0
  }

  function PushedDuring(turn: Turn): nat {
    Pushed(turn.afterTake) + Pushed(turn.beforeSnapshot) + Pushed(turn.mining) + Pushed(turn.beforeRequeue)
  }

  function PushedIn(turns: seq<Turn>): nat {
    if turns == [] then 0 else PushedIn(turns[..|turns| - 1]) + PushedDuring(turns[|turns| - 1])
  }

  lemma NonePushed()
    ensures Pushed([]) == 0
  {
  }

  lemma AddKeepsPool(rules: Rules, r: Replica, b: Block)
    ensures AddWhole(rules, r, b).0.pool == r.pool
  {
    hide ValidateAddition, Pushes, RecordVote;
  }

  lemma OneMorePushed(events: seq<Event>, i: nat)
    requires i < |events|
    ensures Pushed(events[..i + 1]) == Pushed(events[..i]) + if events[i].Arrives? then 1 else 0
  {
    assert events[..i + 1][..i] == events[..i];
  }

  lemma NoTurns(turns: seq<Turn>)
    ensures PushedIn(turns[..0]) == 0
  {
  }

  /** The turn at i: the given one, or an idle one once they have run out. */
  function TurnAt(turns: seq<Turn>, i: nat): Turn {
    if i < |turns| then turns[i] else IDLE_TURN
  }

  lemma TurnIsSound(rules: Rules, turns: seq<Turn>, i: nat)
    requires forall j :: 0 <= j < |turns| ==> SoundTurn(rules, turns[j])
    ensures SoundTurn(rules, TurnAt(turns, i)) && Sound(rules, TurnAt(turns, i).afterTake)
    ensures Pushed(TurnAt(turns, i).afterTake) <= PushedDuring(TurnAt(turns, i))
    ensures i >= |turns| ==> TurnAt(turns, i).afterTake == []
  {
    hide Pushed;
  }

  /** The pushes of the turn at i, none once the turns have run out. */
  lemma NextTurn(turns: seq<Turn>, i: nat)
    ensures var n, n' := (if i < |turns| then i else |turns|), if i + 1 < |turns| then i + 1 else |turns|;
            && PushedIn(turns[..n]) <= PushedIn(turns)
            && PushedIn(turns[..n']) == PushedIn(turns[..n]) + PushedDuring(TurnAt(turns, i))
  {
    hide PushedDuring;
    IdlePushes();
    if i < |turns| {
      assert turns[..i + 1][..i] == turns[..i];
      FewerTurns(turns, i);
    } else {
      assert turns[..|turns|] == turns;
    }
  }

  lemma IdlePushes()
    ensures PushedDuring(IDLE_TURN) == 0
  {
  }

  lemma {:induction false} FewerTurns(turns: seq<Turn>, i: nat)
    requires i <= |turns|
    ensures PushedIn(turns[..i]) <= PushedIn(turns)
    decreases |turns| - i
  {
    hide PushedDuring;
    if i < |turns| {
      FewerTurns(turns, i + 1);
      assert turns[..i + 1][..i] == turns[..i];
    } else {
      assert turns[..i] == turns;
    }
  }

  lemma SyncStep(rules: Rules, r: Replica, m: Push)
    requires ReplicaOk(rules, r) && ChainOk(rules, m.chain)
    ensures var r' := SyncWhole(rules, r, m.chain, m.sender, m.sentTo).0;
            && ReplicaOk(rules, r') && r'.pool == r.pool && |r.chain| <= |r'.chain|
            && (RankOf(r'.chain) == RankOf(r.chain) ==> r'.chain == r.chain && r'.seen == r.seen)
  {
    hide ChainOk, Tallies, Rebuild, TailOk, TaskValid, Pushes, UpdateChainHashAll, UpdateChainHash, Matching;
    SyncKeepsReplicaOk(rules, r, m.chain, m.sender, m.sentTo);
  }

  lemma EnqueueStep(rules: Rules, r: Replica, task: MiningTask)
    requires ReplicaOk(rules, r)
    ensures var r' := Enqueue(rules, r, task);
            && ReplicaOk(rules, r') && r.pool <= r'.pool && |r.pool| <= |r'.pool| <= |r.pool| + 1
            && r'.chain == r.chain && r'.seen == r.seen
  {
    hide ChainOk, Tallies, TaskValid;
  }

  /** Pushes sent before, ahead of those the rest of the drain sends. */
  function Prepend(sent: seq<set<Push>>, rest: (Replica, seq<set<Push>>)): (Replica, seq<set<Push>>) {
    (rest.0, sent + rest.1)
  }

  lemma PrependEmpty(rest: (Replica, seq<set<Push>>))
    ensures Prepend([], rest) == rest
  {
    assert [] + rest.1 == rest.1;
  }

  lemma RecountEmpty()
    ensures KeyImages([]) == {} && Rebuild([]) == EMPTY_CACHE
  {
  }

  lemma RecountOne(chain: seq<Block>, i: nat)
    requires i < |chain|
    ensures KeyImages(chain[..i + 1]) == KeyImages(chain[..i]) + {chain[i].keyImage}
    ensures Rebuild(chain[..i + 1]) == RecordVote(Rebuild(chain[..i]), chain[i].keyImage, chain[i].data)
  {
    hide RecordVote;
    assert chain[..i + 1] == chain[..i] + [chain[i]] && chain[..i + 1][..i] == chain[..i];
    KeyImagesAppend(chain[..i], chain[i]);
  }

  lemma PoolShrinks(rules: Rules, r: Replica, pool: seq<MiningTask>, task: MiningTask)
    requires ReplicaOk(rules, r) && r.pool == pool + [task]
    ensures TaskValid(rules, task) && ReplicaOk(rules, r.(pool := pool))
  {
    hide TaskValid, ChainOk, Tallies;
    assert r.pool[|pool|] == task;
    assert forall i :: 0 <= i < |pool| ==> pool[i] == r.pool[i];
  }

  lemma PoolGrows(rules: Rules, r: Replica, task: MiningTask)
    requires ReplicaOk(rules, r) && TaskValid(rules, task)
    ensures ReplicaOk(rules, r.(pool := r.pool + [task]))
  {
    hide TaskValid, ChainOk, Tallies;
  }

  lemma DrainEmpty(rules: Rules, work: Work, r: Replica, k: nat)
    requires ReplicaOk(rules, r) && Mines(rules, work) && r.pool == []
    ensures Drain(rules, work, r, k) == (r, [])
  {
  }

  /** One turn of the drain in terms of the popped task. */
  lemma DrainTurn(rules: Rules, work: Work, r: Replica, pool: seq<MiningTask>, task: MiningTask, k: nat)
    requires ReplicaOk(rules, r) && Mines(rules, work) && r.pool == pool + [task]
    ensures var r1 := r.(pool := pool);
            var added := AddWhole(rules, r1, MinedOn(rules, work, k, r1.chain, task));
            if task.keyImage in r.seen then
              ReplicaOk(rules, r1) && Drain(rules, work, r, k) == Drain(rules, work, r1, k)
            else
              && ReplicaOk(rules, added.0) && added.1 == AddBlock
              && forall sent: seq<set<Push>> ::
                   Prepend(sent, Drain(rules, work, r, k)) == Prepend(sent + [added.2], Drain(rules, work, added.0, k + 1))
  {
    hide ReplicaOk, AddWhole, MinedOn, Mines;
    PoolShrinks(rules, r, pool, task);
    var n := |r.pool| - 1;
    assert r.pool[n] == task && r.pool[..n] == pool;
    DrainOneRecords(rules, work, r, k);
    var r1 := r.(pool := pool);
    if task.keyImage in r.seen {
      assert DrainOne(rules, work, r, k) == (r1, []);
      assert [] + Drain(rules, work, r1, k).1 == Drain(rules, work, r1, k).1;
    } else {
      MinedOnIsAdded(rules, work, k, r1, task);
      var added := AddWhole(rules, r1, MinedOn(rules, work, k, r1.chain, task));
      var rest := Drain(rules, work, added.0, k + 1);
      assert Drain(rules, work, r, k) == (rest.0, [added.2] + rest.1);
      forall sent: seq<set<Push>> ensures Prepend(sent, Drain(rules, work, r, k)) == Prepend(sent + [added.2], rest) {
        assert sent + ([added.2] + rest.1) == (sent + [added.2]) + rest.1;
      }
    }
  }

  /** A block mined on an earlier snapshot leaves its ballot recorded unless it is to be retried. */
  lemma LateOrRecorded(
      rules: Rules, r: Replica, task: MiningTask, last: Option<Block>, len: nat, timestamp: nat, nonce: nat)
    requires ReplicaOk(rules, r) && TaskValid(rules, task)
    requires len <= |r.chain| && (len == 0 <==> last.None?)
    requires Solves(rules, Header(task, last, if len > 0 then len - 1 else 0, timestamp), nonce)
    ensures var b := MineBlock(rules, task, last, if len > 0 then len - 1 else 0, timestamp, nonce);
            var (after, result, _) := AddWhole(rules, r, b);
            && ReplicaOk(rules, after) && after.pool == r.pool
            && (task.keyImage in after.seen || result == AttemptedLateAdd)
            && (len == |r.chain| && (len > 0 ==> last.value == r.chain[len - 1]) ==> result != AttemptedLateAdd)
  {
    hide TaskValid, BlockValid, RecordVote, ValidateAddition, Pushes;
    var b := MineBlock(rules, task, last, if len > 0 then len - 1 else 0, timestamp, nonce);
    MinedBlockOutcome(rules, r.chain, task, last, len, timestamp, nonce);
    if ValidateAddition(rules, r.seen, r.chain, b) == AddBlock {
      AddKeepsChainOk(rules, r.chain, b);
      RecordTallies(r.cache, r.chain, b);
    }
  }
}
