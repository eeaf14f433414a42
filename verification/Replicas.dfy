/**
 * The data one node guards with its locks, and what each handler does to it
 * (blockchain/src/app.rs), as functions on values.
 */
module Replicas {
  import opened Bytes
  import opened Wrappers
  import opened Sums
  import opened Blocks
  import opened Chains

  // ---- Vote cache (blockchain/src/http_server/vote_cache.rs) ----

  datatype Cache = Cache(counted: set<bytes>, tally: map<string, nat>)

  const EMPTY_CACHE: Cache := Cache({}, map[])

  function RecordVote(cache: Cache, keyImage: bytes, candidate: string): Cache {
    if keyImage in cache.counted then cache
    else
      var before := if candidate in cache.tally then cache.tally[candidate] else 0;
      Cache(cache.counted + {keyImage}, cache.tally[candidate := before + 1])
  }

  /** The cache after recording every block of a chain in order. */
  function Rebuild(chain: seq<Block>): Cache {
    if chain == [] then EMPTY_CACHE
    else
      var n := |chain| - 1;
      RecordVote(Rebuild(chain[..n]), chain[n].keyImage, chain[n].data)
  }

  /** Block i is the first on the chain with its key image. */
  predicate IsFirst(chain: seq<Block>, i: nat)
    requires i < |chain|
  {
    forall j :: 0 <= j < i ==> chain[j].keyImage != chain[i].keyImage
  }

  /** Positions of the blocks that count for a candidate. */
  function Counting(chain: seq<Block>, candidate: string): set<nat> {
    set i: nat | i < |chain| && IsFirst(chain, i) && chain[i].data == candidate
  }

  function Votes(tally: map<string, nat>, c: string): nat {
    if c in tally then tally[c] else 0
  }

  function VotesIn(tally: map<string, nat>): string -> nat {
    c => Votes(tally, c)
  }

  ghost function TallySum(tally: map<string, nat>): nat {
    Total(tally.Keys, VotesIn(tally))
  }

  /** One candidate's entry is absent when no block counts for it and otherwise says how many do. */
  ghost predicate TalliesFor(cache: Cache, chain: seq<Block>, c: string) {
    && (c in cache.tally <==> Counting(chain, c) != {})
    && Votes(cache.tally, c) == |Counting(chain, c)|
  }

  /** The cache says about each candidate, and in total, what a scan of the chain would say. */
  ghost predicate Tallies(cache: Cache, chain: seq<Block>) {
    && cache.counted == KeyImages(chain)
    && (forall c :: TalliesFor(cache, chain, c))
    && TallySum(cache.tally) == |cache.counted|
  }

  lemma KeyImagesAppend(chain: seq<Block>, b: Block)
    ensures KeyImages(chain + [b]) == KeyImages(chain) + {b.keyImage}
  {
    var next := chain + [b];
    forall k | k in KeyImages(chain) ensures k in KeyImages(next) {
      var i :| 0 <= i < |chain| && chain[i].keyImage == k;
      assert next[i].keyImage == k;
    }
    assert next[|chain|].keyImage in KeyImages(next);
  }

  /** One more block adds its position to its candidate's count exactly when its image is new. */
  lemma CountingAppend(chain: seq<Block>, b: Block, c: string)
    ensures Counting(chain + [b], c) ==
            if c == b.data && b.keyImage !in KeyImages(chain) then Counting(chain, c) + {|chain|} else Counting(chain, c)
  {
    var next, n := chain + [b], |chain|;
    assert IsFirst(next, n) <==> b.keyImage !in KeyImages(chain) by {
      assert next[n] == b && forall i :: 0 <= i < n ==> next[i] == chain[i];
    }
    forall i: nat | i < n ensures IsFirst(next, i) <==> IsFirst(chain, i) {
      assert forall j :: 0 <= j <= i ==> next[j] == chain[j];
    }
  }

  lemma TallySumBump(tally: map<string, nat>, c: string)
    ensures TallySum(tally[c := Votes(tally, c) + 1]) == TallySum(tally) + 1
  {
    var after := tally[c := Votes(tally, c) + 1];
    var f, g := VotesIn(tally), VotesIn(after);
    assert after.Keys == tally.Keys + {c};
    TotalPick(after.Keys, g, c);
    TotalAgree(after.Keys - {c}, f, g);
    assert after.Keys - {c} == tally.Keys - {c};
    if c in tally {
      TotalPick(tally.Keys, f, c);
    } else {
      assert after.Keys - {c} == tally.Keys;
    }
  }

  lemma RecordTalliesFor(cache: Cache, chain: seq<Block>, b: Block, c: string)
    requires cache.counted == KeyImages(chain) && TalliesFor(cache, chain, c)
    ensures TalliesFor(RecordVote(cache, b.keyImage, b.data), chain + [b], c)
  {
    CountingAppend(chain, b, c);
    assert |chain| !in Counting(chain, c);
    if b.keyImage !in cache.counted && c == b.data {
      assert |chain| in Counting(chain + [b], c);
    }
  }

  /** Recording one more block keeps the cache in step with the chain, repeated key image or not. */
  lemma RecordTallies(cache: Cache, chain: seq<Block>, b: Block)
    requires Tallies(cache, chain)
    ensures Tallies(RecordVote(cache, b.keyImage, b.data), chain + [b])
  {
    hide TallySum, TalliesFor;
    KeyImagesAppend(chain, b);
    TallySumBump(cache.tally, b.data);
    forall c ensures TalliesFor(RecordVote(cache, b.keyImage, b.data), chain + [b], c) {
      RecordTalliesFor(cache, chain, b, c);
    }
  }

  lemma EmptyTallies()
    ensures Tallies(EMPTY_CACHE, [])
  {
    forall c ensures TalliesFor(EMPTY_CACHE, [], c) {
      assert Counting([], c) == {};
    }
  }

  /** Rebuilding from any sequence of blocks counts exactly the first block of each key image. */
  lemma {:induction false} RebuildTallies(chain: seq<Block>)
    ensures Tallies(Rebuild(chain), chain)
    decreases |chain|
  {
    hide Tallies, RecordVote;
    if chain == [] {
      EmptyTallies();
    } else {
      var n := |chain| - 1;
      RebuildTallies(chain[..n]);
      RecordTallies(Rebuild(chain[..n]), chain[..n], chain[n]);
      assert chain == chain[..n] + [chain[n]];
    }
  }

  /** With distinct key images every block counts, so totals are chain lengths. */
  lemma DistinctAllCount(cache: Cache, chain: seq<Block>)
    requires Tallies(cache, chain) && DistinctImages(chain)
    ensures forall c: string :: Votes(cache.tally, c) == |set i: nat | i < |chain| && chain[i].data == c|
    ensures TallySum(cache.tally) == |cache.counted| == |chain|
  {
    hide TallySum;
    ImagesCount(chain);
    forall c: string ensures Votes(cache.tally, c) == |set i: nat | i < |chain| && chain[i].data == c| {
      assert TalliesFor(cache, chain, c);
      assert Counting(chain, c) == set i: nat | i < |chain| && chain[i].data == c;
    }
  }

  lemma {:induction false} ImagesCount(chain: seq<Block>)
    requires DistinctImages(chain)
    ensures |KeyImages(chain)| == |chain|
    decreases |chain|
  {
    if chain != [] {
      var n := |chain| - 1;
      ImagesCount(chain[..n]);
      assert forall i :: 0 <= i < n ==> chain[..n][i] == chain[i];
      assert KeyImages(chain) == KeyImages(chain[..n]) + {chain[n].keyImage};
    }
  }

  // ---- Peer table (blockchain/src/peer/known_peers.rs) ----

  datatype Peer = Peer(ip: nat, port: nat)

  datatype Entry = Entry(peer: Peer, chainHash: string)

  type Table = map<string, Entry>

  function UpdateChainHash(table: Table, id: string, hash: string): Table {
    if id in table then table[id := table[id].(chainHash := hash)] else table
  }

  function UpdateChainHashAll(table: Table, hash: string): Table {
    map id | id in table :: table[id].(chainHash := hash)
  }

  /** Ids of the peers whose tracked chain digest already matches. */
  function Matching(table: Table, hash: string): set<string> {
    set id | id in table && table[id].chainHash == hash
  }

  // ---- One node ----

  /** `PushChainReq`: a chain, its sender, and the ids the same push went to. */
  datatype Push = Push(to: Peer, chain: seq<Block>, sender: string, sentTo: set<string>)

  datatype Replica = Replica(
    id: string, chain: seq<Block>, seen: set<bytes>, table: Table,
    pool: seq<MiningTask>, cache: Cache, rejected: nat)

  /** `push_chain_sync`: the current chain to every table entry not ignored, with that list of ids. */
  function Pushes(r: Replica, ignore: set<string>): set<Push> {
    set id | id in r.table && id !in ignore :: Push(r.table[id].peer, r.chain, r.id, r.table.Keys - ignore)
  }

  /** The locked section of `sync_chain` for an accepted chain. */
  function AdoptLocked(rules: Rules, r: Replica, incoming: seq<Block>, sender: string): Replica {
    r.(chain := incoming,
       seen := KeyImages(incoming),
       table := UpdateChainHash(r.table, sender, rules.chainHash(incoming)))
  }

  /** `sync_chain` run without interruption. */
  ghost function SyncWhole(rules: Rules, r: Replica, incoming: seq<Block>, sender: string, already: set<string>)
    : (Replica, set<Push>)
  {
    if !Adoptable(rules, incoming, r.chain) then (r, {})
    else
      var hash := rules.chainHash(incoming);
      var r1 := AdoptLocked(rules, r, incoming, sender).(cache := Rebuild(incoming));
      var ignore := Matching(r1.table, hash) + already;
      var r2 := r1.(table := UpdateChainHashAll(r1.table, hash));
      (r2, Pushes(r2, ignore))
  }

  /** The locked section of `add_block_to_chain` for an accepted block. */
  function AddLocked(r: Replica, b: Block): Replica {
    r.(chain := r.chain + [b], seen := r.seen + {b.keyImage})
  }

  /** `add_block_to_chain` run without interruption. */
  function AddWhole(rules: Rules, r: Replica, b: Block): (Replica, AdditionResult, set<Push>) {
    var result := ValidateAddition(rules, r.seen, r.chain, b);
    if result == AddBlock then
      var r1 := AddLocked(r, b).(cache := RecordVote(r.cache, b.keyImage, b.data));
      (r1, result, Pushes(r1, {}))
    else (r, result, {})
  }

  /** Who hears of an adopted chain: not its sender, nobody the push named, and nobody known to have it. */
  function Unaware(r: Replica, sender: string, already: set<string>, hash: string): set<string> {
    set id | id in r.table && id != sender && id !in already && r.table[id].chainHash != hash
  }

  /**
   * What an adoption does, in terms of the state before it: chain, seen-set and cache are the incoming
   * chain's, every peer is from then on taken to have it, and it goes to exactly those who do not,
   * each push naming exactly them.
   */
  lemma AdoptionSends(rules: Rules, r: Replica, incoming: seq<Block>, sender: string, already: set<string>)
    ensures var (r', sent) := SyncWhole(rules, r, incoming, sender, already);
            var hash := rules.chainHash(incoming);
            var told := Unaware(r, sender, already, hash);
            if Adoptable(rules, incoming, r.chain) then
              && r'.chain == incoming && r'.seen == (set i | 0 <= i < |incoming| :: incoming[i].keyImage)
              && Tallies(r'.cache, incoming)
              && r'.id == r.id && r'.pool == r.pool && r'.rejected == r.rejected
              && r'.table.Keys == r.table.Keys
              && (forall id :: id in r.table ==> r'.table[id] == Entry(r.table[id].peer, hash))
              && sent == (set id | id in told :: Push(r.table[id].peer, incoming, r.id, told))
            else r' == r && sent == {}
  {
    hide TailOk, RankOf, Tallies, Rebuild;
    RebuildTallies(incoming);
    var (r', sent) := SyncWhole(rules, r, incoming, sender, already);
    if Adoptable(rules, incoming, r.chain) {
      var hash := rules.chainHash(incoming);
      var r1 := AdoptLocked(rules, r, incoming, sender);
      var told := Unaware(r, sender, already, hash);
      assert r'.table.Keys - (Matching(r1.table, hash) + already) == told;
      forall id | id in r.table ensures id !in Matching(r1.table, hash) + already <==> id in told {
      }
    }
  }

  /** What an addition does: the block goes on the chain and is counted, and everyone in the table hears of it. */
  lemma AdditionSends(rules: Rules, r: Replica, b: Block)
    requires Tallies(r.cache, r.chain)
    ensures var (r', result, sent) := AddWhole(rules, r, b);
            && result == ValidateAddition(rules, r.seen, r.chain, b)
            && (result == AddBlock ==>
                  && r'.chain == r.chain + [b] && r'.seen == r.seen + {b.keyImage} && Tallies(r'.cache, r'.chain)
                  && r'.id == r.id && r'.table == r.table && r'.pool == r.pool && r'.rejected == r.rejected
                  && sent == (set id | id in r.table :: Push(r.table[id].peer, r.chain + [b], r.id, r.table.Keys)))
            && (result != AddBlock ==> r' == r && sent == {})
  {
    hide Tallies, ValidateAddition, RecordVote;
    RecordTallies(r.cache, r.chain, b);
    assert r.table.Keys - {} == r.table.Keys;
    assert forall id :: id in r.table <==> id in r.table && id !in {};
  }

  predicate Queued(pool: seq<MiningTask>, keyImage: bytes) {
    exists i :: 0 <= i < |pool| && pool[i].keyImage == keyImage
  }

  /** `MiningPool::add_task`. */
  function AddTask(rules: Rules, pool: seq<MiningTask>, task: MiningTask): seq<MiningTask> {
    if Queued(pool, task.keyImage) || !rules.candidateOk(task.candidate) then pool else pool + [task]
  }

  /** `add_mining_task` up to the point where mining is started. */
  function Enqueue(rules: Rules, r: Replica, task: MiningTask): Replica {
    if !TaskValid(rules, task) || task.keyImage in r.seen then r.(rejected := r.rejected + 1)
    else r.(pool := AddTask(rules, r.pool, task))
  }

  /** No two pooled tasks share an image, until a retry puts one back. */
  ghost predicate DistinctTasks(pool: seq<MiningTask>) {
    forall i, j :: 0 <= i < j < |pool| ==> pool[i].keyImage != pool[j].keyImage
  }

  /** Offering a task puts it last exactly when its image is not pooled and its candidate stands, so images stay distinct. */
  lemma AddTaskMeans(rules: Rules, pool: seq<MiningTask>, task: MiningTask)
    ensures var pool' := AddTask(rules, pool, task);
            var refused := !rules.candidateOk(task.candidate) || exists i :: 0 <= i < |pool| && pool[i].keyImage == task.keyImage;
            && pool' == (if refused then pool else pool + [task])
            && (DistinctTasks(pool) ==> DistinctTasks(pool'))
  {
  }

  /**
   * A submitted ballot is counted as rejected exactly when it fails verification or is recorded; it is
   * queued exactly when it does neither and its image is not queued yet; nothing else changes.
   */
  lemma EnqueueMeans(rules: Rules, r: Replica, task: MiningTask)
    ensures var r' := Enqueue(rules, r, task);
            var valid := rules.candidateOk(task.candidate) && rules.ballotOk(task.ringId, task.candidate, task.keyImage, task.signature);
            var queued := exists i :: 0 <= i < |r.pool| && r.pool[i].keyImage == task.keyImage;
            && r'.rejected == r.rejected + (if !valid || task.keyImage in r.seen then 1 else 0)
            && r'.pool == (if valid && task.keyImage !in r.seen && !queued then r.pool + [task] else r.pool)
            && r' == r.(pool := r'.pool, rejected := r'.rejected)
  {
    AddTaskMeans(rules, r.pool, task);
  }

  /** What holds of a node between handlers when handlers do not overlap. */
  ghost predicate ReplicaOk(rules: Rules, r: Replica) {
    && ChainOk(rules, r.chain)
    && r.seen == KeyImages(r.chain)
    && (forall i :: 0 <= i < |r.pool| ==> TaskValid(rules, r.pool[i]))
    && Tallies(r.cache, r.chain)
  }

  /** What a miner supplies: a nonce for every header, and the clock reading of the k-th block. */
  datatype Work = Work(search: Block -> nat, clock: nat -> nat)

  ghost predicate Mines(rules: Rules, work: Work) {
    forall b :: Solves(rules, b, work.search(b))
  }

  /** The next block `drive_mining_pool` mines for a task on a given chain. */
  function MinedOn(rules: Rules, work: Work, k: nat, chain: seq<Block>, task: MiningTask): Block {
    var last := if chain == [] then None else Some(chain[|chain| - 1]);
    var header := Header(task, last, if |chain| > 0 then |chain| - 1 else 0, work.clock(k));
    Seal(rules, header, work.search(header))
  }

  /** With no other handler running, mining an unrecorded pooled ballot always adds it. */
  lemma MinedOnIsAdded(rules: Rules, work: Work, k: nat, r: Replica, task: MiningTask)
    requires ReplicaOk(rules, r) && Mines(rules, work) && TaskValid(rules, task)
    requires task.keyImage !in r.seen
    ensures var b := MinedOn(rules, work, k, r.chain, task);
            && b.keyImage == task.keyImage
            && AddWhole(rules, r, b).1 == AddBlock
            && ReplicaOk(rules, AddWhole(rules, r, b).0)
  {
    var last := if r.chain == [] then None else Some(r.chain[|r.chain| - 1]);
    var header := Header(task, last, if |r.chain| > 0 then |r.chain| - 1 else 0, work.clock(k));
    var b := MinedOn(rules, work, k, r.chain, task);
    assert Solves(rules, header, work.search(header));
    MinedBlockOutcome(rules, r.chain, task, last, |r.chain|, work.clock(k), work.search(header));
    AddKeepsChainOk(rules, r.chain, b);
    RecordTallies(r.cache, r.chain, b);
  }

  function PoolImages(pool: seq<MiningTask>): set<bytes> {
    set i | 0 <= i < |pool| :: pool[i].keyImage
  }

  /** One turn of the drain loop: the newest task is skipped if recorded, otherwise mined and added. */
  function DrainOne(rules: Rules, work: Work, r: Replica, k: nat): (Replica, seq<set<Push>>)
    requires r.pool != []
  {
    var n := |r.pool| - 1;
    var task, r1 := r.pool[n], r.(pool := r.pool[..n]);
    if task.keyImage in r1.seen then (r1, [])
    else
      var added := AddWhole(rules, r1, MinedOn(rules, work, k, r1.chain, task));
      (added.0, [added.2])
  }

  lemma DrainOneRecords(rules: Rules, work: Work, r: Replica, k: nat)
    requires ReplicaOk(rules, r) && Mines(rules, work) && r.pool != []
    ensures var (d, sent) := DrainOne(rules, work, r, k);
            && ReplicaOk(rules, d)
            && |d.pool| < |r.pool|
            && r.chain <= d.chain
            && d.seen + PoolImages(d.pool) == r.seen + PoolImages(r.pool)
            && |sent| == |d.chain| - |r.chain|
            && d.table == r.table && d.id == r.id && d.rejected == r.rejected
  {
    hide BlockValid, Tallies, ChainOk, MinedOn, Mines, RecordVote;
    var n := |r.pool| - 1;
    var task, r1 := r.pool[n], r.(pool := r.pool[..n]);
    assert PoolImages(r.pool) == PoolImages(r1.pool) + {task.keyImage} by {
      assert forall i :: 0 <= i < n ==> r1.pool[i] == r.pool[i];
    }
    if task.keyImage !in r1.seen {
      MinedOnIsAdded(rules, work, k, r1, task);
    }
  }

  /** `drive_mining_pool` run to the end with no other handler in between; k blocks mined so far. */
  ghost function Drain(rules: Rules, work: Work, r: Replica, k: nat): (Replica, seq<set<Push>>)
    requires ReplicaOk(rules, r) && Mines(rules, work)
    decreases |r.pool|
  {
    if r.pool == [] then (r, [])
    else
      DrainOneRecords(rules, work, r, k);
      var (r1, sent) := DrainOne(rules, work, r, k);
      var rest := Drain(rules, work, r1, k + |sent|);
      (rest.0, sent + rest.1)
  }

  /**
   * Draining records every pooled ballot exactly once: the pool empties, the old chain is kept as a
   * prefix, and the images recorded are those already there and those that were pooled.
   */
  lemma {:induction false} DrainRecordsEveryBallot(rules: Rules, work: Work, r: Replica, k: nat)
    requires ReplicaOk(rules, r) && Mines(rules, work)
    ensures var (d, sent) := Drain(rules, work, r, k);
            && ReplicaOk(rules, d) && d.pool == []
            && r.chain <= d.chain
            && d.seen == r.seen + PoolImages(r.pool)
            && |sent| == |d.chain| - |r.chain|
            && d.table == r.table && d.id == r.id && d.rejected == r.rejected
    decreases |r.pool|
  {
    hide ReplicaOk, Mines, DrainOne;
    if r.pool != [] {
      DrainOneRecords(rules, work, r, k);
      var (r1, sent) := DrainOne(rules, work, r, k);
      DrainRecordsEveryBallot(rules, work, r1, k + |sent|);
    }
  }

  /** An adopted chain that is well formed leaves the node well formed, caches included. */
  lemma SyncKeepsReplicaOk(rules: Rules, r: Replica, incoming: seq<Block>, sender: string, already: set<string>)
    requires ReplicaOk(rules, r) && ChainOk(rules, incoming)
    ensures ReplicaOk(rules, SyncWhole(rules, r, incoming, sender, already).0)
    ensures SyncWhole(rules, r, incoming, sender, already).0.chain ==
            if Below(RankOf(r.chain), RankOf(incoming)) then incoming else r.chain
  {
    RebuildTallies(incoming);
    HeadAndTail(rules, incoming);
  }
}
