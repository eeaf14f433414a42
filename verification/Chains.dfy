/** A node's chain of blocks and the two checks made on it (blockchain/src/block/chain.rs). */
module Chains {
  import opened Bytes
  import opened Wrappers
  import opened Blocks

  /** Height and tip timestamp; -1 stands for the absent timestamp of an empty chain. */
  datatype Rank = Rank(len: nat, tip: int)

  function RankOf(chain: seq<Block>): Rank {
    if chain == [] then Rank(0, -1) else Rank(|chain|, chain[|chain| - 1].timestamp)
  }

  /** The adoption order: longer wins, equal height is decided by a strictly newer tip. */
  predicate Below(a: Rank, b: Rank) {
    a.len < b.len || (a.len == b.len && a.tip < b.tip)
  }

  predicate AtMost(a: Rank, b: Rank) {
    !Below(b, a)
  }

  function KeyImages(chain: seq<Block>): set<bytes> {
    set i | 0 <= i < |chain| :: chain[i].keyImage
  }

  ghost predicate DistinctImages(chain: seq<Block>) {
    forall i, j :: 0 <= i < j < |chain| ==> chain[i].keyImage != chain[j].keyImage
  }

  ghost predicate Linked(chain: seq<Block>) {
    forall i :: 0 < i < |chain| ==> chain[i].prevHash == chain[i - 1].hash
  }

  /** What every chain in a network of nodes running this code satisfies. */
  ghost predicate ChainOk(rules: Rules, chain: seq<Block>) {
    && (forall i :: 0 <= i < |chain| ==> chain[i].idx == i)
    && (forall i :: 0 <= i < |chain| ==> BlockValid(rules, chain[i]))
    && (chain != [] ==> chain[0].prevHash == [])
    && Linked(chain)
    && DistinctImages(chain)
  }

  /** The part of `ChainOk` that `Chain::validate` looks at: nothing about block 0, nothing about `idx`. */
  ghost predicate TailOk(rules: Rules, chain: seq<Block>) {
    && Linked(chain)
    && (forall i :: 0 < i < |chain| ==> BlockValid(rules, chain[i]))
    && (forall i, j :: 0 < i < j < |chain| ==> chain[i].keyImage != chain[j].keyImage)
  }

  /** The remainder, which validation of one incoming chain leaves to the sender. */
  ghost predicate HeadOk(rules: Rules, chain: seq<Block>) {
    && (forall i :: 0 <= i < |chain| ==> chain[i].idx == i)
    && (chain != [] ==> BlockValid(rules, chain[0]) && chain[0].prevHash == [])
    && (forall i :: 0 < i < |chain| ==> chain[i].keyImage != chain[0].keyImage)
  }

  lemma HeadAndTail(rules: Rules, chain: seq<Block>)
    ensures ChainOk(rules, chain) <==> HeadOk(rules, chain) && TailOk(rules, chain)
  {
  }

  ghost predicate Adoptable(rules: Rules, incoming: seq<Block>, current: seq<Block>) {
    Below(RankOf(current), RankOf(incoming)) && TailOk(rules, incoming)
  }

  datatype Refusal =
    | Shorter
    | NotNewer
    | BrokenLink(at: nat)
    | InvalidBlock(at: nat)
    | DuplicateKeyImage(at: nat)

  /** The block at `k` passes all three of the loop's checks. */
  ghost predicate StepOk(rules: Rules, chain: seq<Block>, k: nat)
    requires 0 < k < |chain|
  {
    && chain[k].prevHash == chain[k - 1].hash
    && BlockValid(rules, chain[k])
    && (forall j :: 0 < j < k ==> chain[j].keyImage != chain[k].keyImage)
  }

  lemma StepsAreTail(rules: Rules, chain: seq<Block>)
    ensures TailOk(rules, chain) <==> forall k :: 0 < k < |chain| ==> StepOk(rules, chain, k)
  {
    if forall k :: 0 < k < |chain| ==> StepOk(rules, chain, k) {
      forall i | 0 < i < |chain| ensures BlockValid(rules, chain[i]) {
        assert StepOk(rules, chain, i);
      }
      forall i, j | 0 < i < j < |chain| ensures chain[i].keyImage != chain[j].keyImage {
        assert StepOk(rules, chain, j);
      }
      forall i | 0 < i < |chain| ensures chain[i].prevHash == chain[i - 1].hash {
        assert StepOk(rules, chain, i);
      }
    }
  }

  /** Why a chain is refused: its height, its tip, or the first failing block and the first check it fails. */
  ghost predicate RefusedFor(rules: Rules, incoming: seq<Block>, current: seq<Block>, why: Refusal) {
    match why
    case Shorter => |incoming| < |current|
    case NotNewer => |incoming| == |current| && AtMost(RankOf(incoming), RankOf(current))
    case BrokenLink(k) =>
      && Below(RankOf(current), RankOf(incoming)) && FirstFailing(rules, incoming, k)
      && incoming[k].prevHash != incoming[k - 1].hash
    case InvalidBlock(k) =>
      && Below(RankOf(current), RankOf(incoming)) && FirstFailing(rules, incoming, k)
      && incoming[k].prevHash == incoming[k - 1].hash && !BlockValid(rules, incoming[k])
    case DuplicateKeyImage(k) =>
      && Below(RankOf(current), RankOf(incoming)) && FirstFailing(rules, incoming, k)
      && incoming[k].prevHash == incoming[k - 1].hash && BlockValid(rules, incoming[k])
  }

  ghost predicate FirstFailing(rules: Rules, chain: seq<Block>, k: nat) {
    0 < k < |chain| && !StepOk(rules, chain, k) && forall j :: 0 < j < k ==> StepOk(rules, chain, j)
  }

  /** There is one reason for every chain that is not adopted, and none for one that is. */
  lemma OneRefusal(rules: Rules, incoming: seq<Block>, current: seq<Block>, a: Refusal, b: Refusal)
    requires RefusedFor(rules, incoming, current, a)
    ensures !Adoptable(rules, incoming, current)
    ensures RefusedFor(rules, incoming, current, b) ==> a == b
  {
    hide StepOk;
    StepsAreTail(rules, incoming);
  }

  /** The reason in full: everything checked before held, and the check named did not. */
  lemma RefusalMeans(rules: Rules, incoming: seq<Block>, current: seq<Block>, why: Refusal)
    requires RefusedFor(rules, incoming, current, why)
    ensures match why
            case Shorter => |incoming| < |current|
            case NotNewer => |incoming| == |current|
                             && (current != [] ==> incoming[|incoming| - 1].timestamp <= current[|current| - 1].timestamp)
            case BrokenLink(k) => 0 < k < |incoming| && incoming[k].prevHash != incoming[k - 1].hash
            case InvalidBlock(k) => 0 < k < |incoming| && incoming[k].prevHash == incoming[k - 1].hash && !BlockValid(rules, incoming[k])
            case DuplicateKeyImage(k) =>
              && 0 < k < |incoming| && incoming[k].prevHash == incoming[k - 1].hash && BlockValid(rules, incoming[k])
              && exists j :: 0 < j < k && incoming[j].keyImage == incoming[k].keyImage
  {
    hide BlockValid;
  }

  datatype AdditionResult = IgnoreBlock | AddBlock | AttemptedLateAdd

  /** `Chain::validate_addition`. */
  function ValidateAddition(rules: Rules, seen: set<bytes>, chain: seq<Block>, b: Block): AdditionResult {
    if b.keyImage in seen then IgnoreBlock
    else if chain == [] then
      if b.idx == 0 then
        if BlockValid(rules, b) then AddBlock else IgnoreBlock
      else IgnoreBlock
    else
      var last := chain[|chain| - 1];
      if b.idx <= last.idx then AttemptedLateAdd
      else if b.idx == last.idx + 1 then
        if b.prevHash != last.hash then AttemptedLateAdd
        else if BlockValid(rules, b) then AddBlock
        else IgnoreBlock
      else IgnoreBlock
  }

  class Chain {
    var blocks: seq<Block>

    constructor ()
      ensures blocks == []
    {
      blocks := [];
    }

    method Push(b: Block)
      modifies this
      ensures blocks == old(blocks) + [b]
    {
      blocks := blocks + [b];
    }

    method Clear()
      modifies this
      ensures blocks == []
    {
      blocks := [];
    }

    method Extend(newBlocks: seq<Block>)
      modifies this
      ensures blocks == old(blocks) + newBlocks
    {
      blocks := blocks + newBlocks;
    }

    /** `Chain::validate`: the loop starts at block 1 and carries the previous hash and the images met. */
    static method Validate(newBlocks: seq<Block>, current: seq<Block>, rules: Rules) returns (r: Result<(), Refusal>)
      ensures r.Ok? <==> Adoptable(rules, newBlocks, current)
      ensures r.Err? ==> RefusedFor(rules, newBlocks, current, r.error)
    {
      if |newBlocks| < |current| {
        return Err(Shorter);
      }
      if |newBlocks| == |current| {
        var newLast := if newBlocks == [] then -1 else newBlocks[|newBlocks| - 1].timestamp;
        var currentLast := if current == [] then -1 else current[|current| - 1].timestamp;
        if newLast <= currentLast {
          return Err(NotNewer);
        }
      }
      var prevBlockHash := newBlocks[0].hash;
      var images: set<bytes> := {};
      for i := 1 to |newBlocks|
        invariant prevBlockHash == newBlocks[i - 1].hash
        invariant images == set j | 0 < j < i :: newBlocks[j].keyImage
        invariant forall j :: 0 < j < i ==> StepOk(rules, newBlocks, j)
      {
        if newBlocks[i].prevHash != prevBlockHash {
          assert !StepOk(rules, newBlocks, i);
          return Err(BrokenLink(i));
        }
        var valid := ValidateBlock(newBlocks[i], rules);
        if !valid {
          return Err(InvalidBlock(i));
        }
        if newBlocks[i].keyImage in images {
          return Err(DuplicateKeyImage(i));
        }
        images := images + {newBlocks[i].keyImage};
        prevBlockHash := newBlocks[i].hash;
      }
      StepsAreTail(rules, newBlocks);
      return Ok(());
    }
  }

  /**
   * When a chain is adopted: it is longer, or as long with a newer tip, and from block 1 on every block
   * names its parent's hash, is valid, and brings an image that no other of these blocks has.
   */
  lemma AdoptableMeans(rules: Rules, incoming: seq<Block>, current: seq<Block>)
    ensures Adoptable(rules, incoming, current) <==>
            && (|| |incoming| > |current|
                || (|incoming| == |current| > 0
                    && incoming[|incoming| - 1].timestamp > current[|current| - 1].timestamp))
            && (forall i :: 0 < i < |incoming| ==> incoming[i].prevHash == incoming[i - 1].hash && BlockValid(rules, incoming[i]))
            && (forall i, j :: 0 < i < j < |incoming| ==> incoming[i].keyImage != incoming[j].keyImage)
  {
    hide BlockValid;
  }

  /**
   * What becomes of a block offered to a chain whose seen-set is its own: it is added exactly when it is
   * the valid next block with a new image, kept for a retry exactly when its image is new but its place
   * is taken or its parent is not the tip, and otherwise ignored.
   */
  lemma AdditionMeans(rules: Rules, seen: set<bytes>, chain: seq<Block>, b: Block)
    requires forall i :: 0 <= i < |chain| ==> chain[i].idx == i
    ensures var r := ValidateAddition(rules, seen, chain, b);
            && (r == AddBlock <==>
                  && b.keyImage !in seen && b.idx == |chain| && BlockValid(rules, b)
                  && (chain != [] ==> b.prevHash == chain[|chain| - 1].hash))
            && (r == AttemptedLateAdd <==>
                  && b.keyImage !in seen && chain != []
                  && (b.idx < |chain| || (b.idx == |chain| && b.prevHash != chain[|chain| - 1].hash)))
  {
    hide BlockValid;
  }

  /** What acceptance of one incoming chain leaves open is exactly `HeadOk`. */
  lemma AcceptedChainIsOkWhen(rules: Rules, incoming: seq<Block>, current: seq<Block>)
    requires Adoptable(rules, incoming, current)
    ensures ChainOk(rules, incoming) <==> HeadOk(rules, incoming)
  {
    HeadAndTail(rules, incoming);
  }

  /** Validation alone does not make a chain well formed: an unsealed first block passes it. */
  lemma AcceptedWithoutHead(rules: Rules) returns (incoming: seq<Block>)
    ensures Adoptable(rules, incoming, []) && !ChainOk(rules, incoming)
  {
    incoming := [Block(0, "", [], None, [], "", [], [], 0)];
    assert !BlockValid(rules, incoming[0]);
  }

  /** Adding an accepted block keeps every chain property and strictly raises the rank. */
  lemma AddKeepsChainOk(rules: Rules, chain: seq<Block>, b: Block)
    requires ChainOk(rules, chain)
    requires ValidateAddition(rules, KeyImages(chain), chain, b) == AddBlock
    requires chain == [] ==> b.prevHash == []
    ensures ChainOk(rules, chain + [b])
    ensures KeyImages(chain + [b]) == KeyImages(chain) + {b.keyImage}
    ensures Below(RankOf(chain), RankOf(chain + [b]))
  {
    hide BlockValid, Linked, DistinctImages, KeyImages;
    var next := chain + [b];
    assert forall i :: 0 <= i < |chain| ==> next[i] == chain[i];
    assert next[|chain|] == b;
    ImagesWith(chain, b);
    if chain != [] {
      LinkedWith(chain, b);
    } else {
      OneIsLinked(b);
      assert next == [b];
    }
  }

  lemma ImagesWith(chain: seq<Block>, b: Block)
    requires DistinctImages(chain) && b.keyImage !in KeyImages(chain)
    ensures DistinctImages(chain + [b]) && KeyImages(chain + [b]) == KeyImages(chain) + {b.keyImage}
  {
    var next := chain + [b];
    assert forall i :: 0 <= i < |chain| ==> next[i] == chain[i] && chain[i].keyImage in KeyImages(chain);
    assert next[|chain|] == b;
  }

  lemma LinkedWith(chain: seq<Block>, b: Block)
    requires Linked(chain) && chain != [] && b.prevHash == chain[|chain| - 1].hash
    ensures Linked(chain + [b])
  {
  }

  lemma OneIsLinked(b: Block)
    ensures Linked([b])
  {
  }

  /**
   * A block mined on any earlier state of the chain is added, or retried, or its ballot is already
   * recorded: `chain` has at least the `len` blocks the miner saw.
   */
  lemma MinedBlockOutcome(
      rules: Rules, chain: seq<Block>, task: MiningTask, last: Option<Block>, len: nat, timestamp: nat, nonce: nat)
    requires ChainOk(rules, chain) && TaskValid(rules, task)
    requires len <= |chain| && (len == 0 <==> last.None?)
    requires Solves(rules, Header(task, last, if len > 0 then len - 1 else 0, timestamp), nonce)
    ensures var b := MineBlock(rules, task, last, if len > 0 then len - 1 else 0, timestamp, nonce);
            var r := ValidateAddition(rules, KeyImages(chain), chain, b);
            && (r == IgnoreBlock <==> task.keyImage in KeyImages(chain))
            && (r == AddBlock ==> (chain == [] ==> b.prevHash == []))
            && (len == |chain| && (len > 0 ==> last.value == chain[len - 1]) ==> r != AttemptedLateAdd)
  {
    MinedBlockIsValid(rules, task, last, if len > 0 then len - 1 else 0, timestamp, nonce);
  }

  /**
   * Two chains built by this code with the same tip are the same chain: the hash links force
   * agreement all the way down to block 0.
   */
  lemma {:induction false} SameTipSameChain(rules: Rules, a: seq<Block>, b: seq<Block>)
    requires CollisionFree(rules) && ChainOk(rules, a) && ChainOk(rules, b)
    requires |a| == |b|
    requires a != [] ==> a[|a| - 1].hash == b[|b| - 1].hash
    ensures a == b
    decreases |a|
  {
    hide CollisionFree, BlockValid;
    if a != [] {
      var n := |a| - 1;
      ValidIsSealed(rules, a[n]);
      ValidIsSealed(rules, b[n]);
      HashNamesBlock(rules, a[n], b[n]);
      var a', b' := a[..n], b[..n];
      FrontOk(rules, a);
      FrontOk(rules, b);
      SameTipSameChain(rules, a', b');
      assert a == a' + [a[n]] && b == b' + [b[n]];
    }
  }

  lemma ValidIsSealed(rules: Rules, b: Block)
    requires BlockValid(rules, b)
    ensures Sealed(rules, b)
  {
  }

  /** A chain without its tip is well formed, and the tip names the new one. */
  lemma FrontOk(rules: Rules, chain: seq<Block>)
    requires ChainOk(rules, chain) && chain != []
    ensures var n := |chain| - 1;
            ChainOk(rules, chain[..n]) && (n > 0 ==> chain[..n][n - 1].hash == chain[n].prevHash)
  {
    hide BlockValid;
  }
}
