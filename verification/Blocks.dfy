/**
 * One recorded ballot (blockchain/src/block/block.rs) and how it is mined
 * (blockchain/src/block/miner.rs).
 *
 * SHA-256 over the serialised block, the manifest lookups and the ring-signature check are
 * uninterpreted functions collected in `Rules`; module Ballots supplies the real ballot check.
 */
module Blocks {
  import opened Bytes
  import opened Wrappers

  const DIFFICULTY: nat := 20

  datatype Block = Block(
    idx: nat, data: string, prevHash: bytes, nonce: Option<nat>, hash: bytes,
    ringId: string, keyImage: bytes, signature: bytes, timestamp: nat)

  datatype MiningTask = MiningTask(candidate: string, ringId: string, keyImage: bytes, signature: bytes)

  /**
   * What a node computes about a block without looking at any other block.
   * `powHash(b, n)` hashes block `b` (with hash and nonce cleared) followed by nonce `n`;
   * `ballotOk(ring, candidate, keyImage, signature)` is `verify_ballot`;
   * `chainHash` is the digest of a whole chain used to track peers.
   */
  datatype Rules = Rules(
    powHash: (Block, nat) -> bytes,
    candidateOk: string -> bool,
    ballotOk: (string, string, bytes, bytes) -> bool,
    chainHash: seq<Block> -> string)

  /** The first `difficulty` bits of the hash are zero, as the node tests it. */
  predicate CheckLeadingZeroes(hash: bytes, difficulty: nat) {
    var fullBytes := difficulty / 8;
    var remainingBits := difficulty % 8;
    var wholeBytes := if fullBytes <= |hash| then fullBytes else |hash|;
    && (forall i :: 0 <= i < wholeBytes ==> hash[i] == 0)
    && (remainingBits > 0 ==> fullBytes < |hash| && hash[fullBytes] >> (8 - remainingBits) == 0)
  }

  /** Bit k of a byte, counted from the most significant. */
  predicate ByteBit(b: byte, k: nat)
    requires k < 8
  {
    (b >> (7 - k)) & 1 == 1
  }

  /** Bit k of a byte string, counted from the most significant bit of the first byte. */
  predicate BitSet(hash: bytes, k: nat)
    requires k < 8 * |hash|
  {
    ByteBit(hash[k / 8], k % 8)
  }

  lemma ByteZero(b: byte)
    ensures b == 0 <==> forall k: nat :: k < 8 ==> !ByteBit(b, k)
  {
    if b != 0 {
      assert ByteBit(b, 0) || ByteBit(b, 1) || ByteBit(b, 2) || ByteBit(b, 3)
        || ByteBit(b, 4) || ByteBit(b, 5) || ByteBit(b, 6) || ByteBit(b, 7);
    }
  }

  lemma ShiftChain(b: byte)
    ensures b >> 7 == 0 <==> !ByteBit(b, 0)
    ensures b >> 6 == 0 <==> b >> 7 == 0 && !ByteBit(b, 1)
    ensures b >> 5 == 0 <==> b >> 6 == 0 && !ByteBit(b, 2)
    ensures b >> 4 == 0 <==> b >> 5 == 0 && !ByteBit(b, 3)
    ensures b >> 3 == 0 <==> b >> 4 == 0 && !ByteBit(b, 4)
    ensures b >> 2 == 0 <==> b >> 3 == 0 && !ByteBit(b, 5)
    ensures b >> 1 == 0 <==> b >> 2 == 0 && !ByteBit(b, 6)
  {
  }

  lemma TopBitsZero(b: byte, r: nat)
    requires 1 <= r <= 7
    ensures b >> (8 - r) == 0 <==> forall k: nat :: k < r ==> !ByteBit(b, k)
  {
    hide ByteBit;
    ShiftChain(b);
    if
    case r == 1 => assert b >> (8 - r) == b >> 7;
    case r == 2 => assert b >> (8 - r) == b >> 6;
    case r == 3 => assert b >> (8 - r) == b >> 5;
    case r == 4 => assert b >> (8 - r) == b >> 4;
    case r == 5 => assert b >> (8 - r) == b >> 3;
    case r == 6 => assert b >> (8 - r) == b >> 2;
    case r == 7 => assert b >> (8 - r) == b >> 1;
  }

  /**
   * The test means what it should: on a long enough hash, exactly that the leading bits are clear;
   * a hash with fewer bits passes only when it is all zero and the difficulty is whole bytes.
   */
  lemma LeadingZeroesAreBits(hash: bytes, difficulty: nat)
    ensures difficulty <= 8 * |hash| ==>
              (CheckLeadingZeroes(hash, difficulty) <==> forall k: nat :: k < difficulty ==> !BitSet(hash, k))
    ensures 8 * |hash| < difficulty ==>
              (CheckLeadingZeroes(hash, difficulty) <==> difficulty % 8 == 0 && forall i :: 0 <= i < |hash| ==> hash[i] == 0)
  {
    if difficulty <= 8 * |hash| {
      if forall k: nat :: k < difficulty ==> !BitSet(hash, k) {
        ClearBitsPass(hash, difficulty);
      }
      if CheckLeadingZeroes(hash, difficulty) {
        PassingBitsClear(hash, difficulty);
      }
    }
  }

  lemma ClearBitsPass(hash: bytes, difficulty: nat)
    requires difficulty <= 8 * |hash| && forall k: nat :: k < difficulty ==> !BitSet(hash, k)
    ensures CheckLeadingZeroes(hash, difficulty)
  {
    hide ByteBit;
    var full, rem := difficulty / 8, difficulty % 8;
    forall i | 0 <= i < full ensures hash[i] == 0 {
      ByteZero(hash[i]);
      forall k: nat | k < 8 ensures !ByteBit(hash[i], k) {
        assert !BitSet(hash, 8 * i + k);
      }
    }
    if rem > 0 {
      TopBitsZero(hash[full], rem);
      forall k: nat | k < rem ensures !ByteBit(hash[full], k) {
        assert !BitSet(hash, 8 * full + k);
      }
    }
  }

  lemma PassingBitsClear(hash: bytes, difficulty: nat)
    requires difficulty <= 8 * |hash| && CheckLeadingZeroes(hash, difficulty)
    ensures forall k: nat :: k < difficulty ==> !BitSet(hash, k)
  {
    hide ByteBit;
    var full, rem := difficulty / 8, difficulty % 8;
    forall k: nat | k < difficulty ensures !BitSet(hash, k) {
      if k / 8 < full {
        ByteZero(hash[k / 8]);
      } else {
        TopBitsZero(hash[full], rem);
      }
    }
  }

  /** The block as it is serialised for hashing: hash and nonce cleared. */
  function Unsealed(b: Block): Block {
    b.(hash := [], nonce := None)
  }

  /** The nonce is present and the reported hash is the block's own hash with enough leading zeroes. */
  predicate Sealed(rules: Rules, b: Block) {
    && b.nonce.Some?
    && b.hash != []
    && CheckLeadingZeroes(b.hash, DIFFICULTY)
    && rules.powHash(Unsealed(b), b.nonce.value) == b.hash
  }

  /** `Block::validate`. */
  predicate BlockValid(rules: Rules, b: Block) {
    && Sealed(rules, b)
    && rules.candidateOk(b.data)
    && rules.ballotOk(b.ringId, b.data, b.keyImage, b.signature)
  }

  /** What validation demands, condition by condition: the difficulty is twenty leading zero bits. */
  lemma BlockValidMeans(rules: Rules, b: Block)
    ensures BlockValid(rules, b) <==>
            && b.nonce.Some? && b.hash != []
            && 20 <= 8 * |b.hash| && (forall k: nat :: k < 20 ==> !BitSet(b.hash, k))
            && rules.candidateOk(b.data) && rules.ballotOk(b.ringId, b.data, b.keyImage, b.signature)
            && rules.powHash(b.(nonce := None, hash := []), b.nonce.value) == b.hash
  {
    hide CheckLeadingZeroes, BitSet;
    LeadingZeroesAreBits(b.hash, 20);
  }

  /** `Block::validate`: the checks in order, the recomputed hash last. */
  method ValidateBlock(b: Block, rules: Rules) returns (ok: bool)
    ensures ok <==> BlockValid(rules, b)
    ensures ok <==>
            && b.nonce.Some? && b.hash != []
            && 20 <= 8 * |b.hash| && (forall k: nat :: k < 20 ==> !BitSet(b.hash, k))
            && rules.candidateOk(b.data) && rules.ballotOk(b.ringId, b.data, b.keyImage, b.signature)
            && rules.powHash(b.(nonce := None, hash := []), b.nonce.value) == b.hash
  {
    hide CheckLeadingZeroes, BitSet;
    BlockValidMeans(rules, b);
    if b.nonce.None? {
      return false;
    }
    if b.hash == [] {
      return false;
    }
    if !CheckLeadingZeroes(b.hash, DIFFICULTY) {
      return false;
    }
    if !rules.candidateOk(b.data) {
      return false;
    }
    if !rules.ballotOk(b.ringId, b.data, b.keyImage, b.signature) {
      return false;
    }
    var blockClone := b.(hash := []);
    blockClone := blockClone.(nonce := None);
    var h := rules.powHash(blockClone, b.nonce.value);
    return h == b.hash;
  }

  /** `App::verify_task`. */
  predicate TaskValid(rules: Rules, task: MiningTask) {
    && rules.candidateOk(task.candidate)
    && rules.ballotOk(task.ringId, task.candidate, task.keyImage, task.signature)
  }

  /** The nonce meets the difficulty for this block, so the miner's search may return it. */
  predicate Solves(rules: Rules, b: Block, nonce: nat) {
    CheckLeadingZeroes(rules.powHash(Unsealed(b), nonce), DIFFICULTY)
  }

  /** `Block::hash`: stamp the block with a nonce that solves it. */
  function Seal(rules: Rules, b: Block, nonce: nat): Block {
    b.(nonce := Some(nonce), hash := rules.powHash(Unsealed(b), nonce))
  }

  /** The block `mine_block` starts from: next index, the parent's hash, the ballot, the time. */
  function Header(task: MiningTask, last: Option<Block>, lastIdx: nat, timestamp: nat): Block {
    Block(
      if last.None? then 0 else lastIdx + 1,
      task.candidate,
      if last.None? then [] else last.value.hash,
      None, [], task.ringId, task.keyImage, task.signature, timestamp)
  }

  function MineBlock(rules: Rules, task: MiningTask, last: Option<Block>, lastIdx: nat, timestamp: nat, nonce: nat): (b: Block)
    requires Solves(rules, Header(task, last, lastIdx, timestamp), nonce)
  {
    Seal(rules, Header(task, last, lastIdx, timestamp), nonce)
  }

  /** The search stops exactly at the nonces validation accepts: those under which the first twenty hash bits are clear. */
  lemma SolvesMeans(rules: Rules, b: Block, nonce: nat)
    ensures var h := rules.powHash(b.(nonce := None, hash := []), nonce);
            Solves(rules, b, nonce) <==> 20 <= 8 * |h| && forall k: nat :: k < 20 ==> !BitSet(h, k)
    ensures Solves(rules, b, nonce) <==> Sealed(rules, Seal(rules, b, nonce))
  {
    hide CheckLeadingZeroes, BitSet;
    LeadingZeroesAreBits(rules.powHash(Unsealed(b), nonce), 20);
  }

  /** A verified task mined with a nonce that solves it passes the check every other node makes. */
  lemma MinedBlockIsValid(rules: Rules, task: MiningTask, last: Option<Block>, lastIdx: nat, timestamp: nat, nonce: nat)
    requires TaskValid(rules, task)
    requires Solves(rules, Header(task, last, lastIdx, timestamp), nonce)
    ensures BlockValid(rules, MineBlock(rules, task, last, lastIdx, timestamp, nonce))
  {
    LeadingZeroesAreBits(rules.powHash(Header(task, last, lastIdx, timestamp), nonce), DIFFICULTY);
  }

  /** A mined block carries the ballot, the clock reading and its place, and the nonce and hash that seal exactly that. */
  lemma MinedBlockRecords(rules: Rules, task: MiningTask, last: Option<Block>, lastIdx: nat, timestamp: nat, nonce: nat)
    requires Solves(rules, Header(task, last, lastIdx, timestamp), nonce)
    ensures var b := MineBlock(rules, task, last, lastIdx, timestamp, nonce);
            && b.data == task.candidate && b.ringId == task.ringId
            && b.keyImage == task.keyImage && b.signature == task.signature
            && b.timestamp == timestamp && b.nonce == Some(nonce)
            && (last.None? ==> b.idx == 0 && b.prevHash == [])
            && (last.Some? ==> b.idx == lastIdx + 1 && b.prevHash == last.value.hash)
            && b.hash == rules.powHash(b.(nonce := None, hash := []), nonce)
  {
  }

  /** No two (block, nonce) inputs share a hash: the collision-freeness taken where it is used. */
  ghost predicate CollisionFree(rules: Rules) {
    forall b: Block, n: nat, c: Block, m: nat ::
      rules.powHash(b, n) == rules.powHash(c, m) ==> b == c && n == m
  }

  /** Under collision-freeness a valid block is determined by its hash. */
  lemma HashNamesBlock(rules: Rules, a: Block, b: Block)
    requires CollisionFree(rules)
    requires Sealed(rules, a) && Sealed(rules, b) && a.hash == b.hash
    ensures a == b
  {
    assert Unsealed(a) == Unsealed(b) && a.nonce.value == b.nonce.value;
    assert a == Unsealed(a).(hash := a.hash, nonce := Some(a.nonce.value));
    assert b == Unsealed(b).(hash := b.hash, nonce := Some(b.nonce.value));
  }
}
