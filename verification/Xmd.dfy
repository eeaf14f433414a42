/**
 * `expand_message_xmd` of blockchain/src/lrs/hash.rs against its definition in section 5.3.1 of
 * RFC 9380, for any hash function with a 64-byte output and a 128-byte block.
 */
module Xmd {
  import opened Bytes

  const B_IN_BYTES: nat := 64
  const S_IN_BYTES: nat := 128

  type Hash = bytes -> bytes

  ghost predicate IsSha512Sized(h: Hash) {
    forall b: bytes :: |h(b)| == B_IN_BYTES
  }

  // ---- The definition ----

  function DstPrime(dst: bytes): bytes {
    dst + I2osp(|dst|, 1)
  }

  function Zeros(n: nat): (z: bytes)
    ensures |z| == n && forall i :: 0 <= i < n ==> z[i] == 0
  {
    seq(n, _ => 0)
  }

  function Xor(a: bytes, b: bytes): (x: bytes)
    requires |a| == |b|
    ensures |x| == |a|
  {
    seq(|a|, i requires 0 <= i < |a| => a[i] ^ b[i])
  }

  function MsgPrime(msg: bytes, dst: bytes, len: nat): bytes {
    Zeros(S_IN_BYTES) + msg + I2osp(len, 2) + I2osp(0, 1) + DstPrime(dst)
  }

  /** The i-th digest: b_0 over the padded message, b_1, and then a chain of masked digests. */
  function Digest(h: Hash, msg: bytes, dst: bytes, len: nat, i: nat): (b: bytes)
    requires IsSha512Sized(h)
    ensures |b| == B_IN_BYTES
    decreases i
  {
    if i == 0 then h(MsgPrime(msg, dst, len))
    else
      var b0 := h(MsgPrime(msg, dst, len));
      if i == 1 then h(b0 + I2osp(1, 1) + DstPrime(dst))
      else h(Xor(b0, Digest(h, msg, dst, len, i - 1)) + I2osp(i, 1) + DstPrime(dst))
  }

  /** b_1 to b_i joined. */
  function Uniform(h: Hash, msg: bytes, dst: bytes, len: nat, i: nat): (u: bytes)
    requires IsSha512Sized(h)
    ensures |u| == B_IN_BYTES * i
    decreases i
  {
    if i == 0 then [] else Uniform(h, msg, dst, len, i - 1) + Digest(h, msg, dst, len, i)
  }

  /** `div_ceil`. */
  function Ell(len: nat): nat {
    (len + B_IN_BYTES - 1) / B_IN_BYTES
  }

  /** What the standard aborts on. */
  predicate InBounds(dst: bytes, len: nat) {
    Ell(len) <= 255 && len <= 65535 && |dst| <= 255
  }

  function Expand(h: Hash, msg: bytes, dst: bytes, len: nat): (u: bytes)
    requires IsSha512Sized(h)
    ensures |u| == len
  {
    Uniform(h, msg, dst, len, Ell(len))[..len]
  }

  function BeToNat(b: bytes): nat {
    if b == [] then 0 else 256 * BeToNat(b[..|b| - 1]) + b[|b| - 1] as nat
  }

  lemma {:induction false} I2ospLossless(n: nat, k: nat)
    requires n < Pow256(k)
    ensures BeToNat(I2osp(n, k)) == n
    decreases k
  {
    if k > 0 {
      I2ospLossless(n / 256, k - 1);
      ByteOfNat(n);
      var b := I2osp(n, k);
      assert b[..|b| - 1] == I2osp(n / 256, k - 1) && b[|b| - 1] == ByteOf(n);
    }
  }

  /** Within the asserted bounds no length or counter loses anything to its one or two bytes. */
  lemma CastsLossless(dst: bytes, len: nat, i: nat)
    requires InBounds(dst, len) && i <= Ell(len)
    ensures BeToNat(I2osp(|dst|, 1)) == |dst| && BeToNat(I2osp(len, 2)) == len && BeToNat(I2osp(i, 1)) == i
  {
    hide BeToNat, I2osp;
    assert Pow256(1) == 256 && Pow256(2) == 0x1_0000;
    I2ospLossless(|dst|, 1);
    I2ospLossless(len, 2);
    I2ospLossless(i, 1);
  }

  /** Exactly these lengths are within the standard's bounds. */
  lemma BoundsMean(dst: bytes, len: nat)
    ensures InBounds(dst, len) <==> len <= 255 * 64 && |dst| <= 255
  {
  }

  lemma OneAndTwoBytes(n: nat)
    ensures I2osp(n, 1) == [ByteOf(n)] && I2osp(n, 2) == [ByteOf(n / 256), ByteOf(n)]
  {
    hide ByteOf;
    assert I2osp(n / 256, 0) == [] && I2osp(n / 256 / 256, 0) == [];
    assert I2osp(n / 256, 1) == I2osp(n / 256 / 256, 0) + [ByteOf(n / 256)];
    assert I2osp(n, 2) == I2osp(n / 256, 1) + [ByteOf(n)];
  }

  /** The joined digests, byte by byte. */
  lemma {:induction false} UniformAt(h: Hash, msg: bytes, dst: bytes, len: nat, i: nat, k: nat)
    requires IsSha512Sized(h) && k < 64 * i
    ensures Uniform(h, msg, dst, len, i)[k] == Digest(h, msg, dst, len, k / 64 + 1)[k % 64]
    decreases i
  {
    hide Digest;
    if k < 64 * (i - 1) {
      UniformAt(h, msg, dst, len, i - 1, k);
    } else {
      assert k / 64 == i - 1;
    }
  }

  /**
   * The expansion in full: 64 bytes each of b_1, b_2, ..., cut off at the length asked for, where b_0
   * hashes a block of zeros, the message, the length in two bytes, a zero and the tag; b_1 hashes b_0;
   * and each later b_i hashes b_0 masked with the digest before, each time with its number and the tag.
   */
  lemma ExpansionIs(h: Hash, msg: bytes, dst: bytes, len: nat) returns (b: seq<bytes>)
    requires IsSha512Sized(h)
    ensures |b| == (len + 63) / 64 + 1 && (forall i :: 0 <= i < |b| ==> |b[i]| == 64)
    ensures b[0] == h(seq(128, _ => 0 as byte) + msg + [ByteOf(len / 256), ByteOf(len)] + [0] + dst + [ByteOf(|dst|)])
    ensures |b| > 1 ==> b[1] == h(b[0] + [1] + dst + [ByteOf(|dst|)])
    ensures forall i :: 2 <= i < |b| ==>
              b[i] == h(seq(64, j requires 0 <= j < 64 => b[0][j] ^ b[i - 1][j]) + [ByteOf(i)] + dst + [ByteOf(|dst|)])
    ensures forall k :: 0 <= k < len ==> Expand(h, msg, dst, len)[k] == b[k / 64 + 1][k % 64]
  {
    hide I2osp, Uniform, Digest, ByteOf;
    b := seq(Ell(len) + 1, i requires 0 <= i < Ell(len) + 1 => Digest(h, msg, dst, len, i));
    FirstDigests(h, msg, dst, len);
    forall i | 2 <= i < |b|
      ensures b[i] == h(seq(64, j requires 0 <= j < 64 => b[0][j] ^ b[i - 1][j]) + [ByteOf(i)] + dst + [ByteOf(|dst|)])
    {
      LaterDigest(h, msg, dst, len, i);
    }
    forall k | 0 <= k < len ensures Expand(h, msg, dst, len)[k] == b[k / 64 + 1][k % 64] {
      InDigest(len, k);
      UniformAt(h, msg, dst, len, Ell(len), k);
    }
  }

  lemma InDigest(len: nat, k: nat)
    requires k < len
    ensures k < 64 * Ell(len) && k / 64 < Ell(len) == (len + 63) / 64
  {
  }

  lemma FirstDigests(h: Hash, msg: bytes, dst: bytes, len: nat)
    requires IsSha512Sized(h)
    ensures Digest(h, msg, dst, len, 0) ==
            h(seq(128, _ => 0 as byte) + msg + [ByteOf(len / 256), ByteOf(len)] + [0] + dst + [ByteOf(|dst|)])
    ensures Digest(h, msg, dst, len, 1) == h(Digest(h, msg, dst, len, 0) + [1] + dst + [ByteOf(|dst|)])
  {
    hide I2osp;
    OneAndTwoBytes(0);
    OneAndTwoBytes(1);
    OneAndTwoBytes(len);
    OneAndTwoBytes(|dst|);
    var b0 := Digest(h, msg, dst, len, 0);
    assert Zeros(S_IN_BYTES) == seq(128, _ => 0 as byte);
    assert MsgPrime(msg, dst, len) == seq(128, _ => 0 as byte) + msg + [ByteOf(len / 256), ByteOf(len)] + [0] + dst + [ByteOf(|dst|)];
    assert b0 + I2osp(1, 1) + DstPrime(dst) == b0 + [1] + dst + [ByteOf(|dst|)];
  }

  lemma LaterDigest(h: Hash, msg: bytes, dst: bytes, len: nat, i: nat)
    requires IsSha512Sized(h) && i >= 2
    ensures var b0, before := Digest(h, msg, dst, len, 0), Digest(h, msg, dst, len, i - 1);
            Digest(h, msg, dst, len, i) ==
            h(seq(64, j requires 0 <= j < 64 => b0[j] ^ before[j]) + [ByteOf(i)] + dst + [ByteOf(|dst|)])
  {
    hide I2osp, MsgPrime;
    OneAndTwoBytes(i);
    OneAndTwoBytes(|dst|);
    var b0, before := Digest(h, msg, dst, len, 0), Digest(h, msg, dst, len, i - 1);
    var masked := seq(64, j requires 0 <= j < 64 => b0[j] ^ before[j]);
    assert Xor(b0, before) == masked;
    assert masked + I2osp(i, 1) + DstPrime(dst) == masked + [ByteOf(i)] + dst + [ByteOf(|dst|)];
  }

  // ---- The code ----

  /** `(n as u16).to_be_bytes()`. */
  function U16ToBe(n: nat): bytes {
    var w := n % 0x1_0000;
    [ByteOf(w / 256), ByteOf(w)]
  }

  lemma U16IsI2osp(n: nat)
    requires n <= 65535
    ensures U16ToBe(n) == I2osp(n, 2)
  {
    hide ByteOf;
    assert n % 0x1_0000 == n;
    assert I2osp(n / 256, 1) == I2osp(n / 256 / 256, 0) + [ByteOf(n / 256)];
  }

  /** `n as u8`. */
  lemma U8IsI2osp(n: nat)
    ensures [ByteOf(n)] == I2osp(n, 1)
  {
    assert I2osp(n / 256, 0) == [];
  }

  method XorInto(b0: bytes, prev: bytes) returns (xored: bytes)
    requires |b0| == |prev| == B_IN_BYTES
    ensures xored == Xor(b0, prev)
  {
    var buffer := new byte[B_IN_BYTES](_ => 0);
    for j := 0 to B_IN_BYTES
      invariant forall i :: 0 <= i < j ==> buffer[i] == b0[i] ^ prev[i]
    {
      buffer[j] := b0[j] ^ prev[j];
    }
    xored := buffer[..];
  }

  method ExpandMessageXmd(h: Hash, msg: bytes, dst: bytes, lenInBytes: nat) returns (uniform: bytes)
    requires IsSha512Sized(h) && InBounds(dst, lenInBytes)
    ensures uniform == Expand(h, msg, dst, lenInBytes)
  {
    hide I2osp, Xor, Zeros, ByteOf;
    var ell := Ell(lenInBytes);
    U8IsI2osp(|dst|);
    U16IsI2osp(lenInBytes);
    U8IsI2osp(0);
    U8IsI2osp(1);
    var dstPrime := dst + [ByteOf(|dst|)];
    var msgPrime := Zeros(S_IN_BYTES);
    msgPrime := msgPrime + msg;
    msgPrime := msgPrime + U16ToBe(lenInBytes);
    msgPrime := msgPrime + [ByteOf(0)];
    msgPrime := msgPrime + dstPrime;
    assert msgPrime == MsgPrime(msg, dst, lenInBytes);
    var b0 := h(msgPrime);
    var b1 := h(b0 + [ByteOf(1)] + dstPrime);
    assert b1 == Digest(h, msg, dst, lenInBytes, 1);
    uniform := b1;
    UniformOne(h, msg, dst, lenInBytes);
    var prev := b1;
    var i: int := 2;
    while i <= ell
      invariant i == 2 || 2 <= i <= ell + 1
      invariant prev == Digest(h, msg, dst, lenInBytes, i - 1)
      invariant uniform == Uniform(h, msg, dst, lenInBytes, i - 1)
      decreases ell as int + 1 - i
    {
      U8IsI2osp(i);
      var xored := XorInto(b0, prev);
      prev := h(xored + [ByteOf(i)] + dstPrime);
      uniform := uniform + prev;
      i := i + 1;
    }
    if ell == 0 {
      EmptyExpansion(h, msg, dst, lenInBytes);
    }
    uniform := uniform[..lenInBytes];
  }

  lemma UniformOne(h: Hash, msg: bytes, dst: bytes, len: nat)
    requires IsSha512Sized(h)
    ensures Uniform(h, msg, dst, len, 1) == Digest(h, msg, dst, len, 1)
  {
    assert Uniform(h, msg, dst, len, 0) == [];
  }

  lemma EmptyExpansion(h: Hash, msg: bytes, dst: bytes, len: nat)
    requires IsSha512Sized(h) && Ell(len) == 0
    ensures len == 0 && Expand(h, msg, dst, len) == []
  {
  }
}
