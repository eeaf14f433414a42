/** Byte strings and the fixed-width integer encodings both implementations use. */
module Bytes {

  type byte = bv8
  type bytes = seq<byte>

  /** 256 to the power k: how many values k bytes can hold. */
  function Pow256(k: nat): (r: nat)
    ensures r > 0
  {
    if k == 0 then 1 else 256 * Pow256(k - 1)
  }

  function LeToNat(b: bytes): nat {
    if b == [] then 0 else b[0] as nat + 256 * LeToNat(b[1..])
  }

  /** The low eight bits of a number. */
  function ByteOf(n: nat): byte {
    (n % 256) as byte
  }

  /** The k low-order bytes of n, least significant first. */
  function NatToLe(n: nat, k: nat): (b: bytes)
    ensures |b| == k
  {
    if k == 0 then [] else [ByteOf(n)] + NatToLe(n / 256, k - 1)
  }

  lemma {:induction false} LeRange(b: bytes)
    ensures LeToNat(b) < Pow256(|b|)
    decreases |b|
  {
    if b != [] {
      LeRange(b[1..]);
    }
  }

  /** Decoding an encoding gives the number back, up to the bytes it was given. */
  lemma {:induction false} LeOfNat(n: nat, k: nat)
    requires n < Pow256(k)
    ensures LeToNat(NatToLe(n, k)) == n
    decreases k
  {
    if k > 0 {
      LeOfNat(n / 256, k - 1);
      assert NatToLe(n, k)[1..] == NatToLe(n / 256, k - 1);
      ByteOfNat(n);
    }
  }

  /** Every number below 256 is some byte's value, found by counting up from zero. */
  lemma {:induction false} ByteWorth(n: nat) returns (b: byte)
    requires n < 256
    ensures b as nat == n
  {
    if n == 0 {
      b := 0;
    } else {
      var previous := ByteWorth(n - 1);
      b := NextByte(previous);
    }
  }

  lemma NextByte(b: byte) returns (next: byte)
    requires b as nat < 255
    ensures next as nat == b as nat + 1
  {
    assert b < 255;
    next := b + 1;
  }

  lemma ByteOfNat(n: nat)
    ensures ByteOf(n) as nat == n % 256
  {
    var b := ByteWorth(n % 256);
    NatOfByte(b);
  }

  lemma NatOfByte(b: byte)
    ensures b as nat < 256 && (b as nat) as byte == b
  {
  }

  lemma {:induction false} NatOfLe(b: bytes)
    ensures NatToLe(LeToNat(b), |b|) == b
    decreases |b|
  {
    if b != [] {
      NatOfLe(b[1..]);
      NatOfByte(b[0]);
      assert LeToNat(b) % 256 == b[0] as nat && LeToNat(b) / 256 == LeToNat(b[1..]);
      assert b == [b[0]] + b[1..];
    }
  }

  /** Big-endian encoding, the I2OSP of RFC 8017. */
  function I2osp(n: nat, k: nat): (b: bytes)
    ensures |b| == k
  {
    if k == 0 then [] else I2osp(n / 256, k - 1) + [ByteOf(n)]
  }

  // ---- Joining ----

  function Flatten(parts: seq<bytes>): bytes {
    if parts == [] then [] else parts[0] + Flatten(parts[1..])
  }

  lemma {:induction false} FlattenAppend(parts: seq<bytes>, last: bytes)
    ensures Flatten(parts + [last]) == Flatten(parts) + last
    decreases |parts|
  {
    if parts == [] {
      assert [last][1..] == [];
    } else {
      FlattenAppend(parts[1..], last);
      assert (parts + [last])[1..] == parts[1..] + [last];
      assert (parts + [last])[0] == parts[0];
    }
  }

  ghost predicate AllSized(parts: seq<bytes>, size: nat) {
    forall i :: 0 <= i < |parts| ==> |parts[i]| == size
  }

  lemma {:induction false} FlattenLength(parts: seq<bytes>, size: nat)
    requires AllSized(parts, size)
    ensures |Flatten(parts)| == size * |parts|
    decreases |parts|
  {
    if parts != [] {
      FlattenLength(parts[1..], size);
      assert size * |parts| == size + size * |parts[1..]|;
    }
  }

  /** Pieces of a known size can be told apart after joining. */
  lemma {:induction false} FlattenInjective(a: seq<bytes>, b: seq<bytes>, size: nat)
    requires AllSized(a, size) && AllSized(b, size) && |a| == |b|
    requires Flatten(a) == Flatten(b)
    ensures a == b
    decreases |a|
  {
    if a != [] {
      SplitSame(a[0], Flatten(a[1..]), b[0], Flatten(b[1..]));
      FlattenInjective(a[1..], b[1..], size);
      assert a == [a[0]] + a[1..] && b == [b[0]] + b[1..];
    }
  }

  /** Two concatenations whose first parts have the same length agree part by part. */
  lemma SplitSame(a: bytes, x: bytes, b: bytes, y: bytes)
    requires |a| == |b| && a + x == b + y
    ensures a == b && x == y
  {
    assert a == (a + x)[..|a|] && b == (b + y)[..|b|];
    assert x == (a + x)[|a|..] && y == (b + y)[|b|..];
  }

  // ---- Comparison by accumulated difference ----

  /** The fixed-shape comparison of verify.ts, link.ts and verify.rs. */
  method BytesEqual(a: bytes, b: bytes) returns (equal: bool)
    ensures equal <==> a == b
  {
    if |a| != |b| {
      return false;
    }
    var diff: byte := 0;
    for i := 0 to |a|
      invariant diff == 0 <==> a[..i] == b[..i]
    {
      DiffZero(diff, a[i], b[i]);
      assert a[..i + 1] == a[..i] + [a[i]] && b[..i + 1] == b[..i] + [b[i]];
      diff := diff | (a[i] ^ b[i]);
    }
    assert a[..|a|] == a && b[..|b|] == b;
    return diff == 0;
  }

  lemma DiffZero(d: byte, x: byte, y: byte)
    ensures d | (x ^ y) == 0 <==> d == 0 && x == y
  {
  }
}
