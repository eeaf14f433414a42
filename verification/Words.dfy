/**
 * The four-byte length tag: how the TypeScript code writes and reads it with JavaScript's 32-bit
 * operators, and how the Rust code does with `to_le_bytes` and `from_le_bytes`.
 */
module Words {
  import opened Bytes
  import opened Wrappers

  const TWO32: nat := 0x1_0000_0000

  // ---- JavaScript's bitwise operators, bit by bit on two's-complement 32-bit words ----

  function BitAnd(a: nat, b: nat): nat {
    if a == 0 || b == 0 then 0
    else 2 * BitAnd(a / 2, b / 2) + (if a % 2 == 1 && b % 2 == 1 then 1 else 0)
  }

  function BitOr(a: nat, b: nat): nat {
    if a == 0 then b else if b == 0 then a
    else 2 * BitOr(a / 2, b / 2) + (if a % 2 == 1 || b % 2 == 1 then 1 else 0)
  }

  function Shl(a: nat, k: nat): nat {
    if k == 0 then a else 2 * Shl(a, k - 1)
  }

  function Shr(a: nat, k: nat): nat {
    if k == 0 then a else Shr(a / 2, k - 1)
  }

  function ToUint32(x: int): (u: nat)
    ensures u < TWO32
  {
    x % TWO32
  }

  function ToInt32(x: int): int {
    if ToUint32(x) >= TWO32 / 2 then ToUint32(x) - TWO32 else ToUint32(x)
  }

  function JsAnd(x: int, y: int): int {
    ToInt32(BitAnd(ToUint32(x), ToUint32(y)))
  }

  function JsOr(x: int, y: int): int {
    ToInt32(BitOr(ToUint32(x), ToUint32(y)))
  }

  function JsShl(x: int, k: nat): int {
    ToInt32(Shl(ToUint32(x), k))
  }

  /** The unsigned right shift `>>>`. */
  function JsUshr(x: int, k: nat): nat {
    Shr(ToUint32(x), k)
  }

  /** Storing a number into a Uint8Array keeps its low eight bits. */
  function ToUint8(x: int): byte {
    ByteOf(x % 256)
  }

  function Ones(k: nat): nat {
    if k == 0 then 0 else 2 * Ones(k - 1) + 1
  }

  function LowBits(a: nat, k: nat): nat {
    if k == 0 then 0 else 2 * LowBits(a / 2, k - 1) + a % 2
  }

  lemma {:induction false} AndMask(a: nat, k: nat)
    ensures BitAnd(a, Ones(k)) == LowBits(a, k)
    decreases k
  {
    if k > 0 {
      AndMask(a / 2, k - 1);
      if a == 0 {
        LowBitsZero(k - 1);
      }
    }
  }

  lemma {:induction false} LowBitsZero(k: nat)
    ensures LowBits(0, k) == 0
  {
    if k > 0 {
      LowBitsZero(k - 1);
    }
  }

  /** Joining bits that do not overlap is addition. */
  lemma {:induction false} OrDisjoint(a: nat, b: nat, k: nat)
    requires a <= Ones(k)
    ensures BitOr(a, Shl(b, k)) == a + Shl(b, k)
    decreases k
  {
    if k > 0 && a > 0 && Shl(b, k) > 0 {
      OrDisjoint(a / 2, b, k - 1);
    }
  }

  lemma {:induction false} ShrTwice(a: nat, j: nat, k: nat)
    ensures Shr(a, j + k) == Shr(Shr(a, j), k)
    decreases j
  {
    if j > 0 {
      ShrTwice(a / 2, j - 1, k);
      assert Shr(a, j + k) == Shr(a / 2, j - 1 + k);
    }
  }

  lemma ShrPair(a: nat)
    ensures Shr(a, 2) == a / 4
  {
    assert Shr(a / 2, 1) == Shr(a / 2 / 2, 0);
  }

  lemma ShrNibble(a: nat)
    ensures Shr(a, 4) == a / 16
  {
    ShrPair(a);
    ShrPair(a / 4);
    ShrTwice(a, 2, 2);
  }

  lemma ShrByte(a: nat)
    ensures Shr(a, 8) == a / 256
  {
    hide Shr;
    ShrNibble(a);
    ShrNibble(a / 16);
    ShrTwice(a, 4, 4);
  }

  lemma LowBitsPair(a: nat, k: nat)
    ensures LowBits(a, k + 2) == 4 * LowBits(a / 4, k) + a % 4
  {
    assert a / 2 / 2 == a / 4;
  }

  lemma LowByte(a: nat)
    ensures LowBits(a, 8) == a % 256
  {
    hide LowBits;
    LowBitsPair(a, 6);
    LowBitsPair(a / 4, 4);
    LowBitsPair(a / 16, 2);
    LowBitsPair(a / 64, 0);
    LowBitsNone(a / 256);
    assert a / 4 / 4 == a / 16 && a / 16 / 4 == a / 64 && a / 64 / 4 == a / 256;
  }

  lemma LowBitsNone(a: nat)
    ensures LowBits(a, 0) == 0
  {
  }

  lemma {:induction false} ShlScales(a: nat, b: nat, k: nat)
    requires Shl(1, k) == b
    ensures Shl(a, k) == a * b
    decreases k
  {
    if k > 0 {
      ShlScales(a, Shl(1, k - 1), k - 1);
      assert a * (2 * Shl(1, k - 1)) == 2 * (a * Shl(1, k - 1));
    }
  }

  lemma Places()
    ensures Shl(1, 8) == 256 && Shl(1, 16) == 0x1_0000 && Shl(1, 24) == 0x100_0000
    ensures Ones(8) == 255 && Ones(16) == 0xffff && Ones(24) == 0xff_ffff
    ensures Pow256(4) == TWO32
  {
    assert Shl(1, 4) == 16 && Shl(1, 12) == 0x1000 && Shl(1, 20) == 0x10_0000;
    assert Ones(4) == 15 && Ones(12) == 0xfff && Ones(20) == 0xf_ffff;
    assert Pow256(2) == 0x1_0000;
  }

  lemma SignedAndBack(x: int)
    ensures ToUint32(ToInt32(x)) == ToUint32(x)
  {
  }

  lemma ToUint32Small(x: int)
    requires 0 <= x < TWO32
    ensures ToUint32(x) == x
  {
  }

  /** A bitwise result is the number between -2^31 and 2^31 - 1 that agrees modulo 2^32. */
  lemma SignedRange(x: int)
    ensures -0x8000_0000 <= ToInt32(x) < 0x8000_0000
    ensures ToInt32(x) % 0x1_0000_0000 == x % 0x1_0000_0000
  {
  }

  lemma ToInt32Small(x: int)
    requires 0 <= x < TWO32 / 2
    ensures ToInt32(x) == x
  {
  }

  /** Masking a 32-bit number with 0xff keeps its low byte. */
  lemma LowByteMasked(x: nat)
    requires x < TWO32
    ensures JsAnd(x, 0xff) == x % 256
  {
    hide BitAnd, LowBits, Ones, ToUint32, ToInt32;
    ToUint32Small(0xff);
    ToUint32Small(x);
    Places();
    AndMask(x, 8);
    LowByte(x);
    ToInt32Small(x % 256);
  }

  // ---- The length tag ----

  /** `u32le` of hash.rs: the cast keeps the low 32 bits, and `to_le_bytes` writes them. */
  function U32le(n: nat): (b: bytes)
    ensures |b| == 4
  {
    NatToLe(n % TWO32, 4)
  }

  lemma FourLe(n: nat)
    ensures NatToLe(n, 4) == [ByteOf(n), ByteOf(n / 256), ByteOf(n / 256 / 256), ByteOf(n / 256 / 256 / 256)]
  {
    hide ByteOf;
    var n1, n2, n3 := n / 256, n / 256 / 256, n / 256 / 256 / 256;
    assert NatToLe(n3, 1) == [ByteOf(n3)] + NatToLe(n3 / 256, 0);
    assert NatToLe(n2, 2) == [ByteOf(n2)] + NatToLe(n3, 1);
    assert NatToLe(n1, 3) == [ByteOf(n1)] + NatToLe(n2, 2);
  }

  /** A length that fits is recovered from its tag. */
  lemma U32leReads(n: nat)
    requires n < TWO32
    ensures LeToNat(U32le(n)) == n
  {
    hide NatToLe, LeToNat;
    Places();
    LeOfNat(n, 4);
  }

  lemma U32leInjective(n: nat, m: nat)
    requires n < TWO32 && m < TWO32 && U32le(n) == U32le(m)
    ensures n == m
  {
    U32leReads(n);
    U32leReads(m);
  }

  /** `u32le` of hash.ts: refuses what does not fit, otherwise masks and shifts into a buffer. */
  method TsU32le(n: int) returns (r: Result<bytes, string>)
    ensures r == if 0 <= n < TWO32 then Ok(U32le(n)) else Err("u32le out of range")
  {
    hide JsAnd, JsUshr, ToUint8, ByteOf, NatToLe;
    if n < 0 || n > 0xffff_ffff {
      return Err("u32le out of range");
    }
    var b := new byte[4];
    b[0] := ToUint8(JsAnd(n, 0xff));
    b[1] := ToUint8(JsAnd(JsUshr(n, 8), 0xff));
    b[2] := ToUint8(JsAnd(JsUshr(n, 16), 0xff));
    b[3] := ToUint8(JsAnd(JsUshr(n, 24), 0xff));
    ShiftsDivide(n);
    MaskByte(n);
    MaskByte(n / 256);
    MaskByte(n / 256 / 256);
    MaskByte(n / 256 / 256 / 256);
    FourLe(n);
    assert b[..] == [b[0], b[1], b[2], b[3]];
    return Ok(b[..]);
  }

  lemma ShiftsDivide(n: nat)
    requires n < TWO32
    ensures JsUshr(n, 8) == n / 256 && JsUshr(n, 16) == n / 256 / 256 && JsUshr(n, 24) == n / 256 / 256 / 256
  {
    hide Shr;
    ToUint32Small(n);
    ShrByte(n);
    ShrByte(n / 256);
    ShrByte(n / 256 / 256);
    ShrTwice(n, 8, 8);
    ShrTwice(n, 16, 8);
  }

  lemma MaskByte(x: nat)
    requires x < TWO32
    ensures ToUint8(JsAnd(x, 0xff)) == ByteOf(x)
  {
    hide JsAnd;
    LowByteMasked(x);
    assert ByteOf(x % 256) == ByteOf(x);
  }

  /** `readU32le` of serialize.ts. The last byte is shifted into the sign bit and back out by `>>> 0`. */
  function ReadU32le(b: bytes, offset: nat): nat
    requires offset + 4 <= |b|
  {
    JsUshr(
      JsOr(JsOr(JsOr(b[offset] as nat, JsShl(b[offset + 1] as nat, 8)), JsShl(b[offset + 2] as nat, 16)),
           JsShl(b[offset + 3] as nat, 24)),
      0)
  }

  lemma OrUnsigned(x: int, y: int)
    ensures ToUint32(JsOr(x, y)) == ToUint32(BitOr(ToUint32(x), ToUint32(y)))
  {
    SignedAndBack(BitOr(ToUint32(x), ToUint32(y)));
  }

  lemma ShlUnsigned(x: nat, b: nat, k: nat)
    requires x < 256 && Shl(1, k) == b && x * b < TWO32
    ensures ToUint32(JsShl(x, k)) == x * b && Shl(x, k) == x * b
  {
    hide ToUint32, ToInt32, Shl;
    ShlScales(x, b, k);
    ToUint32Small(x);
    SignedAndBack(x * b);
    ToUint32Small(x * b);
  }

  /** One more byte joined in at its place. */
  lemma OrByte(x: int, acc: nat, b: nat, place: nat, k: nat)
    requires ToUint32(x) == acc && acc <= Ones(k)
    requires b < 256 && Shl(1, k) == place && acc + b * place < TWO32
    ensures ToUint32(JsOr(x, JsShl(b, k))) == acc + b * place
  {
    hide BitOr, JsOr, JsShl, ToUint32, Shl, Ones;
    ShlUnsigned(b, place, k);
    OrUnsigned(x, JsShl(b, k));
    OrDisjoint(acc, b, k);
    ToUint32Small(acc + b * place);
  }

  /** Reading with shifts and ors is the little-endian value of the four bytes. */
  lemma ReadIsLittleEndian(b: bytes, offset: nat)
    requires offset + 4 <= |b|
    ensures ReadU32le(b, offset) == LeToNat(b[offset..offset + 4])
  {
    hide JsOr, JsShl, ToUint32, Shl, Ones, LeToNat;
    var b0, b1, b2, b3 := b[offset] as nat, b[offset + 1] as nat, b[offset + 2] as nat, b[offset + 3] as nat;
    Places();
    FourBytes(b[offset..offset + 4]);
    ToUint32Small(b0);
    OrByte(b0, b0, b1, 256, 8);
    var x1 := JsOr(b0, JsShl(b1, 8));
    OrByte(x1, b0 + b1 * 256, b2, 0x1_0000, 16);
    var x2 := JsOr(x1, JsShl(b2, 16));
    OrByte(x2, b0 + b1 * 256 + b2 * 0x1_0000, b3, 0x100_0000, 24);
  }

  lemma LeStep(w: bytes, k: nat)
    requires k < |w|
    ensures LeToNat(w[k..]) == w[k] as nat + 256 * LeToNat(w[k + 1..])
    ensures LeToNat([]) == 0
  {
    assert w[k..][0] == w[k] && w[k..][1..] == w[k + 1..];
  }

  lemma FourBytes(w: bytes)
    requires |w| == 4
    ensures LeToNat(w) == w[0] as nat + w[1] as nat * 256 + w[2] as nat * 0x1_0000 + w[3] as nat * 0x100_0000
  {
    LeStep(w, 0);
    LeStep(w, 1);
    LeStep(w, 2);
    LeStep(w, 3);
    hide LeToNat;
    assert w[0..] == w && w[4..] == [];
  }

  /** `readU32le` undoes `u32le` on every 32-bit value, wherever the tag sits. */
  lemma ReadUndoesWrite(n: nat, before: bytes, after: bytes)
    requires n < TWO32
    ensures ReadU32le(before + U32le(n) + after, |before|) == n
  {
    hide ReadU32le, LeToNat, NatToLe, U32le;
    var b := before + U32le(n) + after;
    ReadIsLittleEndian(b, |before|);
    assert b[|before|..|before| + 4] == U32le(n);
    U32leReads(n);
  }
}
