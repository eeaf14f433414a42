/**
 * The group layer of web/src/crypto/lrs/curve.ts, over any group of prime order.
 *
 * ristretto255 itself is not modelled: a group is a value holding its operations, and its laws are a
 * predicate over that value. Scalars are integers; the order acts as zero. A group of thirteen
 * elements shows that the laws can be met.
 */
module Groups {
  import opened Bytes
  import opened Wrappers
  import opened PrimeField

  datatype Group<!P> = Group(
    q: nat, zero: P, g: P,
    add: (P, P) -> P,
    mul: (P, int) -> P,
    enc: P -> bytes,
    dec: bytes -> Option<P>)

  /** The laws of addition at three points; named so that they are used one instance at a time. */
  predicate AddLaw<P(==)>(grp: Group<P>, a: P, b: P, c: P) {
    && grp.add(a, b) == grp.add(b, a)
    && grp.add(grp.add(a, b), c) == grp.add(a, grp.add(b, c))
    && grp.add(a, grp.zero) == a
  }

  /** The laws of multiplication by scalars, at two points and two scalars. */
  predicate MulLaw<P(==)>(grp: Group<P>, p: P, r: P, a: int, b: int) {
    && grp.mul(p, 0) == grp.zero && grp.mul(p, 1) == p && grp.mul(p, grp.q) == grp.zero
    && grp.add(grp.mul(p, a), grp.mul(p, b)) == grp.mul(p, a + b)
    && grp.mul(grp.mul(p, a), b) == grp.mul(p, a * b)
    && grp.add(grp.mul(p, a), grp.mul(r, a)) == grp.mul(grp.add(p, r), a)
  }

  ghost predicate AddLaws<P(!new)>(grp: Group<P>) {
    forall a, b, c :: AddLaw(grp, a, b, c)
  }

  ghost predicate MulLaws<P(!new)>(grp: Group<P>) {
    forall p, r, a, b :: MulLaw(grp, p, r, a, b)
  }

  /** Points have exactly one encoding, of 32 bytes; decoding refuses every other byte string. */
  ghost predicate CodecLaws<P(!new)>(grp: Group<P>) {
    && (forall p :: |grp.enc(p)| == 32 && grp.dec(grp.enc(p)) == Some(p))
    && (forall b :: grp.dec(b).Some? ==> grp.enc(grp.dec(b).value) == b)
  }

  /** The number fits a 32-byte encoding. */
  predicate InScalar(s: nat) {
    s < Pow256(32)
  }

  ghost predicate ScalarsFit(q: nat) {
    forall s: nat :: s < q ==> InScalar(s)
  }

  ghost predicate Lawful<P(!new)>(grp: Group<P>) {
    && grp.q > 1 && Prime(grp.q) && ScalarsFit(grp.q)
    && grp.g != grp.zero
    && AddLaws(grp) && MulLaws(grp) && CodecLaws(grp)
  }

  // ---- The laws one instance at a time ----

  lemma AddComm<P(!new)>(grp: Group<P>, a: P, b: P)
    requires AddLaws(grp)
    ensures grp.add(a, b) == grp.add(b, a)
  {
    assert AddLaw(grp, a, b, b);
  }

  lemma AddAssoc<P(!new)>(grp: Group<P>, a: P, b: P, c: P)
    requires AddLaws(grp)
    ensures grp.add(grp.add(a, b), c) == grp.add(a, grp.add(b, c))
  {
    assert AddLaw(grp, a, b, c);
  }

  lemma AddZero<P(!new)>(grp: Group<P>, a: P)
    requires AddLaws(grp)
    ensures grp.add(a, grp.zero) == a
  {
    assert AddLaw(grp, a, a, a);
  }

  lemma MulSum<P(!new)>(grp: Group<P>, p: P, a: int, b: int)
    requires MulLaws(grp)
    ensures grp.add(grp.mul(p, a), grp.mul(p, b)) == grp.mul(p, a + b)
  {
    assert MulLaw(grp, p, p, a, b);
  }

  lemma MulMul<P(!new)>(grp: Group<P>, p: P, a: int, b: int)
    requires MulLaws(grp)
    ensures grp.mul(grp.mul(p, a), b) == grp.mul(p, a * b)
  {
    assert MulLaw(grp, p, p, a, b);
  }

  lemma MulConstants<P(!new)>(grp: Group<P>, p: P)
    requires MulLaws(grp)
    ensures grp.mul(p, 0) == grp.zero && grp.mul(p, 1) == p && grp.mul(p, grp.q) == grp.zero
  {
    assert MulLaw(grp, p, p, 0, 0);
  }

  lemma MulOfZero<P(!new)>(grp: Group<P>, a: int)
    requires MulLaws(grp)
    ensures grp.mul(grp.zero, a) == grp.zero
  {
    hide MulLaws;
    MulConstants(grp, grp.zero);
    MulMul(grp, grp.zero, 0, a);
    assert 0 * a == 0;
  }

  // ---- Scalars count modulo the order ----

  lemma MulShift<P(!new)>(grp: Group<P>, p: P, a: int, k: int)
    requires AddLaws(grp) && MulLaws(grp)
    ensures grp.mul(p, a + grp.q * k) == grp.mul(p, a)
  {
    hide AddLaws, MulLaws;
    MulSum(grp, p, a, grp.q * k);
    MulMul(grp, p, grp.q, k);
    MulConstants(grp, p);
    MulOfZero(grp, k);
    AddZero(grp, grp.mul(p, a));
  }

  lemma MulMod<P(!new)>(grp: Group<P>, p: P, a: int)
    requires AddLaws(grp) && MulLaws(grp) && grp.q > 0
    ensures grp.mul(p, a % grp.q) == grp.mul(p, a)
  {
    hide AddLaws, MulLaws;
    Divided(a, grp.q);
    MulShift(grp, p, a % grp.q, a / grp.q);
  }

  /** In a group of prime order a non-zero scalar can be divided out. */
  lemma MulInverse<P(!new)>(grp: Group<P>, p: P, a: nat)
    requires Lawful(grp) && a % grp.q != 0
    ensures grp.mul(grp.mul(p, a), Inverse(a, grp.q)) == p
  {
    hide AddLaws, MulLaws, CodecLaws, Prime;
    var k := InverseWorks(a, grp.q);
    MulMul(grp, p, a, Inverse(a, grp.q));
    MulShift(grp, p, 1, k);
    MulConstants(grp, p);
  }

  /** A multiple is the identity only when the point or the scalar is. */
  lemma MulIsZero<P(!new)>(grp: Group<P>, p: P, a: nat)
    requires Lawful(grp)
    ensures grp.mul(p, a) == grp.zero <==> p == grp.zero || a % grp.q == 0
  {
    hide AddLaws, MulLaws, CodecLaws, Prime;
    MulOfZero(grp, a);
    if a % grp.q == 0 {
      MulMod(grp, p, a);
      MulConstants(grp, p);
    } else if grp.mul(p, a) == grp.zero {
      MulInverse(grp, p, a);
      MulOfZero(grp, Inverse(a, grp.q));
    }
  }

  /** Answering a challenge c with alpha - c*x turns (x*b) back into alpha*b. */
  lemma ResponseCloses<P(!new)>(grp: Group<P>, b: P, x: int, alpha: int, c: int)
    requires Lawful(grp)
    ensures grp.add(grp.mul(b, (alpha - c * x) % grp.q), grp.mul(grp.mul(b, x), c)) == grp.mul(b, alpha)
  {
    hide AddLaws, MulLaws, CodecLaws, Prime;
    MulMod(grp, b, alpha - c * x);
    MulMul(grp, b, x, c);
    MulSum(grp, b, alpha - c * x, x * c);
    assert alpha - c * x + x * c == alpha;
  }

  lemma AddCancel<P(!new)>(grp: Group<P>, a: P, b: P, c: P)
    requires AddLaws(grp) && MulLaws(grp) && grp.add(a, c) == grp.add(b, c)
    ensures a == b
  {
    hide AddLaws, MulLaws;
    var n := grp.mul(c, -1);
    MulConstants(grp, c);
    MulSum(grp, c, 1, -1);
    AddAssoc(grp, a, c, n);
    AddAssoc(grp, b, c, n);
    AddZero(grp, a);
    AddZero(grp, b);
  }

  lemma ModDifference(a: int, b: int, q: nat)
    requires q > 0 && a % q != b % q
    ensures (b - a) % q != 0
  {
    if (b - a) % q == 0 {
      Divided(b - a, q);
      ModShift(a, q, (b - a) / q);
    }
  }

  /** The scalar two different answers at the same commitment give away. */
  function Extracted(q: nat, s: int, c: int, s': int, c': int): nat
    requires q > 0
  {
    (s - s') * Inverse((c' - c) % q, q) % q
  }

  /** Two answers to different challenges at one commitment determine the discrete logarithm. */
  lemma TwoAnswers<P(!new)>(grp: Group<P>, b: P, p: P, s: int, c: int, s': int, c': int)
    requires Lawful(grp) && c % grp.q != c' % grp.q
    requires grp.add(grp.mul(b, s), grp.mul(p, c)) == grp.add(grp.mul(b, s'), grp.mul(p, c'))
    ensures p == grp.mul(b, Extracted(grp.q, s, c, s', c'))
  {
    hide AddLaws, MulLaws, CodecLaws, Prime;
    var d := (c' - c) % grp.q;
    ModDifference(c, c', grp.q);
    Rearranged(grp, b, p, s, c, s', c');
    MulMod(grp, p, c' - c);
    assert d % grp.q == d by {
      ModUnique(d, grp.q, 0, d);
    }
    MulInverse(grp, p, d);
    MulMul(grp, b, s - s', Inverse(d, grp.q));
    MulMod(grp, b, (s - s') * Inverse(d, grp.q));
  }

  lemma Rearranged<P(!new)>(grp: Group<P>, b: P, p: P, s: int, c: int, s': int, c': int)
    requires AddLaws(grp) && MulLaws(grp)
    requires grp.add(grp.mul(b, s), grp.mul(p, c)) == grp.add(grp.mul(b, s'), grp.mul(p, c'))
    ensures grp.mul(b, s - s') == grp.mul(p, c' - c)
  {
    hide AddLaws, MulLaws;
    var bs, bs', pc := grp.mul(b, s - s'), grp.mul(b, s'), grp.mul(p, c);
    MulSum(grp, b, s - s', s');
    MulSum(grp, p, c' - c, c);
    AddAssoc(grp, bs, bs', pc);
    AddComm(grp, bs', pc);
    AddAssoc(grp, bs, pc, bs');
    AddComm(grp, grp.mul(b, s'), grp.mul(p, c'));
    AddCancel(grp, grp.add(bs, pc), grp.mul(p, c'), bs');
    AddCancel(grp, bs, grp.mul(p, c' - c), pc);
  }

  // ---- Canonical encodings ----

  lemma DecodeEncode<P(!new)>(grp: Group<P>, p: P)
    requires Lawful(grp)
    ensures |grp.enc(p)| == 32 && grp.dec(grp.enc(p)) == Some(p)
  {
    hide AddLaws, MulLaws, Prime;
  }

  lemma EncodeDecode<P(!new)>(grp: Group<P>, b: bytes)
    requires Lawful(grp) && grp.dec(b).Some?
    ensures grp.enc(grp.dec(b).value) == b && |b| == 32
  {
    hide AddLaws, MulLaws, Prime;
  }

  /** `scalarToBytes`. */
  function ScalarToBytes(q: nat, s: int): (b: bytes)
    requires q > 0
  {
    NatToLe(s % q, 32)
  }

  datatype ScalarError = ScalarLength | NotCanonical

  /** `bytesToScalar`: refuses any value at or above the order. */
  function BytesToScalar(q: nat, b: bytes): Result<nat, ScalarError> {
    if |b| != 32 then Err(ScalarLength)
    else if LeToNat(b) >= q then Err(NotCanonical)
    else Ok(LeToNat(b))
  }

  /** Every scalar has exactly one accepted encoding. */
  lemma ScalarCodec(q: nat, b: bytes, s: nat)
    requires 0 < q && ScalarsFit(q) && s < q
    ensures BytesToScalar(q, b) == Ok(s) <==> b == ScalarToBytes(q, s)
  {
    hide NatToLe, LeToNat, Pow256;
    ModUnique(s, q, 0, s);
    assert InScalar(s);
    LeOfNat(s, 32);
    if |b| == 32 {
      NatOfLe(b);
    }
  }

  /** `decodeRingMember`: a canonical point other than the identity. */
  function DecodeMember<P(==)>(grp: Group<P>, b: bytes): Option<P> {
    if grp.dec(b) == Some(grp.zero) then None else grp.dec(b)
  }

  // ---- A group of thirteen elements ----

  newtype Z13 = x: int | 0 <= x < 13

  function Sum13(a: Z13, b: Z13): Z13 {
    ((a as int + b as int) % 13) as Z13
  }

  function Times13(a: Z13, k: int): Z13 {
    ((a as int * k) % 13) as Z13
  }

  function Enc13(a: Z13): bytes {
    NatToLe(a as int, 32)
  }

  function Dec13(b: bytes): Option<Z13> {
    if |b| == 32 && LeToNat(b) < 13 then Some(LeToNat(b) as Z13) else None
  }

  const THIRTEEN: Group<Z13> := Group(13, 0, 1, Sum13, Times13, Enc13, Dec13)

  lemma ThirteenIsPrime()
    ensures Prime(13)
  {
    forall d: nat | Divides(d, 13) ensures d == 1 || d == 13 {
      var k: nat :| 13 == d * k;
      if d > 13 {
        MulAtLeast(d, k);
        assert false;
      }
      ModUnique(13, d, k, 0);
      assert 13 % 2 != 0 && 13 % 3 != 0 && 13 % 4 != 0 && 13 % 5 != 0 && 13 % 6 != 0
          && 13 % 7 != 0 && 13 % 8 != 0 && 13 % 9 != 0 && 13 % 10 != 0 && 13 % 11 != 0 && 13 % 12 != 0;
    }
  }

  lemma ThirteenAdd()
    ensures AddLaws(THIRTEEN)
  {
    forall a: Z13, b: Z13, c: Z13 ensures AddLaw(THIRTEEN, a, b, c) {
      hide Sum13, Times13, Enc13, Dec13;
      SumAssoc13(a, b, c);
      SumUnit13(a, b);
    }
  }

  lemma SumUnit13(a: Z13, b: Z13)
    ensures Sum13(a, b) == Sum13(b, a) && Sum13(a, 0) == a && Sum13(0, a) == a
  {
  }

  lemma SumAssoc13(a: Z13, b: Z13, c: Z13)
    ensures Sum13(Sum13(a, b), c) == Sum13(a, Sum13(b, c))
  {
    assert Sum13(a, b) as int == a as int + b as int || Sum13(a, b) as int == a as int + b as int - 13;
    assert Sum13(b, c) as int == b as int + c as int || Sum13(b, c) as int == b as int + c as int - 13;
  }

  lemma Mod13Mul(x: int, k: int)
    ensures ((x % 13) * k) % 13 == (x * k) % 13
  {
    var d := x / 13;
    assert x * k == (x % 13) * k + 13 * (d * k) by {
      assert (x % 13 + 13 * d) * k == (x % 13) * k + 13 * d * k;
      assert 13 * d * k == 13 * (d * k);
    }
    ModShift((x % 13) * k, 13, d * k);
  }

  lemma Mod13Sum(x: int, y: int)
    ensures (x % 13 + y % 13) % 13 == (x + y) % 13
  {
    ModShift(x % 13 + y % 13, 13, x / 13 + y / 13);
  }

  lemma TimesTimes13(p: Z13, a: int, b: int)
    ensures Times13(Times13(p, a), b) == Times13(p, a * b)
  {
    var v := p as int;
    Mod13Mul(v * a, b);
    assert v * a * b == v * (a * b);
  }

  lemma TimesSum13(p: Z13, a: int, b: int)
    ensures Sum13(Times13(p, a), Times13(p, b)) == Times13(p, a + b)
  {
    var v := p as int;
    Mod13Sum(v * a, v * b);
    assert v * (a + b) == v * a + v * b;
  }

  lemma SumTimes13(p: Z13, r: Z13, a: int)
    ensures Sum13(Times13(p, a), Times13(r, a)) == Times13(Sum13(p, r), a)
  {
    SumTimesMod13(p as int, r as int, a);
  }

  lemma SumTimesMod13(v: int, w: int, a: int)
    ensures ((v * a) % 13 + (w * a) % 13) % 13 == ((v + w) % 13 * a) % 13
  {
    Mod13Sum(v * a, w * a);
    Mod13Mul(v + w, a);
    Distributes(v, w, a);
  }

  lemma Distributes(v: int, w: int, a: int)
    ensures (v + w) * a == v * a + w * a
  {
  }

  lemma TimesConstants13(p: Z13)
    ensures Times13(p, 0) == 0 && Times13(p, 1) == p && Times13(p, 13) == 0
  {
  }

  lemma ThirteenMul()
    ensures MulLaws(THIRTEEN)
  {
    hide Times13, Sum13;
    forall p: Z13, r: Z13, a: int, b: int ensures MulLaw(THIRTEEN, p, r, a, b) {
      TimesConstants13(p);
      TimesSum13(p, a, b);
      TimesTimes13(p, a, b);
      SumTimes13(p, r, a);
    }
  }

  lemma ThirteenCodec()
    ensures CodecLaws(THIRTEEN)
  {
    hide NatToLe, LeToNat, Pow256;
    Places13();
    forall p: Z13 ensures |Enc13(p)| == 32 && Dec13(Enc13(p)) == Some(p) {
      LeOfNat(p as int, 32);
    }
    forall b | Dec13(b).Some? ensures Enc13(Dec13(b).value) == b {
      NatOfLe(b);
    }
  }

  lemma Places13()
    ensures 13 < Pow256(32) && ScalarsFit(13)
  {
    assert Pow256(32) == 256 * Pow256(31);
  }

  /** The laws are consistent: they hold of a concrete group. */
  lemma LawsCanBeMet()
    ensures Lawful(THIRTEEN)
  {
    hide AddLaws, MulLaws, CodecLaws, Pow256;
    ThirteenIsPrime();
    ThirteenAdd();
    ThirteenMul();
    ThirteenCodec();
    Places13();
  }
}
