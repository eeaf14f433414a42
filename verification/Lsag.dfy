/**
 * Linkable ring signatures: the signer and verifier of web/src/crypto/lrs and the verifier of
 * blockchain/src/lrs.
 */
module Lsag {
  import opened Bytes
  import opened Words
  import opened Wrappers
  import opened Strings
  import opened PrimeField
  import opened Groups
  import opened Xmd
  import opened Transcripts
  import opened Wire

  // ---- One walk around a ring ----

  /** What stays fixed while a ring is walked: keys and key-image bases in ring order, and the image. */
  datatype Walk<P> = Walk(message: bytes, ring: seq<bytes>, keys: seq<P>, bases: seq<P>, image: P)

  predicate MembersOk<P(==)>(grp: Group<P>, ring: seq<bytes>) {
    forall i :: 0 <= i < |ring| ==> DecodeMember(grp, ring[i]).Some?
  }

  function Keys<P(==)>(grp: Group<P>, ring: seq<bytes>): (keys: seq<P>)
    requires MembersOk(grp, ring)
    ensures |keys| == |ring| && forall i :: 0 <= i < |ring| ==> keys[i] == DecodeMember(grp, ring[i]).value
  {
    seq(|ring|, i requires 0 <= i < |ring| => DecodeMember(grp, ring[i]).value)
  }

  function Bases<P>(su: Suite<P>, ring: seq<bytes>, electionId: string): (bases: seq<P>)
    requires IsSha512Sized(su.sha512)
    ensures |bases| == |ring| && forall i :: 0 <= i < |ring| ==> bases[i] == KeyImageBase(su, ring[i], electionId)
  {
    seq(|ring|, i requires 0 <= i < |ring| => KeyImageBase(su, ring[i], electionId))
  }

  function WalkOf<P(==)>(su: Suite<P>, message: bytes, ring: seq<bytes>, electionId: string, image: P): Walk<P>
    requires MembersOk(su.grp, ring) && IsSha512Sized(su.sha512)
  {
    Walk(message, ring, Keys(su.grp, ring), Bases(su, ring, electionId), image)
  }

  predicate Sized<P>(w: Walk<P>, n: nat) {
    |w.keys| == |w.bases| == |w.ring| == n
  }

  /** L_i = s*G + c*P_i. */
  function L<P>(su: Suite<P>, w: Walk<P>, i: nat, s: int, c: int): P
    requires i < |w.keys|
  {
    su.grp.add(su.grp.mul(su.grp.g, s), su.grp.mul(w.keys[i], c))
  }

  /** R_i = s*H_i + c*I. */
  function R<P>(su: Suite<P>, w: Walk<P>, i: nat, s: int, c: int): P
    requires i < |w.bases|
  {
    su.grp.add(su.grp.mul(w.bases[i], s), su.grp.mul(w.image, c))
  }

  /** The challenge that leaves position i when s answers the challenge c entering it. */
  function Step<P>(su: Suite<P>, w: Walk<P>, i: nat, s: int, c: int): (c': nat)
    requires su.grp.q > 0 && i < |w.keys| && i < |w.bases|
    ensures c' < su.grp.q
  {
    Challenge(su, w.message, w.ring, L(su, w, i, s, c), R(su, w, i, s, c))
  }

  /** The challenge entering position k when the walk starts at position 0 with c0. */
  function Entering<P>(su: Suite<P>, w: Walk<P>, s: seq<nat>, c0: nat, k: nat): nat
    requires su.grp.q > 0 && Sized(w, |s|) && k <= |s|
    decreases k
  {
    if k == 0 then c0 else Step(su, w, k - 1, s[k - 1], Entering(su, w, s, c0, k - 1))
  }

  /** Walking all the way around reproduces the challenge the walk started with. */
  predicate Closes<P>(su: Suite<P>, w: Walk<P>, s: seq<nat>, c0: nat)
    requires su.grp.q > 0 && Sized(w, |s|)
  {
    Entering(su, w, s, c0, |s|) == c0
  }

  predicate NoIdentityAt<P(==)>(su: Suite<P>, w: Walk<P>, s: seq<nat>, c0: nat, i: nat)
    requires su.grp.q > 0 && Sized(w, |s|) && i < |s|
  {
    && L(su, w, i, s[i], Entering(su, w, s, c0, i)) != su.grp.zero
    && R(su, w, i, s[i], Entering(su, w, s, c0, i)) != su.grp.zero
  }

  /** No step of the walk meets the identity. */
  predicate NoIdentityStep<P(==)>(su: Suite<P>, w: Walk<P>, s: seq<nat>, c0: nat)
    requires su.grp.q > 0 && Sized(w, |s|)
  {
    forall i :: 0 <= i < |s| ==> NoIdentityAt(su, w, s, c0, i)
  }

  // ---- Acceptance ----

  /** When the TypeScript verifier returns true. */
  ghost predicate TsAccepts<P(!new)>(su: Suite<P>, message: bytes, ring: seq<bytes>, sig: RingSignature, electionId: string)
    requires SuiteOk(su)
  {
    && 2 <= |ring| < TWO32 && |sig.s| == |ring|
    && Fits(message) && Fits(Utf8(electionId))
    && DecodeMember(su.grp, sig.keyImage).Some? && MembersOk(su.grp, ring)
    && CanonicalScalar(su.grp.q, sig.c0)
    && (forall i :: 0 <= i < |sig.s| ==> CanonicalScalar(su.grp.q, sig.s[i]) && LeToNat(sig.s[i]) != 0)
    && var w := WalkOf(su, message, ring, electionId, DecodeMember(su.grp, sig.keyImage).value);
       Closes(su, w, Values(sig.s), LeToNat(sig.c0))
  }

  /** When the Rust verifier returns true. */
  predicate RustAccepts<P(!new,==)>(su: Suite<P>, message: bytes, ring: seq<bytes>, sig: Parsed<P>, electionId: string)
    requires SuiteOk(su)
  {
    && |ring| >= 2 && |sig.s| == |ring|
    && sig.keyImage != su.grp.zero && MembersOk(su.grp, ring)
    && var w := WalkOf(su, message, ring, electionId, sig.keyImage);
       NoIdentityStep(su, w, sig.s, sig.c0) && Closes(su, w, sig.s, sig.c0)
  }

  lemma SuiteParts<P(!new)>(su: Suite<P>)
    requires SuiteOk(su)
    ensures su.grp.q > 1 && ScalarsFit(su.grp.q) && Lawful(su.grp) && IsSha512Sized(su.sha512)
  {
  }

  lemma SameScalarBytes(q: nat, a: nat, b: nat)
    requires 1 < q && ScalarsFit(q) && a < q && b < q
    ensures ScalarToBytes(q, a) == ScalarToBytes(q, b) <==> a == b
  {
    hide NatToLe, LeToNat, Pow256;
    ModUnique(a, q, 0, a);
    ModUnique(b, q, 0, b);
    assert InScalar(a) && InScalar(b);
    LeOfNat(a, 32);
    LeOfNat(b, 32);
  }

  // ---- The TypeScript verifier ----

  /** `verify` of verify.ts; every throw inside its try block is a false here. */
  method TsVerify<P(!new,==)>(su: Suite<P>, message: bytes, ring: seq<bytes>, sig: RingSignature, electionId: string)
    returns (ok: bool)
    requires SuiteOk(su)
    ensures ok <==> TsAccepts(su, message, ring, sig, electionId)
  {
    hide SuiteOk, Lawful, LeToNat, BytesToScalar, Challenge, KeyImageBase, Utf8, IsSha512Sized, ScalarsFit, Entering, Step;
    SuiteParts(su);
    var n := |ring|;
    if n < 2 {
      return false;
    }
    if |sig.s| != n {
      return false;
    }
    var image := DecodeMember(su.grp, sig.keyImage);
    if image.None? || image.value == su.grp.zero {
      return false;
    }
    if !MembersOk(su.grp, ring) {
      return false;
    }
    if !Fits(Utf8(electionId)) || !Fits(message) || n > 0xffff_ffff {
      return false;
    }
    if exists i :: 0 <= i < n && !CanonicalScalar(su.grp.q, sig.s[i]) {
      return false;
    }
    if !CanonicalScalar(su.grp.q, sig.c0) {
      return false;
    }
    var w := WalkOf(su, message, ring, electionId, image.value);
    var s, c0 := Values(sig.s), LeToNat(sig.c0);
    CanonicalBelow(su.grp.q, sig.c0);
    var c := c0;
    EnteringStart(su, w, s, c0);
    for i := 0 to n
      invariant c < su.grp.q && c == Entering(su, w, s, c0, i)
      invariant forall j :: 0 <= j < i ==> s[j] != 0
    {
      if s[i] == 0 {
        return false;
      }
      var li := L(su, w, i, s[i], c);
      var ri := R(su, w, i, s[i], c);
      EnteringNext(su, w, s, c0, i);
      c := TsChallenge(su, message, ring, li, ri);
    }
    SameScalarBytes(su.grp.q, c, c0);
    ok := BytesEqual(ScalarToBytes(su.grp.q, c), ScalarToBytes(su.grp.q, c0));
  }

  lemma CanonicalBelow(q: nat, b: bytes)
    requires CanonicalScalar(q, b)
    ensures LeToNat(b) < q
  {
  }

  lemma EnteringStart<P>(su: Suite<P>, w: Walk<P>, s: seq<nat>, c0: nat)
    requires su.grp.q > 0 && Sized(w, |s|)
    ensures Entering(su, w, s, c0, 0) == c0
  {
  }

  lemma EnteringNext<P>(su: Suite<P>, w: Walk<P>, s: seq<nat>, c0: nat, i: nat)
    requires su.grp.q > 0 && Sized(w, |s|) && i < |s|
    ensures var c := Entering(su, w, s, c0, i);
            Entering(su, w, s, c0, i + 1) == Challenge(su, w.message, w.ring, L(su, w, i, s[i], c), R(su, w, i, s[i], c))
  {
    hide Challenge, L, R;
  }

  // ---- The Rust verifier ----

  /** `key_image_base`, through the hand-written expansion. */
  method RustKeyImageBase<P>(su: Suite<P>, publicKey: bytes, electionId: string) returns (p: P)
    requires IsSha512Sized(su.sha512)
    ensures p == KeyImageBase(su, publicKey, electionId)
  {
    hide Expand, KeyImageInput, IsSha512Sized;
    var input := RustKeyImageInput(publicKey, electionId);
    var uniform := ExpandMessageXmd(su.sha512, input, DST_HP, 64);
    p := su.oneWayMap(uniform);
  }

  /** `verify` of verify.rs. A decoded scalar is always below the order. */
  method RustVerify<P(!new,==)>(su: Suite<P>, message: bytes, ring: seq<bytes>, sig: Parsed<P>, electionId: string)
    returns (ok: bool)
    requires SuiteOk(su) && sig.c0 < su.grp.q
    ensures ok <==> RustAccepts(su, message, ring, sig, electionId)
  {
    hide SuiteOk, Lawful, LeToNat, Challenge, KeyImageBase, Utf8, IsSha512Sized, ScalarsFit, Entering, Step;
    SuiteParts(su);
    var n := |ring|;
    if n < 2 || |sig.s| != n {
      return false;
    }
    if sig.keyImage == su.grp.zero {
      return false;
    }
    var points: seq<P> := [];
    for i := 0 to n
      invariant |points| == i
      invariant forall j :: 0 <= j < i ==> DecodeMember(su.grp, ring[j]) == Some(points[j])
    {
      var point := su.grp.dec(ring[i]);
      if point.None? || point.value == su.grp.zero {
        assert DecodeMember(su.grp, ring[i]).None?;
        return false;
      }
      points := points + [point.value];
    }
    var bases: seq<P> := [];
    for i := 0 to n
      invariant |bases| == i
      invariant forall j :: 0 <= j < i ==> bases[j] == KeyImageBase(su, ring[j], electionId)
    {
      var base := RustKeyImageBase(su, ring[i], electionId);
      bases := bases + [base];
    }
    ghost var w := WalkOf(su, message, ring, electionId, sig.keyImage);
    assert points == w.keys && bases == w.bases;
    ok := RustWalk(su, Walk(message, ring, points, bases, sig.keyImage), sig);
  }

  /** Its re-walk of the ring. */
  method RustWalk<P(!new,==)>(su: Suite<P>, w: Walk<P>, sig: Parsed<P>) returns (ok: bool)
    requires SuiteOk(su) && Sized(w, |sig.s|) && sig.keyImage == w.image && sig.c0 < su.grp.q
    ensures ok <==> NoIdentityStep(su, w, sig.s, sig.c0) && Closes(su, w, sig.s, sig.c0)
  {
    hide SuiteOk, Lawful, Challenge, ScalarsFit, Entering, Step;
    SuiteParts(su);
    var c := sig.c0;
    EnteringStart(su, w, sig.s, sig.c0);
    for i := 0 to |sig.s|
      invariant c < su.grp.q && c == Entering(su, w, sig.s, sig.c0, i)
      invariant forall j :: 0 <= j < i ==> NoIdentityAt(su, w, sig.s, sig.c0, j)
    {
      var li := L(su, w, i, sig.s[i], c);
      var ri := R(su, w, i, sig.s[i], c);
      if li == su.grp.zero || ri == su.grp.zero {
        assert !NoIdentityAt(su, w, sig.s, sig.c0, i);
        return false;
      }
      EnteringNext(su, w, sig.s, sig.c0, i);
      c := RustChallenge(su, w.message, w.ring, li, ri);
    }
    SameScalarBytes(su.grp.q, c, sig.c0);
    ok := BytesEqual(ScalarToBytes(su.grp.q, c), ScalarToBytes(su.grp.q, sig.c0));
  }

  /**
   * The two verifiers decide alike on every signature the Rust node can parse, except that each
   * refuses something the other lets through: a zero response, and an identity met on the way.
   */
  lemma VerifiersAgree<P(!new)>(su: Suite<P>, message: bytes, ring: seq<bytes>, sig: RingSignature, electionId: string)
    requires SuiteOk(su) && Canonical(su.grp, sig) && Fits(message) && Fits(Utf8(electionId))
    ensures TsAccepts(su, message, ring, sig, electionId)
            && NoIdentityStep(su, WalkOf(su, message, ring, electionId, su.grp.dec(sig.keyImage).value), Values(sig.s), LeToNat(sig.c0))
            <==>
            RustAccepts(su, message, ring, Parse(su.grp, sig), electionId)
            && forall i :: 0 <= i < |sig.s| ==> LeToNat(sig.s[i]) != 0
  {
    hide SuiteOk, Lawful, LeToNat, BytesToScalar, Challenge, KeyImageBase, Utf8, IsSha512Sized, ScalarsFit, Entering, NoIdentityStep, Closes;
    SuiteParts(su);
  }
}
