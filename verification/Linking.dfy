/**
 * What signatures are for: whatever the signer returns is accepted, one key has one image per
 * election, and a key that answers twice at one commitment is revealed.
 */
module Linking {
  import opened Bytes
  import opened Wrappers
  import opened Strings
  import opened PrimeField
  import opened Groups
  import opened Xmd
  import opened Transcripts
  import opened Wire
  import opened Lsag
  import opened Signing

  // ---- Encoded signatures decode to what was signed ----

  lemma ScalarBack(q: nat, s: nat)
    requires 1 < q && ScalarsFit(q) && s < q
    ensures LeToNat(ScalarToBytes(q, s)) == s && CanonicalScalar(q, ScalarToBytes(q, s))
  {
    hide NatToLe, LeToNat, Pow256;
    ModUnique(s, q, 0, s);
    assert InScalar(s);
    LeOfNat(s, 32);
  }

  /** Responses and challenges of a signature are reduced. */
  lemma ClosedReduced<P(!new)>(su: Suite<P>, w: Walk<P>, p: nat, x: nat, alpha: nat, random: seq<bytes>, s: seq<nat>, c: seq<nat>)
    requires su.grp.q > 1 && Closed(su, w, p, x, alpha, s, c) && Drawn(su.grp.q, p, random, s)
    ensures forall i :: 0 <= i < |s| ==> s[i] < su.grp.q && (i != p ==> s[i] != 0)
    ensures c[0] < su.grp.q
  {
    hide Challenge, Step, RandomScalar;
    var last := |s| - 1;
    assert Around(last, 1, |s|) == 0;
    if last != p {
      assert Follows(su, w, s, c, last);
    }
  }

  lemma EncodedBack<P(!new)>(su: Suite<P>, image: P, s: seq<nat>, c: seq<nat>)
    requires SuiteOk(su) && c != [] && c[0] < su.grp.q
    requires forall i :: 0 <= i < |s| ==> s[i] < su.grp.q
    ensures var sig := Encoded(su, image, s, c);
            && LeToNat(sig.c0) == c[0] && CanonicalScalar(su.grp.q, sig.c0)
            && Values(sig.s) == s && (forall i :: 0 <= i < |s| ==> CanonicalScalar(su.grp.q, sig.s[i]))
            && su.grp.dec(sig.keyImage) == Some(image) && |sig.keyImage| == 32
  {
    hide SuiteOk, Lawful, LeToNat, ScalarToBytes, CanonicalScalar, ScalarsFit;
    SuiteParts(su);
    DecodeEncode(su.grp, image);
    ScalarBack(su.grp.q, c[0]);
    forall i | 0 <= i < |s| ensures LeToNat(ScalarToBytes(su.grp.q, s[i])) == s[i] && CanonicalScalar(su.grp.q, ScalarToBytes(su.grp.q, s[i])) {
      ScalarBack(su.grp.q, s[i]);
    }
  }

  /** A ring member's bytes are the encoding of its point. */
  lemma MemberEncoding<P(!new)>(grp: Group<P>, ring: seq<bytes>, i: nat)
    requires Lawful(grp) && MembersOk(grp, ring) && i < |ring|
    ensures ring[i] == grp.enc(Keys(grp, ring)[i]) && Keys(grp, ring)[i] != grp.zero
  {
    hide Lawful;
    assert DecodeMember(grp, ring[i]).Some?;
    EncodeDecode(grp, ring[i]);
  }

  lemma SigningWalkFits<P(!new)>(su: Suite<P>, params: Params)
    requires SuiteOk(su) && CanSign(su, params)
    ensures var w, p, x := SigningWalk(su, params), params.signerIndex, Secret(su.grp.q, params);
            && Sized(w, |params.ring|)
            && w.keys[p] == su.grp.mul(su.grp.g, x) && w.image == su.grp.mul(w.bases[p], x)
            && w.image == Image(su, params)
  {
    hide Lawful, BytesToScalar, KeyImageBase, Utf8, IsSha512Sized;
  }

  // ---- Completeness ----

  /** What a signature decodes to, and that its walk closes. */
  lemma SignedWalk<P(!new)>(su: Suite<P>, params: Params, random: seq<bytes>, sig: RingSignature)
    requires SuiteOk(su) && CanSign(su, params) && Signed(su, params, random, sig)
    ensures var q, p := su.grp.q, params.signerIndex;
            && |sig.s| == |params.ring| && su.grp.dec(sig.keyImage) == Some(Image(su, params)) && |sig.keyImage| == 32
            && CanonicalScalar(q, sig.c0) && (forall i :: 0 <= i < |sig.s| ==> CanonicalScalar(q, sig.s[i]))
            && (forall i :: 0 <= i < |sig.s| && i != p ==> LeToNat(sig.s[i]) != 0)
            && Closes(su, SigningWalk(su, params), Values(sig.s), LeToNat(sig.c0))
  {
    hide SuiteOk, Lawful, LeToNat, CanonicalScalar, Closed, KeyImageBase, Utf8, IsSha512Sized, ScalarsFit, Closes, BytesToScalar, RandomScalar, Encoded;
    SuiteParts(su);
    var s, c :| Carries(su, params, random, sig, s, c);
    var w, p, x, alpha := SigningWalk(su, params), params.signerIndex, Secret(su.grp.q, params), RandomScalar(su.grp.q, random[0]);
    ClosedReduced(su, w, p, x, alpha, random, s, c);
    EncodedBack(su, Image(su, params), s, c);
    SigningWalkFits(su, params);
    ClosedCloses(su, w, p, x, alpha, s, c);
  }

  /**
   * The TypeScript verifier accepts what the signer returns, for every ring, position, message and
   * election, except for the two degenerate outcomes it rejects by design.
   */
  lemma TsAcceptsSigned<P(!new)>(su: Suite<P>, params: Params, random: seq<bytes>, sig: RingSignature)
    requires SuiteOk(su) && CanSign(su, params) && Signed(su, params, random, sig)
    ensures |sig.s| == |params.ring|
    ensures TsAccepts(su, params.message, params.ring, sig, params.electionId)
            <==> Image(su, params) != su.grp.zero && LeToNat(sig.s[params.signerIndex]) != 0
  {
    hide SuiteOk, Lawful, LeToNat, CanonicalScalar, KeyImageBase, Utf8, IsSha512Sized, Closes, BytesToScalar, Signed, Image;
    SuiteParts(su);
    SignedWalk(su, params, random, sig);
  }

  /**
   * The Rust node parses what the signer returns, up to its ring-size cap, and accepts it exactly
   * when the image is not the identity and no step of the walk meets the identity.
   */
  lemma RustAcceptsSigned<P(!new)>(su: Suite<P>, params: Params, random: seq<bytes>, sig: RingSignature)
    requires SuiteOk(su) && CanSign(su, params) && Signed(su, params, random, sig)
    ensures Canonical(su.grp, sig) <==> Image(su, params) != su.grp.zero
    ensures Image(su, params) != su.grp.zero && |params.ring| <= RUST_CAP ==> Decode(su.grp, RUST_CAP, Serialized(sig)) == Ok(sig)
    ensures su.grp.dec(sig.keyImage).Some? && |sig.s| == |params.ring|
    ensures RustAccepts(su, params.message, params.ring, Parse(su.grp, sig), params.electionId)
            <==> Image(su, params) != su.grp.zero
                 && NoIdentityStep(su, SigningWalk(su, params), Values(sig.s), LeToNat(sig.c0))
  {
    hide SuiteOk, Lawful, LeToNat, CanonicalScalar, KeyImageBase, Utf8, IsSha512Sized, Closes, NoIdentityStep, BytesToScalar, Signed, Image, Decode, Serialized;
    SuiteParts(su);
    SignedWalk(su, params, random, sig);
    if Image(su, params) != su.grp.zero && |params.ring| <= RUST_CAP {
      DecodeSerialized(su.grp, RUST_CAP, sig);
    }
  }

  /** The image is the identity only when hashing the public key hit the identity. */
  lemma IdentityImage<P(!new)>(su: Suite<P>, params: Params)
    requires SuiteOk(su) && CanSign(su, params)
    ensures Image(su, params) == su.grp.zero <==>
            KeyImageBase(su, params.ring[params.signerIndex], params.electionId) == su.grp.zero
  {
    hide Lawful, KeyImageBase, Utf8, IsSha512Sized, LeToNat;
    SuiteParts(su);
    var x := Secret(su.grp.q, params);
    ModUnique(x, su.grp.q, 0, x);
    MulIsZero(su.grp, KeyImageBase(su, params.ring[params.signerIndex], params.electionId), x);
  }

  /** The signer's own L is never the identity: it is alpha*G for a non-zero alpha. */
  lemma OwnCommitmentNotIdentity<P(!new)>(su: Suite<P>, w: Walk<P>, p: nat, x: nat, wide: bytes, s: seq<nat>, c: seq<nat>)
    requires SuiteOk(su) && Closed(su, w, p, x, RandomScalar(su.grp.q, wide), s, c)
    requires w.keys[p] == su.grp.mul(su.grp.g, x) && w.image == su.grp.mul(w.bases[p], x)
    ensures L(su, w, p, s[p], c[p]) != su.grp.zero
    ensures R(su, w, p, s[p], c[p]) == su.grp.zero <==> w.bases[p] == su.grp.zero
  {
    hide SuiteOk, Lawful, Challenge, LeToNat, L, R, RandomScalar;
    SuiteParts(su);
    var alpha := RandomScalar(su.grp.q, wide);
    OwnStepCloses(su, w, p, x, alpha, s, c);
    ModUnique(alpha, su.grp.q, 0, alpha);
    MulIsZero(su.grp, su.grp.g, alpha);
    MulIsZero(su.grp, w.bases[p], alpha);
    GeneratorIsNotZero(su);
  }

  lemma GeneratorIsNotZero<P(!new)>(su: Suite<P>)
    requires SuiteOk(su)
    ensures su.grp.g != su.grp.zero
  {
  }

  /** The conditions on signing can be met: in the group of thirteen the holder of key 1 signs in a ring of two. */
  lemma SomeoneCanSign() returns (params: Params)
    ensures SuiteOk(SUITE13) && CanSign(SUITE13, params) && Image(SUITE13, params) != SUITE13.grp.zero
  {
    hide Lawful, LeToNat, NatToLe, Dec13, Enc13, Expand, ScalarsFit;
    SuiteCanBeMet();
    params := Params([], [Enc13(1), Enc13(2)], 0, ScalarToBytes(13, 1), "");
    DecodeEncode(THIRTEEN, 1);
    DecodeEncode(THIRTEEN, 2);
    SuiteParts(SUITE13);
    ScalarBack(13, 1);
    TimesConstants13(1);
    assert Keys(THIRTEEN, params.ring)[0] == 1;
  }

  // ---- Linking ----

  /** A signature carries the key image its private key has in that election, whatever the ring. */
  lemma SignedImage<P(!new)>(su: Suite<P>, params: Params, random: seq<bytes>, sig: RingSignature)
    requires SuiteOk(su) && CanSign(su, params) && Signed(su, params, random, sig)
    ensures DeriveKeyImage(su, params.privateKey, params.electionId) == Ok(sig.keyImage)
    ensures DerivePublicKey(su, params.privateKey) == Ok(params.ring[params.signerIndex])
  {
    hide Lawful, BytesToScalar, KeyImageBase, Utf8, IsSha512Sized, Closed, Drawn, RandomScalar, Keys;
    MemberEncoding(su.grp, params.ring, params.signerIndex);
    var s, c :| Carries(su, params, random, sig, s, c);
  }

  /** `areLinked` of link.ts and verify.rs. */
  method AreLinked(a: RingSignature, b: RingSignature) returns (linked: bool)
    ensures linked <==> a.keyImage == b.keyImage
  {
    linked := BytesEqual(a.keyImage, b.keyImage);
  }

  /** Two signatures with one key in one election are linked: any rings, positions, messages and draws. */
  lemma SameKeyLinks<P(!new)>(
      su: Suite<P>, a: Params, ra: seq<bytes>, sa: RingSignature, b: Params, rb: seq<bytes>, sb: RingSignature)
    requires SuiteOk(su) && CanSign(su, a) && CanSign(su, b)
    requires Signed(su, a, ra, sa) && Signed(su, b, rb, sb)
    requires a.privateKey == b.privateKey && a.electionId == b.electionId
    ensures sa.keyImage == sb.keyImage
  {
    hide SuiteOk, CanSign, Signed, DeriveKeyImage, DerivePublicKey;
    SignedImage(su, a, ra, sa);
    SignedImage(su, b, rb, sb);
  }

  // ---- Extraction ----

  /**
   * Two accepted walks of one ring with one key image that share a step's (L, R) but enter it with
   * different challenges determine the secret of that position, and the image is that secret's own.
   */
  lemma Extraction<P(!new)>(
      su: Suite<P>, message: bytes, message': bytes, ring: seq<bytes>, electionId: string,
      a: Parsed<P>, b: Parsed<P>, j: nat) returns (x: nat)
    requires SuiteOk(su) && Fits(Utf8(electionId))
    requires RustAccepts(su, message, ring, a, electionId) && RustAccepts(su, message', ring, b, electionId)
    requires a.keyImage == b.keyImage && a.keyImageBytes == su.grp.enc(a.keyImage) && j < |ring|
    requires var w, w' := WalkOf(su, message, ring, electionId, a.keyImage), WalkOf(su, message', ring, electionId, b.keyImage);
             var c, c' := Entering(su, w, a.s, a.c0, j), Entering(su, w', b.s, b.c0, j);
             && L(su, w, j, a.s[j], c) == L(su, w', j, b.s[j], c')
             && R(su, w, j, a.s[j], c) == R(su, w', j, b.s[j], c')
             && c % su.grp.q != c' % su.grp.q
    ensures 0 < x < su.grp.q
    ensures Keys(su.grp, ring)[j] == su.grp.mul(su.grp.g, x)
    ensures a.keyImage == su.grp.mul(KeyImageBase(su, ring[j], electionId), x)
    ensures DerivePublicKey(su, ScalarToBytes(su.grp.q, x)) == Ok(ring[j])
    ensures DeriveKeyImage(su, ScalarToBytes(su.grp.q, x), electionId) == Ok(a.keyImageBytes)
  {
    hide SuiteOk, Lawful, KeyImageBase, Utf8, IsSha512Sized, Closes, NoIdentityStep, Entering, LeToNat, ScalarsFit, Extracted;
    SuiteParts(su);
    var w, w' := WalkOf(su, message, ring, electionId, a.keyImage), WalkOf(su, message', ring, electionId, b.keyImage);
    var c, c' := Entering(su, w, a.s, a.c0, j), Entering(su, w', b.s, b.c0, j);
    x := Secretly(su.grp, w.keys[j], w.bases[j], a.keyImage, a.s[j], c, b.s[j], c');
    MemberEncoding(su.grp, ring, j);
    NonZeroSecret(su.grp, x);
    ScalarBack(su.grp.q, x);
  }

  lemma Secretly<P(!new)>(grp: Group<P>, key: P, base: P, image: P, s: int, c: int, s': int, c': int) returns (x: nat)
    requires Lawful(grp) && grp.q > 1 && c % grp.q != c' % grp.q
    requires grp.add(grp.mul(grp.g, s), grp.mul(key, c)) == grp.add(grp.mul(grp.g, s'), grp.mul(key, c'))
    requires grp.add(grp.mul(base, s), grp.mul(image, c)) == grp.add(grp.mul(base, s'), grp.mul(image, c'))
    ensures x < grp.q && key == grp.mul(grp.g, x) && image == grp.mul(base, x)
  {
    hide Lawful;
    TwoAnswers(grp, grp.g, key, s, c, s', c');
    TwoAnswers(grp, base, image, s, c, s', c');
    x := Extracted(grp.q, s, c, s', c');
    Divided((s - s') * Inverse((c' - c) % grp.q, grp.q), grp.q);
  }

  lemma NonZeroSecret<P(!new)>(grp: Group<P>, x: nat)
    requires Lawful(grp) && grp.mul(grp.g, x) != grp.zero
    ensures x != 0
  {
    hide AddLaws, MulLaws, CodecLaws, Prime;
    MulConstants(grp, grp.g);
  }
}
