/**
 * What the verifiers accept, in terms of the group, the hash and the encodings alone: a cycle of
 * challenges once around the ring; and what a challenge and a key-image base commit to.
 */
module Acceptance {
  import opened Bytes
  import opened Words
  import opened Wrappers
  import opened Strings
  import PrimeField
  import opened Groups
  import opened Xmd
  import opened Transcripts
  import opened Wire
  import opened Lsag
  import opened Signing

  // ---- A cycle of challenges ----

  /** Position i commits to s_i*G + c_i*P_i and s_i*H_i + c_i*I. */
  function CommitL<P(==)>(grp: Group<P>, key: P, s: int, c: int): P {
    grp.add(grp.mul(grp.g, s), grp.mul(key, c))
  }

  function CommitR<P(==)>(grp: Group<P>, base: P, image: P, s: int, c: int): P {
    grp.add(grp.mul(base, s), grp.mul(image, c))
  }

  /** Every ring member decodes to a point other than the identity. */
  ghost predicate RingDecodes<P(!new)>(grp: Group<P>, ring: seq<bytes>) {
    forall i :: 0 <= i < |ring| ==> grp.dec(ring[i]).Some? && grp.dec(ring[i]).value != grp.zero
  }

  /**
   * One challenge for each position, the first being c0, and the challenge after each position, going
   * round, is the hash of the message, the ring and that position's two commitments.
   */
  ghost predicate IsCycle<P(!new)>(
      su: Suite<P>, message: bytes, ring: seq<bytes>, electionId: string, image: P, s: seq<nat>, c0: nat, c: seq<nat>)
    requires SuiteOk(su) && RingDecodes(su.grp, ring)
  {
    && |c| == |ring| == |s| && ring != [] && c[0] == c0
    && forall i :: 0 <= i < |ring| ==>
         c[(i + 1) % |ring|] == Challenge(su, message, ring,
                                          CommitL(su.grp, su.grp.dec(ring[i]).value, s[i], c[i]),
                                          CommitR(su.grp, KeyImageBase(su, ring[i], electionId), image, s[i], c[i]))
  }

  /** No position of the cycle commits to the identity. */
  ghost predicate NoIdentity<P(!new)>(su: Suite<P>, ring: seq<bytes>, electionId: string, image: P, s: seq<nat>, c: seq<nat>)
    requires SuiteOk(su) && RingDecodes(su.grp, ring) && |c| == |ring| == |s|
  {
    forall i :: 0 <= i < |ring| ==>
      && CommitL(su.grp, su.grp.dec(ring[i]).value, s[i], c[i]) != su.grp.zero
      && CommitR(su.grp, KeyImageBase(su, ring[i], electionId), image, s[i], c[i]) != su.grp.zero
  }

  lemma RingIsMembers<P(!new)>(su: Suite<P>, ring: seq<bytes>)
    ensures RingDecodes(su.grp, ring) <==> MembersOk(su.grp, ring)
    ensures RingDecodes(su.grp, ring) ==> forall i :: 0 <= i < |ring| ==> Keys(su.grp, ring)[i] == su.grp.dec(ring[i]).value
  {
    if RingDecodes(su.grp, ring) {
      assert forall i :: 0 <= i < |ring| ==> DecodeMember(su.grp, ring[i]) == Some(su.grp.dec(ring[i]).value);
    }
    if MembersOk(su.grp, ring) {
      assert forall i :: 0 <= i < |ring| ==> DecodeMember(su.grp, ring[i]).Some?;
    }
  }

  /** In a cycle each challenge follows from the one before, so it is the verifier's walk. */
  lemma CycleFollows<P(!new)>(
      su: Suite<P>, message: bytes, ring: seq<bytes>, electionId: string, image: P, s: seq<nat>, c0: nat, c: seq<nat>)
    requires SuiteOk(su) && RingDecodes(su.grp, ring) && MembersOk(su.grp, ring) && |c| == |ring| == |s| && ring != []
    ensures var w := WalkOf(su, message, ring, electionId, image);
            IsCycle(su, message, ring, electionId, image, s, c0, c)
            <==> c[0] == c0 && forall i :: 0 <= i < |s| ==> Follows(su, w, s, c, i)
  {
    hide Lawful, Challenge, KeyImageBase, IsSha512Sized;
    SuiteParts(su);
    RingIsMembers(su, ring);
    var w := WalkOf(su, message, ring, electionId, image);
    forall i | 0 <= i < |s|
      ensures Follows(su, w, s, c, i) <==>
              c[(i + 1) % |ring|] == Challenge(su, message, ring,
                                               CommitL(su.grp, su.grp.dec(ring[i]).value, s[i], c[i]),
                                               CommitR(su.grp, KeyImageBase(su, ring[i], electionId), image, s[i], c[i]))
    {
      AroundIsMod(i, 1, |s|);
    }
  }

  /** The challenges of the verifier's walk. */
  function WalkChallenges<P>(su: Suite<P>, w: Walk<P>, s: seq<nat>, c0: nat): (c: seq<nat>)
    requires su.grp.q > 0 && Sized(w, |s|)
    ensures |c| == |s| && forall i :: 0 <= i < |s| ==> c[i] == Entering(su, w, s, c0, i)
  {
    seq(|s|, i requires 0 <= i < |s| => Entering(su, w, s, c0, i))
  }

  lemma ClosedWalkFollows<P(!new)>(su: Suite<P>, w: Walk<P>, s: seq<nat>, c0: nat)
    requires su.grp.q > 0 && Sized(w, |s|) && s != [] && Closes(su, w, s, c0)
    ensures var c := WalkChallenges(su, w, s, c0);
            c[0] == c0 && forall i :: 0 <= i < |s| ==> Follows(su, w, s, c, i)
  {
    hide Step;
    var c := WalkChallenges(su, w, s, c0);
    forall i | 0 <= i < |s| ensures Follows(su, w, s, c, i) {
      assert Entering(su, w, s, c0, i + 1) == Step(su, w, i, s[i], Entering(su, w, s, c0, i));
    }
  }

  lemma FollowsCloses<P(!new)>(su: Suite<P>, w: Walk<P>, s: seq<nat>, c: seq<nat>)
    requires su.grp.q > 0 && Sized(w, |s|) && s != [] && |c| == |s|
    requires forall i :: 0 <= i < |s| ==> Follows(su, w, s, c, i)
    ensures Closes(su, w, s, c[0]) && WalkChallenges(su, w, s, c[0]) == c
  {
    hide Step, Entering, Follows;
    forall k | 0 <= k < |s| ensures Entering(su, w, s, c[0], k) == c[k] {
      FilledIsRewalked(su, w, s, c, k);
    }
    FilledIsRewalked(su, w, s, c, |s|);
  }

  /** A walk closes exactly when there is a cycle, and then the cycle is the walk. */
  lemma ClosesIsCycle<P(!new)>(su: Suite<P>, message: bytes, ring: seq<bytes>, electionId: string, image: P, s: seq<nat>, c0: nat)
    requires SuiteOk(su) && RingDecodes(su.grp, ring) && MembersOk(su.grp, ring) && |ring| == |s| && ring != []
    ensures var w := WalkOf(su, message, ring, electionId, image);
            && (Closes(su, w, s, c0) ==> IsCycle(su, message, ring, electionId, image, s, c0, WalkChallenges(su, w, s, c0)))
            && (forall c: seq<nat> :: IsCycle(su, message, ring, electionId, image, s, c0, c) ==>
                  Closes(su, w, s, c0) && c == WalkChallenges(su, w, s, c0))
  {
    hide SuiteOk, IsCycle, Closes, Follows, WalkChallenges, Lawful, IsSha512Sized, RingDecodes, MembersOk;
    SuiteParts(su);
    var w := WalkOf(su, message, ring, electionId, image);
    if Closes(su, w, s, c0) {
      ClosedWalkFollows(su, w, s, c0);
      CycleFollows(su, message, ring, electionId, image, s, c0, WalkChallenges(su, w, s, c0));
    }
    forall c: seq<nat> | IsCycle(su, message, ring, electionId, image, s, c0, c)
      ensures Closes(su, w, s, c0) && c == WalkChallenges(su, w, s, c0)
    {
      CycleSized(su, message, ring, electionId, image, s, c0, c);
      CycleFollows(su, message, ring, electionId, image, s, c0, c);
      FollowsCloses(su, w, s, c);
    }
  }

  lemma CycleSized<P(!new)>(
      su: Suite<P>, message: bytes, ring: seq<bytes>, electionId: string, image: P, s: seq<nat>, c0: nat, c: seq<nat>)
    requires SuiteOk(su) && RingDecodes(su.grp, ring) && IsCycle(su, message, ring, electionId, image, s, c0, c)
    ensures |c| == |ring| == |s| && c[0] == c0
  {
  }

  // ---- The two verifiers ----

  /** A 32-byte number below the order. */
  predicate Reduced(q: nat, b: bytes) {
    |b| == 32 && LeToNat(b) < q
  }

  /**
   * The TypeScript verifier accepts exactly the cycles: every point decodes and is not the identity,
   * every scalar is reduced, no response is zero, and the challenges come round to c0.
   */
  lemma TsAcceptsCycles<P(!new)>(su: Suite<P>, message: bytes, ring: seq<bytes>, sig: RingSignature, electionId: string)
    requires SuiteOk(su)
    ensures TsAccepts(su, message, ring, sig, electionId) <==>
            && 2 <= |ring| == |sig.s| && |ring| < 0x1_0000_0000
            && |message| < 0x1_0000_0000 && |Utf8(electionId)| < 0x1_0000_0000
            && RingDecodes(su.grp, ring)
            && su.grp.dec(sig.keyImage).Some? && su.grp.dec(sig.keyImage).value != su.grp.zero
            && Reduced(su.grp.q, sig.c0)
            && (forall i :: 0 <= i < |sig.s| ==> Reduced(su.grp.q, sig.s[i]) && LeToNat(sig.s[i]) != 0)
            && exists c: seq<nat> :: IsCycle(su, message, ring, electionId, su.grp.dec(sig.keyImage).value, Values(sig.s), LeToNat(sig.c0), c)
  {
    hide SuiteOk, Lawful, LeToNat, KeyImageBase, Utf8, IsSha512Sized, ScalarsFit, Closes, IsCycle, RingDecodes, MembersOk, WalkChallenges;
    SuiteParts(su);
    RingIsMembers(su, ring);
    ImageDecodes(su.grp, sig.keyImage);
    ReducedIsCanonical(su.grp.q, sig.c0);
    forall i | 0 <= i < |sig.s| ensures Reduced(su.grp.q, sig.s[i]) <==> CanonicalScalar(su.grp.q, sig.s[i]) {
      ReducedIsCanonical(su.grp.q, sig.s[i]);
    }
    if RingDecodes(su.grp, ring) && DecodeMember(su.grp, sig.keyImage).Some? && 2 <= |ring| == |sig.s| {
      var image := su.grp.dec(sig.keyImage).value;
      ClosesIsCycle(su, message, ring, electionId, image, Values(sig.s), LeToNat(sig.c0));
      var w := WalkOf(su, message, ring, electionId, image);
      assert Closes(su, w, Values(sig.s), LeToNat(sig.c0)) <==>
             exists c: seq<nat> :: IsCycle(su, message, ring, electionId, image, Values(sig.s), LeToNat(sig.c0), c);
    }
  }

  lemma ImageDecodes<P(!new)>(grp: Group<P>, b: bytes)
    ensures DecodeMember(grp, b).Some? <==> grp.dec(b).Some? && grp.dec(b).value != grp.zero
    ensures DecodeMember(grp, b).Some? ==> DecodeMember(grp, b).value == grp.dec(b).value
  {
  }

  lemma ReducedIsCanonical(q: nat, b: bytes)
    ensures Reduced(q, b) <==> CanonicalScalar(q, b)
  {
    hide LeToNat;
  }

  /** The Rust verifier accepts exactly the cycles that never commit to the identity. */
  lemma RustAcceptsCycles<P(!new)>(su: Suite<P>, message: bytes, ring: seq<bytes>, sig: Parsed<P>, electionId: string)
    requires SuiteOk(su)
    ensures RustAccepts(su, message, ring, sig, electionId) <==>
            && 2 <= |ring| == |sig.s| && RingDecodes(su.grp, ring) && sig.keyImage != su.grp.zero
            && exists c: seq<nat> ::
                 && IsCycle(su, message, ring, electionId, sig.keyImage, sig.s, sig.c0, c)
                 && NoIdentity(su, ring, electionId, sig.keyImage, sig.s, c)
  {
    hide SuiteOk, Lawful, KeyImageBase, Utf8, IsSha512Sized, ScalarsFit, Closes, IsCycle, RingDecodes, MembersOk, WalkChallenges, NoIdentity, NoIdentityStep;
    SuiteParts(su);
    RingIsMembers(su, ring);
    if 2 <= |ring| == |sig.s| && RingDecodes(su.grp, ring) {
      var w := WalkOf(su, message, ring, electionId, sig.keyImage);
      ClosesIsCycle(su, message, ring, electionId, sig.keyImage, sig.s, sig.c0);
      IdentitiesMet(su, message, ring, electionId, sig.keyImage, sig.s, sig.c0);
    }
  }

  lemma IdentitiesMet<P(!new)>(su: Suite<P>, message: bytes, ring: seq<bytes>, electionId: string, image: P, s: seq<nat>, c0: nat)
    requires SuiteOk(su) && RingDecodes(su.grp, ring) && MembersOk(su.grp, ring) && |ring| == |s|
    ensures var w := WalkOf(su, message, ring, electionId, image);
            NoIdentityStep(su, w, s, c0) <==> NoIdentity(su, ring, electionId, image, s, WalkChallenges(su, w, s, c0))
  {
    hide Lawful, KeyImageBase, IsSha512Sized, Entering, MembersOk;
    SuiteParts(su);
    RingIsMembers(su, ring);
    var w := WalkOf(su, message, ring, electionId, image);
    forall i | 0 <= i < |s|
      ensures NoIdentityAt(su, w, s, c0, i) <==>
              && CommitL(su.grp, su.grp.dec(ring[i]).value, s[i], Entering(su, w, s, c0, i)) != su.grp.zero
              && CommitR(su.grp, KeyImageBase(su, ring[i], electionId), image, s[i], Entering(su, w, s, c0, i)) != su.grp.zero
    {
    }
  }

  // ---- The wire format, byte by byte ----

  /** The 32-bit number at a position, least significant byte first. */
  function Le32(b: bytes, at: nat): nat
    requires at + 4 <= |b|
  {
    b[at] as nat + 0x100 * b[at + 1] as nat + 0x1_0000 * b[at + 2] as nat + 0x100_0000 * b[at + 3] as nat
  }

  lemma Le32IsValue(b: bytes, at: nat)
    requires at + 4 <= |b|
    ensures LeToNat(b[at..at + 4]) == Le32(b, at)
  {
    var w := b[at..at + 4];
    assert LeToNat(w) == w[0] as nat + 256 * LeToNat(w[1..]);
    assert LeToNat(w[1..]) == w[1] as nat + 256 * LeToNat(w[1..][1..]);
    assert LeToNat(w[1..][1..]) == w[2] as nat + 256 * LeToNat(w[1..][1..][1..]);
    assert LeToNat(w[1..][1..][1..]) == w[3] as nat;
  }

  /** Where each field of a signature is written: the version, the count, c0, the key image, then the responses. */
  lemma SerializedLayout(sig: RingSignature, i: nat)
    requires 2 <= |sig.s| < 0x1_0000_0000 && |sig.c0| == |sig.keyImage| == 32 && i < |sig.s|
    requires forall j :: 0 <= j < |sig.s| ==> |sig.s[j]| == 32
    ensures var b := Serialized(sig);
            && |b| == 69 + 32 * |sig.s| && b[0] == 1 && Le32(b, 1) == |sig.s|
            && b[5..37] == sig.c0 && b[37..69] == sig.keyImage
            && b[69 + 32 * i..101 + 32 * i] == sig.s[i]
  {
    hide Serialized, LeToNat, U32le, Le32;
    Offsets(sig);
    var b := Serialized(sig);
    Le32IsValue(b, 1);
    U32leReads(|sig.s|);
    ResponsesOfSerialized(sig);
    assert Response(b, i) == sig.s[i];
  }

  /**
   * Exactly these buffers decode: version 1, a count between 2 and the cap, no byte more or fewer,
   * reduced scalars, and a key image that is a point other than the identity.
   */
  lemma DecodesWhen<P(!new)>(grp: Group<P>, cap: nat, b: bytes)
    ensures Decode(grp, cap, b).Ok? <==>
            && |b| >= 69 && b[0] == 1 && 2 <= Le32(b, 1) <= cap && |b| == 69 + 32 * Le32(b, 1)
            && Reduced(grp.q, b[5..37])
            && grp.dec(b[37..69]).Some? && grp.dec(b[37..69]).value != grp.zero
            && forall i :: 0 <= i < Le32(b, 1) ==> Reduced(grp.q, Response(b, i))
    ensures Decode(grp, cap, b).Ok? ==>
            var sig := Decode(grp, cap, b).value;
            && sig.c0 == b[5..37] && sig.keyImage == b[37..69] && |sig.s| == Le32(b, 1)
            && forall i :: 0 <= i < |sig.s| ==> sig.s[i] == b[69 + 32 * i..101 + 32 * i]
  {
    hide LeToNat, Le32, FirstBad, Reduced, CanonicalScalar;
    if |b| >= 69 {
      var n := Le32(b, 1);
      Le32IsValue(b, 1);
      ReducedIsCanonical(grp.q, b[5..37]);
      if |b| == 69 + 32 * n {
        FirstBadMeans(grp.q, Responses(b, n), 0);
        forall i | 0 <= i < n ensures Reduced(grp.q, Response(b, i)) <==> CanonicalScalar(grp.q, Responses(b, n)[i]) {
          ReducedIsCanonical(grp.q, Response(b, i));
        }
      }
    }
  }

  /** The refusals say what is wrong: a response blamed is the first that is not reduced. */
  lemma DecodeErrorMeans<P(!new)>(grp: Group<P>, cap: nat, b: bytes)
    requires Decode(grp, cap, b).Err?
    ensures match Decode(grp, cap, b).error
            case TooShort => |b| < 69
            case Version(v) => |b| >= 69 && v == b[0] != 1
            case RingSize(n) => |b| >= 69 && n == Le32(b, 1) && !(2 <= n <= cap)
            case Length(expected, actual) => |b| >= 69 && actual == |b| != expected == 69 + 32 * Le32(b, 1)
            case NonCanonicalChallenge => |b| >= 69 && !Reduced(grp.q, b[5..37])
            case NonCanonicalPoint => |b| >= 69 && grp.dec(b[37..69]).None?
            case IdentityKeyImage => |b| >= 69 && grp.dec(b[37..69]) == Some(grp.zero)
            case NonCanonicalScalar(i) =>
              && |b| >= 101 + 32 * i && !Reduced(grp.q, Response(b, i))
              && forall j :: 0 <= j < i ==> Reduced(grp.q, Response(b, j))
  {
    hide LeToNat, Le32, FirstBad, Reduced, CanonicalScalar;
    if |b| >= 69 {
      var n := Le32(b, 1);
      Le32IsValue(b, 1);
      ReducedIsCanonical(grp.q, b[5..37]);
      if |b| == 69 + 32 * n {
        FirstBadMeans(grp.q, Responses(b, n), 0);
        forall i | 0 <= i < n ensures Reduced(grp.q, Response(b, i)) <==> CanonicalScalar(grp.q, Responses(b, n)[i]) {
          ReducedIsCanonical(grp.q, Response(b, i));
        }
      }
    }
  }

  // ---- Keys and signatures ----

  /** A public key is the encoding of x*G for the reduced non-zero number x its private key holds. */
  lemma PublicKeyMeans<P(!new)>(su: Suite<P>, privateKey: bytes)
    ensures DerivePublicKey(su, privateKey).Ok? <==> Reduced(su.grp.q, privateKey) && LeToNat(privateKey) != 0
    ensures DerivePublicKey(su, privateKey).Ok? ==>
            DerivePublicKey(su, privateKey).value == su.grp.enc(su.grp.mul(su.grp.g, LeToNat(privateKey)))
  {
    hide LeToNat;
  }

  /** A key image is x*H for the base H of the derived public key and the election. */
  lemma KeyImageMeans<P(!new)>(su: Suite<P>, privateKey: bytes, electionId: string)
    requires SuiteOk(su)
    ensures var image := DeriveKeyImage(su, privateKey, electionId);
            && (image.Ok? <==> DerivePublicKey(su, privateKey).Ok? && |Utf8(electionId)| < 0x1_0000_0000)
            && (image.Ok? ==> image.value == su.grp.enc(su.grp.mul(
                  KeyImageBase(su, DerivePublicKey(su, privateKey).value, electionId), LeToNat(privateKey))))
  {
    hide LeToNat, KeyImageBase, Lawful, Utf8, ScalarsFit;
  }

  /** Exactly these parameters are signed for: in particular the key at the signer's index is the signer's. */
  lemma SignsWhen<P(!new)>(su: Suite<P>, params: Params)
    requires SuiteOk(su)
    ensures CanSign(su, params) <==>
            && 2 <= |params.ring| < 0x1_0000_0000 && 0 <= params.signerIndex < |params.ring|
            && Reduced(su.grp.q, params.privateKey) && LeToNat(params.privateKey) != 0
            && RingDecodes(su.grp, params.ring)
            && su.grp.dec(params.ring[params.signerIndex]).value == su.grp.mul(su.grp.g, LeToNat(params.privateKey))
            && |Utf8(params.electionId)| < 0x1_0000_0000 && |params.message| < 0x1_0000_0000
  {
    hide LeToNat, Lawful, Utf8, ScalarsFit, IsSha512Sized, RingDecodes, MembersOk;
    RingIsMembers(su, params.ring);
  }

  // ---- What a challenge commits to ----

  const ONE64: bytes := [1] + Zeros(63)

  lemma OneAndZero()
    ensures |ONE64| == |Zeros(64)| == 64 && LeToNat(ONE64) == 1 && LeToNat(Zeros(64)) == 0
  {
    hide Zeros;
    ZerosWorth(Zeros(63));
    ZerosWorth(Zeros(64));
    assert ONE64[1..] == Zeros(63);
  }

  lemma {:induction false} ZerosWorth(b: bytes)
    requires forall i :: 0 <= i < |b| ==> b[i] == 0
    ensures LeToNat(b) == 0
    decreases |b|
  {
    if b != [] {
      ZerosWorth(b[1..]);
    }
  }

  /** A hash that tells one input from all others. */
  function Telling(x: bytes): bytes -> bytes {
    b => if b == x then ONE64 else Zeros(64)
  }

  /** Hashing two different inputs to scalars can give different scalars. */
  lemma ScalarsDiffer<P(!new)>(su: Suite<P>, a: bytes, b: bytes)
    requires su.grp.q > 1 && a != b
    ensures var su' := su.(sha512 := Telling(PREFIX_HS + a));
            IsSha512Sized(su'.sha512) && HashToScalar(su', a) != HashToScalar(su', b)
  {
    hide LeToNat, Zeros;
    OneAndZero();
    assert PREFIX_HS + a != PREFIX_HS + b by {
      assert (PREFIX_HS + a)[|PREFIX_HS|..] == a && (PREFIX_HS + b)[|PREFIX_HS|..] == b;
    }
  }

  /**
   * A challenge commits to all of its message, the ring in order, L and R: if any of them differs there
   * is a hash under which the challenges differ.
   */
  lemma ChallengeCommits<P(!new)>(
      su: Suite<P>, m: bytes, ring: seq<bytes>, l: P, r: P, m': bytes, ring': seq<bytes>, l': P, r': P) returns (su': Suite<P>)
    requires SuiteOk(su) && Fits(m) && Fits(m') && |ring| < TWO32 && |ring'| < TWO32
    requires AllSized(ring, 32) && AllSized(ring', 32)
    requires m != m' || ring != ring' || l != l' || r != r'
    ensures su'.grp == su.grp && su'.oneWayMap == su.oneWayMap && SuiteOk(su')
    ensures Challenge(su', m, ring, l, r) != Challenge(su', m', ring', l', r')
  {
    hide Lawful, ChallengeInput, IsSha512Sized, HashToScalar, AllSized, Telling;
    SuiteParts(su);
    var a := ChallengeInput(m, ring, su.grp.enc(l), su.grp.enc(r));
    var b := ChallengeInput(m', ring', su.grp.enc(l'), su.grp.enc(r'));
    DecodeEncode(su.grp, l);
    DecodeEncode(su.grp, r);
    DecodeEncode(su.grp, l');
    DecodeEncode(su.grp, r');
    if a == b {
      ChallengeInjective(m, ring, su.grp.enc(l), su.grp.enc(r), m', ring', su.grp.enc(l'), su.grp.enc(r'));
    }
    ScalarsDiffer(su, a, b);
    su' := su.(sha512 := Telling(PREFIX_HS + a));
  }

  // ---- What a key-image base commits to ----

  /** A hash that tells one padded message from all others, and the digests made from it too. */
  function TellingTwice(x: bytes, y: bytes): bytes -> bytes {
    b => if b == x || b == y then ONE64 else Zeros(64)
  }

  function SecondBlock(b0: bytes): bytes {
    b0 + I2osp(1, 1) + DstPrime(DST_HP)
  }

  lemma ExpandOne(h: bytes -> bytes, msg: bytes)
    requires IsSha512Sized(h)
    ensures Expand(h, msg, DST_HP, 64) == h(SecondBlock(h(MsgPrime(msg, DST_HP, 64))))
  {
    hide I2osp, DstPrime, MsgPrime;
    assert Ell(64) == 1;
    assert Uniform(h, msg, DST_HP, 64, 0) == [];
    assert Uniform(h, msg, DST_HP, 64, 1) == Digest(h, msg, DST_HP, 64, 1);
  }

  lemma MsgPrimeInjective(a: bytes, b: bytes)
    requires MsgPrime(a, DST_HP, 64) == MsgPrime(b, DST_HP, 64)
    ensures a == b
  {
    hide I2osp, DstPrime, Zeros;
    var tail := I2osp(64, 2) + I2osp(0, 1) + DstPrime(DST_HP);
    assert MsgPrime(a, DST_HP, 64) == Zeros(S_IN_BYTES) + (a + tail);
    assert MsgPrime(b, DST_HP, 64) == Zeros(S_IN_BYTES) + (b + tail);
    SplitSame(Zeros(S_IN_BYTES), a + tail, Zeros(S_IN_BYTES), b + tail);
    assert |a| == |b|;
    SplitSame(a, tail, b, tail);
  }

  lemma BlockLengths(msg: bytes, b0: bytes)
    requires |b0| == 64
    ensures |MsgPrime(msg, DST_HP, 64)| >= 128 && |SecondBlock(b0)| < 128
  {
    hide I2osp, Zeros;
    assert |I2osp(1, 1)| == 1 && |I2osp(|DST_HP|, 1)| == 1;
  }

  lemma ExpansionsDiffer(a: bytes, b: bytes) returns (h: bytes -> bytes)
    requires a != b
    ensures IsSha512Sized(h) && Expand(h, a, DST_HP, 64) != Expand(h, b, DST_HP, 64)
  {
    hide MsgPrime, SecondBlock, Expand, Zeros, LeToNat;
    OneAndZero();
    var x, y := MsgPrime(a, DST_HP, 64), SecondBlock(ONE64);
    h := TellingTwice(x, y);
    assert IsSha512Sized(h);
    BlockLengths(a, ONE64);
    BlockLengths(b, Zeros(64));
    if MsgPrime(a, DST_HP, 64) == MsgPrime(b, DST_HP, 64) {
      MsgPrimeInjective(a, b);
    }
    SecondBlockInjective(ONE64, Zeros(64));
    ExpandOne(h, a);
    ExpandOne(h, b);
  }

  lemma SecondBlockInjective(b0: bytes, b0': bytes)
    requires |b0| == |b0'| == 64 && b0 != b0'
    ensures SecondBlock(b0) != SecondBlock(b0')
  {
    hide I2osp, DstPrime;
    assert SecondBlock(b0)[..64] == b0;
    assert SecondBlock(b0')[..64] == b0';
  }

  /**
   * A key-image base commits to the public key and the election: if either differs there is a hash and
   * a map onto the group under which the bases differ.
   */
  lemma KeyImageBaseCommits<P(!new)>(su: Suite<P>, key: bytes, election: string, key': bytes, election': string) returns (su': Suite<P>)
    requires SuiteOk(su) && Fits(key) && Fits(key') && Fits(Utf8(election)) && Fits(Utf8(election'))
    requires key != key' || election != election'
    ensures su'.grp == su.grp && SuiteOk(su')
    ensures KeyImageBase(su', key, election) != KeyImageBase(su', key', election')
  {
    hide KeyImageInput, Expand, Utf8, IsSha512Sized;
    var a, b := KeyImageInput(key, election), KeyImageInput(key', election');
    if a == b {
      KeyImageInputInjective(key, election, key', election');
    }
    var h := ExpansionsDiffer(a, b);
    var u := Expand(h, a, DST_HP, 64);
    var zero, g := su.grp.zero, su.grp.g;
    su' := Suite(su.grp, h, (v: bytes) => if v == u then g else zero);
  }

  // ---- Random scalars ----

  /**
   * A random scalar is the drawn number modulo the order, never zero: every non-zero residue comes of
   * the draws in its own class, and one also of those divisible by the order.
   */
  lemma RandomScalarReduces(q: nat, wide: bytes, v: nat)
    requires q > 1 && 0 < v < q
    ensures RandomScalar(q, wide) == v <==> LeToNat(wide) % q == v || (v == 1 && LeToNat(wide) % q == 0)
  {
    hide LeToNat;
  }

  /** Every non-zero scalar can be drawn, from 64 bytes as from 32. */
  lemma EveryScalarIsDrawn(q: nat, v: nat) returns (wide: bytes)
    requires ScalarsFit(q) && 0 < v < q
    ensures |wide| == 64 && RandomScalar(q, wide) == v
  {
    hide LeToNat, NatToLe, Pow256;
    wide := NatToLe(v, 64);
    assert InScalar(v);
    Wider(32, 64);
    LeOfNat(v, 64);
    PrimeField.ModUnique(v, q, 0, v);
  }

  lemma {:induction false} Wider(k: nat, n: nat)
    requires k <= n
    ensures Pow256(k) <= Pow256(n)
    decreases n - k
  {
    if k < n {
      Wider(k, n - 1);
    }
  }
}
