/**
 * The signer of web/src/crypto/lrs/sign.ts, key images (keygen.ts) and linking (link.ts): signatures
 * verify, key images identify the key, and two answers at one commitment give the key away.
 */
module Signing {
  import opened Bytes
  import opened Words
  import opened Wrappers
  import opened Strings
  import opened PrimeField
  import opened Groups
  import opened Xmd
  import opened Transcripts
  import opened Wire
  import opened Lsag

  // ---- Keys ----

  datatype KeyError = BadScalar(why: ScalarError) | ZeroScalar | TooLong

  /** `derivePublicKey`; multiplying the base point by zero throws. */
  function DerivePublicKey<P>(su: Suite<P>, privateKey: bytes): Result<bytes, KeyError> {
    match BytesToScalar(su.grp.q, privateKey)
    case Err(e) => Err(BadScalar(e))
    case Ok(x) => if x == 0 then Err(ZeroScalar) else Ok(su.grp.enc(su.grp.mul(su.grp.g, x)))
  }

  /** `deriveKeyImage`: I = x*H_p(P, election), with P recomputed from the secret. */
  function DeriveKeyImage<P>(su: Suite<P>, privateKey: bytes, electionId: string): Result<bytes, KeyError>
    requires IsSha512Sized(su.sha512)
  {
    match BytesToScalar(su.grp.q, privateKey)
    case Err(e) => Err(BadScalar(e))
    case Ok(x) =>
      if x == 0 then Err(ZeroScalar)
      else if !Fits(Utf8(electionId)) then Err(TooLong)
      else Ok(su.grp.enc(su.grp.mul(KeyImageBase(su, su.grp.enc(su.grp.mul(su.grp.g, x)), electionId), x)))
  }

  /** `randomScalar`: wide bytes reduced, with zero replaced by one. */
  function RandomScalar(q: nat, wide: bytes): (r: nat)
    requires q > 1
    ensures 1 <= r < q
  {
    var r := LeToNat(wide) % q;
    if r == 0 then 1 else r
  }

  // ---- What a signature is made of ----

  /** Position k places after p, going round a ring of n. */
  function Around(p: nat, k: nat, n: nat): (i: nat)
    requires p < n && k <= n
    ensures i < n
  {
    if p + k < n then p + k else p + k - n
  }

  lemma AroundIsMod(p: nat, k: nat, n: nat)
    requires p < n && k <= n
    ensures (p + k) % n == Around(p, k, n)
  {
    if p + k < n {
      ModUnique(p + k, n, 0, p + k);
    } else {
      ModUnique(p + k, n, 1, p + k - n);
    }
  }

  /** The challenge after position i is the step from i. */
  predicate Follows<P>(su: Suite<P>, w: Walk<P>, s: seq<nat>, c: seq<nat>, i: nat)
    requires su.grp.q > 0 && Sized(w, |s|) && |c| == |s| && i < |s|
  {
    c[Around(i, 1, |s|)] == Step(su, w, i, s[i], c[i])
  }

  /**
   * The responses and challenges of a signature closed at position p: a commitment to alpha starts
   * the next position, every other position follows by a step, and the secret answers at p.
   */
  ghost predicate Closed<P(!new)>(su: Suite<P>, w: Walk<P>, p: nat, x: nat, alpha: nat, s: seq<nat>, c: seq<nat>)
    requires su.grp.q > 0
  {
    && Sized(w, |s|) && |c| == |s| && p < |s|
    && c[Around(p, 1, |s|)] == Challenge(su, w.message, w.ring, su.grp.mul(su.grp.g, alpha), su.grp.mul(w.bases[p], alpha))
    && (forall i :: 0 <= i < |s| && i != p ==> Follows(su, w, s, c, i))
    && s[p] == (alpha - c[p] * x) % su.grp.q
  }

  /** The random bytes position i draws from: the first go to alpha, the signer's own draws none. */
  function DrawOf(p: nat, i: nat): nat {
    if i < p then i + 1 else i
  }

  ghost predicate Drawn(q: nat, p: nat, random: seq<bytes>, s: seq<nat>)
    requires q > 1
  {
    && p < |s| <= |random|
    && forall i :: 0 <= i < |s| && i != p ==> s[i] == RandomScalar(q, random[DrawOf(p, i)])
  }

  function Encoded<P>(su: Suite<P>, image: P, s: seq<nat>, c: seq<nat>): (sig: RingSignature)
    requires su.grp.q > 0 && c != []
    ensures |sig.s| == |s|
  {
    RingSignature(ScalarToBytes(su.grp.q, c[0]),
                  seq(|s|, i requires 0 <= i < |s| => ScalarToBytes(su.grp.q, s[i])),
                  su.grp.enc(image))
  }

  /** Everything the signer is given. */
  datatype Params = Params(message: bytes, ring: seq<bytes>, signerIndex: int, privateKey: bytes, electionId: string)

  function Secret(q: nat, params: Params): nat
    requires BytesToScalar(q, params.privateKey).Ok?
  {
    BytesToScalar(q, params.privateKey).value
  }

  /** What the signer demands of its parameters. */
  ghost predicate CanSign<P(!new)>(su: Suite<P>, params: Params)
    requires SuiteOk(su)
  {
    && 2 <= |params.ring| < TWO32 && 0 <= params.signerIndex < |params.ring|
    && BytesToScalar(su.grp.q, params.privateKey).Ok? && Secret(su.grp.q, params) != 0
    && MembersOk(su.grp, params.ring)
    && Keys(su.grp, params.ring)[params.signerIndex] == su.grp.mul(su.grp.g, Secret(su.grp.q, params))
    && Fits(Utf8(params.electionId)) && Fits(params.message)
  }

  function Image<P(==)>(su: Suite<P>, params: Params): P
    requires IsSha512Sized(su.sha512)
    requires 0 <= params.signerIndex < |params.ring| && BytesToScalar(su.grp.q, params.privateKey).Ok?
  {
    su.grp.mul(KeyImageBase(su, params.ring[params.signerIndex], params.electionId), Secret(su.grp.q, params))
  }

  function SigningWalk<P(==)>(su: Suite<P>, params: Params): Walk<P>
    requires IsSha512Sized(su.sha512) && MembersOk(su.grp, params.ring)
    requires 0 <= params.signerIndex < |params.ring| && BytesToScalar(su.grp.q, params.privateKey).Ok?
  {
    WalkOf(su, params.message, params.ring, params.electionId, Image(su, params))
  }

  /** The signature carries these responses and challenges. */
  ghost predicate Carries<P(!new)>(su: Suite<P>, params: Params, random: seq<bytes>, sig: RingSignature, s: seq<nat>, c: seq<nat>)
    requires SuiteOk(su) && CanSign(su, params)
  {
    && |s| == |params.ring| <= |random|
    && Drawn(su.grp.q, params.signerIndex, random, s)
    && Closed(su, SigningWalk(su, params), params.signerIndex, Secret(su.grp.q, params), RandomScalar(su.grp.q, random[0]), s, c)
    && c != [] && sig == Encoded(su, Image(su, params), s, c)
  }

  ghost predicate Signed<P(!new)>(su: Suite<P>, params: Params, random: seq<bytes>, sig: RingSignature)
    requires SuiteOk(su) && CanSign(su, params)
  {
    exists s: seq<nat>, c: seq<nat> :: Carries(su, params, random, sig, s, c)
  }

  // ---- The signer ----

  datatype SignError = RingTooSmall | IndexOutOfRange | BadPrivateKey | BadMember | ZeroPrivateKey | KeyMismatch | InputTooLong

  method Sign<P(!new,==)>(su: Suite<P>, params: Params, random: seq<bytes>) returns (r: Result<RingSignature, SignError>)
    requires SuiteOk(su) && |random| >= |params.ring|
    ensures r.Ok? <==> CanSign(su, params)
    ensures r.Ok? ==> Signed(su, params, random, r.value)
  {
    hide SuiteOk, Lawful, BytesToScalar, Challenge, KeyImageBase, Utf8, IsSha512Sized, ScalarsFit, Step, RandomScalar, LeToNat, Closed;
    SuiteParts(su);
    var n, q := |params.ring|, su.grp.q;
    if n < 2 {
      return Err(RingTooSmall);
    }
    if params.signerIndex < 0 || params.signerIndex >= n {
      return Err(IndexOutOfRange);
    }
    var p: nat := params.signerIndex;
    var secret := BytesToScalar(q, params.privateKey);
    if secret.Err? {
      return Err(BadPrivateKey);
    }
    var x := secret.value;
    if !MembersOk(su.grp, params.ring) {
      return Err(BadMember);
    }
    var keys := Keys(su.grp, params.ring);
    if x == 0 {
      return Err(ZeroPrivateKey);
    }
    if su.grp.mul(su.grp.g, x) != keys[p] {
      return Err(KeyMismatch);
    }
    if !Fits(Utf8(params.electionId)) || !Fits(params.message) || n > 0xffff_ffff {
      return Err(InputTooLong);
    }
    var w := SigningWalk(su, params);
    var alpha := RandomScalar(q, random[0]);
    var s, c := Chain(su, w, p, x, alpha, random);
    assert Carries(su, params, random, Encoded(su, w.image, s, c), s, c);
    return Ok(Encoded(su, w.image, s, c));
  }

  /** The two arrays: random responses, challenges filled round the ring from p + 1, then the closing response. */
  method Chain<P(!new)>(su: Suite<P>, w: Walk<P>, p: nat, x: nat, alpha: nat, random: seq<bytes>) returns (s: seq<nat>, c: seq<nat>)
    requires su.grp.q > 1 && Sized(w, |w.ring|) && p < |w.ring| && 2 <= |w.ring| <= |random|
    requires Fits(w.message) && |w.ring| < TWO32
    ensures |s| == |c| == |w.ring| && Drawn(su.grp.q, p, random, s)
    ensures Closed(su, w, p, x, alpha, s, c)
  {
    hide Challenge, Step, RandomScalar, Follows;
    var n, q := |w.ring|, su.grp.q;
    var responses := new nat[n](_ => 0);
    DrawResponses(q, p, random, responses);
    ghost var drawn := responses[..];
    var challenges := new nat[n](_ => 0);
    Fill(su, w, p, alpha, responses, challenges);
    responses[p] := (alpha - challenges[p] * x) % q;
    s, c := responses[..], challenges[..];
    OthersFollow(su, w, p, drawn, s, c);
  }

  method DrawResponses(q: nat, p: nat, random: seq<bytes>, responses: array<nat>)
    requires q > 1 && p < responses.Length <= |random|
    modifies responses
    ensures forall j :: 0 <= j < responses.Length && j != p ==> responses[j] == RandomScalar(q, random[DrawOf(p, j)])
  {
    hide RandomScalar;
    for i := 0 to responses.Length
      invariant forall j :: 0 <= j < i && j != p ==> responses[j] == RandomScalar(q, random[DrawOf(p, j)])
    {
      if i != p {
        responses[i] := RandomScalar(q, random[DrawOf(p, i)]);
      }
    }
  }

  /** Every position but the signer's is met on the way round, and keeps its drawn response. */
  lemma OthersFollow<P(!new)>(su: Suite<P>, w: Walk<P>, p: nat, drawn: seq<nat>, s: seq<nat>, c: seq<nat>)
    requires su.grp.q > 1 && |w.ring| == |drawn| == |s| == |c| && Sized(w, |drawn|) && p < |drawn| && 2 <= |drawn|
    requires forall i :: 0 <= i < |s| && i != p ==> s[i] == drawn[i]
    requires forall k :: 1 <= k < |drawn| ==> Follows(su, w, drawn, c, Around(p, k, |drawn|))
    ensures forall i :: 0 <= i < |s| && i != p ==> Follows(su, w, s, c, i)
  {
    hide Challenge, Step;
    var n := |drawn|;
    forall i | 0 <= i < n && i != p ensures Follows(su, w, s, c, i) {
      var k := if i > p then i - p else i + n - p;
      assert Around(p, k, n) == i;
      assert Follows(su, w, drawn, c, Around(p, k, n));
    }
  }

  /** The first challenge commits to alpha; each turn k = 1, ..., n - 1 then fills one more. */
  method Fill<P(!new)>(su: Suite<P>, w: Walk<P>, p: nat, alpha: nat, responses: array<nat>, challenges: array<nat>)
    requires Fits(w.message) && |w.ring| < TWO32
    requires su.grp.q > 1 && Sized(w, responses.Length) && challenges.Length == responses.Length
    requires p < responses.Length && 2 <= responses.Length && challenges != responses
    modifies challenges
    ensures challenges[Around(p, 1, responses.Length)] ==
            Challenge(su, w.message, w.ring, su.grp.mul(su.grp.g, alpha), su.grp.mul(w.bases[p], alpha))
    ensures forall k :: 1 <= k < responses.Length ==>
              Follows(su, w, responses[..], challenges[..], Around(p, k, responses.Length))
  {
    hide Challenge, Step, Follows;
    var n := responses.Length;
    ghost var first := Challenge(su, w.message, w.ring, su.grp.mul(su.grp.g, alpha), su.grp.mul(w.bases[p], alpha));
    ghost var s := responses[..];
    AroundIsMod(p, 1, n);
    var next := TsChallenge(su, w.message, w.ring, su.grp.mul(su.grp.g, alpha), su.grp.mul(w.bases[p], alpha));
    challenges[(p + 1) % n] := next;
    for k := 1 to n
      invariant challenges[Around(p, 1, n)] == first
      invariant forall j :: 1 <= j < k ==> Follows(su, w, s, challenges[..], Around(p, j, n))
    {
      ghost var before := challenges[..];
      FillOne(su, w, p, k, responses, challenges);
      FillKeeps(su, w, p, k, s, before, challenges[..]);
    }
  }

  /** One turn: the challenge after position (p + k) mod n is that position's step. */
  method FillOne<P(!new)>(su: Suite<P>, w: Walk<P>, p: nat, k: nat, responses: array<nat>, challenges: array<nat>)
    requires Fits(w.message) && |w.ring| < TWO32
    requires su.grp.q > 1 && Sized(w, responses.Length) && challenges.Length == responses.Length
    requires p < responses.Length && 1 <= k < responses.Length && challenges != responses
    modifies challenges
    ensures var n := responses.Length;
            var i := Around(p, k, n);
            challenges[..] == old(challenges[..])[Around(i, 1, n) := Step(su, w, i, responses[i], old(challenges[i]))]
  {
    hide Challenge;
    var n := responses.Length;
    AroundIsMod(p, k, n);
    var i := (p + k) % n;
    var li := su.grp.add(su.grp.mul(su.grp.g, responses[i]), su.grp.mul(w.keys[i], challenges[i]));
    var ri := su.grp.add(su.grp.mul(w.bases[i], responses[i]), su.grp.mul(w.image, challenges[i]));
    AroundIsMod(i, 1, n);
    var next := TsChallenge(su, w.message, w.ring, li, ri);
    challenges[(i + 1) % n] := next;
  }

  /** The k-th turn of the fill settles one more position and disturbs none before it. */
  lemma FillKeeps<P>(su: Suite<P>, w: Walk<P>, p: nat, k: nat, s: seq<nat>, before: seq<nat>, c: seq<nat>)
    requires su.grp.q > 0 && Sized(w, |s|) && |c| == |before| == |s| && p < |s| && 1 <= k < |s|
    requires forall j :: 1 <= j < k ==> Follows(su, w, s, before, Around(p, j, |s|))
    requires var i := Around(p, k, |s|); c == before[Around(i, 1, |s|) := Step(su, w, i, s[i], before[i])]
    ensures c[Around(p, 1, |s|)] == before[Around(p, 1, |s|)]
    ensures forall j :: 1 <= j < k + 1 ==> Follows(su, w, s, c, Around(p, j, |s|))
  {
    hide Step;
    var n := |s|;
    forall j | 1 <= j < k + 1 ensures Follows(su, w, s, c, Around(p, j, n)) {
      if j < k {
        assert Follows(su, w, s, before, Around(p, j, n));
      }
    }
  }

  // ---- Completeness ----

  /** At the signer's own position the closing response makes the step recommit to alpha. */
  lemma OwnStepCloses<P(!new)>(su: Suite<P>, w: Walk<P>, p: nat, x: nat, alpha: nat, s: seq<nat>, c: seq<nat>)
    requires SuiteOk(su) && Closed(su, w, p, x, alpha, s, c)
    requires w.keys[p] == su.grp.mul(su.grp.g, x) && w.image == su.grp.mul(w.bases[p], x)
    ensures L(su, w, p, s[p], c[p]) == su.grp.mul(su.grp.g, alpha)
    ensures R(su, w, p, s[p], c[p]) == su.grp.mul(w.bases[p], alpha)
    ensures c[Around(p, 1, |s|)] == Step(su, w, p, s[p], c[p])
  {
    hide SuiteOk, Lawful, Challenge;
    SuiteParts(su);
    ResponseCloses(su.grp, su.grp.g, x, alpha, c[p]);
    ResponseCloses(su.grp, w.bases[p], x, alpha, c[p]);
  }

  /** The array filled from p + 1 is the sequence the verifier recomputes from its first element. */
  lemma {:induction false} FilledIsRewalked<P(!new)>(su: Suite<P>, w: Walk<P>, s: seq<nat>, c: seq<nat>, k: nat)
    requires su.grp.q > 0 && Sized(w, |s|) && |c| == |s| && k <= |s| && s != []
    requires forall i :: 0 <= i < |s| ==> Follows(su, w, s, c, i)
    ensures Entering(su, w, s, c[0], k) == c[if k < |s| then k else 0]
    decreases k
  {
    hide Step;
    if k > 0 {
      FilledIsRewalked(su, w, s, c, k - 1);
      assert Follows(su, w, s, c, k - 1);
    }
  }

  lemma ClosedCloses<P(!new)>(su: Suite<P>, w: Walk<P>, p: nat, x: nat, alpha: nat, s: seq<nat>, c: seq<nat>)
    requires SuiteOk(su) && Closed(su, w, p, x, alpha, s, c)
    requires w.keys[p] == su.grp.mul(su.grp.g, x) && w.image == su.grp.mul(w.bases[p], x)
    ensures Closes(su, w, s, c[0])
    ensures forall i :: 0 <= i < |s| ==> Entering(su, w, s, c[0], i) == c[i]
  {
    hide SuiteOk, Step, Challenge, Entering, L, R;
    SuiteParts(su);
    OwnStepCloses(su, w, p, x, alpha, s, c);
    forall i | 0 <= i < |s| ensures Follows(su, w, s, c, i) {
    }
    forall i | 0 <= i < |s| ensures Entering(su, w, s, c[0], i) == c[i] {
      FilledIsRewalked(su, w, s, c, i);
    }
    FilledIsRewalked(su, w, s, c, |s|);
  }
}
