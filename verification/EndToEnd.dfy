/** One voter, one counted ballot: from the signer's private key to every chain in the network. */
module EndToEnd {
  import opened Bytes
  import opened Words
  import opened Wrappers
  import opened Strings
  import opened Groups
  import opened Xmd
  import opened Transcripts
  import opened Wire
  import opened Lsag
  import opened Signing
  import opened Linking
  import opened Manifests
  import opened Blocks
  import opened Chains
  import opened Replicas
  import opened Network
  import opened Safety
  import opened Tallying
  import opened Ballots
  import opened Acceptance

  /** Encodings of different signatures differ. */
  lemma SerializedInjective(a: RingSignature, b: RingSignature)
    requires Shaped(a) && Shaped(b) && Serialized(a) == Serialized(b)
    ensures a == b
  {
    hide Serialized, U32le, AllSized;
    Offsets(a);
    Offsets(b);
    ResponsesOfSerialized(a);
    ResponsesOfSerialized(b);
    assert |a.s| == |b.s|;
  }

  lemma SignedIsShaped<P(!new)>(su: Suite<P>, params: Params, random: seq<bytes>, sig: RingSignature)
    requires SuiteOk(su) && CanSign(su, params) && Signed(su, params, random, sig)
    ensures Shaped(sig)
  {
    hide SuiteOk, Signed, Closes, SigningWalk;
    SignedWalk(su, params, random, sig);
  }

  /** This block's signature came out of the signer for this key and election, in whatever ring. */
  ghost predicate SignedWith<P(!new)>(su: Suite<P>, privateKey: bytes, electionId: string, b: Block)
    requires SuiteOk(su)
  {
    exists params: Params, random: seq<bytes>, sig: RingSignature ::
      && CanSign(su, params) && Signed(su, params, random, sig)
      && params.privateKey == privateKey && params.electionId == electionId
      && b.signature == Serialized(sig)
  }

  /** A verified ballot carries the key image of the signature in it. */
  lemma BallotImage<P(!new)>(
      su: Suite<P>, m: ElectionManifest, ringId: string, candidate: string, keyImage: bytes, signature: bytes,
      params: Params, random: seq<bytes>, sig: RingSignature)
    requires SuiteOk(su) && BallotOk(su, m, ringId, candidate, keyImage, signature)
    requires CanSign(su, params) && Signed(su, params, random, sig) && signature == Serialized(sig)
    ensures keyImage == sig.keyImage
  {
    hide Lawful, CanSign, Signed, Decode, RustAccepts, EncodeMessage, Serialized, Canonical, Shaped;
    SignedIsShaped(su, params, random, sig);
    SerializedDecode(su.grp, RUST_CAP, signature);
    var decoded := Decode(su.grp, RUST_CAP, signature).value;
    CanonicalIsShaped(su.grp, decoded);
    SerializedInjective(decoded, sig);
  }

  lemma BlockBallot<P(!new)>(
      su: Suite<P>, m: ElectionManifest, powHash: (Block, nat) -> bytes, chainHash: seq<Block> -> string, b: Block)
    requires SuiteOk(su) && BlockValid(RulesOf(su, m, powHash, chainHash), b)
    ensures BallotOk(su, m, b.ringId, b.data, b.keyImage, b.signature)
  {
    hide SuiteOk, BallotOk, Sealed;
  }

  /** Any two verified ballots of one key in the manifest's election carry the same image. */
  lemma SameKeyBallot<P(!new)>(
      su: Suite<P>, m: ElectionManifest, b: Block, params: Params, random: seq<bytes>, sig: RingSignature)
    requires SuiteOk(su) && BallotOk(su, m, b.ringId, b.data, b.keyImage, b.signature)
    requires SignedWith(su, params.privateKey, params.electionId, b)
    requires CanSign(su, params) && Signed(su, params, random, sig)
    ensures b.keyImage == sig.keyImage
  {
    hide SuiteOk, CanSign, Signed, Serialized, BallotOk;
    var pa: Params, ra: seq<bytes>, sa: RingSignature :|
      CanSign(su, pa) && Signed(su, pa, ra, sa) && pa.privateKey == params.privateKey
      && pa.electionId == params.electionId && b.signature == Serialized(sa);
    BallotImage(su, m, b.ringId, b.data, b.keyImage, b.signature, pa, ra, sa);
    SameKeyLinks(su, pa, ra, sa, params, random, sig);
  }

  lemma SameKeySameImage<P(!new)>(
      su: Suite<P>, m: ElectionManifest, powHash: (Block, nat) -> bytes, chainHash: seq<Block> -> string,
      privateKey: bytes, a: Block, b: Block)
    requires SuiteOk(su)
    requires BlockValid(RulesOf(su, m, powHash, chainHash), a) && BlockValid(RulesOf(su, m, powHash, chainHash), b)
    requires SignedWith(su, privateKey, m.electionId, a) && SignedWith(su, privateKey, m.electionId, b)
    ensures a.keyImage == b.keyImage
  {
    hide SuiteOk, CanSign, Signed, BlockValid, Serialized, BallotOk;
    BlockBallot(su, m, powHash, chainHash, a);
    BlockBallot(su, m, powHash, chainHash, b);
    var pb: Params, rb: seq<bytes>, sb: RingSignature :|
      CanSign(su, pb) && Signed(su, pb, rb, sb) && pb.privateKey == privateKey && pb.electionId == m.electionId && b.signature == Serialized(sb);
    BallotImage(su, m, b.ringId, b.data, b.keyImage, b.signature, pb, rb, sb);
    SameKeyBallot(su, m, a, pb, rb, sb);
  }

  /**
   * No chain that nodes running this code can hold or send records two ballots of one private key,
   * whichever rings, positions, candidates and randomness they were signed with.
   */
  lemma OneBallotPerKey<P(!new)>(
      su: Suite<P>, m: ElectionManifest, powHash: (Block, nat) -> bytes, chainHash: seq<Block> -> string,
      net: Net, run: seq<Action>, chain: seq<Block>, privateKey: bytes, i: nat, j: nat)
    requires SuiteOk(su) && Initial(net) && Legal(RulesOf(su, m, powHash, chainHash), net, run)
    requires var now := After(RulesOf(su, m, powHash, chainHash), net, run);
             || (exists p :: p in now.nodes && now.nodes[p].replica.chain == chain)
             || (exists push :: push in now.inflight && push.chain == chain)
    requires i < |chain| && j < |chain|
    requires SignedWith(su, privateKey, m.electionId, chain[i]) && SignedWith(su, privateKey, m.electionId, chain[j])
    ensures i == j
  {
    hide SuiteOk, RulesOf, SignedWith, BlockValid, Legal, After, Initial;
    var rules := RulesOf(su, m, powHash, chainHash);
    NetworkSafety(rules, net, run);
    assert ChainOk(rules, chain);
    SameKeySameImage(su, m, powHash, chainHash, privateKey, chain[i], chain[j]);
  }

  /** Once a ballot of a key is on a node's chain, the endpoint accepts no other ballot of that key. */
  lemma SecondBallotRefused<P(!new)>(
      su: Suite<P>, m: ElectionManifest, powHash: (Block, nat) -> bytes, chainHash: seq<Block> -> string,
      net: Net, run: seq<Action>, p: Replicas.Peer, i: nat,
      params: Params, random: seq<bytes>, sig: RingSignature, ringId: string, candidateId: string, answer: Outcome)
    requires SuiteOk(su) && Initial(net) && Legal(RulesOf(su, m, powHash, chainHash), net, run)
    requires p in After(RulesOf(su, m, powHash, chainHash), net, run).nodes
    requires var r := After(RulesOf(su, m, powHash, chainHash), net, run).nodes[p].replica;
             && i < |r.chain| && SignedWith(su, params.privateKey, m.electionId, r.chain[i])
             && Answers(su, m, r.seen, CastFor(params, ringId, candidateId, sig), answer)
    requires CanSign(su, params) && Signed(su, params, random, sig) && params.electionId == m.electionId
    ensures !answer.Accepted?
  {
    hide SuiteOk, CanSign, Signed, BlockValid, Legal, After, Initial, Serialized, Decode, RulesOf, BallotOk, SignedWith, Answers;
    var rules := RulesOf(su, m, powHash, chainHash);
    NetworkSafety(rules, net, run);
    var r := After(rules, net, run).nodes[p].replica;
    var b := r.chain[i];
    assert b.keyImage in KeyImages(r.chain);
    BlockBallot(su, m, powHash, chainHash, b);
    SameKeyBallot(su, m, b, params, random, sig);
    AcceptedImageIsNew(su, m, r.seen, CastFor(params, ringId, candidateId, sig), answer, params, random, sig);
  }

  lemma AcceptedImageIsNew<P(!new)>(
      su: Suite<P>, m: ElectionManifest, seen: set<bytes>, sub: Submission, answer: Outcome,
      params: Params, random: seq<bytes>, sig: RingSignature)
    requires SuiteOk(su) && Answers(su, m, seen, sub, answer) && sub.signature == Some(Serialized(sig))
    requires CanSign(su, params) && Signed(su, params, random, sig)
    ensures answer.Accepted? ==> sig.keyImage !in seen
  {
    hide SuiteOk, CanSign, Signed, Serialized, Decode, BallotOk;
    if answer.Accepted? {
      var t := answer.task;
      BallotImage(su, m, t.ringId, t.candidate, t.keyImage, t.signature, params, random, sig);
    }
  }

  /**
   * Tallies inherit it: whenever a node's cache is in step with its chain, its total exceeds the
   * number of ballots not signed with a given key by at most one.
   */
  lemma KeyCountsOnce<P(!new)>(
      su: Suite<P>, m: ElectionManifest, powHash: (Block, nat) -> bytes, chainHash: seq<Block> -> string,
      net: Net, run: seq<Action>, p: Replicas.Peer, privateKey: bytes)
    requires SuiteOk(su) && Initial(net) && Legal(RulesOf(su, m, powHash, chainHash), net, run)
    requires OrderlyRun(RulesOf(su, m, powHash, chainHash), net, run)
    requires p in After(RulesOf(su, m, powHash, chainHash), net, run).nodes
    requires !WritePending(After(RulesOf(su, m, powHash, chainHash), net, run).nodes[p])
    ensures var r := After(RulesOf(su, m, powHash, chainHash), net, run).nodes[p].replica;
            TallySum(r.cache.tally) <= |NotSignedWith(su, privateKey, m.electionId, r.chain)| + 1
  {
    hide SuiteOk, RulesOf, SignedWith, Legal, After, Initial, OrderlyRun, WritePending, TallySum, Positions;
    var rules := RulesOf(su, m, powHash, chainHash);
    TallyRefinesChain(rules, net, run, p);
    var chain := After(rules, net, run).nodes[p].replica.chain;
    var all, others := Positions(|chain|), NotSignedWith(su, privateKey, m.electionId, chain);
    forall i: nat, j: nat | i in all - others && j in all - others ensures i == j {
      OneBallotPerKey(su, m, powHash, chainHash, net, run, chain, privateKey, i, j);
    }
    AtMostOne(all - others);
    assert all == others + (all - others);
  }

  function Positions(n: nat): (s: set<nat>)
    ensures |s| == n && forall k :: k in s ==> k < n
  {
    if n == 0 then {} else Positions(n - 1) + {n - 1}
  }

  /** Positions of the blocks whose ballot was not signed with this key. */
  ghost function NotSignedWith<P(!new)>(su: Suite<P>, privateKey: bytes, electionId: string, chain: seq<Block>): set<nat>
    requires SuiteOk(su)
  {
    set k | k in Positions(|chain|) && !SignedWith(su, privateKey, electionId, chain[k])
  }

  lemma AtMostOne(s: set<nat>)
    requires forall i, j :: i in s && j in s ==> i == j
    ensures |s| <= 1
  {
    if s != {} {
      var i :| i in s;
      assert s == {i};
    }
  }

  // ---- A ballot in terms of the group ----

  /** A signature verifies over this message and ring: the challenges come round, and nothing is the identity. */
  ghost predicate Proves<P(!new)>(su: Suite<P>, message: bytes, ring: seq<bytes>, electionId: string, sig: RingSignature)
    requires SuiteOk(su)
  {
    && 2 <= |ring| == |sig.s| && RingDecodes(su.grp, ring)
    && su.grp.dec(sig.keyImage).Some? && su.grp.dec(sig.keyImage).value != su.grp.zero
    && exists c: seq<nat> ::
         && IsCycle(su, message, ring, electionId, su.grp.dec(sig.keyImage).value, Values(sig.s), LeToNat(sig.c0), c)
         && NoIdentity(su, ring, electionId, su.grp.dec(sig.keyImage).value, Values(sig.s), c)
  }

  lemma ParsedProves<P(!new)>(su: Suite<P>, message: bytes, ring: seq<bytes>, electionId: string, sig: RingSignature)
    requires SuiteOk(su) && su.grp.dec(sig.keyImage).Some?
    ensures RustAccepts(su, message, ring, Parse(su.grp, sig), electionId) <==> Proves(su, message, ring, electionId, sig)
  {
    hide SuiteOk, RustAccepts, IsCycle, NoIdentity, RingDecodes;
    RustAcceptsCycles(su, message, ring, Parse(su.grp, sig), electionId);
  }

  /**
   * A node's rules count a ballot exactly when its ring is in the manifest, its bytes decode to a
   * signature with that key image, and the signature proves this election, ring and candidate.
   */
  lemma BallotMeans<P(!new)>(
      su: Suite<P>, m: ElectionManifest, powHash: (Block, nat) -> bytes, chainHash: seq<Block> -> string,
      ringId: string, candidate: string, keyImage: bytes, signature: bytes)
    requires SuiteOk(su)
    ensures var rules := RulesOf(su, m, powHash, chainHash);
            && rules.powHash == powHash && rules.chainHash == chainHash
            && (rules.candidateOk(candidate) <==> candidate in m.candidateIds)
            && (rules.ballotOk(ringId, candidate, keyImage, signature) <==>
                && ringId in m.rings && Decode(su.grp, 4096, signature).Ok?
                && var sig := Decode(su.grp, 4096, signature).value;
                   && sig.keyImage == keyImage
                   && Proves(su, EncodeMessage(m.electionId, ringId, candidate), m.rings[ringId].publicKeys, m.electionId, sig))
  {
    hide SuiteOk, Decode, RustAccepts, Parse, EncodeMessage, Proves;
    if ringId in m.rings && Decode(su.grp, 4096, signature).Ok? {
      DecodedParses(su.grp, signature);
      ParsedProves(su, EncodeMessage(m.electionId, ringId, candidate), m.rings[ringId].publicKeys, m.electionId,
                   Decode(su.grp, 4096, signature).value);
    }
  }

  /**
   * The endpoint's answers in the same terms, in the order of its checks; an accepted ballot becomes
   * a task naming the submission's candidate, ring and signature and the signature's own key image.
   */
  lemma AnswerMeans<P(!new)>(su: Suite<P>, m: ElectionManifest, seen: set<bytes>, sub: Submission, answer: Outcome)
    requires SuiteOk(su) && Answers(su, m, seen, sub, answer)
    ensures answer.WrongElection? <==> sub.electionId != m.electionId
    ensures answer.InvalidCandidate? <==> sub.electionId == m.electionId && sub.candidateId !in m.candidateIds
    ensures answer.UnknownRing? <==> sub.electionId == m.electionId && sub.candidateId in m.candidateIds && sub.ringId !in m.rings
    ensures sub.electionId == m.electionId && sub.candidateId in m.candidateIds && sub.ringId in m.rings ==>
            && (answer.MalformedSignature? <==> sub.signature.None? || Decode(su.grp, 4096, sub.signature.value).Err?)
            && (!answer.MalformedSignature? ==>
                var sig := Decode(su.grp, 4096, sub.signature.value).value;
                var proves := Proves(su, EncodeMessage(sub.electionId, sub.ringId, sub.candidateId),
                                     m.rings[sub.ringId].publicKeys, sub.electionId, sig);
                && (answer.InvalidSignature? <==> !proves)
                && (answer.DoubleVote? <==> proves && sig.keyImage in seen)
                && (answer.Accepted? <==> proves && sig.keyImage !in seen)
                && (answer.Accepted? ==>
                    answer.task == MiningTask(sub.candidateId, sub.ringId, sig.keyImage, sub.signature.value)))
  {
    hide SuiteOk, Decode, RustAccepts, Parse, EncodeMessage, Proves;
    if sub.ringId in m.rings && sub.signature.Some? && Decode(su.grp, 4096, sub.signature.value).Ok? {
      DecodedParses(su.grp, sub.signature.value);
      ParsedProves(su, EncodeMessage(sub.electionId, sub.ringId, sub.candidateId), m.rings[sub.ringId].publicKeys, sub.electionId,
                   Decode(su.grp, 4096, sub.signature.value).value);
    }
  }

  /**
   * What the signer returns is a cycle: every response but its own is the scalar of its own draw, and
   * at its own position both commitments are to the number alpha of the first draw.
   */
  lemma SignedIsCycle<P(!new)>(su: Suite<P>, params: Params, random: seq<bytes>, sig: RingSignature) returns (c: seq<nat>)
    requires SuiteOk(su) && CanSign(su, params) && Signed(su, params, random, sig)
    ensures |sig.s| == |params.ring| <= |random| && RingDecodes(su.grp, params.ring)
    ensures var p := params.signerIndex;
            var base := KeyImageBase(su, params.ring[p], params.electionId);
            var image := su.grp.mul(base, LeToNat(params.privateKey));
            var alpha := RandomScalar(su.grp.q, random[0]);
            && sig.keyImage == su.grp.enc(image)
            && IsCycle(su, params.message, params.ring, params.electionId, image, Values(sig.s), LeToNat(sig.c0), c)
            && CommitL(su.grp, su.grp.dec(params.ring[p]).value, LeToNat(sig.s[p]), c[p]) == su.grp.mul(su.grp.g, alpha)
            && CommitR(su.grp, base, image, LeToNat(sig.s[p]), c[p]) == su.grp.mul(base, alpha)
            && forall i :: 0 <= i < |sig.s| && i != p ==>
                 LeToNat(sig.s[i]) == RandomScalar(su.grp.q, random[if i < p then i + 1 else i])
  {
    hide SuiteOk, Lawful, LeToNat, CanonicalScalar, Closed, KeyImageBase, Utf8, IsSha512Sized, ScalarsFit, RandomScalar, Encoded, IsCycle, RingDecodes, MembersOk, Follows, Challenge, SigningWalk, Image, Keys, CommitL, CommitR;
    SuiteParts(su);
    RingIsMembers(su, params.ring);
    SignsWhen(su, params);
    var s, c' :| Carries(su, params, random, sig, s, c');
    c := c';
    var w, p, x, alpha := SigningWalk(su, params), params.signerIndex, Secret(su.grp.q, params), RandomScalar(su.grp.q, random[0]);
    ClosedReduced(su, w, p, x, alpha, random, s, c);
    EncodedBack(su, Image(su, params), s, c);
    SigningWalkFits(su, params);
    OwnPosition(su, params, alpha, s, c);
    ClosedFollows(su, w, p, x, alpha, s, c);
    WalkAndImage(su, params);
    CycleFollows(su, params.message, params.ring, params.electionId, w.image, s, c[0], c);
    EncodedImage(su, Image(su, params), s, c);
    ClosedSized(su, w, p, x, alpha, s, c);
    DrawnMeans(su.grp.q, p, random, s);
    assert Values(sig.s) == s;
  }

  lemma EncodedImage<P(!new)>(su: Suite<P>, image: P, s: seq<nat>, c: seq<nat>)
    requires su.grp.q > 0 && c != []
    ensures Encoded(su, image, s, c).keyImage == su.grp.enc(image)
  {
  }

  lemma ClosedSized<P(!new)>(su: Suite<P>, w: Walk<P>, p: nat, x: nat, alpha: nat, s: seq<nat>, c: seq<nat>)
    requires su.grp.q > 0 && Closed(su, w, p, x, alpha, s, c)
    ensures |c| == |s| && p < |s|
  {
  }

  lemma DrawnMeans(q: nat, p: nat, random: seq<bytes>, s: seq<nat>)
    requires q > 1 && Drawn(q, p, random, s)
    ensures |s| <= |random| && forall i :: 0 <= i < |s| && i != p ==> s[i] == RandomScalar(q, random[if i < p then i + 1 else i])
  {
    hide RandomScalar;
  }

  lemma WalkAndImage<P(!new)>(su: Suite<P>, params: Params)
    requires SuiteOk(su) && CanSign(su, params)
    ensures SigningWalk(su, params) == WalkOf(su, params.message, params.ring, params.electionId, Image(su, params))
    ensures Image(su, params) == su.grp.mul(KeyImageBase(su, params.ring[params.signerIndex], params.electionId), LeToNat(params.privateKey))
  {
    hide Lawful, LeToNat, KeyImageBase, Utf8, IsSha512Sized, ScalarsFit;
  }

  lemma ClosedFollows<P(!new)>(su: Suite<P>, w: Walk<P>, p: nat, x: nat, alpha: nat, s: seq<nat>, c: seq<nat>)
    requires SuiteOk(su) && Closed(su, w, p, x, alpha, s, c)
    requires w.keys[p] == su.grp.mul(su.grp.g, x) && w.image == su.grp.mul(w.bases[p], x)
    ensures |c| == |s| && p < |s| && forall i :: 0 <= i < |s| ==> Follows(su, w, s, c, i)
  {
    hide SuiteOk, Step, Challenge, L, R;
    SuiteParts(su);
    OwnStepCloses(su, w, p, x, alpha, s, c);
  }

  /** At the signer's own position both commitments are to alpha. */
  lemma OwnPosition<P(!new)>(su: Suite<P>, params: Params, alpha: nat, s: seq<nat>, c: seq<nat>)
    requires SuiteOk(su) && CanSign(su, params)
    requires Closed(su, SigningWalk(su, params), params.signerIndex, Secret(su.grp.q, params), alpha, s, c)
    ensures |c| == |s| && params.signerIndex < |s|
    ensures var p := params.signerIndex;
            var base := KeyImageBase(su, params.ring[p], params.electionId);
            && su.grp.dec(params.ring[p]).Some?
            && CommitL(su.grp, su.grp.dec(params.ring[p]).value, s[p], c[p]) == su.grp.mul(su.grp.g, alpha)
            && CommitR(su.grp, base, Image(su, params), s[p], c[p]) == su.grp.mul(base, alpha)
  {
    hide Lawful, LeToNat, KeyImageBase, Utf8, IsSha512Sized, ScalarsFit, Challenge, BytesToScalar, Follows;
    RingIsMembers(su, params.ring);
    SigningWalkFits(su, params);
    OwnStepCloses(su, SigningWalk(su, params), params.signerIndex, Secret(su.grp.q, params), alpha, s, c);
  }
}
