/**
 * The ballot check a node makes against its manifest: `Block::verify_ballot` (block/block.rs),
 * `App::verify_task` (app.rs) and the ordered checks of `cast_ballot` (http_server/http.rs).
 */
module Ballots {
  import opened Bytes
  import opened Wrappers
  import opened Groups
  import opened Transcripts
  import opened Wire
  import opened Lsag
  import opened Signing
  import opened Linking
  import opened Manifests
  import opened Blocks
  import opened Chains
  import opened Replicas
  import opened Nodes

  /** The signature parses, carries this key image and verifies for the ring this node holds. */
  predicate BallotOk<P(!new,==)>(
      su: Suite<P>, m: ElectionManifest, ringId: string, candidate: string, keyImage: bytes, signature: bytes)
    requires SuiteOk(su)
  {
    && ringId in m.rings
    && var sig := Decode(su.grp, RUST_CAP, signature);
       && sig.Ok? && sig.value.keyImage == keyImage
       && ParseOk(su.grp, sig.value)
       && RustAccepts(su, EncodeMessage(m.electionId, ringId, candidate), m.rings[ringId].publicKeys,
                      Parse(su.grp, sig.value), m.electionId)
  }

  /** Always true of a decoded signature; stated so that decoding its point is well defined. */
  predicate ParseOk<P(==)>(grp: Group<P>, sig: RingSignature) {
    grp.dec(sig.keyImage).Some?
  }

  lemma DecodedParses<P(!new)>(grp: Group<P>, b: bytes)
    requires Decode(grp, RUST_CAP, b).Ok?
    ensures ParseOk(grp, Decode(grp, RUST_CAP, b).value)
    ensures LeToNat(Decode(grp, RUST_CAP, b).value.c0) < grp.q
  {
    hide LeToNat, FirstBad, Responses;
  }

  /** The rules a node works by: everything about a block it can check from its own manifest. */
  function RulesOf<P(!new,==)>(
      su: Suite<P>, m: ElectionManifest, powHash: (Block, nat) -> bytes, chainHash: seq<Block> -> string): Rules
    requires SuiteOk(su)
  {
    Rules(
      powHash,
      (candidate: string) => candidate in m.candidateIds,
      (ringId: string, candidate: string, keyImage: bytes, signature: bytes) =>
        BallotOk(su, m, ringId, candidate, keyImage, signature),
      chainHash)
  }

  /** `verify_ballot` and, with the same arguments, the signature part of `verify_task`. */
  method VerifyBallot<P(!new,==)>(
      su: Suite<P>, m: ElectionManifest, ringId: string, candidate: string, keyImage: bytes, signature: bytes)
    returns (ok: bool)
    requires SuiteOk(su)
    ensures ok <==> BallotOk(su, m, ringId, candidate, keyImage, signature)
  {
    hide SuiteOk, Decode, RustAccepts, EncodeMessage;
    if ringId !in m.rings {
      return false;
    }
    var parsed := RustDeserialize(su.grp, signature);
    if parsed.Err? {
      return false;
    }
    DecodedParses(su.grp, signature);
    if parsed.value.keyImageBytes != keyImage {
      return false;
    }
    var message := RustEncodeMessage(m.electionId, ringId, candidate);
    ok := RustVerify(su, message, m.rings[ringId].publicKeys, parsed.value, m.electionId);
  }

  /** `verify_task`: the same check with the candidate looked up after the key image is compared. */
  method VerifyTask<P(!new,==)>(
      su: Suite<P>, m: ElectionManifest, task: MiningTask,
      ghost powHash: (Block, nat) -> bytes, ghost chainHash: seq<Block> -> string) returns (ok: bool)
    requires SuiteOk(su)
    ensures ok <==> TaskValid(RulesOf(su, m, powHash, chainHash), task)
  {
    hide SuiteOk, Decode, RustAccepts, EncodeMessage;
    if task.ringId !in m.rings {
      return false;
    }
    var parsed := RustDeserialize(su.grp, task.signature);
    if parsed.Err? {
      return false;
    }
    DecodedParses(su.grp, task.signature);
    if parsed.value.keyImageBytes != task.keyImage {
      return false;
    }
    if task.candidate !in m.candidateIds {
      return false;
    }
    var message := RustEncodeMessage(m.electionId, task.ringId, task.candidate);
    ok := RustVerify(su, message, m.rings[task.ringId].publicKeys, parsed.value, m.electionId);
  }

  // ---- The ballot endpoint ----

  /** A submission; `signature` is None when its text is not base64url. */
  datatype Submission = Submission(electionId: string, ringId: string, candidateId: string, signature: Option<bytes>)

  datatype Outcome =
    | Accepted(task: MiningTask)
    | WrongElection
    | InvalidCandidate
    | UnknownRing
    | MalformedSignature
    | InvalidSignature
    | DoubleVote

  /** What the submission would put on a block, whatever becomes of it. */
  function TaskOf(sub: Submission, keyImage: bytes): MiningTask
    requires sub.signature.Some?
  {
    MiningTask(sub.candidateId, sub.ringId, keyImage, sub.signature.value)
  }

  /** The signature verifies for the ring and candidate the submission names. */
  predicate Verifies<P(!new,==)>(su: Suite<P>, m: ElectionManifest, sub: Submission)
    requires SuiteOk(su)
  {
    && sub.signature.Some? && Decode(su.grp, RUST_CAP, sub.signature.value).Ok?
    && BallotOk(su, m, sub.ringId, sub.candidateId, Decode(su.grp, RUST_CAP, sub.signature.value).value.keyImage, sub.signature.value)
  }

  /** When each answer is given. */
  ghost predicate Answers<P(!new)>(su: Suite<P>, m: ElectionManifest, seen: set<bytes>, sub: Submission, answer: Outcome)
    requires SuiteOk(su)
  {
    var named := sub.electionId == m.electionId && sub.candidateId in m.candidateIds && sub.ringId in m.rings;
    var parses := sub.signature.Some? && Decode(su.grp, RUST_CAP, sub.signature.value).Ok?;
    match answer
    case WrongElection => sub.electionId != m.electionId
    case InvalidCandidate => sub.electionId == m.electionId && sub.candidateId !in m.candidateIds
    case UnknownRing => sub.electionId == m.electionId && sub.candidateId in m.candidateIds && sub.ringId !in m.rings
    case MalformedSignature => named && !parses
    case InvalidSignature => named && parses && !Verifies(su, m, sub)
    case DoubleVote => named && Verifies(su, m, sub) && Decode(su.grp, RUST_CAP, sub.signature.value).value.keyImage in seen
    case Accepted(task) =>
      && named && Verifies(su, m, sub)
      && var image := Decode(su.grp, RUST_CAP, sub.signature.value).value.keyImage;
         image !in seen && task == TaskOf(sub, image)
  }

  /** The ordered checks of `cast_ballot`; verification comes before the seen-set is consulted. */
  method CheckSubmission<P(!new,==)>(su: Suite<P>, m: ElectionManifest, seen: set<bytes>, sub: Submission) returns (answer: Outcome)
    requires SuiteOk(su)
    ensures Answers(su, m, seen, sub, answer)
  {
    hide SuiteOk, Decode, RustAccepts, EncodeMessage;
    if sub.electionId != m.electionId {
      return WrongElection;
    }
    if sub.candidateId !in m.candidateIds {
      return InvalidCandidate;
    }
    if sub.ringId !in m.rings {
      return UnknownRing;
    }
    if sub.signature.None? {
      return MalformedSignature;
    }
    var parsed := RustDeserialize(su.grp, sub.signature.value);
    if parsed.Err? {
      return MalformedSignature;
    }
    DecodedParses(su.grp, sub.signature.value);
    var message := RustEncodeMessage(sub.electionId, sub.ringId, sub.candidateId);
    var ok := RustVerify(su, message, m.rings[sub.ringId].publicKeys, parsed.value, sub.electionId);
    if !ok {
      return InvalidSignature;
    }
    if parsed.value.keyImageBytes in seen {
      return DoubleVote;
    }
    return Accepted(TaskOf(sub, parsed.value.keyImageBytes));
  }

  // ---- The fan-out ----

  /** One attempt to hand a copy to a peer drawn at random. */
  datatype Attempt = Attempt(draw: nat, reached: bool)

  const DISTRIBUTE_MAX_ATTEMPTS: nat := 3

  function Ceiling(x: real): int {
    -((-x).Floor)
  }

  /** How many copies are sent out: two fifths of the peers, at least one if there are any. */
  function FanOut(peers: nat): nat {
    if peers == 0 then 0 else AtLeastOne(Ceiling(peers as real * 0.4))
  }

  function AtLeastOne(n: int): nat {
    if n < 1 then 1 else n
  }

  lemma FanOutIsTwoFifths(peers: nat)
    ensures FanOut(peers) <= peers
    ensures peers > 0 ==> 5 * (FanOut(peers) - 1) < 2 * peers <= 5 * FanOut(peers)
  {
    var x := peers as real * 0.4;
    var f := (-x).Floor;
    assert f as real <= -x < (f + 1) as real;
    assert 5.0 * x == 2.0 * peers as real;
  }

  /** `distribute_vote_task`: up to three attempts, each at a freshly drawn peer, until one is reached. */
  method DistributeVoteTask(peers: seq<Peer>, attempts: seq<Attempt>) returns (to: Option<Peer>)
    requires |attempts| == DISTRIBUTE_MAX_ATTEMPTS
    ensures to.None? <==> peers == [] || forall k :: 0 <= k < |attempts| ==> !attempts[k].reached
    ensures to.Some? ==> exists k :: 0 <= k < |attempts| && attempts[k].reached
                                     && (forall j :: 0 <= j < k ==> !attempts[j].reached)
                                     && to.value == peers[attempts[k].draw % |peers|]
  {
    if peers == [] {
      return None;
    }
    for attempt := 0 to |attempts|
      invariant forall j :: 0 <= j < attempt ==> !attempts[j].reached
    {
      var randPeer := peers[attempts[attempt].draw % |peers|];
      if attempts[attempt].reached {
        return Some(randPeer);
      }
    }
    return None;
  }

  /** The fan-out for so many peers; the list is read again for each copy, and may have changed. */
  method SendCopies(known: nat, peersAt: nat -> seq<Peer>, attempts: nat -> seq<Attempt>) returns (sent: seq<Peer>)
    requires forall i :: |attempts(i)| == DISTRIBUTE_MAX_ATTEMPTS
    ensures |sent| <= FanOut(known)
    ensures forall p :: p in sent ==> exists i: nat :: i < FanOut(known) && p in peersAt(i)
    ensures (forall i :: attempts(i)[0].reached && peersAt(i) != []) ==> |sent| == FanOut(known)
  {
    hide FanOut;
    sent := [];
    for i := 0 to FanOut(known)
      invariant |sent| <= i
      invariant forall p :: p in sent ==> exists j: nat :: j < i && p in peersAt(j)
      invariant (forall j :: attempts(j)[0].reached && peersAt(j) != []) ==> |sent| == i
    {
      var to := DistributeVoteTask(peersAt(i), attempts(i));
      if to.Some? {
        assert to.value in peersAt(i);
        sent := sent + [to.value];
      }
    }
  }

  /**
   * `cast_ballot` up to the start of mining: a refusal is counted and nothing else happens; an accepted
   * ballot is handed to some of the peers and queued here. `sent` lists the peers a copy reached, and
   * `peersAt` the peers known when each copy is sent.
   */
  method CastBallot<P(!new,==)>(su: Suite<P>, m: ElectionManifest, app: App, sub: Submission,
                                peersAt: nat -> seq<Peer>, attempts: nat -> seq<Attempt>,
                                ghost powHash: (Block, nat) -> bytes, ghost chainHash: seq<Block> -> string)
    returns (answer: Outcome, sent: seq<Peer>)
    requires SuiteOk(su) && app.rules == RulesOf(su, m, powHash, chainHash)
    requires forall i :: |attempts(i)| == 3
    modifies app`rejectedBallots, app.miningPool
    ensures Answers(su, m, old(app.seenKeyImages), sub, answer)
    ensures answer.Accepted? ==>
              app.State() == old(app.State()).(pool := AddTask(app.rules, old(app.State()).pool, answer.task))
    ensures answer.Accepted? ==>
              var copies := FanOut(|app.knownPeers.peers|);
              && |sent| <= copies && (forall p :: p in sent ==> exists i: nat :: i < copies && p in peersAt(i))
              && ((forall i :: attempts(i)[0].reached && peersAt(i) != []) ==> |sent| == copies)
    ensures !answer.Accepted? ==>
              app.State() == old(app.State()).(rejected := old(app.State()).rejected + 1) && sent == []
  {
    hide SuiteOk, Decode, RustAccepts, EncodeMessage, AddTask, FanOut;
    answer := CheckSubmission(su, m, app.seenKeyImages, sub);
    sent := [];
    if answer.Accepted? {
      AcceptedIsValid(su, m, app.seenKeyImages, sub, answer, powHash, chainHash);
      sent := SendCopies(|app.knownPeers.peers|, peersAt, attempts);
      var _ := app.QueueTask(answer.task);
    } else {
      app.rejectedBallots := app.rejectedBallots + 1;
    }
  }

  /** A copy of an accepted ballot is queued by every node of the election that has not recorded it, and is never rejected as invalid. */
  lemma CopiesAreQueued<P(!new)>(
      su: Suite<P>, m: ElectionManifest, seen: set<bytes>, sub: Submission, answer: Outcome,
      powHash: (Block, nat) -> bytes, chainHash: seq<Block> -> string, peer: Replica)
    requires SuiteOk(su) && Answers(su, m, seen, sub, answer) && answer.Accepted?
    ensures var peer' := Enqueue(RulesOf(su, m, powHash, chainHash), peer, answer.task);
            && (answer.task.keyImage !in peer.seen ==> Queued(peer'.pool, answer.task.keyImage) && peer'.rejected == peer.rejected)
            && (answer.task.keyImage in peer.seen ==> peer' == peer.(rejected := peer.rejected + 1))
  {
    hide SuiteOk, Answers, TaskValid, Queued;
    var rules := RulesOf(su, m, powHash, chainHash);
    AcceptedIsValid(su, m, seen, sub, answer, powHash, chainHash);
    ValidNamesCandidate(rules, answer.task);
    QueuedNow(rules, peer.pool, answer.task);
  }

  lemma ValidNamesCandidate(rules: Rules, task: MiningTask)
    requires TaskValid(rules, task)
    ensures rules.candidateOk(task.candidate)
  {
  }

  lemma QueuedNow(rules: Rules, pool: seq<MiningTask>, task: MiningTask)
    requires rules.candidateOk(task.candidate)
    ensures Queued(AddTask(rules, pool, task), task.keyImage)
  {
    var next := pool + [task];
    assert next[|pool|].keyImage == task.keyImage;
  }

  /**
   * The endpoint and the mining queue cannot drift: what the endpoint accepts passes the check made
   * when it is queued, and nothing else carrying the same election id does.
   */
  lemma AcceptedIsValid<P(!new)>(
      su: Suite<P>, m: ElectionManifest, seen: set<bytes>, sub: Submission, answer: Outcome,
      powHash: (Block, nat) -> bytes, chainHash: seq<Block> -> string)
    requires SuiteOk(su) && Answers(su, m, seen, sub, answer)
    ensures answer.Accepted? ==> TaskValid(RulesOf(su, m, powHash, chainHash), answer.task) && answer.task.keyImage !in seen
    ensures answer.Accepted? <==>
            && sub.electionId == m.electionId && sub.signature.Some?
            && Decode(su.grp, RUST_CAP, sub.signature.value).Ok?
            && var task := TaskOf(sub, Decode(su.grp, RUST_CAP, sub.signature.value).value.keyImage);
               TaskValid(RulesOf(su, m, powHash, chainHash), task) && task.keyImage !in seen
  {
    hide SuiteOk, Decode, RustAccepts, EncodeMessage;
  }

  /** The answers exclude one another, so the checks have one outcome. */
  lemma OneAnswer<P(!new)>(su: Suite<P>, m: ElectionManifest, seen: set<bytes>, sub: Submission, a: Outcome, b: Outcome)
    requires SuiteOk(su) && Answers(su, m, seen, sub, a) && Answers(su, m, seen, sub, b)
    ensures a == b
  {
    hide SuiteOk, Decode, RustAccepts, EncodeMessage, BallotOk;
  }

  // ---- Ballots a voter signs ----

  /** The submission a voter's client makes from a signature. */
  function CastFor(params: Params, ringId: string, candidateId: string, sig: RingSignature): Submission {
    Submission(params.electionId, ringId, candidateId, Some(Serialized(sig)))
  }

  /** The signer signed for this election, this ring of the manifest and this candidate. */
  predicate SignsFor(params: Params, m: ElectionManifest, ringId: string, candidateId: string) {
    && params.electionId == m.electionId && ringId in m.rings && candidateId in m.candidateIds
    && params.ring == m.rings[ringId].publicKeys
    && params.message == EncodeMessage(m.electionId, ringId, candidateId)
  }

  /**
   * A ballot the client signs for a ring and candidate of the manifest is accepted unless the draw
   * was degenerate or its key image is already recorded.
   */
  lemma SignedBallotAccepted<P(!new)>(
      su: Suite<P>, m: ElectionManifest, seen: set<bytes>, params: Params, random: seq<bytes>, sig: RingSignature,
      ringId: string, candidateId: string, answer: Outcome)
    requires SuiteOk(su) && CanSign(su, params) && Signed(su, params, random, sig)
    requires SignsFor(params, m, ringId, candidateId) && |params.ring| <= RUST_CAP
    requires Image(su, params) != su.grp.zero
    requires Answers(su, m, seen, CastFor(params, ringId, candidateId, sig), answer)
    ensures |sig.s| == |params.ring|
    ensures var closes := NoIdentityStep(su, SigningWalk(su, params), Values(sig.s), LeToNat(sig.c0));
            && (answer.Accepted? <==> closes && sig.keyImage !in seen)
            && (answer.DoubleVote? <==> closes && sig.keyImage in seen)
            && (answer.InvalidSignature? <==> !closes)
  {
    hide SuiteOk, CanSign, Signed, Decode, RustAccepts, EncodeMessage, Serialized, NoIdentityStep, SigningWalk, Image, LeToNat;
    RustAcceptsSigned(su, params, random, sig);
  }
}
