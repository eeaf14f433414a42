/**
 * The voter's device and the ledger node see the same ring: what `redeemForRing` returns
 * (api/src/services/ballotAccess.service.ts) against what a node loads from the exported manifest.
 */
module Agreement {
  import opened Bytes
  import opened Wrappers
  import opened Groups
  import opened Transcripts
  import opened Wire
  import opened Lsag
  import opened Signing
  import opened Manifests
  import opened Lifecycle
  import opened Elections
  import opened ElectionSafety
  import opened ElectionRuns
  import opened Ballots

  // ---- Redeeming a credential ----

  datatype Retrieved = Retrieved(ringId: string, publicKeys: seq<bytes>)

  datatype RedeemRefusal = LinkNotValid | VotingNotOpen | NotPlaced | NotPublished

  function KeysOf(ring: RingRow): seq<bytes> {
    RawRingOf(ring).publicKeys
  }

  /** `redeemForRing`. */
  function RedeemForRing(db: Db, id: string, voter: nat, now: nat): Result<Retrieved, RedeemRefusal> {
    if id !in db.elections then Err(LinkNotValid)
    else
      var e := db.elections[id];
      if voter !in e.tokens || e.tokens[voter].expiresAt <= now then Err(LinkNotValid)
      else if e.status != VotingOpen then Err(VotingNotOpen)
      else match FindRing(e.rings, voter)
        case None => Err(NotPlaced)
        case Some(k) =>
          FindRingFinds(e.rings, voter);
          if e.rings[k].published.None? then Err(NotPublished)
          else Ok(Retrieved(e.rings[k].id, KeysOf(e.rings[k])))
  }

  lemma {:induction false} FindRingFinds(rings: seq<RingRow>, voter: nat)
    ensures var r := FindRing(rings, voter);
            && (r.Some? ==> r.value < |rings| && exists p: nat :: HasAt(rings, r.value, p, voter))
            && (r.None? ==> forall k: nat, p: nat :: !HasAt(rings, k, p, voter))
    decreases |rings|
  {
    if rings != [] {
      var n := |rings| - 1;
      FindRingFinds(rings[..n], voter);
      if voter in VotersIn(rings[n].members) {
        var p :| 0 <= p < |rings[n].members| && rings[n].members[p].voter == voter;
        assert HasAt(rings, n, p, voter);
      } else {
        var r := FindRing(rings[..n], voter);
        if r.Some? {
          var p: nat :| HasAt(rings[..n], r.value, p, voter);
          assert HasAt(rings, r.value, p, voter);
        } else {
          forall k: nat, p: nat ensures !HasAt(rings, k, p, voter) {
            assert !HasAt(rings[..n], k, p, voter);
          }
        }
      }
    }
  }

  lemma ReachedOk(env: Env, calls: seq<Call>, id: string)
    requires id in Run(env, EMPTY, calls).elections
    ensures var db := Run(env, EMPTY, calls);
            !Blank(id) && ElectionOk(env, db.voters.Keys, id, db.elections[id])
  {
    hide VotersOk, ClaimsOk, ElectionOk, Blank, Run;
    EmptyOk(env);
    RunKeeps(env, EMPTY, calls);
  }

  /** The voter holds a credential for this election that has not expired. */
  predicate Live(db: Db, id: string, voter: nat, now: nat) {
    id in db.elections && voter in db.elections[id].tokens && now < db.elections[id].tokens[voter].expiresAt
  }

  /**
   * In every reachable state a credential is served exactly while it lives and voting is open, and then
   * yields the published ring that holds its voter, at the voter's place with the key copied there; a
   * live one is told that voting is not open exactly when it is not, every other is refused alike, and
   * the two refusals about missing or unpublished groups never happen.
   */
  lemma RedeemFindsRing(env: Env, calls: seq<Call>, id: string, voter: nat, now: nat)
    ensures var db := Run(env, EMPTY, calls);
            var r := RedeemForRing(db, id, voter, now);
            && (r.Ok? <==> Live(db, id, voter, now) && db.elections[id].status == VotingOpen)
            && (r == Err(VotingNotOpen) <==> Live(db, id, voter, now) && db.elections[id].status != VotingOpen)
            && (r == Err(LinkNotValid) <==> !Live(db, id, voter, now))
            && (r.Ok? ==> exists k: nat, p: nat ::
                  && HasAt(db.elections[id].rings, k, p, voter)
                  && r.value == Retrieved(db.elections[id].rings[k].id, KeysOf(db.elections[id].rings[k]))
                  && p < |r.value.publicKeys| && r.value.publicKeys[p] == db.elections[id].rings[k].members[p].key)
  {
    hide CandidatesFit, PublicationFits, RingIdsFit, Run, CoversExactly, Blank, FindRing;
    var db := Run(env, EMPTY, calls);
    if id in db.elections && voter in db.elections[id].tokens && db.elections[id].status == VotingOpen {
      ReachedOk(env, calls, id);
      var e := db.elections[id];
      CoverIsUnique(env, e.rings, e.roll, voter);
      FindRingFinds(e.rings, voter);
    }
  }

  /** Serving a credential marks it as used and changes nothing else; a refusal changes nothing at all. */
  lemma RedeemStamps(env: Env, calls: seq<Call>, id: string, voter: nat, now: nat)
    ensures var db := Run(env, EMPTY, calls);
            var db' := Elections.Step(env, db, Redeem(id, voter, now));
            if RedeemForRing(db, id, voter, now).Ok? then
              var e := db.elections[id];
              db' == db.(elections := db.elections[id := e.(tokens := e.tokens[voter := Token(e.tokens[voter].expiresAt, true)])])
            else db' == db
  {
    hide Run, FindRing, RedeemForRing, SubmitRegistrationIn, ApproveIn, RejectIn, RequestRotationIn, ReviewRotationIn, CreateElectionIn;
    RedeemFindsRing(env, calls, id, voter, now);
  }

  // ---- The node's side ----

  /** The server's key check is the node's. */
  ghost predicate SameKeyCheck<P(!new)>(env: Env, grp: Group<P>) {
    forall key: bytes :: env.keyOk(key) <==> KeyOk(grp, key)
  }

  lemma RingLoads<P(!new)>(env: Env, grp: Group<P>, rings: seq<RingRow>, roll: set<nat>, k: nat)
    requires SameKeyCheck(env, grp) && RingIdsFit(rings) && CoversExactly(env, MembersOf(rings), roll)
    requires k < |rings| && |rings[k].members| > 0
    ensures RingOk(grp, RawRingOf(rings[k]))
  {
    hide Blank, KeyOk, MembersOf, Start;
    var raw, members := RawRingOf(rings[k]), MembersOf(rings);
    forall p: nat | p < |raw.publicKeys| ensures KeyOk(grp, raw.publicKeys[p]) {
      RowAt(rings, k, p);
      assert env.keyOk(members[Start(rings, k) + p].key);
    }
    forall p: nat, r: nat | p < r < |raw.publicKeys| ensures raw.publicKeys[p] != raw.publicKeys[r] {
      RowAt(rings, k, p);
      RowAt(rings, k, r);
    }
  }

  lemma CandidatesLoad(e: Election, raw: RawManifest)
    requires CandidatesFit(e.candidates) && |e.candidates| >= 2 && raw.candidates == CandidateRows(e.candidates)
    ensures CandidatesOk(raw) && raw.candidates != []
    ensures CandidateIds(raw) == e.candidates.Keys
  {
    hide Blank, InOrder, CandidateRows;
    var order := InOrder(e.candidates, e.candidates.Keys);
    OrderCovers(e.candidates, e.candidates.Keys);
    RowIds(e.candidates);
    assert |e.candidates.Keys| == |e.candidates|;
    forall i | 0 <= i < |raw.candidates| ensures raw.candidates[i].candidateId in e.candidates {
      assert order[i] in order;
    }
    forall c | c in e.candidates ensures c in CandidateIds(raw) {
      assert c in order;
      var i :| 0 <= i < |order| && order[i] == c;
      assert raw.candidates[i].candidateId == c;
    }
  }

  lemma RowIds(cands: map<string, Candidate>)
    ensures var rows, order := CandidateRows(cands), InOrder(cands, cands.Keys);
            |rows| == |order| && forall i :: 0 <= i < |rows| ==> rows[i].candidateId == order[i]
  {
    hide InOrder;
    OrderCovers(cands, cands.Keys);
    var order := InOrder(cands, cands.Keys);
    assert forall i :: 0 <= i < |order| ==> order[i] in order;
  }

  /** Whatever is exported loads: no run of calls produces a manifest the node refuses. */
  lemma ExportLoads<P(!new)>(env: Env, grp: Group<P>, calls: seq<Call>, id: string, superAdmin: bool)
    requires EnvOk(env) && SameKeyCheck(env, grp)
    requires Exported(env, Run(env, EMPTY, calls), id, superAdmin).Some?
    ensures Loadable(grp, Exported(env, Run(env, EMPTY, calls), id, superAdmin).value)
  {
    hide CandidatesFit, PublicationFits, Run, CoversExactly, Blank, SameKeyCheck, RingOk, CandidatesOk, ExportIn;
    var db := Run(env, EMPTY, calls);
    EmptyOk(env);
    RunKeeps(env, EMPTY, calls);
    ExportFixes(env, db, id, superAdmin);
    ReachedOk(env, calls, id);
    ManifestLoads(env, grp, db.voters.Keys, id, db.elections[id]);
  }

  lemma ManifestLoads<P(!new)>(env: Env, grp: Group<P>, voterIds: set<nat>, id: string, e: Election)
    requires EnvOk(env) && SameKeyCheck(env, grp) && !Blank(id)
    requires ElectionOk(env, voterIds, id, e) && Frozen(e.status) && e.rings != []
    ensures Loadable(grp, ManifestOf(env, id, e))
  {
    hide CandidatesFit, PublicationFits, CoversExactly, Blank, SameKeyCheck, RingOk, CandidatesOk, CandidateRows, DateText;
    var raw := ManifestOf(env, id, e);
    CandidatesLoad(e, raw);
    forall k | 0 <= k < |raw.rings| ensures RingOk(grp, raw.rings[k]) {
      RingLoads(env, grp, e.rings, e.roll, k);
    }
  }

  /**
   * Voter and node agree: the ring the server hands a voter is, key for key and in order, the ring
   * every node holds that loaded this election's manifest.
   */
  lemma VoterAndNodeAgree<P(!new)>(
      env: Env, grp: Group<P>, calls: seq<Call>, id: string, voter: nat, now: nat, m: ElectionManifest)
    requires EnvOk(env) && SameKeyCheck(env, grp)
    requires RedeemForRing(Run(env, EMPTY, calls), id, voter, now).Ok?
    requires Loads(ManifestOf(env, id, Run(env, EMPTY, calls).elections[id]), m)
    ensures var r := RedeemForRing(Run(env, EMPTY, calls), id, voter, now).value;
            && m.electionId == id && r.ringId in m.rings && m.rings[r.ringId].publicKeys == r.publicKeys
            && m.candidateIds == Run(env, EMPTY, calls).elections[id].candidates.Keys
    ensures Loadable(grp, ManifestOf(env, id, Run(env, EMPTY, calls).elections[id]))
  {
    hide CandidatesFit, PublicationFits, Run, CoversExactly, Blank, SameKeyCheck, RingOk, CandidatesOk, RedeemForRing, RingIdsFit, CandidateRows;
    var db := Run(env, EMPTY, calls);
    RedeemOpen(db, id, voter, now);
    ReachedOk(env, calls, id);
    var e := db.elections[id];
    ManifestLoads(env, grp, db.voters.Keys, id, e);
    RedeemFindsRing(env, calls, id, voter, now);
    var k: nat, p: nat :| HasAt(e.rings, k, p, voter)
      && RedeemForRing(db, id, voter, now).value == Retrieved(e.rings[k].id, KeysOf(e.rings[k]));
    var raw := ManifestOf(env, id, e);
    assert raw.rings[k].ringId == e.rings[k].id;
    CandidatesLoad(e, raw);
  }

  lemma RedeemOpen(db: Db, id: string, voter: nat, now: nat)
    requires RedeemForRing(db, id, voter, now).Ok?
    ensures id in db.elections && db.elections[id].status == VotingOpen && voter in db.elections[id].tokens
  {
  }

  // ---- Counting the electorate ----

  lemma {:induction false} RowsCount(rings: seq<RingRow>, raw: RawManifest, i: nat)
    requires i <= |rings| && raw.rings == RingRows(rings)
    ensures KeysUpTo(raw, i) == |MembersOf(rings[..i])|
    decreases i
  {
    if i > 0 {
      RowsCount(rings, raw, i - 1);
      assert rings[..i][..i - 1] == rings[..i - 1];
    }
  }

  lemma {:induction false} DistinctVoters(members: seq<Member>)
    requires SeparateMembers(members)
    ensures |VotersIn(members)| == |members|
    decreases |members|
  {
    if members != [] {
      var n := |members| - 1;
      DistinctVoters(members[..n]);
      assert forall i :: 0 <= i < n ==> members[..n][i] == members[i];
      assert VotersIn(members) == VotersIn(members[..n]) + {members[n].voter};
    }
  }

  /** A node that loaded the manifest counts as many public keys as there are voters on the roll. */
  lemma NodeCountsTheRoll<P(!new)>(env: Env, grp: Group<P>, voterIds: set<nat>, id: string, e: Election, m: ElectionManifest)
    requires EnvOk(env) && SameKeyCheck(env, grp) && !Blank(id)
    requires ElectionOk(env, voterIds, id, e) && Frozen(e.status) && e.rings != []
    requires Loads(ManifestOf(env, id, e), m)
    ensures VoterCount(m) == |e.roll|
  {
    hide CandidatesFit, PublicationFits, Blank, SameKeyCheck, RingIdsFit, CandidateRows, Loadable, Loads, KeysUpTo, MembersOf, VotersIn;
    ManifestLoads(env, grp, voterIds, id, e);
    var raw := ManifestOf(env, id, e);
    VoterCountIsListed(grp, raw, m);
    RowsCount(e.rings, raw, |e.rings|);
    assert e.rings[..|e.rings|] == e.rings;
    DistinctVoters(MembersOf(e.rings));
  }

  // ---- From credential to accepted ballot ----

  /** Group sizes are capped where an election is configured, so every ring fits the node's own cap. */
  lemma RedeemedRingIsSmall(env: Env, calls: seq<Call>, id: string, voter: nat, now: nat)
    requires RedeemForRing(Run(env, EMPTY, calls), id, voter, now).Ok?
    ensures |RedeemForRing(Run(env, EMPTY, calls), id, voter, now).value.publicKeys| < 2 * RING_SIZE_MAX <= RUST_CAP
  {
    hide CandidatesFit, PublicationFits, RingIdsFit, Run, CoversExactly, Blank, RedeemForRing;
    var db := Run(env, EMPTY, calls);
    RedeemOpen(db, id, voter, now);
    ReachedOk(env, calls, id);
    RedeemFindsRing(env, calls, id, voter, now);
    assert NoneTwice(db.elections[id]);
  }

  /**
   * A voter who redeems a credential and signs with the private key behind their place in the ring
   * is accepted by every node that loaded the manifest, unless the draw was degenerate or their
   * ballot is already recorded.
   */
  lemma VoterIsAccepted<P(!new)>(
      su: Suite<P>, env: Env, calls: seq<Call>, id: string, voter: nat, now: nat, m: ElectionManifest,
      seen: set<bytes>, candidateId: string, params: Params, random: seq<bytes>, sig: RingSignature, answer: Outcome)
    requires SuiteOk(su) && EnvOk(env) && SameKeyCheck(env, su.grp)
    requires RedeemForRing(Run(env, EMPTY, calls), id, voter, now).Ok?
    requires Loads(ManifestOf(env, id, Run(env, EMPTY, calls).elections[id]), m)
    requires candidateId in Run(env, EMPTY, calls).elections[id].candidates
    requires var r := RedeemForRing(Run(env, EMPTY, calls), id, voter, now).value;
             && params.electionId == id && params.ring == r.publicKeys
             && params.message == EncodeMessage(id, r.ringId, candidateId)
             && CanSign(su, params) && Signed(su, params, random, sig) && Image(su, params) != su.grp.zero
             && Answers(su, m, seen, CastFor(params, r.ringId, candidateId, sig), answer)
    ensures |sig.s| == |params.ring|
    ensures var closes := NoIdentityStep(su, SigningWalk(su, params), Values(sig.s), LeToNat(sig.c0));
            && (answer.Accepted? <==> closes && sig.keyImage !in seen)
            && (answer.DoubleVote? <==> closes && sig.keyImage in seen)
            && (answer.InvalidSignature? <==> !closes)
  {
    hide SuiteOk, CanSign, Signed, Run, RedeemForRing, Loads, ManifestOf, Answers, EncodeMessage, SigningWalk, NoIdentityStep, Image, SameKeyCheck;
    VoterAndNodeAgree(env, su.grp, calls, id, voter, now, m);
    var r := RedeemForRing(Run(env, EMPTY, calls), id, voter, now).value;
    RedeemedRingIsSmall(env, calls, id, voter, now);
    SignedBallotAccepted(su, m, seen, params, random, sig, r.ringId, candidateId, answer);
  }
}
