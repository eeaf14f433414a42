/** What every run of service calls keeps. */
module ElectionSafety {
  import opened Bytes
  import opened Wrappers
  import opened Lifecycle
  import opened Manifests
  import opened RingFormation
  import opened Elections

  // ---- Invariants ----

  /** Keys on record are usable, and no two voters share one (the unique index). */
  ghost predicate VotersOk(env: Env, voters: map<nat, bytes>) {
    && (forall v :: v in voters ==> env.keyOk(voters[v]))
    && (forall v, w :: v in voters && w in voters && v != w ==> voters[v] != voters[w])
  }

  ghost predicate ClaimsOk(env: Env, db: Db) {
    && (forall r :: r in db.registrations ==> env.keyOk(db.registrations[r].key))
    && (forall q :: q in db.rotations ==> env.keyOk(db.rotations[q].newKey))
  }

  ghost predicate CandidatesFit(cands: map<string, Candidate>) {
    && (forall c :: c in cands ==> !Blank(c))
    && (forall c, d :: c in cands && d in cands && c != d ==> cands[c].position != cands[d].position)
  }

  /** The membership rows cover the roll exactly: every voter once, every key usable and held once. */
  ghost predicate CoversExactly(env: Env, members: seq<Member>, roll: set<nat>) {
    && VotersIn(members) == roll
    && (forall i, j :: 0 <= i < j < |members| ==> members[i].voter != members[j].voter && members[i].key != members[j].key)
    && (forall i :: 0 <= i < |members| ==> env.keyOk(members[i].key))
  }

  ghost predicate RingIdsFit(rings: seq<RingRow>) {
    && (forall k :: 0 <= k < |rings| ==> !Blank(rings[k].id) && rings[k].index == k)
    && (forall j, k :: 0 <= j < k < |rings| ==> rings[j].id != rings[k].id)
  }

  /** Whatever is published is published under the digest of this election's manifest. */
  ghost predicate PublicationFits(env: Env, id: string, e: Election) {
    forall k :: 0 <= k < |e.rings| && e.rings[k].published.Some? ==> e.rings[k].published == Some(env.digest(ManifestOf(env, id, e)))
  }

  /** Every group is smaller than two of the wanted size. */
  predicate NoneTwice(e: Election) {
    forall k :: 0 <= k < |e.rings| ==> |e.rings[k].members| < 2 * e.ringSize
  }

  ghost predicate FormedOk(env: Env, id: string, e: Election) {
    && e.ringSize >= env.ringMin && |e.roll| >= e.ringSize
    && NoneSmaller(e, e.ringSize) && NoneTwice(e)
    && RingIdsFit(e.rings)
    && CoversExactly(env, MembersOf(e.rings), e.roll)
    && PublicationFits(env, id, e)
  }

  ghost predicate StageOk(env: Env, e: Election) {
    && (!Frozen(e.status) ==> e.rings == [] && e.tokens == map[])
    && (Frozen(e.status) ==> |e.candidates| >= 2 && |e.roll| >= env.ringMin)
    && (Opened(e.status) ==> e.rings != [] && AllPublished(e))
  }

  ghost predicate ElectionOk(env: Env, voterIds: set<nat>, id: string, e: Election) {
    && 2 <= e.ringSize <= RING_SIZE_MAX
    && CandidatesFit(e.candidates)
    && e.roll <= voterIds
    && e.tokens.Keys <= e.roll
    && StageOk(env, e)
    && (e.rings != [] ==> FormedOk(env, id, e))
  }

  ghost predicate DbOk(env: Env, db: Db) {
    && VotersOk(env, db.voters)
    && ClaimsOk(env, db)
    && forall id :: id in db.elections ==> !Blank(id) && ElectionOk(env, db.voters.Keys, id, db.elections[id])
  }

  // ---- Forming groups ----

  lemma {:induction false} MembersOfJoined(rings: seq<RingRow>, groups: seq<seq<Member>>)
    requires |rings| == |groups| && forall k :: 0 <= k < |rings| ==> rings[k].members == groups[k]
    ensures MembersOf(rings) == Joined(groups)
    decreases |rings|
  {
    if rings != [] {
      MembersOfJoined(rings[..|rings| - 1], groups[..|groups| - 1]);
    }
  }

  ghost predicate SeparateMembers(members: seq<Member>) {
    forall i, j :: 0 <= i < j < |members| ==> members[i].voter != members[j].voter && members[i].key != members[j].key
  }

  /** A reordering of members that share no voter and no key shares none either. */
  lemma ReorderedSeparate(a: seq<Member>, b: seq<Member>)
    requires multiset(a) == multiset(b) && SeparateMembers(a)
    ensures SeparateMembers(b)
  {
    forall i, j | 0 <= i < j < |b| ensures b[i].voter != b[j].voter && b[i].key != b[j].key {
      ElementOf(a, b, i);
      ElementOf(a, b, j);
      if b[i] == b[j] {
        TwiceIn(b, i, j);
        OnceIn(a, b[i]);
      } else {
        var x :| 0 <= x < |a| && a[x] == b[i];
        var y :| 0 <= y < |a| && a[y] == b[j];
        assert x != y;
        assert a[if x < y then x else y].voter != a[if x < y then y else x].voter;
      }
    }
  }

  lemma ElementOf(a: seq<Member>, b: seq<Member>, i: nat)
    requires multiset(a) == multiset(b) && i < |b|
    ensures b[i] in a
  {
    assert b[i] in multiset(b);
  }

  lemma TwiceIn(b: seq<Member>, i: nat, j: nat)
    requires i < j < |b| && b[i] == b[j]
    ensures multiset(b)[b[i]] >= 2
  {
    assert b == b[..j] + [b[j]] + b[j + 1..];
    assert b[i] in multiset(b[..j]);
    assert multiset(b) == multiset(b[..j]) + multiset([b[j]]) + multiset(b[j + 1..]);
  }

  lemma OnceIn(a: seq<Member>, m: Member)
    requires SeparateMembers(a)
    ensures multiset(a)[m] <= 1
  {
    if m in a {
      var x :| 0 <= x < |a| && a[x] == m;
      assert a == a[..x] + [a[x]] + a[x + 1..];
      assert m !in a[..x] && m !in a[x + 1..];
      assert multiset(a) == multiset(a[..x]) + multiset([a[x]]) + multiset(a[x + 1..]);
    }
  }

  lemma ElectorateSeparate(env: Env, voters: map<nat, bytes>, roll: set<nat>)
    requires roll <= voters.Keys && VotersOk(env, voters)
    ensures CoversExactly(env, Electorate(voters, roll), roll)
  {
    ListingCovers(roll);
    var listed, members := Listing(roll), Electorate(voters, roll);
    assert forall i :: 0 <= i < |listed| ==> listed[i] in listed;
    assert forall i :: 0 <= i < |members| ==> members[i] == Member(listed[i], voters[listed[i]]);
    forall v | v in roll ensures v in VotersIn(members) {
      var i :| 0 <= i < |listed| && listed[i] == v;
      assert members[i].voter == v;
    }
  }

  lemma CoverReordered(env: Env, a: seq<Member>, b: seq<Member>, roll: set<nat>)
    requires multiset(a) == multiset(b) && CoversExactly(env, a, roll)
    ensures CoversExactly(env, b, roll)
  {
    ReorderedSeparate(a, b);
    forall i | 0 <= i < |b| ensures b[i].voter in roll && env.keyOk(b[i].key) {
      ElementOf(a, b, i);
      var x :| 0 <= x < |a| && a[x] == b[i];
    }
    forall v | v in roll ensures v in VotersIn(b) {
      var x :| 0 <= x < |a| && a[x].voter == v;
      ElementOf(b, a, x);
      var i :| 0 <= i < |b| && b[i] == a[x];
      assert b[i].voter == v;
    }
  }

  /** Newly formed groups cover the roll exactly, with the keys the voters hold at that moment. */
  lemma FormedCovers(env: Env, voters: map<nat, bytes>, id: string, e: Election, ringIds: seq<string>, draws: seq<nat>)
    requires VotersOk(env, voters) && e.roll <= voters.Keys
    requires FormRingsIn(env, voters, e, ringIds, draws).Ok?
    ensures var e' := FormRingsIn(env, voters, e, ringIds, draws).value;
            e'.rings != [] && FormedOk(env, id, e')
  {
    hide CoversExactly, VotersOk, Blank, Grouped, ManifestOf, Draws, SizeAt;
    var items := Electorate(voters, e.roll);
    var groups := Grouped(items, draws, e.ringSize);
    var rings := NewRings(groups, ringIds);
    GroupsCover(items, draws, e.ringSize);
    MembersOfJoined(rings, groups);
    ElectorateSeparate(env, voters, e.roll);
    CoverReordered(env, items, Joined(groups), e.roll);
  }

  // ---- Calls on one election keep its invariant ----

  lemma MoreVoters(env: Env, few: set<nat>, many: set<nat>, id: string, e: Election)
    requires ElectionOk(env, few, id, e) && few <= many
    ensures ElectionOk(env, many, id, e)
  {
    hide CandidatesFit, StageOk, FormedOk;
  }

  /** Before groups freeze only size, candidates and roll matter. */
  lemma UnfrozenOk(env: Env, voterIds: set<nat>, id: string, e: Election, e': Election)
    requires ElectionOk(env, voterIds, id, e) && !Frozen(e.status)
    requires e'.status == e.status && e'.rings == e.rings && e'.tokens == e.tokens
    requires 2 <= e'.ringSize <= RING_SIZE_MAX && CandidatesFit(e'.candidates) && e'.roll <= voterIds
    ensures ElectionOk(env, voterIds, id, e')
  {
    hide CandidatesFit, FormedOk;
  }

  lemma RollCallKeeps(env: Env, db: Db, id: string, e: Election, call: Call)
    requires ElectionOk(env, db.voters.Keys, id, e)
    requires call.UpdateMetadata? || call.SetEligibility? || call.TransferOntoRoll? || call.RemoveFromRoll?
    requires ElectionCall(env, db, call, e).Ok?
    ensures ElectionOk(env, db.voters.Keys, id, ElectionCall(env, db, call, e).value)
    ensures !Frozen(e.status)
  {
    hide CandidatesFit, FormedOk, WindowOk, FindRing, StageOk, VotersIn, MembersOf, GivenWindowOk;
    var e' := ElectionCall(env, db, call, e).value;
    if call.TransferOntoRoll? {
      TransferEnrols(db.voters, e, call.voters);
    }
    UnfrozenOk(env, db.voters.Keys, id, e, e');
  }

  lemma TransferEnrols(voters: map<nat, bytes>, e: Election, ids: seq<nat>)
    requires e.roll <= voters.Keys && TransferIn(voters, e, ids).Ok?
    ensures TransferIn(voters, e, ids).value.roll <= voters.Keys
  {
    forall v | v in TransferIn(voters, e, ids).value.roll ensures v in voters {
    }
  }

  lemma CandidateCallKeeps(env: Env, db: Db, id: string, e: Election, call: Call)
    requires ElectionOk(env, db.voters.Keys, id, e)
    requires call.AddCandidate? || call.EditCandidate? || call.RemoveCandidate?
    requires ElectionCall(env, db, call, e).Ok?
    ensures ElectionOk(env, db.voters.Keys, id, ElectionCall(env, db, call, e).value)
    ensures !Frozen(e.status)
  {
    hide FormedOk, Blank, NextPosition, StageOk, CandidatesFit, PositionFree;
    var e' := ElectionCall(env, db, call, e).value;
    if call.RemoveCandidate? {
      OneFewer(e.candidates, call.candidate);
    } else {
      OnePlaced(e.candidates, call.candidate, e'.candidates[call.candidate]);
    }
    UnfrozenOk(env, db.voters.Keys, id, e, e');
  }

  lemma OnePlaced(cands: map<string, Candidate>, candidate: string, c: Candidate)
    requires CandidatesFit(cands) && PositionFree(cands, candidate, c.position)
    requires candidate in cands || !Blank(candidate)
    ensures CandidatesFit(cands[candidate := c])
  {
    hide Blank;
  }

  lemma OneFewer(cands: map<string, Candidate>, candidate: string)
    requires CandidatesFit(cands)
    ensures CandidatesFit(cands - {candidate})
  {
    hide Blank;
  }

  lemma {:induction false} PassFits(cands: map<string, Candidate>, order: seq<string>, offset: nat, k: nat)
    requires k <= |order| && forall i :: 0 <= i < |order| ==> order[i] in cands
    requires CandidatesFit(cands)
    ensures Pass(cands, order, offset, k).Some? ==> CandidatesFit(Pass(cands, order, offset, k).value)
    decreases |order| - k
  {
    hide Blank;
    if k < |order| && PositionFree(cands, order[k], offset + k + 1) {
      PassFits(cands[order[k] := cands[order[k]].(position := offset + k + 1)], order, offset, k + 1);
    }
  }

  lemma ReorderKeeps(env: Env, db: Db, id: string, e: Election, order: seq<string>)
    requires ElectionOk(env, db.voters.Keys, id, e) && ReorderIn(e, order).Ok?
    ensures ElectionOk(env, db.voters.Keys, id, ReorderIn(e, order).value)
    ensures !Frozen(e.status)
  {
    hide FormedOk, CandidatesFit, PositionFree;
    PassFits(e.candidates, order, REORDER_OFFSET, 0);
    PassKeepsIds(e.candidates, order, REORDER_OFFSET, 0);
    PassFits(Pass(e.candidates, order, REORDER_OFFSET, 0).value, order, 0, 0);
  }

  lemma TransitionKeeps(env: Env, db: Db, id: string, e: Election, to: Status, superAdmin: bool)
    requires ElectionOk(env, db.voters.Keys, id, e) && TransitionIn(env, db, e, to, superAdmin).Ok?
    ensures ElectionOk(env, db.voters.Keys, id, TransitionIn(env, db, e, to, superAdmin).value)
    ensures Stage(e.status) < Stage(to)
  {
    hide CandidatesFit, CoversExactly, RingIdsFit, Unassigned, NoPending;
    TransitionsGoOn(e.status, to);
    SameManifest(env, id, e, e.(status := to));
  }

  /** The manifest depends on nothing but title, window, group size, candidates and memberships. */
  lemma SameManifest(env: Env, id: string, e: Election, e': Election)
    requires e'.title == e.title && e'.opens == e.opens && e'.closes == e.closes && e'.ringSize == e.ringSize
    requires e'.candidates == e.candidates && |e'.rings| == |e.rings|
    requires forall k :: 0 <= k < |e.rings| ==>
               e'.rings[k].id == e.rings[k].id && e'.rings[k].index == e.rings[k].index && e'.rings[k].members == e.rings[k].members
    ensures ManifestOf(env, id, e') == ManifestOf(env, id, e)
    ensures MembersOf(e'.rings) == MembersOf(e.rings)
  {
    assert forall k :: 0 <= k < |e.rings| ==> RawRingOf(e'.rings[k]) == RawRingOf(e.rings[k]);
    assert RingRows(e'.rings) == RingRows(e.rings);
    var groups := seq(|e.rings|, k requires 0 <= k < |e.rings| => e.rings[k].members);
    MembersOfJoined(e.rings, groups);
    MembersOfJoined(e'.rings, groups);
  }

  lemma ExportKeeps(env: Env, db: Db, id: string, e: Election, superAdmin: bool)
    requires ElectionOk(env, db.voters.Keys, id, e) && ExportIn(env, db, id, e, superAdmin).Ok?
    ensures var e' := ExportIn(env, db, id, e, superAdmin).value;
            && ElectionOk(env, db.voters.Keys, id, e')
            && e'.rings != [] && AllPublished(e') && e'.status == e.status
            && ManifestOf(env, id, e') == ManifestOf(env, id, e)
            && forall k :: 0 <= k < |e'.rings| ==> e'.rings[k].published == Some(env.digest(ManifestOf(env, id, e)))
  {
    hide CandidatesFit, CoversExactly, Unassigned, NoPending, ManifestOf, MembersOf, Blank;
    SameManifest(env, id, e, ExportIn(env, db, id, e, superAdmin).value);
  }

  lemma TokensOk(env: Env, voterIds: set<nat>, id: string, e: Election, tokens: map<nat, Token>)
    requires ElectionOk(env, voterIds, id, e) && Frozen(e.status) && tokens.Keys <= e.roll
    ensures ElectionOk(env, voterIds, id, e.(tokens := tokens))
  {
    hide CandidatesFit, CoversExactly, RingIdsFit, ManifestOf;
    SameManifest(env, id, e, e.(tokens := tokens));
  }

  lemma TokenCallKeeps(env: Env, db: Db, id: string, e: Election, call: Call)
    requires ElectionOk(env, db.voters.Keys, id, e) && (call.IssueTokens? || call.Redeem?)
    requires ElectionCall(env, db, call, e).Ok?
    ensures ElectionOk(env, db.voters.Keys, id, ElectionCall(env, db, call, e).value)
  {
    hide CandidatesFit, FormedOk, StageOk;
    TokensOk(env, db.voters.Keys, id, e, ElectionCall(env, db, call, e).value.tokens);
  }

  lemma FormKeeps(env: Env, db: Db, id: string, e: Election, ringIds: seq<string>, draws: seq<nat>)
    requires VotersOk(env, db.voters) && ElectionOk(env, db.voters.Keys, id, e)
    requires FormRingsIn(env, db.voters, e, ringIds, draws).Ok?
    ensures ElectionOk(env, db.voters.Keys, id, FormRingsIn(env, db.voters, e, ringIds, draws).value)
    ensures !SomePublished(e) && !Opened(e.status)
  {
    FormedCovers(env, db.voters, id, e, ringIds, draws);
    hide CandidatesFit, FormedOk, VotersOk, Electorate, Grouped;
  }

  lemma ElectionCallKeeps(env: Env, db: Db, call: Call)
    requires DbOk(env, db) && ElectionNamed(call).Some? && ElectionNamed(call).value in db.elections
    ensures var id := ElectionNamed(call).value;
            var r := ElectionCall(env, db, call, db.elections[id]);
            r.Ok? ==> ElectionOk(env, db.voters.Keys, id, r.value)
  {
    hide VotersOk, ClaimsOk, ElectionOk, Blank, UpdateMetadataIn, TransitionIn, SetEligibilityIn, TransferIn, RemoveIn, AddCandidateIn, EditCandidateIn, RemoveCandidateIn, ReorderIn, FormRingsIn, ExportIn, IssueIn, RedeemIn;
    var id := ElectionNamed(call).value;
    var e := db.elections[id];
    if ElectionCall(env, db, call, e).Ok? {
      match call
      case Transition(_, to, superAdmin) => TransitionKeeps(env, db, id, e, to, superAdmin);
      case AddCandidate(_, _, _, _, _) => CandidateCallKeeps(env, db, id, e, call);
      case EditCandidate(_, _, _, _, _) => CandidateCallKeeps(env, db, id, e, call);
      case RemoveCandidate(_, _) => CandidateCallKeeps(env, db, id, e, call);
      case Reorder(_, order) => ReorderKeeps(env, db, id, e, order);
      case FormRings(_, ringIds, draws) => FormKeeps(env, db, id, e, ringIds, draws);
      case ExportManifest(_, superAdmin) => ExportKeeps(env, db, id, e, superAdmin);
      case IssueTokens(_, _, _, _) => TokenCallKeeps(env, db, id, e, call);
      case Redeem(_, _, _) => TokenCallKeeps(env, db, id, e, call);
      case _ => RollCallKeeps(env, db, id, e, call);
    }
  }

  // ---- Calls on the database ----

  lemma RegistrationCallKeeps(env: Env, db: Db, call: Call)
    requires DbOk(env, db) && (call.SubmitRegistration? || call.Reject? || call.RequestRotation?)
    ensures DbOk(env, Step(env, db, call))
    ensures Step(env, db, call).elections == db.elections && Step(env, db, call).voters == db.voters
  {
    hide ElectionOk, Blank, RotationAllowed, KeyHeld, KeyClaimed, VotersOk;
  }

  lemma ReviewCallKeeps(env: Env, db: Db, call: Call)
    requires DbOk(env, db) && call.ReviewRotation?
    ensures DbOk(env, Step(env, db, call))
    ensures Step(env, db, call).elections == db.elections && Step(env, db, call).voters.Keys == db.voters.Keys
  {
    hide ElectionOk, Blank, RotationAllowed, KeyHeld, VotersOk;
    if call.rotation in db.rotations {
      var q := db.rotations[call.rotation];
      if q.voter in db.voters && !KeyHeld(db.voters - {q.voter}, q.newKey) {
        ReplaceKey(env, db.voters, q.voter, q.newKey);
      }
    }
    assert Step(env, db, call).voters.Keys == db.voters.Keys;
  }

  lemma PeopleCallKeeps(env: Env, db: Db, call: Call)
    requires DbOk(env, db)
    requires call.SubmitRegistration? || call.Reject? || call.RequestRotation? || call.ReviewRotation?
    ensures DbOk(env, Step(env, db, call))
    ensures Step(env, db, call).elections == db.elections && Step(env, db, call).voters.Keys == db.voters.Keys
  {
    hide DbOk, Step;
    if call.ReviewRotation? {
      ReviewCallKeeps(env, db, call);
    } else {
      RegistrationCallKeeps(env, db, call);
    }
  }

  lemma ReplaceKey(env: Env, voters: map<nat, bytes>, voter: nat, key: bytes)
    requires VotersOk(env, voters) && voter in voters && env.keyOk(key) && !KeyHeld(voters - {voter}, key)
    ensures VotersOk(env, voters[voter := key]) && voters[voter := key].Keys == voters.Keys
  {
    forall v | v in voters && v != voter ensures voters[v] != key {
      assert v in voters - {voter};
    }
  }

  lemma ApproveKeeps(env: Env, db: Db, reg: nat, voter: nat, rollOf: Option<string>)
    requires DbOk(env, db) && ApproveIn(db, reg, voter, rollOf).Ok?
    ensures DbOk(env, ApproveIn(db, reg, voter, rollOf).value)
  {
    hide ElectionOk, Blank;
    var db' := ApproveIn(db, reg, voter, rollOf).value;
    assert db'.voters.Keys == db.voters.Keys + {voter};
    forall id | id in db'.elections ensures !Blank(id) && ElectionOk(env, db'.voters.Keys, id, db'.elections[id]) {
      MoreVoters(env, db.voters.Keys, db'.voters.Keys, id, db.elections[id]);
      if rollOf == Some(id) {
        Enrol(env, db'.voters.Keys, id, db.elections[id], voter);
      }
    }
  }

  lemma Enrol(env: Env, voterIds: set<nat>, id: string, e: Election, voter: nat)
    requires ElectionOk(env, voterIds, id, e) && voter in voterIds && e.status in OperationStates(ReviewVoters)
    ensures ElectionOk(env, voterIds, id, e.(roll := e.roll + {voter}))
  {
    hide CandidatesFit, FormedOk;
  }

  lemma CreateKeeps(env: Env, db: Db, call: Call)
    requires DbOk(env, db) && call.CreateElection?
    ensures DbOk(env, Step(env, db, call))
  {
    hide Blank, VotersOk;
  }

  lemma StepKeeps(env: Env, db: Db, call: Call)
    requires DbOk(env, db)
    ensures DbOk(env, Step(env, db, call))
  {
    hide VotersOk, ClaimsOk, ElectionOk, Blank, ElectionCall, ApproveIn, SubmitRegistrationIn, RejectIn, RequestRotationIn, ReviewRotationIn;
    match call
    case CreateElection(_, _, _, _, _) => CreateKeeps(env, db, call);
    case Approve(reg, voter, rollOf) =>
      if ApproveIn(db, reg, voter, rollOf).Ok? {
        ApproveKeeps(env, db, reg, voter, rollOf);
      }
    case SubmitRegistration(_, _) => PeopleCallKeeps(env, db, call);
    case Reject(_) => PeopleCallKeeps(env, db, call);
    case RequestRotation(_, _, _) => PeopleCallKeeps(env, db, call);
    case ReviewRotation(_, _) => PeopleCallKeeps(env, db, call);
    case _ => ElectionStepKeeps(env, db, call);
  }

  /** A call that names an election changes that one, if it is there and the call succeeds, and nothing else. */
  lemma CallsElection(env: Env, db: Db, call: Call)
    requires ElectionNamed(call).Some?
    ensures var named := ElectionNamed(call).value;
            Step(env, db, call) ==
            if named in db.elections && ElectionCall(env, db, call, db.elections[named]).Ok? then
              db.(elections := db.elections[named := ElectionCall(env, db, call, db.elections[named]).value])
            else db
  {
    hide ElectionCall, SubmitRegistrationIn, ApproveIn, RejectIn, RequestRotationIn, ReviewRotationIn, CreateElectionIn;
  }

  lemma ElectionStepKeeps(env: Env, db: Db, call: Call)
    requires DbOk(env, db) && ElectionNamed(call).Some?
    ensures DbOk(env, Step(env, db, call))
  {
    hide VotersOk, ElectionOk, Blank, ElectionCall;
    var id := ElectionNamed(call).value;
    if id in db.elections {
      ElectionCallKeeps(env, db, call);
    }
  }

  lemma {:induction false} RunKeeps(env: Env, db: Db, calls: seq<Call>)
    requires DbOk(env, db)
    ensures DbOk(env, Run(env, db, calls))
    decreases |calls|
  {
    hide DbOk, Step;
    if calls != [] {
      StepKeeps(env, db, calls[0]);
      RunKeeps(env, Step(env, db, calls[0]), calls[1..]);
    }
  }

  lemma EmptyOk(env: Env)
    ensures DbOk(env, EMPTY)
  {
  }
}
