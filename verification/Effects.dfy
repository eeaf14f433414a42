/**
 * What each service call does: exactly when it succeeds, and what is different afterwards, in terms of
 * the tables before it.
 */
module Effects {
  import opened Bytes
  import opened Wrappers
  import opened Lifecycle
  import opened Manifests
  import opened RingFormation
  import opened Elections
  import opened ElectionSafety
  import opened ElectionRuns

  // ---- The voters in groups ----

  /** The voter has a place in some group. */
  ghost predicate Placed(e: Election, voter: nat) {
    exists k: nat, p: nat :: HasAt(e.rings, k, p, voter)
  }

  lemma PlacedMeans(e: Election, voter: nat)
    ensures Placed(e, voter) <==> voter in VotersIn(MembersOf(e.rings))
  {
    hide MembersOf, Start;
    var members := MembersOf(e.rings);
    if Placed(e, voter) {
      var k: nat, p: nat :| HasAt(e.rings, k, p, voter);
      RowAt(e.rings, k, p);
      assert members[Start(e.rings, k) + p].voter == voter;
    }
    if voter in VotersIn(members) {
      var i :| 0 <= i < |members| && members[i].voter == voter;
      var k, p := RowOf(e.rings, i);
      assert HasAt(e.rings, k, p, voter);
    }
  }

  lemma FoundMeans(rings: seq<RingRow>, voter: nat)
    ensures FindRing(rings, voter).Some? <==> voter in VotersIn(MembersOf(rings))
    decreases |rings|
  {
    if rings != [] {
      var n := |rings| - 1;
      FoundMeans(rings[..n], voter);
      var front, last := MembersOf(rings[..n]), rings[n].members;
      assert MembersOf(rings) == front + last;
      VotersJoin(front, last);
    }
  }

  lemma VotersJoin(a: seq<Member>, b: seq<Member>)
    ensures VotersIn(a + b) == VotersIn(a) + VotersIn(b)
  {
    forall v ensures v in VotersIn(a + b) <==> v in VotersIn(a) + VotersIn(b) {
      if v in VotersIn(a) {
        var i :| 0 <= i < |a| && a[i].voter == v;
        assert (a + b)[i].voter == v;
      }
      if v in VotersIn(b) {
        var i :| 0 <= i < |b| && b[i].voter == v;
        assert (a + b)[|a| + i].voter == v;
      }
    }
  }

  // ---- The roll ----

  /** One voter is put on the roll or taken off it; only a voter in no group is taken off. */
  lemma SetEligibilityMeans(voters: map<nat, bytes>, e: Election, voter: nat, eligible: bool)
    ensures var r := SetEligibilityIn(voters, e, voter, eligible);
            && (r.Ok? <==> e.status == RegistrationOpen && (if eligible then voter in voters else !Placed(e, voter)))
            && (r.Ok? ==>
                  && r.value == e.(roll := r.value.roll)
                  && forall v :: v in r.value.roll <==> if v == voter then eligible else v in e.roll)
  {
    hide VotersIn, MembersOf;
    PlacedMeans(e, voter);
    FoundMeans(e.rings, voter);
  }

  /** All the named voters are put on the roll, or none if one of them does not exist. */
  lemma TransferMeans(voters: map<nat, bytes>, e: Election, ids: seq<nat>)
    ensures var r := TransferIn(voters, e, ids);
            && (r.Ok? <==> e.status == RegistrationOpen && forall v :: v in ids ==> v in voters)
            && (r.Ok? ==>
                  && r.value == e.(roll := r.value.roll)
                  && forall v :: v in r.value.roll <==> v in e.roll || v in ids)
  {
  }

  /** The named voters leave the roll, except those in a group. */
  lemma RemoveMeans(e: Election, ids: seq<nat>)
    ensures var r := RemoveIn(e, ids);
            && (r.Ok? <==> e.status == RegistrationOpen)
            && (r.Ok? ==>
                  && r.value == e.(roll := r.value.roll)
                  && forall v :: v in r.value.roll <==> v in e.roll && (v in ids ==> Placed(e, v)))
  {
    hide VotersIn, MembersOf, Placed;
    forall v ensures Placed(e, v) <==> v in VotersIn(MembersOf(e.rings)) {
      PlacedMeans(e, v);
    }
  }

  // ---- People and keys ----

  predicate Used(voters: map<nat, bytes>, key: bytes) {
    exists v :: v in voters && voters[v] == key
  }

  /** A registration is filed exactly when its key is usable and neither claimed by a live registration nor held by a voter. */
  lemma SubmitMeans(env: Env, db: Db, reg: nat, key: bytes)
    requires reg !in db.registrations
    ensures var r := SubmitRegistrationIn(env, db, reg, key);
            && (r.Ok? <==>
                  && env.keyOk(key) && !Used(db.voters, key)
                  && forall g :: g in db.registrations && db.registrations[g].key == key ==> db.registrations[g].status == Rejected)
            && (r.Ok? ==> r.value == db.(registrations := db.registrations[reg := Registration(Pending, key, None)]))
  {
  }

  /**
   * Approval mints a voter with the registered key, exactly when the registration is pending, no voter
   * holds that key, and the roll named, if any, is open; the new voter goes on that roll and no other.
   */
  lemma ApproveMeans(db: Db, reg: nat, voter: nat, rollOf: Option<string>)
    requires voter !in db.voters
    ensures var r := ApproveIn(db, reg, voter, rollOf);
            && (r.Ok? <==>
                  && reg in db.registrations && db.registrations[reg].status == Pending
                  && !Used(db.voters, db.registrations[reg].key)
                  && (rollOf.Some? ==> rollOf.value in db.elections && db.elections[rollOf.value].status == RegistrationOpen))
            && (r.Ok? ==>
                  && r.value.voters == db.voters[voter := db.registrations[reg].key]
                  && r.value.registrations == db.registrations[reg := Registration(Approved, db.registrations[reg].key, Some(voter))]
                  && r.value.rotations == db.rotations && r.value.elections.Keys == db.elections.Keys
                  && forall id :: id in db.elections ==>
                       r.value.elections[id] ==
                       if rollOf == Some(id) then db.elections[id].(roll := db.elections[id].roll + {voter}) else db.elections[id])
  {
  }

  lemma RejectMeans(db: Db, reg: nat)
    ensures var r := RejectIn(db, reg);
            && (r.Ok? <==> reg in db.registrations && db.registrations[reg].status == Pending)
            && (r.Ok? ==>
                  r.value == db.(registrations := db.registrations[reg := Registration(Rejected, db.registrations[reg].key, db.registrations[reg].voter)]))
  {
  }

  /** Every enrolment of the voter is in an election whose groups are frozen, or that was cancelled. */
  ghost predicate AllFrozen(db: Db, voter: nat) {
    && (exists id :: id in db.elections && voter in db.elections[id].roll)
    && (forall id :: id in db.elections && voter in db.elections[id].roll ==>
          db.elections[id].status != Draft && db.elections[id].status != RegistrationOpen)
  }

  /**
   * A pending registration's key is corrected in place; an approved voter files a request, exactly when
   * the key is usable and free, some enrolment is still open if there is any, and none is waiting.
   */
  lemma RequestRotationMeans(env: Env, db: Db, rotation: nat, reg: nat, key: bytes)
    requires rotation !in db.rotations
    ensures var r := RequestRotationIn(env, db, rotation, reg, key);
            && (r.Ok? ==> reg in db.registrations)
            && (reg in db.registrations && db.registrations[reg].status == Rejected ==> r.Err?)
            && (reg in db.registrations && db.registrations[reg].status == Pending ==>
                  && (r.Ok? <==>
                        && env.keyOk(key) && !Used(db.voters, key)
                        && forall g :: g in db.registrations && db.registrations[g].key == key ==> db.registrations[g].status == Rejected)
                  && (r.Ok? ==> r.value == db.(registrations := db.registrations[reg := db.registrations[reg].(key := key)])))
            && (reg in db.registrations && db.registrations[reg].status == Approved ==>
                  var voter := db.registrations[reg].voter;
                  && (r.Ok? <==>
                        && env.keyOk(key) && voter.Some? && voter.value in db.voters
                        && !Used(db.voters, key) && !AllFrozen(db, voter.value)
                        && forall q :: q in db.rotations && db.rotations[q].voter == voter.value ==> db.rotations[q].status != Pending)
                  && (r.Ok? ==> r.value == db.(rotations := db.rotations[rotation := Rotation(voter.value, key, Pending)])))
  {
    RotationMeans(db);
  }

  lemma RotationMeans(db: Db)
    ensures forall v: nat :: RotationAllowed(db, v) <==> !AllFrozen(db, v)
  {
    forall v: nat ensures RotationAllowed(db, v) <==> !AllFrozen(db, v) {
      if !RotationAllowed(db, v) {
        var id :| id in db.elections && v in db.elections[id].roll;
      }
    }
  }

  /** Only approval of a pending request changes a voter's key, to the one requested, and only that voter's. */
  lemma ReviewRotationMeans(db: Db, rotation: nat, approve: bool)
    ensures var r := ReviewRotationIn(db, rotation, approve);
            && (r.Ok? <==>
                  && rotation in db.rotations && db.rotations[rotation].status == Pending
                  && var q := db.rotations[rotation];
                     && q.voter in db.voters
                     && (approve ==> !AllFrozen(db, q.voter)
                                     && forall v :: v in db.voters && v != q.voter ==> db.voters[v] != q.newKey))
            && (r.Ok? ==>
                  var q := db.rotations[rotation];
                  && r.value.elections == db.elections && r.value.registrations == db.registrations
                  && r.value.rotations == db.rotations[rotation := Rotation(q.voter, q.newKey, if approve then Approved else Rejected)]
                  && r.value.voters == if approve then db.voters[q.voter := q.newKey] else db.voters)
  {
    RotationMeans(db);
    if rotation in db.rotations && db.rotations[rotation].voter in db.voters {
      var q := db.rotations[rotation];
      assert forall v :: v in db.voters && v != q.voter <==> v in db.voters - {q.voter};
    }
  }

  // ---- The election itself ----

  predicate Later(opens: Option<nat>, closes: Option<nat>) {
    opens.Some? && closes.Some? ==> opens.value < closes.value
  }

  lemma CreateMeans(db: Db, id: string, title: string, opens: Option<nat>, closes: Option<nat>, ringSize: nat)
    requires !Blank(id) && id !in db.elections
    ensures var r := CreateElectionIn(db, id, title, opens, closes, ringSize);
            && (r.Ok? <==> 2 <= ringSize <= 1000 && Later(opens, closes))
            && (r.Ok? ==>
                  r.value == db.(elections := db.elections[id := Election(title, opens, closes, ringSize, Draft, map[], {}, [], map[])]))
  {
    hide Blank;
  }

  /** Metadata changes before groups freeze; what is not given stays, and the window that results stays in order. */
  lemma UpdateMeans(e: Election, title: Option<string>, opens: Option<Option<nat>>, closes: Option<Option<nat>>, ringSize: Option<nat>)
    requires 2 <= e.ringSize
    ensures var r := UpdateMetadataIn(e, title, opens, closes, ringSize);
            var opens' := if opens.Some? then opens.value else e.opens;
            var closes' := if closes.Some? then closes.value else e.closes;
            && (r.Ok? <==>
                  && (e.status == Draft || e.status == RegistrationOpen)
                  && (ringSize.Some? ==> 2 <= ringSize.value <= 1000) && Later(opens', closes'))
            && (r.Ok? ==>
                  && r.value.title == (if title.Some? then title.value else e.title)
                  && r.value.opens == opens' && r.value.closes == closes'
                  && r.value.ringSize == (if ringSize.Some? then ringSize.value else e.ringSize)
                  && r.value == e.(title := r.value.title, opens := opens', closes := closes', ringSize := r.value.ringSize))
  {
  }

  /** What must hold to freeze groups, and to open voting. */
  ghost predicate ReadyFor(env: Env, db: Db, e: Election, to: Status) {
    && (to == RingsFrozen ==>
          && |e.candidates| >= 2 && |e.roll| >= env.ringMin
          && forall g :: g in db.registrations ==> db.registrations[g].status != Pending)
    && (to == VotingOpen ==>
          && |e.candidates| >= 2 && e.roll != {} && e.rings != []
          && (forall k :: 0 <= k < |e.rings| ==> e.rings[k].published.Some? && |e.rings[k].members| >= env.ringMin)
          && forall v :: v in e.roll ==> Placed(e, v))
  }

  /**
   * A transition happens exactly when it is the next stage or an early cancellation, a super-admin asks
   * for it, and the election is ready; it changes the status and nothing else.
   */
  lemma TransitionMeans(env: Env, db: Db, e: Election, to: Status, superAdmin: bool)
    ensures var r := TransitionIn(env, db, e, to, superAdmin);
            && (r.Ok? <==> NextStage(e.status, to) && superAdmin && ReadyFor(env, db, e, to))
            && (r.Ok? ==> r.value == e.(status := to))
            && (r == Err(Forbidden) <==> NextStage(e.status, to) && !superAdmin)
  {
    hide VotersIn, MembersOf, Placed, AllowedTransitions, NextStage;
    TransitionsAre(e.status, to);
    forall v ensures Placed(e, v) <==> v in VotersIn(MembersOf(e.rings)) {
      PlacedMeans(e, v);
    }
    assert Unassigned(e) == {} <==> forall v :: v in e.roll ==> Placed(e, v) by {
      if forall v :: v in e.roll ==> Placed(e, v) {
        assert forall v :: v in e.roll ==> v !in Unassigned(e);
      }
      forall v | v in e.roll ensures Placed(e, v) <==> v !in Unassigned(e) {
      }
    }
  }

  // ---- Candidates ----

  predicate Editable(e: Election) {
    e.status == Draft || e.status == RegistrationOpen
  }

  /** No other candidate stands at this position. */
  ghost predicate Vacant(e: Election, candidate: string, position: nat) {
    forall c :: c in e.candidates && c != candidate ==> e.candidates[c].position != position
  }

  /** A candidate goes where asked if that is free, and otherwise after all the others. */
  lemma AddMeans(e: Election, candidate: string, name: string, affiliation: Option<string>, position: Option<nat>)
    requires candidate !in e.candidates && !Blank(candidate)
    ensures var r := AddCandidateIn(e, candidate, name, affiliation, position);
            && (r.Ok? <==> Editable(e) && (position.Some? ==> 1 <= position.value <= 999 && Vacant(e, candidate, position.value)))
            && (r.Ok? ==>
                  && candidate in r.value.candidates
                  && var c := r.value.candidates[candidate];
                     && c == Candidate(name, affiliation, c.position)
                     && (position.Some? ==> c.position == position.value)
                     && (position.None? ==> c.position >= 1 && forall d :: d in e.candidates ==> e.candidates[d].position < c.position)
                     && r.value == e.(candidates := e.candidates[candidate := c]))
  {
    hide Blank, NextPosition;
  }

  lemma EditMeans(e: Election, candidate: string, name: Option<string>, affiliation: Option<Option<string>>, position: Option<nat>)
    requires candidate in e.candidates ==> e.candidates[candidate].position >= 1 && Vacant(e, candidate, e.candidates[candidate].position)
    ensures var r := EditCandidateIn(e, candidate, name, affiliation, position);
            && (r.Ok? <==>
                  && candidate in e.candidates && Editable(e)
                  && (position.Some? ==> 1 <= position.value <= 999 && Vacant(e, candidate, position.value)))
            && (r.Ok? ==>
                  var c := e.candidates[candidate];
                  r.value == e.(candidates := e.candidates[candidate := Candidate(
                    if name.Some? then name.value else c.name,
                    if affiliation.Some? then affiliation.value else c.affiliation,
                    if position.Some? then position.value else c.position)]))
  {
  }

  lemma RemoveCandidateMeans(e: Election, candidate: string)
    ensures var r := RemoveCandidateIn(e, candidate);
            && (r.Ok? <==> candidate in e.candidates && Editable(e))
            && (r.Ok? ==>
                  && r.value == e.(candidates := r.value.candidates)
                  && candidate !in r.value.candidates
                  && (forall c :: c in e.candidates && c != candidate ==> c in r.value.candidates && r.value.candidates[c] == e.candidates[c])
                  && forall c :: c in r.value.candidates ==> c in e.candidates)
  {
  }

  // ---- Groups and credentials ----

  /**
   * Forming succeeds exactly in a frozen election with nothing published whose roll fills a group of a
   * permitted size; the groups have the given ids and their place as index, are unpublished, and each
   * member carries the key on the voter's record at that moment.
   */
  lemma FormMeans(env: Env, voters: map<nat, bytes>, e: Election, ringIds: seq<string>, draws: seq<nat>)
    requires e.roll <= voters.Keys && Draws(draws, |e.roll|) && RingIdsOk(ringIds)
    requires 0 < e.ringSize && |ringIds| == |e.roll| / e.ringSize
    ensures var r := FormRingsIn(env, voters, e, ringIds, draws);
            && (r.Ok? <==>
                  && e.status == RingsFrozen && (forall k :: 0 <= k < |e.rings| ==> e.rings[k].published.None?)
                  && env.ringMin <= e.ringSize <= |e.roll|)
            && (r.Ok? ==>
                  && r.value == e.(rings := r.value.rings) && |r.value.rings| == |ringIds|
                  && (forall k :: 0 <= k < |ringIds| ==>
                        && r.value.rings[k].id == ringIds[k] && r.value.rings[k].index == k && r.value.rings[k].published.None?
                        && |r.value.rings[k].members| == SizeAt(|e.roll|, e.ringSize, k))
                  && forall k, p :: 0 <= k < |r.value.rings| && 0 <= p < |r.value.rings[k].members| ==>
                       var m := r.value.rings[k].members[p]; m.voter in e.roll && m.key == voters[m.voter])
  {
    hide RingIdsOk, Draws, Electorate, Grouped, SizeAt;
    if e.ringSize <= |e.roll| {
      var items := Electorate(voters, e.roll);
      GroupsCover(items, draws, e.ringSize);
      GroupCount(items, draws, e.ringSize);
      var groups: seq<seq<Member>> := Grouped(items, draws, e.ringSize);
      forall k: nat, p: nat | k < |groups| && p < |groups[k]|
        ensures groups[k][p].voter in e.roll && groups[k][p].key == voters[groups[k][p].voter]
      {
        InJoined(groups, k, p);
        assert groups[k][p] in multiset(items);
        var i :| 0 <= i < |items| && items[i] == groups[k][p];
        ElectorateKeys(voters, e.roll, i);
      }
    }
  }

  lemma ElectorateKeys(voters: map<nat, bytes>, roll: set<nat>, i: nat)
    requires roll <= voters.Keys && i < |Electorate(voters, roll)|
    ensures var m := Electorate(voters, roll)[i]; m.voter in roll && m.key == voters[m.voter]
  {
    ListingCovers(roll);
    assert Listing(roll)[i] in Listing(roll);
  }

  lemma GroupCount<T(!new)>(items: seq<T>, draws: seq<nat>, target: nat)
    requires 0 < target <= |items| && Draws(draws, |items|)
    ensures |Grouped(items, draws, target)| == |items| / target
  {
    hide Sizes, Chunks, Shuffle, Draws, Sum;
    SizesCount(|items|, target);
    SizesCover(|items|, target);
    ChunksJoin(Shuffle(items, draws), Sizes(|items|, target));
  }

  lemma SizesCount(count: nat, target: nat)
    requires 0 < target <= count
    ensures |Sizes(count, target)| == count / target
  {
    hide SizeAt;
  }

  lemma {:induction false} InJoined<T(!new)>(groups: seq<seq<T>>, k: nat, p: nat)
    requires k < |groups| && p < |groups[k]|
    ensures groups[k][p] in multiset(Joined(groups))
    decreases |groups|
  {
    var n := |groups| - 1;
    if k < n {
      InJoined(groups[..n], k, p);
    }
  }

  /** An export succeeds for anyone once all is published, and before that for a super-admin when all is ready. */
  lemma ExportMeans(env: Env, db: Db, id: string, e: Election, superAdmin: bool)
    ensures var r := ExportIn(env, db, id, e, superAdmin);
            && (r.Ok? <==>
                  && Frozen(e.status) && e.rings != [] && e.candidates != map[]
                  && (|| (forall k :: 0 <= k < |e.rings| ==> e.rings[k].published.Some?)
                      || (&& superAdmin && |e.candidates| >= 2 && e.roll != {}
                          && (forall k :: 0 <= k < |e.rings| ==> |e.rings[k].members| >= env.ringMin)
                          && (forall v :: v in e.roll ==> Placed(e, v))
                          && forall g :: g in db.registrations ==> db.registrations[g].status != Pending)))
            && (r.Ok? ==>
                  && r.value == e.(rings := r.value.rings) && |r.value.rings| == |e.rings|
                  && forall k :: 0 <= k < |e.rings| ==>
                       r.value.rings[k] ==
                       if e.rings[k].published.Some? then e.rings[k]
                       else e.rings[k].(published := Some(env.digest(ManifestOf(env, id, e)))))
  {
    hide VotersIn, MembersOf, Placed, ManifestOf;
    forall v ensures Placed(e, v) <==> v in VotersIn(MembersOf(e.rings)) {
      PlacedMeans(e, v);
    }
    assert Unassigned(e) == {} <==> forall v :: v in e.roll ==> Placed(e, v) by {
      forall v | v in e.roll ensures Placed(e, v) <==> v !in Unassigned(e) {
      }
    }
    OperationsAre(e.status);
  }

  /** Issuing gives a credential to exactly those on the roll who have none, and changes no other. */
  lemma IssueMeans(e: Election, superAdmin: bool, now: nat, week: nat)
    ensures var r := IssueIn(e, superAdmin, now, week);
            var expiry := if e.closes.Some? then e.closes.value else now + week;
            && (r.Ok? <==>
                  && (e.status == RingsFrozen || e.status == VotingOpen) && superAdmin && e.roll != {}
                  && (expiry > now || forall v :: v in e.roll ==> v in e.tokens))
            && (r.Ok? ==>
                  && r.value == e.(tokens := r.value.tokens)
                  && (forall v :: v in r.value.tokens <==> v in e.roll || v in e.tokens)
                  && (forall v :: v in e.tokens ==> r.value.tokens[v] == e.tokens[v])
                  && forall v :: v in r.value.tokens && v !in e.tokens ==> r.value.tokens[v] == Token(expiry, false))
  {
    if forall v :: v in e.roll ==> v in e.tokens {
      assert e.roll - e.tokens.Keys == {};
    } else {
      var v :| v in e.roll && v !in e.tokens;
      assert v in e.roll - e.tokens.Keys;
    }
  }

  /** A credential is served while it lives and voting is open, and is then marked as used. */
  lemma RedeemMeans(e: Election, voter: nat, now: nat)
    ensures var r := RedeemIn(e, voter, now);
            && (r.Ok? <==> voter in e.tokens && now < e.tokens[voter].expiresAt && e.status == VotingOpen)
            && (r.Ok? ==> r.value == e.(tokens := e.tokens[voter := Token(e.tokens[voter].expiresAt, true)]))
  {
  }

  // ---- Calls ----

  /** What a call asks for arrives in the field it names. */
  lemma CallsArrive(env: Env, db: Db, call: Call)
    requires Apply(env, db, call).Ok?
    ensures var db' := Step(env, db, call);
            match call
            case CreateElection(id, title, opens, closes, ringSize) =>
              id in db'.elections && db'.elections[id] == Election(title, opens, closes, ringSize, Draft, map[], {}, [], map[])
            case UpdateMetadata(id, title, opens, closes, ringSize) =>
              && id in db'.elections
              && (title.Some? ==> db'.elections[id].title == title.value) && (ringSize.Some? ==> db'.elections[id].ringSize == ringSize.value)
              && (opens.Some? ==> db'.elections[id].opens == opens.value) && (closes.Some? ==> db'.elections[id].closes == closes.value)
            case RequestRotation(rotation, reg, key) =>
              && reg in db'.registrations
              && (db.registrations[reg].status == Pending ==> db'.registrations[reg].key == key)
              && (db.registrations[reg].status == Approved ==> rotation in db'.rotations && db'.rotations[rotation].newKey == key)
            case IssueTokens(id, superAdmin, now, week) =>
              && id in db'.elections && superAdmin
              && forall v :: v in db'.elections[id].tokens && v !in db.elections[id].tokens ==> db'.elections[id].tokens[v].expiresAt > now
            case AddCandidate(id, candidate, name, affiliation, _) =>
              id in db'.elections && candidate in db'.elections[id].candidates && db'.elections[id].candidates[candidate].name == name
            case _ => true
  {
    hide NextPosition, PositionFree, Blank, KeyHeld, KeyClaimed, RotationAllowed;
    match call
    case IssueTokens(id, superAdmin, now, week) => IssueMeans(db.elections[id], superAdmin, now, week);
    case _ =>
  }

  // ---- The manifest ----

  /**
   * What an exported manifest shows: the election's own data, the window as text, every candidate once in
   * ballot order with name, affiliation and position, and every group in order with its members' keys.
   */
  lemma ManifestShows(env: Env, id: string, e: Election)
    ensures var raw := ManifestOf(env, id, e);
            && raw.version == 1 && raw.electionId == id && raw.title == e.title && raw.ringSize == Some(e.ringSize)
            && raw.votingOpensAt == (if e.opens.Some? then Some(env.iso(e.opens.value)) else None)
            && raw.votingClosesAt == (if e.closes.Some? then Some(env.iso(e.closes.value)) else None)
            && |raw.candidates| == |e.candidates|
            && (forall c :: c in e.candidates ==>
                  RawCandidate(c, Some(e.candidates[c].name), e.candidates[c].affiliation, Some(e.candidates[c].position)) in raw.candidates)
            && (forall i :: 0 <= i < |raw.candidates| ==> raw.candidates[i].ballotPosition.Some?)
            && (forall i, j :: 0 <= i < j < |raw.candidates| ==>
                  raw.candidates[i].ballotPosition.value <= raw.candidates[j].ballotPosition.value)
            && |raw.rings| == |e.rings|
            && forall k :: 0 <= k < |e.rings| ==>
                 && raw.rings[k].ringId == e.rings[k].id && raw.rings[k].index == e.rings[k].index
                 && |raw.rings[k].publicKeys| == |e.rings[k].members|
                 && forall p :: 0 <= p < |e.rings[k].members| ==> raw.rings[k].publicKeys[p] == e.rings[k].members[p].key
  {
    hide InOrder;
    var order := InOrder(e.candidates, e.candidates.Keys);
    var rows := CandidateRows(e.candidates);
    OrderCovers(e.candidates, e.candidates.Keys);
    assert |e.candidates.Keys| == |e.candidates|;
    assert forall i :: 0 <= i < |order| ==> order[i] in order;
    forall c | c in e.candidates
      ensures RawCandidate(c, Some(e.candidates[c].name), e.candidates[c].affiliation, Some(e.candidates[c].position)) in rows
    {
      assert c in order;
      var i :| 0 <= i < |order| && order[i] == c;
      assert rows[i] == RawOf(e.candidates, c);
    }
  }
}
