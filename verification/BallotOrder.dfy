/** Rewriting the ballot order in two passes (api/src/services/candidate.service.ts). */
module BallotOrder {
  import opened Bytes
  import opened Wrappers
  import opened Manifests
  import opened RingFormation
  import opened Elections
  import opened ElectionRuns
  import opened Stranding
  import Lifecycle
  import Sums

  predicate Known(cands: map<string, Candidate>, order: seq<string>) {
    forall i :: 0 <= i < |order| ==> order[i] in cands
  }

  /** One pass: a loop of single-row updates, each of which the unique index may refuse. */
  method UpdatePass(cands: map<string, Candidate>, order: seq<string>, offset: nat) returns (r: Option<map<string, Candidate>>)
    requires Known(cands, order)
    ensures r == Pass(cands, order, offset, 0)
  {
    hide PositionFree;
    var rows := cands;
    for index := 0 to |order|
      invariant rows.Keys == cands.Keys
      invariant Pass(cands, order, offset, 0) == Pass(rows, order, offset, index)
    {
      if !PositionFree(rows, order[index], offset + index + 1) {
        return None;
      }
      rows := rows[order[index] := rows[order[index]].(position := offset + index + 1)];
    }
    return Some(rows);
  }

  /** The rows after a pass over the first k ids: those listed are placed, the others as before. */
  ghost predicate Placed(cands: map<string, Candidate>, rows: map<string, Candidate>, order: seq<string>, offset: nat, k: nat)
    requires k <= |order| && Known(cands, order)
  {
    && rows.Keys == cands.Keys
    && (forall i :: 0 <= i < k ==> rows[order[i]] == cands[order[i]].(position := offset + i + 1))
    && (forall c :: c in cands && c !in order[..k] ==> rows[c] == cands[c])
  }

  /** Every candidate is named. */
  ghost predicate Complete(cands: map<string, Candidate>, order: seq<string>) {
    forall c :: c in cands ==> c in order
  }

  /** No row waiting its turn holds a position that the pass gives to one before it. */
  ghost predicate OutOfTheWay(cands: map<string, Candidate>, order: seq<string>, offset: nat)
    requires Known(cands, order)
  {
    forall i :: 0 <= i < |order| ==> cands[order[i]].position <= offset || cands[order[i]].position > offset + i
  }

  lemma PlaceOne(cands: map<string, Candidate>, rows: map<string, Candidate>, order: seq<string>, offset: nat, k: nat)
    requires k < |order| && Known(cands, order) && NoRepeats(order) && Placed(cands, rows, order, offset, k)
    ensures Placed(cands, rows[order[k] := rows[order[k]].(position := offset + k + 1)], order, offset, k + 1)
  {
    assert order[..k + 1] == order[..k] + [order[k]];
    assert order[k] !in order[..k];
  }

  lemma PlaceIsFree(cands: map<string, Candidate>, rows: map<string, Candidate>, order: seq<string>, offset: nat, k: nat)
    requires k < |order| && Known(cands, order) && NoRepeats(order) && Complete(cands, order)
    requires Placed(cands, rows, order, offset, k) && OutOfTheWay(cands, order, offset)
    ensures PositionFree(rows, order[k], offset + k + 1)
  {
    forall c | c in rows && c != order[k] ensures rows[c].position != offset + k + 1 {
      assert c in order;
      var i :| 0 <= i < |order| && order[i] == c;
      if i > k {
        assert c !in order[..k];
      }
    }
  }

  lemma {:induction false} PassPlaces(cands: map<string, Candidate>, rows: map<string, Candidate>, order: seq<string>, offset: nat, k: nat)
    requires k <= |order| && Known(cands, order) && NoRepeats(order) && Placed(cands, rows, order, offset, k)
    requires Complete(cands, order) && OutOfTheWay(cands, order, offset)
    ensures var r := Pass(rows, order, offset, k); r.Some? && Placed(cands, r.value, order, offset, |order|)
    decreases |order| - k
  {
    hide Placed, OutOfTheWay, PositionFree, Complete;
    KeysKept(cands, rows, order, offset, k);
    if k < |order| {
      PlaceIsFree(cands, rows, order, offset, k);
      PlaceOne(cands, rows, order, offset, k);
      PassPlaces(cands, rows[order[k] := rows[order[k]].(position := offset + k + 1)], order, offset, k + 1);
    }
  }

  lemma KeysKept(cands: map<string, Candidate>, rows: map<string, Candidate>, order: seq<string>, offset: nat, k: nat)
    requires k <= |order| && Known(cands, order) && Placed(cands, rows, order, offset, k)
    ensures rows.Keys == cands.Keys
  {
  }

  /** A row that holds a position the pass gives to an earlier one is still in the way when that turn comes. */
  lemma {:induction false} PassBlocked(
      cands: map<string, Candidate>, rows: map<string, Candidate>, order: seq<string>, offset: nat, k: nat, at: nat, j: nat)
    requires k <= at < j < |order| && Known(cands, order) && NoRepeats(order) && Placed(cands, rows, order, offset, k)
    requires cands[order[j]].position == offset + at + 1
    ensures Known(rows, order) && Pass(rows, order, offset, k).None?
    decreases at - k
  {
    hide Placed;
    KeysKept(cands, rows, order, offset, k);
    StillWaiting(cands, rows, order, offset, k, j);
    if k == at {
      assert order[j] != order[k] && !PositionFree(rows, order[k], offset + k + 1);
    } else if PositionFree(rows, order[k], offset + k + 1) {
      PlaceOne(cands, rows, order, offset, k);
      PassBlocked(cands, rows[order[k] := rows[order[k]].(position := offset + k + 1)], order, offset, k + 1, at, j);
    }
  }

  lemma StillWaiting(cands: map<string, Candidate>, rows: map<string, Candidate>, order: seq<string>, offset: nat, k: nat, j: nat)
    requires k <= j < |order| && Known(cands, order) && NoRepeats(order) && Placed(cands, rows, order, offset, k)
    ensures order[j] in rows && rows[order[j]] == cands[order[j]]
  {
    assert order[j] !in order[..k];
  }

  /** A pass over every candidate succeeds exactly when no row is in the way. */
  lemma PassSucceeds(cands: map<string, Candidate>, order: seq<string>, offset: nat)
    requires Known(cands, order) && NoRepeats(order) && Complete(cands, order)
    ensures Pass(cands, order, offset, 0).Some? <==> OutOfTheWay(cands, order, offset)
    ensures var r := Pass(cands, order, offset, 0); r.Some? ==> Placed(cands, r.value, order, offset, |order|)
  {
    hide Pass, Placed, Complete;
    StartPlaced(cands, order, offset);
    if OutOfTheWay(cands, order, offset) {
      PassPlaces(cands, cands, order, offset, 0);
    } else {
      var j :| 0 <= j < |order| && offset < cands[order[j]].position <= offset + j;
      PassBlocked(cands, cands, order, offset, 0, cands[order[j]].position - offset - 1, j);
    }
  }

  /**
   * A list naming every candidate once succeeds exactly when no candidate holds a parking position that
   * goes to one listed before it; afterwards the k-th named holds ballot position k, with nothing else
   * about it changed. Only the parking pass can fail: the second pass never meets a collision.
   */
  lemma ReorderPlaces(e: Election, order: seq<string>)
    requires e.status in Lifecycle.OperationStates(Lifecycle.ManageCandidates)
    requires NoRepeats(order) && |order| == |e.candidates| && Known(e.candidates, order)
    ensures var r := ReorderIn(e, order);
            && (r.Ok? <==> OutOfTheWay(e.candidates, order, 10000))
            && (r.Ok? ==>
                  && r.value == e.(candidates := r.value.candidates) && r.value.candidates.Keys == e.candidates.Keys
                  && forall k :: 0 <= k < |order| ==> r.value.candidates[order[k]] == e.candidates[order[k]].(position := k + 1))
  {
    hide Pass, PositionFree, Placed, Complete;
    var cands := e.candidates;
    EveryoneListed(cands, order);
    PassSucceeds(cands, order, REORDER_OFFSET);
    if OutOfTheWay(cands, order, REORDER_OFFSET) {
      var parked := Pass(cands, order, REORDER_OFFSET, 0).value;
      ParkedAreHigh(cands, parked, order);
      PassSucceeds(parked, order, 0);
      var placed := Pass(parked, order, 0, 0).value;
      TwicePlaced(cands, parked, placed, order);
    }
  }

  // ---- When the parking positions are out of reach ----

  /**
   * What n calls can bring about: one of them created the election, and of the others the first to add
   * a candidate places it no higher than a request may name.
   */
  ghost predicate Reached(e: Election, n: nat) {
    |e.candidates| < n && forall c :: c in e.candidates ==> e.candidates[c].position + 2 <= POSITION_MAX + n
  }

  lemma {:induction false} NextIsTight(cands: map<string, Candidate>, top: nat)
    requires forall c :: c in cands ==> cands[c].position <= top
    ensures NextPosition(cands) <= top + 1
    decreases |cands|
  {
    if cands != map[] {
      var c :| c in cands && NextPosition(cands) == if cands[c].position + 1 > NextPosition(cands - {c}) then cands[c].position + 1 else NextPosition(cands - {c});
      NextIsTight(cands - {c}, top);
    }
  }

  /** After a pass every listed row is within the list's own positions, and the others are as they were. */
  lemma {:induction false} PassReaches(cands: map<string, Candidate>, order: seq<string>, offset: nat, k: nat)
    requires k <= |order| && Known(cands, order) && Pass(cands, order, offset, k).Some?
    ensures var r := Pass(cands, order, offset, k).value;
            && r.Keys == cands.Keys
            && (forall i :: k <= i < |order| ==> r[order[i]].position <= offset + |order|)
            && (forall c :: c in cands && c !in order[k..] ==> r[c] == cands[c])
    decreases |order| - k
  {
    if k < |order| {
      var next := cands[order[k] := cands[order[k]].(position := offset + k + 1)];
      PassReaches(next, order, offset, k + 1);
      assert order[k..] == [order[k]] + order[k + 1..];
      var r := Pass(next, order, offset, k + 1).value;
      forall i | k <= i < |order| ensures r[order[i]].position <= offset + |order| {
        if i == k && order[k] in order[k + 1..] {
          var j :| k + 1 <= j < |order| && order[j] == order[k];
        }
      }
    }
  }

  lemma ReorderReaches(e: Election, order: seq<string>, n: nat)
    requires Reached(e, n) && ReorderIn(e, order).Ok?
    ensures Reached(ReorderIn(e, order).value, n)
  {
    hide Pass, PositionFree;
    PassReaches(e.candidates, order, REORDER_OFFSET, 0);
    var parked := Pass(e.candidates, order, REORDER_OFFSET, 0).value;
    PassReaches(parked, order, 0, 0);
    var placed := Pass(parked, order, 0, 0).value;
    assert |placed.Keys| == |placed| && |e.candidates.Keys| == |e.candidates|;
    assert order[0..] == order;
    forall c | c in placed ensures placed[c].position + 2 <= POSITION_MAX + n {
      if c in order {
        var i :| 0 <= i < |order| && order[i] == c;
      }
    }
  }

  lemma AddReaches(e: Election, candidate: string, name: string, affiliation: Option<string>, position: Option<nat>, n: nat)
    requires Reached(e, n) && AddCandidateIn(e, candidate, name, affiliation, position).Ok?
    ensures Reached(AddCandidateIn(e, candidate, name, affiliation, position).value, n + 1)
  {
    hide PositionFree, NextPosition, Blank;
    NextIsTight(e.candidates, POSITION_MAX + n - 2);
  }

  lemma EditReaches(e: Election, candidate: string, name: Option<string>, affiliation: Option<Option<string>>, position: Option<nat>, n: nat)
    requires Reached(e, n) && EditCandidateIn(e, candidate, name, affiliation, position).Ok?
    ensures Reached(EditCandidateIn(e, candidate, name, affiliation, position).value, n + 1)
  {
    hide PositionFree;
  }

  lemma RemoveReaches(e: Election, candidate: string, n: nat)
    requires Reached(e, n) && RemoveCandidateIn(e, candidate).Ok?
    ensures Reached(RemoveCandidateIn(e, candidate).value, n + 1)
  {
    OneGone(e.candidates, candidate);
  }

  predicate ChangesCandidates(call: Call) {
    call.AddCandidate? || call.EditCandidate? || call.RemoveCandidate? || call.Reorder?
  }

  lemma OthersKeepCandidates(env: Env, db: Db, call: Call, e: Election)
    requires ElectionNamed(call).Some? && !ChangesCandidates(call) && ElectionCall(env, db, call, e).Ok?
    ensures ElectionCall(env, db, call, e).value.candidates == e.candidates
  {
    hide MembersOf, VotersIn, FindRing, TransitionGuards, FormRingsIn, ExportIn, WindowOk, GivenWindowOk;
    match call
    case FormRings(_, ringIds, draws) => FormSameCandidates(env, db.voters, e, ringIds, draws);
    case ExportManifest(id, superAdmin) => ExportSameCandidates(env, db, id, e, superAdmin);
    case _ =>
  }

  lemma CallReaches(env: Env, db: Db, call: Call, e: Election, n: nat)
    requires ElectionNamed(call).Some? && Reached(e, n) && ElectionCall(env, db, call, e).Ok?
    ensures Reached(ElectionCall(env, db, call, e).value, n + 1)
  {
    hide UpdateMetadataIn, TransitionIn, SetEligibilityIn, TransferIn, RemoveIn, AddCandidateIn, EditCandidateIn, RemoveCandidateIn, ReorderIn, FormRingsIn, ExportIn, IssueIn, RedeemIn;
    if !ChangesCandidates(call) {
      hide ElectionCall;
      OthersKeepCandidates(env, db, call, e);
    } else {
      match call
      case AddCandidate(_, candidate, name, affiliation, position) => AddReaches(e, candidate, name, affiliation, position, n);
      case EditCandidate(_, candidate, name, affiliation, position) => EditReaches(e, candidate, name, affiliation, position, n);
      case RemoveCandidate(_, candidate) => RemoveReaches(e, candidate, n);
      case Reorder(_, order) => ReorderReaches(e, order, n);
    }
  }

  lemma OneGone(cands: map<string, Candidate>, candidate: string)
    ensures |cands - {candidate}| <= |cands|
  {
    var rest := cands - {candidate};
    assert |rest.Keys| == |rest| && |cands.Keys| == |cands|;
    Sums.SubsetSize(rest.Keys, cands.Keys);
  }

  lemma FormSameCandidates(env: Env, voters: map<nat, bytes>, e: Election, ringIds: seq<string>, draws: seq<nat>)
    requires e.roll <= voters.Keys && FormRingsIn(env, voters, e, ringIds, draws).Ok?
    ensures FormRingsIn(env, voters, e, ringIds, draws).value.candidates == e.candidates
  {
    hide Grouped, Electorate, Draws;
  }

  lemma ExportSameCandidates(env: Env, db: Db, id: string, e: Election, superAdmin: bool)
    requires ExportIn(env, db, id, e, superAdmin).Ok?
    ensures ExportIn(env, db, id, e, superAdmin).value.candidates == e.candidates
  {
    hide PublishGuards, ManifestOf;
  }

  /** A call that names no election changes no candidates; a new election has none. */
  lemma UnnamedReaches(env: Env, db: Db, call: Call, n: nat)
    requires ElectionNamed(call).None?
    requires forall id :: id in db.elections ==> Reached(db.elections[id], n)
    ensures forall id :: id in Step(env, db, call).elections ==> Reached(Step(env, db, call).elections[id], n + 1)
  {
    hide KeyHeld, KeyClaimed, RotationAllowed, Blank, RingSizeGiven, WindowOk;
  }

  lemma ReachedLater(e: Election, n: nat)
    requires Reached(e, n)
    ensures Reached(e, n + 1)
  {
  }

  lemma NamedReaches(env: Env, db: Db, call: Call, n: nat)
    requires ElectionNamed(call).Some?
    requires forall id :: id in db.elections ==> Reached(db.elections[id], n)
    ensures forall id :: id in Step(env, db, call).elections ==> Reached(Step(env, db, call).elections[id], n + 1)
  {
    hide ElectionCall, Reached, SubmitRegistrationIn, ApproveIn, RejectIn, RequestRotationIn, ReviewRotationIn, CreateElectionIn;
    var id := ElectionNamed(call).value;
    if id in db.elections && ElectionCall(env, db, call, db.elections[id]).Ok? {
      CallReaches(env, db, call, db.elections[id], n);
    }
    forall other | other in db.elections ensures Reached(db.elections[other], n + 1) {
      ReachedLater(db.elections[other], n);
    }
  }

  lemma StepReaches(env: Env, db: Db, call: Call, n: nat)
    requires forall id :: id in db.elections ==> Reached(db.elections[id], n)
    ensures forall id :: id in Step(env, db, call).elections ==> Reached(Step(env, db, call).elections[id], n + 1)
  {
    hide Reached, Step, ElectionNamed;
    if ElectionNamed(call).None? {
      UnnamedReaches(env, db, call, n);
    } else {
      NamedReaches(env, db, call, n);
    }
  }

  lemma {:induction false} RunReaches(env: Env, db: Db, calls: seq<Call>, n: nat)
    requires forall id :: id in db.elections ==> Reached(db.elections[id], n)
    ensures forall id :: id in Run(env, db, calls).elections ==> Reached(Run(env, db, calls).elections[id], n + |calls|)
    decreases |calls|
  {
    hide Step, Reached;
    if calls != [] {
      StepReaches(env, db, calls[0], n);
      RunReaches(env, Step(env, db, calls[0]), calls[1..], n + 1);
    }
  }

  /** The fewest calls that can put a candidate on a parking position: create, add at the highest, and then on by one. */
  const FEWEST_CALLS: nat := 9004

  /**
   * Requests cannot name a parking position and automatic positions grow one at a time, so shorter runs
   * bring no candidate there: until then every complete reorder succeeds.
   */
  lemma ReorderSucceedsEarly(env: Env, calls: seq<Call>, id: string, order: seq<string>)
    requires |calls| < FEWEST_CALLS && id in Run(env, EMPTY, calls).elections
    requires Run(env, EMPTY, calls).elections[id].status in Lifecycle.OperationStates(Lifecycle.ManageCandidates)
    requires var cands := Run(env, EMPTY, calls).elections[id].candidates;
             NoRepeats(order) && |order| == |cands| && Known(cands, order)
    ensures ReorderIn(Run(env, EMPTY, calls).elections[id], order).Ok?
  {
    hide Run, ReorderIn;
    RunReaches(env, EMPTY, calls, 0);
    ReorderPlaces(Run(env, EMPTY, calls).elections[id], order);
  }

  // ---- A run that gets there ----

  /** One candidate at the highest position a request may name, and n more at the next ones. */
  function Ladder(n: nat): map<string, Candidate> {
    if n == 0 then map[Label(0) := Candidate(NAME, None, POSITION_MAX)]
    else Ladder(n - 1)[Label(n) := Candidate(NAME, None, POSITION_MAX + n)]
  }

  lemma {:induction false} LadderHolds(n: nat)
    ensures |Ladder(n)| == n + 1
    ensures forall k: nat :: k <= n ==> Label(k) in Ladder(n) && Ladder(n)[Label(k)].position == POSITION_MAX + k
    ensures forall c :: c in Ladder(n) ==> |c| <= n + 1 && Ladder(n)[c].position <= POSITION_MAX + n
  {
    if n > 0 {
      LadderHolds(n - 1);
      assert |Label(n)| == n + 1;
      assert forall k: nat :: k < n ==> |Label(k)| == k + 1;
    }
  }

  lemma NextRung(n: nat)
    ensures NextPosition(Ladder(n)) == POSITION_MAX + n + 1
    ensures Label(n + 1) !in Ladder(n) && PositionFree(Ladder(n), Label(n + 1), POSITION_MAX + n + 1)
  {
    hide Ladder, NextPosition;
    LadderHolds(n);
    NextIsTight(Ladder(n), POSITION_MAX + n);
    assert |Label(n + 1)| == n + 2 && Label(n) in Ladder(n);
  }

  lemma LabelShows(n: nat)
    ensures !Blank(Label(n))
  {
    assert Label(n)[0] == 'g' && !IsWhitespace('g');
  }

  /** Adding candidates one after another, the first at the highest position that may be named. */
  lemma {:induction false} Climb(env: Env, n: nat) returns (calls: seq<Call>)
    ensures |calls| == n + 2
    ensures Run(env, EMPTY, calls) == SoloDb(Solo(Lifecycle.Draft, Ladder(n), {}), map[], map[])
  {
    hide Run, Blank, Ladder, NextPosition, PositionFree, Label, ElectionCall, Elections.Step;
    if n == 0 {
      var create := SoloStarts(env);
      var add := AddCandidate(SOLO, Label(0), NAME, None, Some(POSITION_MAX));
      var db := SoloDb(Solo(Lifecycle.Draft, map[], {}), map[], map[]);
      FirstRung(env, db);
      SoloCall(env, db, add, Solo(Lifecycle.Draft, map[], {}), Solo(Lifecycle.Draft, Ladder(0), {}));
      RunSnoc(env, EMPTY, create, add);
      calls := create + [add];
    } else {
      var before := Climb(env, n - 1);
      var add := AddCandidate(SOLO, Label(n), NAME, None, None);
      var db := SoloDb(Solo(Lifecycle.Draft, Ladder(n - 1), {}), map[], map[]);
      LaterRung(env, db, n - 1);
      SoloCall(env, db, add, Solo(Lifecycle.Draft, Ladder(n - 1), {}), Solo(Lifecycle.Draft, Ladder(n), {}));
      RunSnoc(env, EMPTY, before, add);
      calls := before + [add];
    }
  }

  lemma SoloStarts(env: Env) returns (calls: seq<Call>)
    ensures |calls| == 1 && Run(env, EMPTY, calls) == SoloDb(Solo(Lifecycle.Draft, map[], {}), map[], map[])
  {
    hide Run, Blank;
    SoloNames();
    var create := CreateElection(SOLO, TITLE, None, None, 3);
    assert Elections.Step(env, EMPTY, create) == SoloDb(Solo(Lifecycle.Draft, map[], {}), map[], map[]);
    RunOne(env, EMPTY, create);
    calls := [create];
  }

  lemma FirstRung(env: Env, db: Db)
    ensures ElectionCall(env, db, AddCandidate(SOLO, Label(0), NAME, None, Some(POSITION_MAX)), Solo(Lifecycle.Draft, map[], {}))
            == Ok(Solo(Lifecycle.Draft, Ladder(0), {}))
  {
    hide Blank, NextPosition;
    LabelShows(0);
    assert map[][Label(0) := Candidate(NAME, None, POSITION_MAX)] == Ladder(0);
  }

  lemma LaterRung(env: Env, db: Db, n: nat)
    ensures ElectionCall(env, db, AddCandidate(SOLO, Label(n + 1), NAME, None, None), Solo(Lifecycle.Draft, Ladder(n), {}))
            == Ok(Solo(Lifecycle.Draft, Ladder(n + 1), {}))
  {
    hide Blank, NextPosition, PositionFree, Label;
    LabelShows(n + 1);
    NextRung(n);
    assert Ladder(n + 1) == Ladder(n)[Label(n + 1) := Candidate(NAME, None, POSITION_MAX + n + 1)];
  }

  /**
   * It can fail, and after no more calls than that: with 9003 candidates the last stands on the first
   * parking position, and listing them as they stand collides.
   */
  lemma ReorderCollides(env: Env) returns (calls: seq<Call>, order: seq<string>)
    ensures |calls| == FEWEST_CALLS && SOLO in Run(env, EMPTY, calls).elections
    ensures var e := Run(env, EMPTY, calls).elections[SOLO];
            && e.status == Lifecycle.Draft
            && NoRepeats(order) && |order| == |e.candidates| && Known(e.candidates, order)
            && ReorderIn(e, order) == Err(Conflict)
  {
    hide Run, Ladder, ReorderIn;
    var n := FEWEST_CALLS - 2;
    calls := Climb(env, n);
    order := Labels(n + 1);
    LadderHolds(n);
    NamesFit(n + 1);
    var e := Solo(Lifecycle.Draft, Ladder(n), {});
    assert Run(env, EMPTY, calls).elections[SOLO] == e;
    ReorderPlaces(e, order);
    assert order[n] == Label(n);
    assert !OutOfTheWay(e.candidates, order, REORDER_OFFSET);
    OnlyConflicts(e, order);
  }

  lemma OnlyConflicts(e: Election, order: seq<string>)
    ensures ReorderIn(e, order).Err? ==> ReorderIn(e, order).error == Conflict
  {
    hide Pass;
  }

  lemma StartPlaced(cands: map<string, Candidate>, order: seq<string>, offset: nat)
    requires Known(cands, order)
    ensures Placed(cands, cands, order, offset, 0)
  {
  }

  lemma ParkedAreHigh(cands: map<string, Candidate>, parked: map<string, Candidate>, order: seq<string>)
    requires Known(cands, order) && Complete(cands, order) && Placed(cands, parked, order, REORDER_OFFSET, |order|)
    ensures Known(parked, order) && Complete(parked, order) && OutOfTheWay(parked, order, 0)
  {
  }

  lemma TwicePlaced(cands: map<string, Candidate>, parked: map<string, Candidate>, placed: map<string, Candidate>, order: seq<string>)
    requires Known(cands, order) && Placed(cands, parked, order, REORDER_OFFSET, |order|)
    requires Known(parked, order) && Placed(parked, placed, order, 0, |order|)
    ensures placed.Keys == cands.Keys
    ensures forall k :: 0 <= k < |order| ==> placed[order[k]] == cands[order[k]].(position := k + 1)
  {
  }

  function Named(order: seq<string>): set<string> {
    set i | 0 <= i < |order| :: order[i]
  }

  lemma {:induction false} NamedCount(order: seq<string>)
    requires NoRepeats(order)
    ensures |Named(order)| == |order|
    decreases |order|
  {
    if order != [] {
      var n := |order| - 1;
      NamedCount(order[..n]);
      assert forall i :: 0 <= i < n ==> order[..n][i] == order[i];
      assert Named(order) == Named(order[..n]) + {order[n]};
    }
  }

  lemma EveryoneListed(cands: map<string, Candidate>, order: seq<string>)
    requires NoRepeats(order) && |order| == |cands| && Known(cands, order)
    ensures Complete(cands, order)
  {
    NamedCount(order);
    assert |cands.Keys| == |cands|;
    Sums.SubsetSize(Named(order), cands.Keys);
    assert forall c :: c in Named(order) ==> c in order;
  }
}
