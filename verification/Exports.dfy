/**
 * Manifest exports that interleave (api/src/services/ring.service.ts).
 *
 * `exportChainManifest` runs without a transaction and without the election's lock: it reads the
 * election, the groups, the candidates and then each group's members in separate queries, and
 * publishes the groups one update at a time. Here each of those is a step of its own, among the steps
 * of other exports, of group formation and of every other call; an export may break off anywhere.
 * Group formation is two steps, since another session's update can commit between its check that
 * nothing is published and its delete.
 */
module Exports {
  import opened Bytes
  import opened Wrappers
  import opened Lifecycle
  import opened Manifests
  import opened RingFormation
  import opened Elections
  import opened ElectionSafety
  import opened ElectionRuns
  import opened Effects

  /** The columns of the election's own row that go into a manifest. */
  datatype Row = Row(title: string, opens: Option<nat>, closes: Option<nat>, ringSize: nat)

  /** A group as `listRingsWithSizes` shows it. */
  datatype GroupRow = GroupRow(id: string, index: nat, published: bool)

  /** How far an export has come. The candidates are read together with the groups, in either order. */
  datatype Progress =
    | Begun(row: Row)
    | Listed(row: Row, groups: seq<GroupRow>)
    | Reading(row: Row, groups: seq<GroupRow>, candidates: seq<RawCandidate>, keys: seq<seq<bytes>>)
    | Marking(manifest: RawManifest, todo: seq<string>)
    | Returned(manifest: RawManifest)

  datatype Session = Session(id: string, superAdmin: bool, progress: Progress)

  /**
   * The tables, the exports by session, the formations under way with the voters' keys they read, and
   * every group id handed out so far.
   */
  datatype World = World(db: Db, exports: map<nat, Session>, forming: map<string, map<nat, bytes>>, used: set<string>)

  const START: World := World(EMPTY, map[], map[], {})

  datatype Action =
    | Serve(call: Call)
    | StartForm(id: string)
    | FinishForm(id: string, ringIds: seq<string>, draws: seq<nat>)
    | AbortForm(id: string)
    | Begin(sid: nat, id: string, superAdmin: bool)
    | List(sid: nat)
    | Name(sid: nat)
    | ReadKeys(sid: nat)
    | Check(sid: nat, passed: bool)
    | Mark(sid: nat)
    | Break(sid: nat)

  // ---- Forming groups, in two steps ----

  /** A formation holds the election's lock; a redemption is the one call that does not ask for it. */
  predicate Unlocked(w: World, call: Call) {
    && (ElectionNamed(call).Some? && !call.Redeem? ==> ElectionNamed(call).value !in w.forming)
    && (call.Approve? && call.rollOf.Some? ==> call.rollOf.value !in w.forming)
  }

  predicate FormReady(env: Env, e: Election) {
    e.status in OperationStates(FormGroups) && e.ringSize >= env.ringMin && |e.roll| >= env.ringMin && 0 < e.ringSize <= |e.roll|
  }

  ghost function Fresh(voters: map<nat, bytes>, e: Election, ringIds: seq<string>, draws: seq<nat>): seq<RingRow>
    requires e.roll <= voters.Keys && 0 < e.ringSize <= |e.roll| && Draws(draws, |e.roll|)
    requires |ringIds| == |Grouped(Electorate(voters, e.roll), draws, e.ringSize)|
  {
    NewRings(Grouped(Electorate(voters, e.roll), draws, e.ringSize), ringIds)
  }

  /** What `deleteUnpublishedRings` leaves. */
  function Survivors(rings: seq<RingRow>): seq<RingRow> {
    if rings == [] then []
    else
      var n := |rings| - 1;
      Survivors(rings[..n]) + if rings[n].published.Some? then [rings[n]] else []
  }

  /** The unique indexes on (election, index) and on (election, voter) refuse the new rows. */
  predicate Conflicts(kept: seq<RingRow>, formed: seq<RingRow>) {
    || (exists i, j :: 0 <= i < |kept| && 0 <= j < |formed| && kept[i].index == formed[j].index)
    || VotersIn(MembersOf(kept)) * VotersIn(MembersOf(formed)) != {}
  }

  // ---- What an export reads and writes ----

  function RowOf(e: Election): Row {
    Row(e.title, e.opens, e.closes, e.ringSize)
  }

  function GroupsOf(rings: seq<RingRow>): (groups: seq<GroupRow>)
    ensures |groups| == |rings|
    ensures forall k :: 0 <= k < |rings| ==> groups[k] == GroupRow(rings[k].id, rings[k].index, rings[k].published.Some?)
  {
    seq(|rings|, k requires 0 <= k < |rings| => GroupRow(rings[k].id, rings[k].index, rings[k].published.Some?))
  }

  function Find(rings: seq<RingRow>, ringId: string): (at: Option<nat>)
    ensures at.Some? ==> at.value < |rings| && rings[at.value].id == ringId
    ensures at.None? ==> forall k :: 0 <= k < |rings| ==> rings[k].id != ringId
  {
    if rings == [] then None
    else
      var n := |rings| - 1;
      if rings[n].id == ringId then Some(n) else Find(rings[..n], ringId)
  }

  /** `listRingMembers`: the keys in position order, none when the group is gone. */
  function KeysFor(rings: seq<RingRow>, ringId: string): seq<bytes> {
    var at := Find(rings, ringId);
    if at.None? then [] else RawRingOf(rings[at.value]).publicKeys
  }

  function Unpublished(groups: seq<GroupRow>): (ids: seq<string>)
    ensures forall t :: t in ids <==> exists k :: 0 <= k < |groups| && !groups[k].published && groups[k].id == t
  {
    if groups == [] then []
    else
      var n := |groups| - 1;
      assert forall k :: 0 <= k < n ==> groups[..n][k] == groups[k];
      Unpublished(groups[..n]) + if groups[n].published then [] else [groups[n].id]
  }

  function Built(env: Env, id: string, p: Progress): RawManifest
    requires p.Reading? && |p.keys| == |p.groups|
  {
    RawManifest(1, id, p.row.title, DateText(env, p.row.opens), DateText(env, p.row.closes), Some(p.row.ringSize), p.candidates,
                seq(|p.groups|, k requires 0 <= k < |p.groups| => RawRing(p.groups[k].id, p.groups[k].index, p.keys[k])))
  }

  // ---- Steps ----

  ghost predicate Can(env: Env, w: World, a: Action) {
    match a
    case Serve(call) => !call.FormRings? && !call.ExportManifest? && Unlocked(w, call)
    case StartForm(id) =>
      && id in w.db.elections && id !in w.forming
      && var e := w.db.elections[id]; FormReady(env, e) && !SomePublished(e) && e.roll <= w.db.voters.Keys
    case FinishForm(id, ringIds, draws) =>
      && id in w.forming && id in w.db.elections
      && var e := w.db.elections[id];
         && e.roll <= w.forming[id].Keys && 0 < e.ringSize <= |e.roll| && Draws(draws, |e.roll|)
         && |ringIds| == |Grouped(Electorate(w.forming[id], e.roll), draws, e.ringSize)|
         && RingIdsOk(ringIds) && forall i :: 0 <= i < |ringIds| ==> ringIds[i] !in w.used
    case AbortForm(id) => id in w.forming
    case Begin(sid, id, _) =>
      sid !in w.exports && id in w.db.elections && w.db.elections[id].status in OperationStates(ExportChainManifest)
    case _ =>
      && a.sid in w.exports && w.exports[a.sid].id in w.db.elections
      && var p := w.exports[a.sid].progress;
         match a
         case List(_) => p.Begun?
         case Name(_) => p.Listed?
         case ReadKeys(_) => p.Reading? && |p.keys| < |p.groups|
         case Check(_, _) => p.Reading? && |p.keys| == |p.groups|
         case Mark(_) => p.Marking? && p.todo != []
         case Break(_) => !p.Returned?
  }

  ghost function Do(env: Env, w: World, a: Action): World
    requires Can(env, w, a)
  {
    match a
    case Serve(call) => w.(db := Elections.Step(env, w.db, call))
    case StartForm(id) => w.(forming := w.forming[id := w.db.voters])
    case FinishForm(id, ringIds, draws) => FinishFormIn(w, id, ringIds, Fresh(w.forming[id], w.db.elections[id], ringIds, draws))
    case AbortForm(id) => w.(forming := w.forming - {id})
    case Begin(sid, id, superAdmin) => w.(exports := w.exports[sid := Session(id, superAdmin, Begun(RowOf(w.db.elections[id])))])
    case Mark(sid) => MarkIn(env, w, sid)
    case _ => w.(exports := Advanced(env, w.db.elections[w.exports[a.sid].id], w.exports, a))
  }

  function FinishFormIn(w: World, id: string, ringIds: seq<string>, formed: seq<RingRow>): World
    requires id in w.db.elections
  {
    var e := w.db.elections[id];
    if Conflicts(Survivors(e.rings), formed) then w.(forming := w.forming - {id})
    else World(w.db.(elections := w.db.elections[id := e.(rings := Survivors(e.rings) + formed)]), w.exports,
               w.forming - {id}, w.used + set i | 0 <= i < |ringIds| :: ringIds[i])
  }

  function To(exports: map<nat, Session>, sid: nat, p: Progress): map<nat, Session>
    requires sid in exports
  {
    exports[sid := exports[sid].(progress := p)]
  }

  /** The steps that only read; a check that fails throws, and the export is gone. */
  ghost function Advanced(env: Env, e: Election, exports: map<nat, Session>, a: Action): map<nat, Session>
    requires a.List? || a.Name? || a.ReadKeys? || a.Check? || a.Break?
    requires a.sid in exports
    requires var p := exports[a.sid].progress;
             && (a.List? ==> p.Begun?) && (a.Name? ==> p.Listed?)
             && (a.ReadKeys? ==> p.Reading? && |p.keys| < |p.groups|) && (a.Check? ==> p.Reading? && |p.keys| == |p.groups|)
  {
    var s, p := exports[a.sid], exports[a.sid].progress;
    match a
    case List(sid) => To(exports, sid, Listed(p.row, GroupsOf(e.rings)))
    case Name(sid) =>
      if p.groups == [] || |e.candidates| == 0 then exports - {sid}
      else To(exports, sid, Reading(p.row, p.groups, CandidateRows(e.candidates), []))
    case ReadKeys(sid) => To(exports, sid, p.(keys := p.keys + [KeysFor(e.rings, p.groups[|p.keys|].id)]))
    case Check(sid, passed) =>
      var manifest, todo := Built(env, s.id, p), Unpublished(p.groups);
      if todo == [] then To(exports, sid, Returned(manifest))
      else if !s.superAdmin || !passed then exports - {sid}
      else To(exports, sid, Marking(manifest, todo))
    case Break(sid) => exports - {sid}
  }

  /** `markRingPublished` for the next group; it throws when that group is gone or already published. */
  function MarkIn(env: Env, w: World, sid: nat): World
    requires sid in w.exports && w.exports[sid].id in w.db.elections
    requires w.exports[sid].progress.Marking? && w.exports[sid].progress.todo != []
  {
    var s, p := w.exports[sid], w.exports[sid].progress;
    var e := w.db.elections[s.id];
    var at := Find(e.rings, p.todo[0]);
    if at.None? || e.rings[at.value].published.Some? then w.(exports := w.exports - {sid})
    else
      w.(db := w.db.(elections := w.db.elections[s.id := Published(e, at.value, env.digest(p.manifest))]),
         exports := To(w.exports, sid, if |p.todo| == 1 then Returned(p.manifest) else p.(todo := p.todo[1..])))
  }

  function Published(e: Election, at: nat, digest: string): Election
    requires at < |e.rings|
  {
    e.(rings := e.rings[at := e.rings[at].(published := Some(digest))])
  }

  ghost predicate Legal(env: Env, w: World, run: seq<Action>)
    decreases |run|
  {
    run != [] ==> Can(env, w, run[0]) && Legal(env, Do(env, w, run[0]), run[1..])
  }

  ghost function After(env: Env, w: World, run: seq<Action>): World
    requires Legal(env, w, run)
    decreases |run|
  {
    if run == [] then w else After(env, Do(env, w, run[0]), run[1..])
  }

  // ---- What every reachable world satisfies ----

  function Ids(rings: seq<RingRow>): set<string> {
    set k | 0 <= k < |rings| :: rings[k].id
  }

  /** The groups an export read are the groups there are; what it saw published is. */
  ghost predicate Live(e: Election, groups: seq<GroupRow>) {
    && |groups| == |e.rings|
    && forall k :: 0 <= k < |groups| ==>
         groups[k].id == e.rings[k].id && groups[k].index == e.rings[k].index && (groups[k].published ==> e.rings[k].published.Some?)
  }

  /** The groups an export read have been replaced, and it saw none of them published. */
  ghost predicate Dead(used: set<string>, e: Election, groups: seq<GroupRow>) {
    forall k :: 0 <= k < |groups| ==> groups[k].id in used && groups[k].id !in Ids(e.rings) && !groups[k].published
  }

  ghost predicate ReadingOk(used: set<string>, e: Election, p: Progress)
    requires p.Reading?
  {
    && p.groups != [] && |p.keys| <= |p.groups| && p.candidates == CandidateRows(e.candidates)
    && (|| Dead(used, e, p.groups)
        || (Live(e, p.groups) && forall k :: 0 <= k < |p.keys| ==> p.keys[k] == RawRingOf(e.rings[k]).publicKeys))
  }

  /** Either the manifest is right and what is still unpublished is on the list, or every update will find its group gone. */
  ghost predicate MarkingOk(env: Env, used: set<string>, id: string, e: Election, p: Progress)
    requires p.Marking?
  {
    && p.todo != [] && (forall t :: t in p.todo ==> t in used)
    && (|| (forall t :: t in p.todo ==> t !in Ids(e.rings))
        || (&& e.rings != [] && p.manifest == ManifestOf(env, id, e)
            && forall k :: 0 <= k < |e.rings| ==> e.rings[k].published.Some? || e.rings[k].id in p.todo))
  }

  ghost predicate ProgressOk(env: Env, used: set<string>, id: string, e: Election, p: Progress) {
    match p
    case Begun(row) => row == RowOf(e)
    case Listed(row, groups) => row == RowOf(e) && (Live(e, groups) || Dead(used, e, groups))
    case Reading(row, _, _, _) => row == RowOf(e) && ReadingOk(used, e, p)
    case Marking(_, _) => MarkingOk(env, used, id, e, p)
    case Returned(manifest) => Fixed(e) && manifest == ManifestOf(env, id, e)
  }

  ghost predicate SessionOk(env: Env, db: Db, used: set<string>, s: Session) {
    s.id in db.elections && Frozen(db.elections[s.id].status) && ProgressOk(env, used, s.id, db.elections[s.id], s.progress)
  }

  ghost predicate FormingOk(env: Env, db: Db, id: string, voters: map<nat, bytes>) {
    id in db.elections && FormReady(env, db.elections[id]) && VotersOk(env, voters) && db.elections[id].roll <= voters.Keys
  }

  ghost predicate WorldOk(env: Env, w: World) {
    && DbOk(env, w.db)
    && (forall id :: id in w.db.elections ==> Ids(w.db.elections[id].rings) <= w.used)
    && (forall id :: id in w.forming ==> FormingOk(env, w.db, id, w.forming[id]))
    && (forall sid :: sid in w.exports ==> SessionOk(env, w.db, w.used, w.exports[sid]))
  }

  /** A frozen election to which nothing happened but the publication of groups. */
  ghost predicate Stable(e: Election, e': Election) {
    && Frozen(e.status) && Frozen(e'.status)
    && RowOf(e') == RowOf(e) && e'.candidates == e.candidates
    && |e'.rings| == |e.rings|
    && forall k :: 0 <= k < |e.rings| ==>
         && e'.rings[k].id == e.rings[k].id && e'.rings[k].index == e.rings[k].index && e'.rings[k].members == e.rings[k].members
         && (e.rings[k].published.Some? ==> e'.rings[k].published == e.rings[k].published)
  }

  lemma StableIds(e: Election, e': Election)
    requires Stable(e, e')
    ensures Ids(e'.rings) == Ids(e.rings)
  {
    forall t ensures t in Ids(e.rings) <==> t in Ids(e'.rings) {
      if t in Ids(e.rings) {
        var k :| 0 <= k < |e.rings| && e.rings[k].id == t;
        assert e'.rings[k].id == t;
      }
      if t in Ids(e'.rings) {
        var k :| 0 <= k < |e'.rings| && e'.rings[k].id == t;
        assert e.rings[k].id == t;
      }
    }
  }

  lemma ProgressKept(env: Env, used: set<string>, used': set<string>, id: string, e: Election, e': Election, p: Progress)
    requires ProgressOk(env, used, id, e, p) && Stable(e, e') && used <= used'
    ensures ProgressOk(env, used', id, e', p)
  {
    hide ManifestOf, CandidateRows, Ids;
    StableIds(e, e');
    SameManifest(env, id, e, e');
  }

  // ---- Other calls ----

  lemma CallKeepsRings(env: Env, db: Db, call: Call, e: Election)
    requires ElectionNamed(call).Some? && !call.FormRings? && !call.ExportManifest? && ElectionCall(env, db, call, e).Ok?
    ensures ElectionCall(env, db, call, e).value.rings == e.rings
    ensures call.Redeem? ==> ElectionCall(env, db, call, e).value.status == e.status
  {
    hide MembersOf, VotersIn, FindRing, TransitionGuards, WindowOk, GivenWindowOk, NextPosition, PositionFree, Pass, Blank, FormRingsIn, ExportIn;
  }

  lemma UnnamedKeeps(env: Env, db: Db, call: Call, id: string)
    requires ElectionNamed(call).None? && id in db.elections
    ensures id in Elections.Step(env, db, call).elections
    ensures var e, e' := db.elections[id], Elections.Step(env, db, call).elections[id];
            e'.rings == e.rings && e'.status == e.status
  {
    hide KeyHeld, KeyClaimed, RotationAllowed, Blank, RingSizeGiven, WindowOk;
  }

  lemma NamedKeeps(env: Env, db: Db, call: Call, id: string)
    requires ElectionNamed(call).Some? && id in db.elections && !call.FormRings? && !call.ExportManifest?
    ensures id in Elections.Step(env, db, call).elections
    ensures var e, e' := db.elections[id], Elections.Step(env, db, call).elections[id];
            && e'.rings == e.rings
            && (ElectionNamed(call) != Some(id) || call.Redeem? ==> e'.status == e.status)
  {
    CallsElection(env, db, call);
    hide ElectionCall, ElectionNamed, Elections.Step;
    if ElectionNamed(call) == Some(id) && ElectionCall(env, db, call, db.elections[id]).Ok? {
      CallKeepsRings(env, db, call, db.elections[id]);
    }
  }

  lemma ServeKeepsRings(env: Env, db: Db, call: Call, id: string)
    requires id in db.elections && !call.FormRings? && !call.ExportManifest?
    ensures id in Elections.Step(env, db, call).elections
    ensures var e, e' := db.elections[id], Elections.Step(env, db, call).elections[id];
            && e'.rings == e.rings
            && (ElectionNamed(call) != Some(id) || call.Redeem? ==> e'.status == e.status)
  {
    hide Elections.Step, ElectionNamed;
    if ElectionNamed(call).None? {
      UnnamedKeeps(env, db, call, id);
    } else {
      NamedKeeps(env, db, call, id);
    }
  }

  lemma ServeStable(env: Env, db: Db, call: Call, id: string)
    requires DbOk(env, db) && id in db.elections && Frozen(db.elections[id].status) && !call.FormRings? && !call.ExportManifest?
    ensures id in Elections.Step(env, db, call).elections
    ensures var e, e' := db.elections[id], Elections.Step(env, db, call).elections[id];
            && Stable(e, e') && e'.roll == e.roll
            && (ElectionNamed(call) != Some(id) || call.Redeem? ==> e'.status == e.status)
  {
    hide DbOk, Elections.Step, ManifestOf;
    ServeKeepsRings(env, db, call, id);
    StepEvolves(env, db, call, id);
  }

  lemma SessionKept(env: Env, db: Db, db': Db, used: set<string>, used': set<string>, s: Session)
    requires SessionOk(env, db, used, s) && used <= used'
    requires s.id in db'.elections && Stable(db.elections[s.id], db'.elections[s.id])
    ensures SessionOk(env, db', used', s)
  {
    hide ProgressOk;
    ProgressKept(env, used, used', s.id, db.elections[s.id], db'.elections[s.id], s.progress);
  }

  lemma NewRingless(env: Env, db: Db, call: Call, id: string)
    requires !call.FormRings? && !call.ExportManifest?
    requires id in Elections.Step(env, db, call).elections && id !in db.elections
    ensures Elections.Step(env, db, call).elections[id].rings == []
  {
    hide KeyHeld, KeyClaimed, RotationAllowed, Blank, RingSizeGiven, WindowOk, ElectionCall;
  }

  lemma NoIds()
    ensures Ids([]) == {}
  {
  }

  lemma SameSize(e: Election, e': Election)
    requires Stable(e, e')
    ensures e'.ringSize == e.ringSize && e'.candidates == e.candidates
  {
  }

  lemma OnElection(env: Env, db: Db, used: set<string>, s: Session)
    requires SessionOk(env, db, used, s)
    ensures s.id in db.elections && Frozen(db.elections[s.id].status)
  {
  }

  lemma ServeKeeps(env: Env, w: World, call: Call)
    requires WorldOk(env, w) && Can(env, w, Serve(call))
    ensures WorldOk(env, Do(env, w, Serve(call)))
  {
    hide DbOk, SessionOk, Elections.Step, Stable, Ids, VotersOk;
    var db, db' := w.db, Elections.Step(env, w.db, call);
    ElectionSafety.StepKeeps(env, db, call);
    forall sid | sid in w.exports ensures SessionOk(env, db', w.used, w.exports[sid]) {
      OnElection(env, db, w.used, w.exports[sid]);
      ServeStable(env, db, call, w.exports[sid].id);
      SessionKept(env, db, db', w.used, w.used, w.exports[sid]);
    }
    forall id | id in w.forming ensures FormingOk(env, db', id, w.forming[id]) {
      EditsPrecedeFreeze(FormGroups, db.elections[id].status);
      ServeStable(env, db, call, id);
      SameSize(db.elections[id], db'.elections[id]);
    }
    forall id | id in db'.elections ensures Ids(db'.elections[id].rings) <= w.used {
      if id in db.elections {
        ServeKeepsRings(env, db, call, id);
      } else {
        NewRingless(env, db, call, id);
        NoIds();
      }
    }
  }

  // ---- Forming groups ----

  lemma {:induction false} NoSurvivors(rings: seq<RingRow>)
    requires forall k :: 0 <= k < |rings| ==> rings[k].published.None?
    ensures Survivors(rings) == []
    decreases |rings|
  {
    if rings != [] {
      NoSurvivors(rings[..|rings| - 1]);
    }
  }

  lemma {:induction false} Survives(rings: seq<RingRow>, k: nat) returns (j: nat)
    requires k < |rings| && rings[k].published.Some?
    ensures j < |Survivors(rings)| && Survivors(rings)[j] == rings[k]
    decreases |rings|
  {
    var n := |rings| - 1;
    if k == n {
      j := |Survivors(rings[..n])|;
    } else {
      j := Survives(rings[..n], k);
    }
  }

  /** New groups cover the roll, whatever groups were there before. */
  lemma FormedAnew(env: Env, voters: map<nat, bytes>, id: string, e: Election, ringIds: seq<string>, draws: seq<nat>)
    requires VotersOk(env, voters) && e.roll <= voters.Keys && FormReady(env, e) && Draws(draws, |e.roll|)
    requires |ringIds| == |Grouped(Electorate(voters, e.roll), draws, e.ringSize)| && RingIdsOk(ringIds)
    ensures var formed := Fresh(voters, e, ringIds, draws);
            && formed != [] && FormedOk(env, id, e.(rings := formed))
            && |formed| == |ringIds|
            && forall k :: 0 <= k < |formed| ==> formed[k].published.None? && formed[k].id == ringIds[k]
  {
    hide FormedOk, VotersOk, Electorate, Grouped, Draws, RingIdsOk;
    var bare := e.(rings := []);
    assert !SomePublished(bare);
    assert FormRingsIn(env, voters, bare, ringIds, draws).value == e.(rings := Fresh(voters, e, ringIds, draws));
    FormedCovers(env, voters, id, bare, ringIds, draws);
  }

  /** A published group has a member, and that member is in one of the new groups too: the insert is refused. */
  lemma PublishedRefusesInsert(env: Env, id: string, e: Election, formed: seq<RingRow>)
    requires FormedOk(env, id, e) && e.ringSize >= 2 && SomePublished(e)
    requires CoversExactly(env, MembersOf(formed), e.roll)
    ensures Conflicts(Survivors(e.rings), formed)
  {
    hide MembersOf, Survivors, Start, RingIdsFit, PublicationFits;
    var k :| 0 <= k < |e.rings| && e.rings[k].published.Some?;
    var j := Survives(e.rings, k);
    var v := e.rings[k].members[0].voter;
    RowAt(e.rings, k, 0);
    RowAt(Survivors(e.rings), j, 0);
    assert v in VotersIn(MembersOf(e.rings));
    assert v in VotersIn(MembersOf(Survivors(e.rings)));
    assert v in VotersIn(MembersOf(Survivors(e.rings))) * VotersIn(MembersOf(formed));
  }

  /** New rows are refused exactly when a group left has the index of a new one, or a voter would be in both. */
  lemma ConflictMeans(e: Election, kept: seq<RingRow>, formed: seq<RingRow>)
    ensures Conflicts(kept, formed) <==>
            || (exists i: nat, j: nat :: i < |kept| && j < |formed| && kept[i].index == formed[j].index)
            || (exists v :: Placed(e.(rings := kept), v) && Placed(e.(rings := formed), v))
  {
    hide MembersOf, VotersIn, Placed;
    forall v ensures Placed(e.(rings := kept), v) <==> v in VotersIn(MembersOf(kept)) {
      PlacedMeans(e.(rings := kept), v);
    }
    forall v ensures Placed(e.(rings := formed), v) <==> v in VotersIn(MembersOf(formed)) {
      PlacedMeans(e.(rings := formed), v);
    }
    if VotersIn(MembersOf(kept)) * VotersIn(MembersOf(formed)) != {} {
      var v :| v in VotersIn(MembersOf(kept)) * VotersIn(MembersOf(formed));
      assert Placed(e.(rings := kept), v) && Placed(e.(rings := formed), v);
    }
    if v :| Placed(e.(rings := kept), v) && Placed(e.(rings := formed), v) {
      assert v in VotersIn(MembersOf(kept)) * VotersIn(MembersOf(formed));
    }
  }

  lemma NoneClash(formed: seq<RingRow>)
    ensures !Conflicts([], formed)
  {
    assert MembersOf([]) == [];
  }

  /** The two steps of a formation, taken without interruption, are the whole call: possible exactly when it succeeds. */
  lemma FormUninterrupted(env: Env, w: World, id: string, ringIds: seq<string>, draws: seq<nat>)
    requires id in w.db.elections && id !in w.forming
    requires w.db.elections[id].roll <= w.db.voters.Keys && Draws(draws, |w.db.elections[id].roll|)
    requires 0 < w.db.elections[id].ringSize && |ringIds| == |w.db.elections[id].roll| / w.db.elections[id].ringSize
    requires RingIdsOk(ringIds) && forall i :: 0 <= i < |ringIds| ==> ringIds[i] !in w.used
    ensures Can(env, w, StartForm(id)) <==> Apply(env, w.db, FormRings(id, ringIds, draws)).Ok?
    ensures Can(env, w, StartForm(id)) ==>
            var mid := Do(env, w, StartForm(id));
            && Can(env, mid, FinishForm(id, ringIds, draws))
            && Do(env, mid, FinishForm(id, ringIds, draws)) ==
               w.(db := Elections.Step(env, w.db, FormRings(id, ringIds, draws)), used := w.used + set i | 0 <= i < |ringIds| :: ringIds[i])
  {
    hide Grouped, Electorate, Draws, RingIdsOk, Conflicts, NewRings, Survivors;
    var e := w.db.elections[id];
    FormMeans(env, w.db.voters, e, ringIds, draws);
    if Can(env, w, StartForm(id)) {
      var items := Electorate(w.db.voters, e.roll);
      GroupCount(items, draws, e.ringSize);
      NoSurvivors(e.rings);
      var formed := Fresh(w.db.voters, e, ringIds, draws);
      NoneClash(formed);
      assert [] + formed == formed;
      assert w.forming[id := w.db.voters] - {id} == w.forming;
    }
  }

  function Served(calls: seq<Call>): seq<Action> {
    if calls == [] then [] else [Serve(calls[0])] + Served(calls[1..])
  }

  /** With no formation under way the other calls run here as they do one at a time. */
  lemma {:induction false} CallsAreServed(env: Env, w: World, calls: seq<Call>)
    requires w.forming == map[] && forall i :: 0 <= i < |calls| ==> !calls[i].FormRings? && !calls[i].ExportManifest?
    ensures Legal(env, w, Served(calls))
    ensures After(env, w, Served(calls)) == w.(db := Run(env, w.db, calls))
    decreases |calls|
  {
    hide Elections.Step;
    if calls != [] {
      CallsAreServed(env, Do(env, w, Serve(calls[0])), calls[1..]);
      assert Served(calls)[1..] == Served(calls[1..]);
    }
  }

  /** While groups are being formed no call but a redemption gets at the election, and no second formation starts. */
  lemma FormationLocks(env: Env, w: World, id: string, call: Call)
    requires id in w.forming
    ensures !Can(env, w, StartForm(id))
    ensures ElectionNamed(call) == Some(id) && !call.Redeem? ==> !Can(env, w, Serve(call))
    ensures call.Approve? && call.rollOf == Some(id) ==> !Can(env, w, Serve(call))
    ensures Can(env, w, AbortForm(id)) && Do(env, w, AbortForm(id)) == w.(forming := w.forming - {id})
  {
  }

  /** A formation ends with its second step, whether the insert is refused or not; a refused one changes no table. */
  lemma FormationEnds(env: Env, w: World, id: string, ringIds: seq<string>, draws: seq<nat>)
    requires Can(env, w, FinishForm(id, ringIds, draws))
    ensures var w' := Do(env, w, FinishForm(id, ringIds, draws));
            var formed := Fresh(w.forming[id], w.db.elections[id], ringIds, draws);
            && w'.forming == w.forming - {id} && w'.exports == w.exports
            && (Conflicts(Survivors(w.db.elections[id].rings), formed) ==> w'.db == w.db)
  {
    hide Conflicts, Survivors, Fresh, Draws, RingIdsOk, Grouped, Electorate;
  }

  /**
   * An export that finds every group it read published returns; otherwise it goes on to publish exactly
   * when a super-admin asked for it and the guards passed, and is gone if not.
   */
  lemma CheckMeans(env: Env, w: World, sid: nat, passed: bool)
    requires Can(env, w, Check(sid, passed))
    ensures var s, w' := w.exports[sid], Do(env, w, Check(sid, passed));
            var groups := s.progress.groups;
            var manifest := Built(env, s.id, s.progress);
            && w'.db == w.db && w'.exports.Keys <= w.exports.Keys
            && (sid in w'.exports <==> (forall k :: 0 <= k < |groups| ==> groups[k].published) || (s.superAdmin && passed))
            && (sid in w'.exports && (forall k :: 0 <= k < |groups| ==> groups[k].published) ==> w'.exports[sid] == s.(progress := Returned(manifest)))
            && (sid in w'.exports && (exists k :: 0 <= k < |groups| && !groups[k].published) ==>
                  w'.exports[sid] == s.(progress := Marking(manifest, Unpublished(groups))))
  {
    hide Built, Unpublished;
    var groups := w.exports[sid].progress.groups;
    var todo := Unpublished(groups);
    if exists k :: 0 <= k < |groups| && !groups[k].published {
      var k :| 0 <= k < |groups| && !groups[k].published;
      assert groups[k].id in todo;
    }
    if todo != [] {
      assert todo[0] in todo;
    }
  }

  /** An export of nothing, or one that breaks off, is gone and has changed no table. */
  lemma ThrowsEnd(env: Env, w: World, sid: nat)
    ensures Can(env, w, Break(sid)) ==>
            Do(env, w, Break(sid)) == w.(exports := w.exports - {sid})
    ensures Can(env, w, Name(sid)) ==>
            (sid !in Do(env, w, Name(sid)).exports <==>
             w.exports[sid].progress.groups == [] || w.db.elections[w.exports[sid].id].candidates == map[])
  {
    hide CandidateRows;
  }

  ghost predicate MarkersAllowed(w: World) {
    forall sid :: sid in w.exports && w.exports[sid].progress.Marking? ==> w.exports[sid].superAdmin
  }

  /** In every run only exports that a super-admin asked for ever publish a group. */
  lemma {:induction false} OnlySuperAdminsPublish(env: Env, w: World, run: seq<Action>)
    requires MarkersAllowed(w) && Legal(env, w, run)
    ensures MarkersAllowed(After(env, w, run))
    decreases |run|
  {
    hide Can, Do;
    if run != [] {
      MarkerStep(env, w, run[0]);
      OnlySuperAdminsPublish(env, Do(env, w, run[0]), run[1..]);
    }
  }

  lemma MarkerStep(env: Env, w: World, a: Action)
    requires MarkersAllowed(w) && Can(env, w, a)
    ensures MarkersAllowed(Do(env, w, a))
  {
    hide Elections.Step, Fresh, Survivors, Conflicts, Draws, RingIdsOk, Grouped, Electorate, Built, Unpublished, CandidateRows, GroupsOf, KeysFor, Find, FormReady;
  }

  /** Replacing unpublished groups by new ones keeps the election's invariant. */
  lemma ReplacedOk(env: Env, voterIds: set<nat>, id: string, e: Election, formed: seq<RingRow>)
    requires ElectionOk(env, voterIds, id, e) && FormReady(env, e) && FormedOk(env, id, e.(rings := formed))
    ensures ElectionOk(env, voterIds, id, e.(rings := formed))
  {
    hide CandidatesFit, FormedOk;
    EditsPrecedeFreeze(FormGroups, e.status);
  }

  lemma FixedIsPublished(e: Election)
    requires Fixed(e)
    ensures SomePublished(e)
  {
    assert e.rings[0].published.Some?;
  }

  /** Exports that had read the replaced groups can only fail from here on. */
  lemma ReplacedProgress(env: Env, used: set<string>, ringIds: seq<string>, id: string, e: Election, formed: seq<RingRow>, p: Progress)
    requires ProgressOk(env, used, id, e, p) && !SomePublished(e) && Ids(e.rings) <= used
    requires |formed| == |ringIds| && forall k :: 0 <= k < |formed| ==> formed[k].id == ringIds[k] && ringIds[k] !in used
    ensures ProgressOk(env, used + set i | 0 <= i < |ringIds| :: ringIds[i], id, e.(rings := formed), p)
  {
    hide ManifestOf, CandidateRows;
    var e', used' := e.(rings := formed), used + set i | 0 <= i < |ringIds| :: ringIds[i];
    assert forall t :: t in used ==> t !in Ids(formed);
    if p.Returned? {
      FixedIsPublished(e);
    }
    if p.Listed? || p.Reading? {
      forall k | 0 <= k < |p.groups| ensures p.groups[k].id in used && !p.groups[k].published {
        if !Dead(used, e, p.groups) {
          assert p.groups[k].id == e.rings[k].id && e.rings[k].id in Ids(e.rings);
        }
      }
      assert Dead(used', e', p.groups);
    }
  }

  lemma FinishFormKeeps(env: Env, w: World, id: string, ringIds: seq<string>, draws: seq<nat>)
    requires WorldOk(env, w) && Can(env, w, FinishForm(id, ringIds, draws))
    ensures WorldOk(env, Do(env, w, FinishForm(id, ringIds, draws)))
  {
    hide SessionOk, VotersOk, ClaimsOk, ElectionOk, FormedOk, Ids, Electorate, Grouped, Draws, RingIdsOk, Blank, Conflicts, Survivors;
    var e, voters := w.db.elections[id], w.forming[id];
    var formed := Fresh(voters, e, ringIds, draws);
    FormedAnew(env, voters, id, e, ringIds, draws);
    if !Conflicts(Survivors(e.rings), formed) {
      ReplacedWhenFree(env, w, id, ringIds, draws);
    }
  }

  lemma OnlyUnpublished(env: Env, voterIds: set<nat>, id: string, e: Election, formed: seq<RingRow>)
    requires ElectionOk(env, voterIds, id, e) && FormedOk(env, id, e.(rings := formed))
    requires !Conflicts(Survivors(e.rings), formed)
    ensures !SomePublished(e) && Survivors(e.rings) == []
  {
    hide CandidatesFit, StageOk, Survivors, Conflicts, CoversExactly;
    if SomePublished(e) {
      PublishedRefusesInsert(env, id, e, formed);
    }
    NoSurvivors(e.rings);
  }

  /** The world with one election's groups replaced by new ones. */
  lemma ReplacedWorld(env: Env, w: World, w': World, id: string, ringIds: seq<string>, formed: seq<RingRow>)
    requires WorldOk(env, w) && id in w.db.elections
    requires var e := w.db.elections[id];
             && !SomePublished(e) && ElectionOk(env, w.db.voters.Keys, id, e.(rings := formed))
             && w' == World(w.db.(elections := w.db.elections[id := e.(rings := formed)]), w.exports, w.forming - {id},
                            w.used + set i | 0 <= i < |ringIds| :: ringIds[i])
    requires |formed| == |ringIds| && forall k :: 0 <= k < |formed| ==> formed[k].id == ringIds[k] && ringIds[k] !in w.used
    ensures WorldOk(env, w')
  {
    hide ProgressOk, VotersOk, ElectionOk, Blank;
    var e := w.db.elections[id];
    forall sid | sid in w'.exports ensures SessionOk(env, w'.db, w'.used, w'.exports[sid]) {
      var s := w.exports[sid];
      assert SessionOk(env, w.db, w.used, s);
      if s.id == id {
        ReplacedProgress(env, w.used, ringIds, id, e, formed, s.progress);
      } else {
        MoreUsed(env, w.used, w'.used, s.id, w.db.elections[s.id], s.progress);
      }
    }
    forall other | other in w'.db.elections ensures Ids(w'.db.elections[other].rings) <= w'.used {
      assert Ids(w.db.elections[other].rings) <= w.used;
    }
    forall other | other in w'.forming ensures FormingOk(env, w'.db, other, w'.forming[other]) {
      assert FormingOk(env, w.db, other, w.forming[other]);
    }
  }

  lemma ReplacedWhenFree(env: Env, w: World, id: string, ringIds: seq<string>, draws: seq<nat>)
    requires WorldOk(env, w) && Can(env, w, FinishForm(id, ringIds, draws))
    requires !Conflicts(Survivors(w.db.elections[id].rings), Fresh(w.forming[id], w.db.elections[id], ringIds, draws))
    ensures WorldOk(env, Do(env, w, FinishForm(id, ringIds, draws)))
  {
    hide SessionOk, VotersOk, ClaimsOk, ElectionOk, FormedOk, Fresh, Grouped, Electorate, Draws, RingIdsOk, Blank, Conflicts, Survivors, Ids;
    var e, voters := w.db.elections[id], w.forming[id];
    assert FormingOk(env, w.db, id, voters);
    var formed := Fresh(voters, e, ringIds, draws);
    FormedAnew(env, voters, id, e, ringIds, draws);
    OnlyUnpublished(env, w.db.voters.Keys, id, e, formed);
    ReplacedOk(env, w.db.voters.Keys, id, e, formed);
    assert Survivors(e.rings) + formed == formed;
    ReplacedWorld(env, w, Do(env, w, FinishForm(id, ringIds, draws)), id, ringIds, formed);
  }

  lemma MoreUsed(env: Env, used: set<string>, used': set<string>, id: string, e: Election, p: Progress)
    requires ProgressOk(env, used, id, e, p) && used <= used'
    ensures ProgressOk(env, used', id, e, p)
  {
    hide ManifestOf, CandidateRows, Ids;
  }

  // ---- Reading ----

  lemma ListOk(env: Env, used: set<string>, id: string, e: Election, p: Progress)
    requires ProgressOk(env, used, id, e, p) && p.Begun?
    ensures ProgressOk(env, used, id, e, Listed(p.row, GroupsOf(e.rings)))
  {
  }

  lemma NameOk(env: Env, used: set<string>, id: string, e: Election, p: Progress)
    requires ProgressOk(env, used, id, e, p) && p.Listed? && p.groups != []
    ensures ProgressOk(env, used, id, e, Reading(p.row, p.groups, CandidateRows(e.candidates), []))
  {
    hide CandidateRows, Ids;
  }

  lemma KeysOk(env: Env, used: set<string>, id: string, e: Election, p: Progress)
    requires ProgressOk(env, used, id, e, p) && p.Reading? && |p.keys| < |p.groups| && RingIdsFit(e.rings)
    ensures ProgressOk(env, used, id, e, p.(keys := p.keys + [KeysFor(e.rings, p.groups[|p.keys|].id)]))
  {
    hide CandidateRows, Ids;
    var n := |p.keys|;
    if Live(e, p.groups) {
      var at := Find(e.rings, p.groups[n].id);
      assert at.Some? && at.value == n;
    }
  }

  /** Read from the groups that are there, the manifest is the election's. */
  lemma BuiltIsManifest(env: Env, id: string, e: Election, p: Progress)
    requires p.Reading? && |p.keys| == |p.groups| && p.row == RowOf(e) && p.candidates == CandidateRows(e.candidates)
    requires Live(e, p.groups) && forall k :: 0 <= k < |p.keys| ==> p.keys[k] == RawRingOf(e.rings[k]).publicKeys
    ensures Built(env, id, p) == ManifestOf(env, id, e)
  {
    hide CandidateRows, DateText;
    assert Built(env, id, p).rings == RingRows(e.rings);
  }

  lemma CheckOk(env: Env, used: set<string>, id: string, e: Election, p: Progress)
    requires ProgressOk(env, used, id, e, p) && p.Reading? && |p.keys| == |p.groups| && Ids(e.rings) <= used
    ensures var todo := Unpublished(p.groups);
            ProgressOk(env, used, id, e, if todo == [] then Returned(Built(env, id, p)) else Marking(Built(env, id, p), todo))
  {
    hide ManifestOf, CandidateRows, Built, Unpublished;
    var todo := Unpublished(p.groups);
    if Dead(used, e, p.groups) {
      assert !p.groups[0].published && p.groups[0].id in todo;
    } else {
      BuiltIsManifest(env, id, e, p);
      forall k | 0 <= k < |e.rings| ensures e.rings[k].published.Some? || e.rings[k].id in todo {
        assert p.groups[k].published || p.groups[k].id in todo;
      }
      forall t | t in todo ensures t in used {
        var k :| 0 <= k < |p.groups| && !p.groups[k].published && p.groups[k].id == t;
        assert e.rings[k].id in Ids(e.rings);
      }
    }
  }

  predicate OnlyReads(a: Action) {
    a.List? || a.Name? || a.ReadKeys? || a.Check? || a.Break?
  }

  lemma ReadOk(env: Env, w: World, a: Action)
    requires WorldOk(env, w) && Can(env, w, a) && OnlyReads(a)
    ensures var exports := Do(env, w, a).exports;
            && (forall sid :: sid in exports && sid != a.sid ==> sid in w.exports && exports[sid] == w.exports[sid])
            && (a.sid in exports ==> exports[a.sid].id == w.exports[a.sid].id
                                     && SessionOk(env, w.db, w.used, exports[a.sid]))
  {
    hide DbOk, ProgressOk, Ids, FormingOk, Advanced;
    var s := w.exports[a.sid];
    assert SessionOk(env, w.db, w.used, s);
    KeysNamed(env, w.db, w.used, s);
    AdvancedOk(env, w.used, w.db.elections[s.id], w.exports, a);
  }

  /** A reading step leaves the other exports alone, and its own as it should be or gone. */
  lemma AdvancedOk(env: Env, used: set<string>, e: Election, exports: map<nat, Session>, a: Action)
    requires OnlyReads(a) && a.sid in exports && RingIdsFit(e.rings) && Ids(e.rings) <= used
    requires var p := exports[a.sid].progress;
             && (a.List? ==> p.Begun?) && (a.Name? ==> p.Listed?)
             && (a.ReadKeys? ==> p.Reading? && |p.keys| < |p.groups|) && (a.Check? ==> p.Reading? && |p.keys| == |p.groups|)
    requires ProgressOk(env, used, exports[a.sid].id, e, exports[a.sid].progress)
    ensures var exports' := Advanced(env, e, exports, a);
            && (forall sid :: sid in exports' && sid != a.sid ==> sid in exports && exports'[sid] == exports[sid])
            && (a.sid in exports' ==> exports'[a.sid].id == exports[a.sid].id
                                      && ProgressOk(env, used, exports'[a.sid].id, e, exports'[a.sid].progress))
  {
    hide ProgressOk, Ids, CandidateRows, Built, Unpublished, GroupsOf, KeysFor, RingIdsFit;
    var s := exports[a.sid];
    match a
    case List(_) => ListOk(env, used, s.id, e, s.progress);
    case Name(_) => if s.progress.groups != [] { NameOk(env, used, s.id, e, s.progress); }
    case ReadKeys(_) => KeysOk(env, used, s.id, e, s.progress);
    case Check(_, _) => CheckOk(env, used, s.id, e, s.progress);
    case Break(_) =>
  }

  /** Group ids are distinct within an election. */
  lemma KeysNamed(env: Env, db: Db, used: set<string>, s: Session)
    requires DbOk(env, db) && SessionOk(env, db, used, s)
    ensures RingIdsFit(db.elections[s.id].rings)
  {
    hide VotersOk, ClaimsOk, Blank, CandidatesFit, CoversExactly, PublicationFits, ProgressOk, StageOk;
    assert ElectionOk(env, db.voters.Keys, s.id, db.elections[s.id]);
  }

  lemma ReadKeeps(env: Env, w: World, a: Action)
    requires WorldOk(env, w) && Can(env, w, a) && (OnlyReads(a) || a.Begin?)
    ensures WorldOk(env, Do(env, w, a))
  {
    hide DbOk, SessionOk, FormingOk, Ids, Advanced;
    if OnlyReads(a) {
      ReadOk(env, w, a);
    } else {
      BeginOk(env, w, a);
    }
  }

  lemma BeginOk(env: Env, w: World, a: Action)
    requires Can(env, w, a) && a.Begin?
    ensures SessionOk(env, w.db, w.used, Session(a.id, a.superAdmin, Begun(RowOf(w.db.elections[a.id]))))
  {
    EditsPrecedeFreeze(ExportChainManifest, w.db.elections[a.id].status);
  }

  // ---- Publishing ----

  /** Publishing a group under the digest of the election's manifest changes nothing the manifest shows. */
  lemma PublishedStable(env: Env, id: string, e: Election, at: nat, digest: string)
    requires at < |e.rings| && e.rings[at].published.None? && Frozen(e.status)
    ensures Stable(e, Published(e, at, digest))
    ensures Published(e, at, digest).status == e.status && Published(e, at, digest).roll == e.roll
    ensures ManifestOf(env, id, Published(e, at, digest)) == ManifestOf(env, id, e)
    ensures MembersOf(Published(e, at, digest).rings) == MembersOf(e.rings)
    ensures Ids(Published(e, at, digest).rings) == Ids(e.rings)
  {
    hide ManifestOf, MembersOf, Ids;
    SameManifest(env, id, e, Published(e, at, digest));
    StableIds(e, Published(e, at, digest));
  }

  lemma PublishedOk(env: Env, voterIds: set<nat>, id: string, e: Election, at: nat)
    requires ElectionOk(env, voterIds, id, e) && at < |e.rings| && e.rings[at].published.None? && Frozen(e.status)
    ensures ElectionOk(env, voterIds, id, Published(e, at, env.digest(ManifestOf(env, id, e))))
  {
    hide CandidatesFit, CoversExactly, ManifestOf, Blank;
    PublishedStable(env, id, e, at, env.digest(ManifestOf(env, id, e)));
  }

  /** An update that finds its group unpublished belongs to an export of the manifest there is. */
  lemma MarkerIsRight(env: Env, used: set<string>, id: string, e: Election, p: Progress)
    requires p.Marking? && MarkingOk(env, used, id, e, p)
    requires Find(e.rings, p.todo[0]).Some? && e.rings[Find(e.rings, p.todo[0]).value].published.None?
    ensures e.rings != [] && p.manifest == ManifestOf(env, id, e)
    ensures forall k :: 0 <= k < |e.rings| ==> e.rings[k].published.Some? || e.rings[k].id in p.todo
  {
    hide ManifestOf;
    assert p.todo[0] in Ids(e.rings);
  }

  lemma MarkedProgress(env: Env, used: set<string>, id: string, e: Election, p: Progress)
    requires p.Marking? && MarkingOk(env, used, id, e, p) && Frozen(e.status) && RingIdsFit(e.rings)
    requires Find(e.rings, p.todo[0]).Some? && e.rings[Find(e.rings, p.todo[0]).value].published.None?
    ensures var e' := Published(e, Find(e.rings, p.todo[0]).value, env.digest(p.manifest));
            ProgressOk(env, used, id, e', if |p.todo| == 1 then Returned(p.manifest) else p.(todo := p.todo[1..]))
  {
    hide ManifestOf, Ids;
    var at := Find(e.rings, p.todo[0]).value;
    var e' := Published(e, at, env.digest(p.manifest));
    MarkerIsRight(env, used, id, e, p);
    PublishedStable(env, id, e, at, env.digest(p.manifest));
    forall k | 0 <= k < |e'.rings| ensures e'.rings[k].published.Some? || e'.rings[k].id in p.todo[1..] {
      if k != at {
        assert e.rings[k].published.Some? || e.rings[k].id in p.todo;
        assert p.todo == [p.todo[0]] + p.todo[1..];
      }
    }
  }

  lemma MarkKeeps(env: Env, w: World, sid: nat)
    requires WorldOk(env, w) && Can(env, w, Mark(sid))
    ensures WorldOk(env, Do(env, w, Mark(sid)))
  {
    hide ProgressOk, VotersOk, ElectionOk, Blank, Published, ManifestOf, Ids, RingIdsFit, MarkingOk;
    var s := w.exports[sid];
    assert SessionOk(env, w.db, w.used, s);
    var e, p := w.db.elections[s.id], s.progress;
    var at := Find(e.rings, p.todo[0]);
    if at.Some? && e.rings[at.value].published.None? {
      KeysNamed(env, w.db, w.used, s);
      MarkingOf(env, w.used, s.id, e, p);
      MarkerIsRight(env, w.used, s.id, e, p);
      MarkedProgress(env, w.used, s.id, e, p);
      PublishedOk(env, w.db.voters.Keys, s.id, e, at.value);
      var e' := Published(e, at.value, env.digest(p.manifest));
      PublishedStable(env, s.id, e, at.value, env.digest(p.manifest));
      MarkedWorld(env, w, sid, e', if |p.todo| == 1 then Returned(p.manifest) else p.(todo := p.todo[1..]));
    }
  }

  lemma MarkingOf(env: Env, used: set<string>, id: string, e: Election, p: Progress)
    requires p.Marking? && ProgressOk(env, used, id, e, p)
    ensures MarkingOk(env, used, id, e, p)
  {
  }

  /** The world with one group published and its exporter moved on. */
  lemma MarkedWorld(env: Env, w: World, sid: nat, e': Election, p': Progress)
    requires WorldOk(env, w) && sid in w.exports && w.exports[sid].id in w.db.elections
    requires var id := w.exports[sid].id;
             && Stable(w.db.elections[id], e') && e'.status == w.db.elections[id].status && e'.roll == w.db.elections[id].roll
             && Ids(e'.rings) == Ids(w.db.elections[id].rings)
             && ElectionOk(env, w.db.voters.Keys, id, e') && ProgressOk(env, w.used, id, e', p')
    ensures WorldOk(env, w.(db := w.db.(elections := w.db.elections[w.exports[sid].id := e']), exports := To(w.exports, sid, p')))
  {
    hide ProgressOk, VotersOk, ElectionOk, Blank, Ids;
    var id := w.exports[sid].id;
    var w' := w.(db := w.db.(elections := w.db.elections[id := e']), exports := To(w.exports, sid, p'));
    forall t | t in w'.exports ensures SessionOk(env, w'.db, w'.used, w'.exports[t]) {
      if t != sid {
        var s := w.exports[t];
        assert SessionOk(env, w.db, w.used, s);
        if s.id == id {
          ProgressKept(env, w.used, w.used, id, w.db.elections[id], e', s.progress);
        }
      }
    }
    forall other | other in w'.forming ensures FormingOk(env, w'.db, other, w'.forming[other]) {
      assert FormingOk(env, w.db, other, w.forming[other]);
    }
  }

  // ---- Whole runs ----

  lemma FormLockKeeps(env: Env, w: World, a: Action)
    requires WorldOk(env, w) && Can(env, w, a) && (a.StartForm? || a.AbortForm?)
    ensures WorldOk(env, Do(env, w, a))
  {
    hide VotersOk, ElectionOk, SessionOk, Blank, Ids, ClaimsOk;
  }

  lemma DoKeeps(env: Env, w: World, a: Action)
    requires WorldOk(env, w) && Can(env, w, a)
    ensures WorldOk(env, Do(env, w, a))
  {
    hide WorldOk, Can, Do;
    match a
    case Serve(call) => ServeKeeps(env, w, call);
    case StartForm(_) => FormLockKeeps(env, w, a);
    case AbortForm(_) => FormLockKeeps(env, w, a);
    case FinishForm(id, ringIds, draws) => FinishFormKeeps(env, w, id, ringIds, draws);
    case Mark(sid) => MarkKeeps(env, w, sid);
    case _ => ReadKeeps(env, w, a);
  }

  lemma {:induction false} RunKeepsWorld(env: Env, w: World, run: seq<Action>)
    requires WorldOk(env, w) && Legal(env, w, run)
    ensures WorldOk(env, After(env, w, run))
    decreases |run|
  {
    hide WorldOk, Can, Do;
    if run != [] {
      DoKeeps(env, w, run[0]);
      RunKeepsWorld(env, Do(env, w, run[0]), run[1..]);
    }
  }

  lemma StartOk(env: Env)
    ensures WorldOk(env, START)
  {
    EmptyOk(env);
  }

  /**
   * Exports agree. However exports, group formation and other calls interleave, and wherever exports
   * break off, every export that returned gave the manifest the election still has, with every group
   * published under its digest; so all that were returned for one election are the same.
   */
  lemma ExportsAgree(env: Env, run: seq<Action>)
    requires Legal(env, START, run)
    ensures var now := After(env, START, run);
            && DbOk(env, now.db)
            && (forall sid :: sid in now.exports && now.exports[sid].progress.Returned? ==>
                  var s := now.exports[sid];
                  && s.id in now.db.elections && now.db.elections[s.id].rings != []
                  && s.progress.manifest == ManifestOf(env, s.id, now.db.elections[s.id])
                  && forall k :: 0 <= k < |now.db.elections[s.id].rings| ==>
                       now.db.elections[s.id].rings[k].published == Some(env.digest(s.progress.manifest)))
            && (forall s, t ::
                  (&& s in now.exports && t in now.exports && now.exports[s].id == now.exports[t].id
                   && now.exports[s].progress.Returned? && now.exports[t].progress.Returned?) ==>
                    now.exports[s].progress.manifest == now.exports[t].progress.manifest)
  {
    hide DbOk, ManifestOf;
    StartOk(env);
    RunKeepsWorld(env, START, run);
    var now := After(env, START, run);
    forall sid | sid in now.exports && now.exports[sid].progress.Returned?
      ensures var s := now.exports[sid];
              && s.id in now.db.elections && Fixed(now.db.elections[s.id])
              && s.progress.manifest == ManifestOf(env, s.id, now.db.elections[s.id])
              && forall k :: 0 <= k < |now.db.elections[s.id].rings| ==>
                   now.db.elections[s.id].rings[k].published == Some(env.digest(s.progress.manifest))
    {
      assert SessionOk(env, now.db, now.used, now.exports[sid]);
      FixedDigests(env, now.db, now.exports[sid].id);
    }
  }

  // ---- From the first group on ----

  lemma DoStable(env: Env, w: World, a: Action, id: string)
    requires WorldOk(env, w) && Can(env, w, a) && id in w.db.elections && SomePublished(w.db.elections[id])
    ensures id in Do(env, w, a).db.elections && Stable(w.db.elections[id], Do(env, w, a).db.elections[id])
  {
    hide DbOk, SessionOk, FormingOk, Ids, Fresh, Elections.Step, ManifestOf, Conflicts, Survivors, Draws, Grouped, Electorate, RingIdsOk;
    var e := w.db.elections[id];
    PublishedIsFrozen(env, w.db, id);
    match a
    case Serve(call) => ServeStable(env, w.db, call, id);
    case FinishForm(formId, ringIds, draws) => PublishedIsNotReplaced(env, w, id, formId, ringIds, draws);
    case Mark(sid) => MarkStable(env, w, sid, id);
    case _ =>
  }

  lemma PublishedIsFrozen(env: Env, db: Db, id: string)
    requires DbOk(env, db) && id in db.elections && SomePublished(db.elections[id])
    ensures Frozen(db.elections[id].status)
  {
    hide VotersOk, ClaimsOk, Blank, CandidatesFit, FormedOk;
    assert ElectionOk(env, db.voters.Keys, id, db.elections[id]);
  }

  lemma PublishedIsNotReplaced(env: Env, w: World, id: string, formId: string, ringIds: seq<string>, draws: seq<nat>)
    requires WorldOk(env, w) && Can(env, w, FinishForm(formId, ringIds, draws))
    requires id in w.db.elections && SomePublished(w.db.elections[id])
    ensures var w' := Do(env, w, FinishForm(formId, ringIds, draws));
            id in w'.db.elections && w'.db.elections[id] == w.db.elections[id]
  {
    hide SessionOk, VotersOk, ClaimsOk, ElectionOk, FormedOk, Fresh, Grouped, Electorate, Draws, RingIdsOk, Blank, Conflicts, Survivors, Ids, SomePublished;
    if formId == id {
      var e, voters := w.db.elections[id], w.forming[id];
      assert FormingOk(env, w.db, id, voters);
      var formed := Fresh(voters, e, ringIds, draws);
      FormedAnew(env, voters, id, e, ringIds, draws);
      if !Conflicts(Survivors(e.rings), formed) {
        OnlyUnpublished(env, w.db.voters.Keys, id, e, formed);
      }
    }
  }

  lemma MarkStable(env: Env, w: World, sid: nat, id: string)
    requires Can(env, w, Mark(sid)) && id in w.db.elections && Frozen(w.db.elections[id].status)
    ensures id in Do(env, w, Mark(sid)).db.elections && Stable(w.db.elections[id], Do(env, w, Mark(sid)).db.elections[id])
  {
    hide Published, ManifestOf, MembersOf, Ids, Stable;
    var s := w.exports[sid];
    var e := w.db.elections[s.id];
    var at := Find(e.rings, s.progress.todo[0]);
    UnchangedStable(w.db.elections[id]);
    if at.Some? && e.rings[at.value].published.None? && s.id == id {
      PublishedStable(env, id, e, at.value, env.digest(s.progress.manifest));
    }
  }

  lemma UnchangedStable(e: Election)
    requires Frozen(e.status)
    ensures Stable(e, e)
  {
  }

  lemma StableOn(env: Env, id: string, a: Election, b: Election, c: Election)
    requires Stable(a, b) && Stable(b, c)
    ensures Stable(a, c)
  {
  }

  lemma StablePublished(e: Election, e': Election)
    requires Stable(e, e') && SomePublished(e)
    ensures SomePublished(e')
  {
    var k :| 0 <= k < |e.rings| && e.rings[k].published.Some?;
    assert e'.rings[k].published.Some?;
  }

  lemma {:induction false} RunStable(env: Env, w: World, run: seq<Action>, id: string)
    requires WorldOk(env, w) && Legal(env, w, run) && id in w.db.elections && SomePublished(w.db.elections[id])
    ensures id in After(env, w, run).db.elections && Stable(w.db.elections[id], After(env, w, run).db.elections[id])
    decreases |run|
  {
    hide DbOk, SessionOk, FormingOk, Ids, Can, Do, Stable, SomePublished;
    if run == [] {
      PublishedIsFrozen(env, w.db, id);
      UnchangedStable(w.db.elections[id]);
    } else {
      var w1 := Do(env, w, run[0]);
      DoStable(env, w, run[0], id);
      DoKeeps(env, w, run[0]);
      StablePublished(w.db.elections[id], w1.db.elections[id]);
      RunStable(env, w1, run[1..], id);
      StableOn(env, id, w.db.elections[id], w1.db.elections[id], After(env, w, run).db.elections[id]);
    }
  }

  /**
   * The manifest is fixed from the moment its first group is published, even by an export that then
   * breaks off: whatever follows, it keeps its content, and no group keeps any other digest.
   */
  lemma FirstGroupFixesManifest(env: Env, first: seq<Action>, second: seq<Action>, id: string)
    requires Legal(env, START, first) && Legal(env, After(env, START, first), second)
    requires id in After(env, START, first).db.elections && SomePublished(After(env, START, first).db.elections[id])
    ensures var then', now := After(env, START, first), After(env, After(env, START, first), second);
            && id in now.db.elections
            && ManifestOf(env, id, now.db.elections[id]) == ManifestOf(env, id, then'.db.elections[id])
            && forall k :: 0 <= k < |now.db.elections[id].rings| && now.db.elections[id].rings[k].published.Some? ==>
                 now.db.elections[id].rings[k].published == Some(env.digest(ManifestOf(env, id, then'.db.elections[id])))
  {
    hide ManifestOf, Legal, After, SomePublished, SessionOk, FormingOk, Ids;
    var w, now := After(env, START, first), After(env, After(env, START, first), second);
    StartOk(env);
    RunKeepsWorld(env, START, first);
    RunKeepsWorld(env, w, second);
    RunStable(env, w, second, id);
    SameManifest(env, id, w.db.elections[id], now.db.elections[id]);
    DigestsFit(env, now.db, id);
  }

  lemma DigestsFit(env: Env, db: Db, id: string)
    requires DbOk(env, db) && id in db.elections
    ensures PublicationFits(env, id, db.elections[id])
  {
    hide VotersOk, ClaimsOk, Blank, CandidatesFit, CoversExactly, RingIdsFit, StageOk, ManifestOf;
    assert ElectionOk(env, db.voters.Keys, id, db.elections[id]);
  }

  // ---- An export that nothing interrupts ----

  lemma LegalStep(env: Env, w: World, a: Action, rest: seq<Action>)
    requires Can(env, w, a) && Legal(env, Do(env, w, a), rest)
    ensures Legal(env, w, [a] + rest) && After(env, w, [a] + rest) == After(env, Do(env, w, a), rest)
  {
    hide Can, Do;
    assert ([a] + rest)[1..] == rest;
  }

  lemma {:induction false} LegalJoin(env: Env, w: World, first: seq<Action>, second: seq<Action>)
    requires Legal(env, w, first) && Legal(env, After(env, w, first), second)
    ensures Legal(env, w, first + second) && After(env, w, first + second) == After(env, After(env, w, first), second)
    decreases |first|
  {
    hide Can, Do;
    if first == [] {
      assert first + second == second;
    } else {
      LegalJoin(env, Do(env, w, first[0]), first[1..], second);
      LegalStep(env, w, first[0], first[1..] + second);
      assert [first[0]] + (first[1..] + second) == first + second;
    }
  }

  /** The session at sid has come this far; everything else is as in w. */
  function At(w: World, sid: nat, s: Session): World {
    w.(exports := w.exports[sid := s])
  }

  function AllKeys(rings: seq<RingRow>): seq<seq<bytes>> {
    seq(|rings|, k requires 0 <= k < |rings| => RawRingOf(rings[k]).publicKeys)
  }

  lemma {:induction false} ReadAll(env: Env, w: World, sid: nat, s: Session, n: nat) returns (run: seq<Action>)
    requires s.id in w.db.elections && s.progress.Reading?
    requires var e := w.db.elections[s.id];
             RingIdsFit(e.rings) && s.progress.groups == GroupsOf(e.rings) && n <= |e.rings| && s.progress.keys == AllKeys(e.rings)[..n]
    ensures Legal(env, At(w, sid, s), run)
    ensures After(env, At(w, sid, s), run) == At(w, sid, s.(progress := s.progress.(keys := AllKeys(w.db.elections[s.id].rings))))
    decreases |w.db.elections[s.id].rings| - n
  {
    hide AllKeys, GroupsOf, Legal, After;
    var e, p, here := w.db.elections[s.id], s.progress, At(w, sid, s);
    KeysLength(e.rings);
    if n == |e.rings| {
      assert AllKeys(e.rings)[..n] == AllKeys(e.rings);
      assert s == s.(progress := p.(keys := AllKeys(e.rings)));
      run := [];
      Stay(env, here);
    } else {
      var next := s.(progress := p.(keys := AllKeys(e.rings)[..n + 1]));
      ReadNext(env, w, sid, s, n);
      assert At(here, sid, next) == At(w, sid, next);
      var rest := ReadAll(env, w, sid, next, n + 1);
      LegalStep(env, here, ReadKeys(sid), rest);
      run := [ReadKeys(sid)] + rest;
    }
  }

  lemma Stay(env: Env, w: World)
    ensures Legal(env, w, []) && After(env, w, []) == w
  {
  }

  lemma KeysLength(rings: seq<RingRow>)
    ensures |AllKeys(rings)| == |rings| && forall k :: 0 <= k < |rings| ==> AllKeys(rings)[k] == RawRingOf(rings[k]).publicKeys
  {
  }

  lemma ReadNext(env: Env, w: World, sid: nat, s: Session, n: nat)
    requires s.id in w.db.elections && s.progress.Reading?
    requires var e := w.db.elections[s.id];
             RingIdsFit(e.rings) && s.progress.groups == GroupsOf(e.rings) && n < |e.rings|
             && n < |AllKeys(e.rings)| && s.progress.keys == AllKeys(e.rings)[..n]
    ensures Can(env, At(w, sid, s), ReadKeys(sid))
    ensures Do(env, At(w, sid, s), ReadKeys(sid)) ==
            At(w, sid, s.(progress := s.progress.(keys := AllKeys(w.db.elections[s.id].rings)[..n + 1])))
  {
    hide AllKeys;
    var e, p := w.db.elections[s.id], s.progress;
    KeysLength(e.rings);
    var at := Find(e.rings, p.groups[n].id);
    assert at.Some? && at.value == n;
    assert AllKeys(e.rings)[..n + 1] == AllKeys(e.rings)[..n] + [AllKeys(e.rings)[n]];
    var here := At(w, sid, s);
    assert here.exports[sid := s.(progress := p.(keys := AllKeys(e.rings)[..n + 1]))]
        == w.exports[sid := s.(progress := p.(keys := AllKeys(e.rings)[..n + 1]))];
  }

  /** Publishing the first group on the list of unpublished ones takes it off that list. */
  lemma {:induction false} FirstIsNext(rings: seq<RingRow>, digest: string)
    requires RingIdsFit(rings) && Unpublished(GroupsOf(rings)) != []
    ensures var todo, at := Unpublished(GroupsOf(rings)), Find(rings, Unpublished(GroupsOf(rings))[0]);
            && at.Some? && rings[at.value].published.None?
            && Unpublished(GroupsOf(rings[at.value := rings[at.value].(published := Some(digest))])) == todo[1..]
    decreases |rings|
  {
    hide GroupsOf, Unpublished, Find, Blank;
    LastListed(rings);
    var n := |rings| - 1;
    var front, todo := rings[..n], Unpublished(GroupsOf(rings));
    var at := Find(rings, todo[0]);
    if Unpublished(GroupsOf(front)) == [] {
      assert at == Some(n);
      var rings' := rings[n := rings[n].(published := Some(digest))];
      LastListed(rings');
      assert rings'[..n] == front;
    } else {
      FirstIsNext(front, digest);
      var inFront := Find(front, todo[0]).value;
      assert rings[inFront].id == todo[0] && at == Some(inFront);
      var rings' := rings[inFront := rings[inFront].(published := Some(digest))];
      LastListed(rings');
      assert rings'[..n] == front[inFront := front[inFront].(published := Some(digest))];
    }
  }

  lemma LastListed(rings: seq<RingRow>)
    ensures rings == [] ==> Unpublished(GroupsOf(rings)) == []
    ensures rings != [] ==>
              var n := |rings| - 1;
              Unpublished(GroupsOf(rings)) == Unpublished(GroupsOf(rings[..n])) + if rings[n].published.Some? then [] else [rings[n].id]
  {
    if rings != [] {
      var n := |rings| - 1;
      assert GroupsOf(rings)[..n] == GroupsOf(rings[..n]);
    }
  }

  lemma SamePublish(rings: seq<RingRow>, at: nat, digest: string)
    requires at < |rings| && rings[at].published.None?
    ensures Publish(rings[at := rings[at].(published := Some(digest))], digest) == Publish(rings, digest)
  {
  }

  lemma OpenIsListed(rings: seq<RingRow>, k: nat)
    requires k < |rings| && rings[k].published.None?
    ensures rings[k].id in Unpublished(GroupsOf(rings))
  {
    hide Unpublished;
    assert !GroupsOf(rings)[k].published;
  }

  lemma AllAlready(rings: seq<RingRow>, digest: string)
    requires Unpublished(GroupsOf(rings)) == []
    ensures Publish(rings, digest) == rings && forall k :: 0 <= k < |rings| ==> rings[k].published.Some?
  {
    hide Unpublished;
    forall k | 0 <= k < |rings| ensures rings[k].published.Some? {
      if rings[k].published.None? {
        OpenIsListed(rings, k);
      }
    }
  }

  lemma {:induction false} MarkAll(env: Env, w: World, sid: nat, s: Session) returns (run: seq<Action>)
    requires s.id in w.db.elections && s.progress.Marking? && RingIdsFit(w.db.elections[s.id].rings)
    requires s.progress.todo == Unpublished(GroupsOf(w.db.elections[s.id].rings)) && s.progress.todo != []
    ensures Legal(env, At(w, sid, s), run)
    ensures var e, m := w.db.elections[s.id], s.progress.manifest;
            After(env, At(w, sid, s), run) ==
            At(w.(db := w.db.(elections := w.db.elections[s.id := e.(rings := Publish(e.rings, env.digest(m)))])), sid, s.(progress := Returned(m)))
    decreases |s.progress.todo|
  {
    hide Legal, After, Publish, GroupsOf, Unpublished, Can, Do;
    var e, p, here := w.db.elections[s.id], s.progress, At(w, sid, s);
    var digest := env.digest(p.manifest);
    FirstIsNext(e.rings, digest);
    var at := Find(e.rings, p.todo[0]).value;
    SamePublish(e.rings, at, digest);
    var e' := Published(e, at, digest);
    var w' := w.(db := w.db.(elections := w.db.elections[s.id := e']));
    var next := s.(progress := if |p.todo| == 1 then Returned(p.manifest) else p.(todo := p.todo[1..]));
    MarkNext(env, w, sid, s);
    assert e'.rings == e.rings[at := e.rings[at].(published := Some(digest))];
    if |p.todo| == 1 {
      AllAlready(e'.rings, digest);
      assert e' == e.(rings := Publish(e.rings, digest));
      Stay(env, At(w', sid, next));
      LegalStep(env, here, Mark(sid), []);
      run := [Mark(sid)] + [];
    } else {
      StillDistinct(e, at, digest);
      var rest := MarkAll(env, w', sid, next);
      assert e'.(rings := Publish(e'.rings, digest)) == e.(rings := Publish(e.rings, digest));
      assert w'.db.elections[s.id := e.(rings := Publish(e.rings, digest))] == w.db.elections[s.id := e.(rings := Publish(e.rings, digest))];
      LegalStep(env, here, Mark(sid), rest);
      run := [Mark(sid)] + rest;
    }
  }

  lemma StillDistinct(e: Election, at: nat, digest: string)
    requires at < |e.rings| && RingIdsFit(e.rings)
    ensures RingIdsFit(Published(e, at, digest).rings)
  {
    hide Blank;
  }

  lemma MarkNext(env: Env, w: World, sid: nat, s: Session)
    requires s.id in w.db.elections && s.progress.Marking? && s.progress.todo != []
    requires var at := Find(w.db.elections[s.id].rings, s.progress.todo[0]);
             at.Some? && w.db.elections[s.id].rings[at.value].published.None?
    ensures Can(env, At(w, sid, s), Mark(sid))
    ensures var e, p := w.db.elections[s.id], s.progress;
            var e' := Published(e, Find(e.rings, p.todo[0]).value, env.digest(p.manifest));
            Do(env, At(w, sid, s), Mark(sid)) ==
            At(w.(db := w.db.(elections := w.db.elections[s.id := e'])), sid,
               s.(progress := if |p.todo| == 1 then Returned(p.manifest) else p.(todo := p.todo[1..])))
  {
    hide Published, Find;
    var e, p := w.db.elections[s.id], s.progress;
    var next := s.(progress := if |p.todo| == 1 then Returned(p.manifest) else p.(todo := p.todo[1..]));
    assert w.exports[sid := s][sid := next] == w.exports[sid := next];
  }

  /** Reading the tables: the three queries, then the members of each group. */
  lemma ReadTables(env: Env, w: World, sid: nat, id: string, superAdmin: bool) returns (run: seq<Action>)
    requires sid !in w.exports && id in w.db.elections && w.db.elections[id].status in OperationStates(ExportChainManifest)
    requires w.db.elections[id].rings != [] && |w.db.elections[id].candidates| > 0 && RingIdsFit(w.db.elections[id].rings)
    ensures Legal(env, w, run)
    ensures var e := w.db.elections[id];
            After(env, w, run) ==
            At(w, sid, Session(id, superAdmin, Reading(RowOf(e), GroupsOf(e.rings), CandidateRows(e.candidates), AllKeys(e.rings))))
  {
    hide GroupsOf, CandidateRows, AllKeys, Legal, After, RingIdsFit;
    var e := w.db.elections[id];
    var s1 := Session(id, superAdmin, Begun(RowOf(e)));
    var s2 := s1.(progress := Listed(RowOf(e), GroupsOf(e.rings)));
    var s3 := s1.(progress := Reading(RowOf(e), GroupsOf(e.rings), CandidateRows(e.candidates), []));
    KeysLength(e.rings);
    assert Do(env, w, Begin(sid, id, superAdmin)) == At(w, sid, s1);
    assert w.exports[sid := s1][sid := s2] == w.exports[sid := s2] && w.exports[sid := s2][sid := s3] == w.exports[sid := s3];
    assert Do(env, At(w, sid, s1), List(sid)) == At(w, sid, s2);
    assert |GroupsOf(e.rings)| == |e.rings|;
    assert Do(env, At(w, sid, s2), Name(sid)) == At(w, sid, s3);
    assert s3.progress.keys == AllKeys(e.rings)[..0];
    var rest := ReadAll(env, w, sid, s3, 0);
    LegalStep(env, At(w, sid, s2), Name(sid), rest);
    LegalStep(env, At(w, sid, s1), List(sid), [Name(sid)] + rest);
    LegalStep(env, w, Begin(sid, id, superAdmin), [List(sid)] + ([Name(sid)] + rest));
    run := [Begin(sid, id, superAdmin)] + ([List(sid)] + ([Name(sid)] + rest));
  }

  /**
   * The steps add up to the call: an export that nothing interrupts returns what the atomic call
   * returns and leaves the tables as that call leaves them.
   */
  lemma ExportUninterrupted(env: Env, w: World, sid: nat, id: string, superAdmin: bool) returns (run: seq<Action>)
    requires WorldOk(env, w) && sid !in w.exports && Exported(env, w.db, id, superAdmin).Some?
    ensures Legal(env, w, run)
    ensures After(env, w, run) ==
            At(w.(db := Elections.Step(env, w.db, ExportManifest(id, superAdmin))), sid,
               Session(id, superAdmin, Returned(Exported(env, w.db, id, superAdmin).value)))
  {
    hide DbOk, SessionOk, FormingOk, Ids, ManifestOf, PublishGuards, Legal, After, Publish, GroupsOf, Unpublished, CandidateRows, AllKeys, Built, Can, Do;
    var e := w.db.elections[id];
    IdsFit(env, w.db, id);
    var read := ReadTables(env, w, sid, id, superAdmin);
    var s := Session(id, superAdmin, Reading(RowOf(e), GroupsOf(e.rings), CandidateRows(e.candidates), AllKeys(e.rings)));
    KeysLength(e.rings);
    ReadIsManifest(env, id, e, s.progress);
    var m, todo := ManifestOf(env, id, e), Unpublished(GroupsOf(e.rings));
    if todo != [] {
      SomeToPublish(e.rings);
    }
    CheckNext(env, w, sid, s, m);
    if todo == [] {
      AllAlready(e.rings, "");
      assert w.db.elections[id := e] == w.db.elections;
      Stay(env, At(w, sid, s.(progress := Returned(m))));
      LegalStep(env, At(w, sid, s), Check(sid, true), []);
      LegalJoin(env, w, read, [Check(sid, true)] + []);
      run := read + ([Check(sid, true)] + []);
    } else {
      var marks := MarkAll(env, w, sid, s.(progress := Marking(m, todo)));
      LegalStep(env, At(w, sid, s), Check(sid, true), marks);
      LegalJoin(env, w, read, [Check(sid, true)] + marks);
      run := read + ([Check(sid, true)] + marks);
    }
  }

  lemma IdsFit(env: Env, db: Db, id: string)
    requires DbOk(env, db) && id in db.elections
    ensures RingIdsFit(db.elections[id].rings)
  {
    hide VotersOk, ClaimsOk, Blank, CandidatesFit, CoversExactly, PublicationFits, StageOk;
    assert ElectionOk(env, db.voters.Keys, id, db.elections[id]);
  }

  lemma SomeToPublish(rings: seq<RingRow>)
    requires Unpublished(GroupsOf(rings)) != []
    ensures exists k :: 0 <= k < |rings| && rings[k].published.None?
  {
    var t := Unpublished(GroupsOf(rings))[0];
    assert t in Unpublished(GroupsOf(rings));
    var k :| 0 <= k < |rings| && !GroupsOf(rings)[k].published && GroupsOf(rings)[k].id == t;
    assert rings[k].published.None?;
  }

  lemma ReadIsManifest(env: Env, id: string, e: Election, p: Progress)
    requires p == Reading(RowOf(e), GroupsOf(e.rings), CandidateRows(e.candidates), AllKeys(e.rings))
    ensures |p.keys| == |p.groups| && Built(env, id, p) == ManifestOf(env, id, e)
  {
    hide CandidateRows, Built, ManifestOf;
    BuiltIsManifest(env, id, e, p);
  }

  lemma CheckNext(env: Env, w: World, sid: nat, s: Session, m: RawManifest)
    requires s.id in w.db.elections && s.progress.Reading? && |s.progress.keys| == |s.progress.groups|
    requires Built(env, s.id, s.progress) == m && (Unpublished(s.progress.groups) != [] ==> s.superAdmin)
    ensures Can(env, At(w, sid, s), Check(sid, true))
    ensures var todo := Unpublished(s.progress.groups);
            Do(env, At(w, sid, s), Check(sid, true)) ==
            At(w, sid, s.(progress := if todo == [] then Returned(m) else Marking(m, todo)))
  {
    hide Built, Unpublished;
    var todo := Unpublished(s.progress.groups);
    var next := s.(progress := if todo == [] then Returned(m) else Marking(m, todo));
    assert w.exports[sid := s][sid := next] == w.exports[sid := next];
  }
}
