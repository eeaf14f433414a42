/**
 * The election services of api/src/services as atomic calls on a record of tables.
 *
 * Generated ids and random draws come with a call; a call carrying values the database or the random
 * source cannot supply is refused. Refusals leave the tables as they were.
 */
module Elections {
  import opened Bytes
  import opened Wrappers
  import opened Lifecycle
  import opened Manifests
  import opened RingFormation

  // ---- Tables ----

  datatype Candidate = Candidate(name: string, affiliation: Option<string>, position: nat)

  /** A membership row: the voter, and a copy of the key they held when the group was formed. */
  datatype Member = Member(voter: nat, key: bytes)

  /** A group with its members in position order, and the manifest digest it was published under. */
  datatype RingRow = RingRow(id: string, index: nat, members: seq<Member>, published: Option<string>)

  datatype Token = Token(expiresAt: nat, redeemed: bool)

  datatype Election = Election(
    title: string, opens: Option<nat>, closes: Option<nat>, ringSize: nat, status: Status,
    candidates: map<string, Candidate>, roll: set<nat>, rings: seq<RingRow>, tokens: map<nat, Token>)

  datatype Decision = Pending | Approved | Rejected

  datatype Registration = Registration(status: Decision, key: bytes, voter: Option<nat>)

  datatype Rotation = Rotation(voter: nat, newKey: bytes, status: Decision)

  datatype Db = Db(
    elections: map<string, Election>, voters: map<nat, bytes>,
    registrations: map<nat, Registration>, rotations: map<nat, Rotation>)

  const EMPTY: Db := Db(map[], map[], map[], map[])

  /** Configuration and uninterpreted functions: the minimum group size, key validation, digests, dates as text. */
  datatype Env = Env(ringMin: nat, keyOk: bytes -> bool, digest: RawManifest -> string, iso: nat -> string)

  predicate EnvOk(env: Env) {
    env.ringMin >= 2
  }

  datatype Refusal = NotFound | Conflict | Forbidden | BadRequest

  datatype Call =
    | CreateElection(id: string, title: string, opens: Option<nat>, closes: Option<nat>, ringSize: nat)
    | UpdateMetadata(id: string, newTitle: Option<string>, newOpens: Option<Option<nat>>, newCloses: Option<Option<nat>>, newRingSize: Option<nat>)
    | Transition(id: string, to: Status, superAdmin: bool)
    | SubmitRegistration(reg: nat, key: bytes)
    | Approve(reg: nat, voter: nat, rollOf: Option<string>)
    | Reject(reg: nat)
    | SetEligibility(id: string, voter: nat, eligible: bool)
    | TransferOntoRoll(id: string, voters: seq<nat>)
    | RemoveFromRoll(id: string, voters: seq<nat>)
    | AddCandidate(id: string, candidate: string, name: string, affiliation: Option<string>, position: Option<nat>)
    | EditCandidate(id: string, candidate: string, newName: Option<string>, newAffiliation: Option<Option<string>>, position: Option<nat>)
    | RemoveCandidate(id: string, candidate: string)
    | Reorder(id: string, order: seq<string>)
    | FormRings(id: string, ringIds: seq<string>, draws: seq<nat>)
    | ExportManifest(id: string, superAdmin: bool)
    | RequestRotation(rotation: nat, reg: nat, key: bytes)
    | ReviewRotation(rotation: nat, approve: bool)
    | IssueTokens(id: string, superAdmin: bool, now: nat, week: nat)
    | Redeem(id: string, voter: nat, now: nat)

  // ---- Reading the tables ----

  /** All membership rows of an election, group by group. */
  function MembersOf(rings: seq<RingRow>): seq<Member> {
    if rings == [] then [] else MembersOf(rings[..|rings| - 1]) + rings[|rings| - 1].members
  }

  function VotersIn(members: seq<Member>): set<nat> {
    set i | 0 <= i < |members| :: members[i].voter
  }

  function Unassigned(e: Election): set<nat> {
    e.roll - VotersIn(MembersOf(e.rings))
  }

  predicate NoneSmaller(e: Election, min: nat) {
    forall k :: 0 <= k < |e.rings| ==> |e.rings[k].members| >= min
  }

  predicate AllPublished(e: Election) {
    forall k :: 0 <= k < |e.rings| ==> e.rings[k].published.Some?
  }

  predicate SomePublished(e: Election) {
    exists k :: 0 <= k < |e.rings| && e.rings[k].published.Some?
  }

  predicate NoPending(db: Db) {
    forall r :: r in db.registrations ==> !db.registrations[r].status.Pending?
  }

  /** The ring holding a voter, if any. */
  function FindRing(rings: seq<RingRow>, voter: nat): Option<nat>
    decreases |rings|
  {
    if rings == [] then None
    else
      var n := |rings| - 1;
      if voter in VotersIn(rings[n].members) then Some(n) else FindRing(rings[..n], voter)
  }

  predicate KeyHeld(voters: map<nat, bytes>, key: bytes) {
    exists v :: v in voters && voters[v] == key
  }

  /** Live registrations with this key: all but the rejected ones. */
  predicate KeyClaimed(registrations: map<nat, Registration>, key: bytes) {
    exists r :: r in registrations && !registrations[r].status.Rejected? && registrations[r].key == key
  }

  /** The least element, which a non-empty set of numbers has. */
  lemma {:induction false} LeastExists(s: set<nat>)
    requires s != {}
    ensures exists m :: m in s && forall k :: k in s ==> m <= k
    decreases s
  {
    var k :| k in s;
    if s == {k} {
      assert k in s;
    } else {
      var others := s - {k};
      assert others != {} by {
        assert others == {} ==> s == {k};
      }
      LeastExists(others);
      var rest :| rest in others && forall j :: j in others ==> rest <= j;
      WithOneMore(s, others, k, rest);
    }
  }

  lemma WithOneMore(s: set<nat>, others: set<nat>, k: nat, rest: nat)
    requires k in s && others == s - {k} && rest in others && forall j :: j in others ==> rest <= j
    ensures exists m :: m in s && forall j :: j in s ==> m <= j
  {
    var m := if rest < k then rest else k;
    assert forall j :: j in s ==> j == k || j in others;
    assert m in s && forall j :: j in s ==> m <= j;
  }

  /** The roll ordered by voter id. */
  ghost function Listing(roll: set<nat>): seq<nat>
    decreases roll
  {
    if roll == {} then []
    else
      LeastExists(roll);
      var m :| m in roll && forall k :: k in roll ==> m <= k;
      [m] + Listing(roll - {m})
  }

  lemma {:induction false} LowestExists(cands: map<string, Candidate>, s: set<string>)
    requires s != {} && s <= cands.Keys
    ensures exists m :: m in s && forall k :: k in s ==> cands[m].position <= cands[k].position
    decreases |s|
  {
    var k :| k in s;
    if s - {k} == {} {
      assert s == {k};
    } else {
      LowestExists(cands, s - {k});
      var rest :| rest in s - {k} && forall j :: j in s - {k} ==> cands[rest].position <= cands[j].position;
      var m := if cands[rest].position < cands[k].position then rest else k;
      assert m in s && forall j :: j in s ==> cands[m].position <= cands[j].position;
    }
  }

  /** Candidate ids in ballot order. */
  ghost function InOrder(cands: map<string, Candidate>, s: set<string>): seq<string>
    requires s <= cands.Keys
    decreases s
  {
    if s == {} then []
    else
      LowestExists(cands, s);
      var m :| m in s && forall k :: k in s ==> cands[m].position <= cands[k].position;
      [m] + InOrder(cands, s - {m})
  }

  // ---- The manifest ----

  function RawOf(cands: map<string, Candidate>, c: string): RawCandidate
    requires c in cands
  {
    RawCandidate(c, Some(cands[c].name), cands[c].affiliation, Some(cands[c].position))
  }

  function RawRingOf(ring: RingRow): RawRing {
    RawRing(ring.id, ring.index, seq(|ring.members|, i requires 0 <= i < |ring.members| => ring.members[i].key))
  }

  function DateText(env: Env, at: Option<nat>): Option<string> {
    match at case None => None case Some(t) => Some(env.iso(t))
  }

  ghost function CandidateRows(cands: map<string, Candidate>): (rows: seq<RawCandidate>)
    ensures |rows| == |InOrder(cands, cands.Keys)|
  {
    var order := InOrder(cands, cands.Keys);
    OrderCovers(cands, cands.Keys);
    seq(|order|, i requires 0 <= i < |order| => RawOf(cands, order[i]))
  }

  function RingRows(rings: seq<RingRow>): (rows: seq<RawRing>)
    ensures |rows| == |rings| && forall k :: 0 <= k < |rings| ==> rows[k] == RawRingOf(rings[k])
  {
    seq(|rings|, k requires 0 <= k < |rings| => RawRingOf(rings[k]))
  }

  /** What `exportChainManifest` builds: candidates in ballot order, groups in index order, keys in position order. */
  ghost function ManifestOf(env: Env, id: string, e: Election): RawManifest {
    RawManifest(1, id, e.title, DateText(env, e.opens), DateText(env, e.closes), Some(e.ringSize),
                CandidateRows(e.candidates), RingRows(e.rings))
  }

  /** Ballot order lists every candidate once, by ascending position. */
  lemma {:induction false} OrderCovers(cands: map<string, Candidate>, s: set<string>)
    requires s <= cands.Keys
    ensures |InOrder(cands, s)| == |s| && NoRepeats(InOrder(cands, s))
    ensures forall c :: c in InOrder(cands, s) <==> c in s
    ensures forall i, j :: 0 <= i < j < |s| ==> cands[InOrder(cands, s)[i]].position <= cands[InOrder(cands, s)[j]].position
    decreases |s|
  {
    if s != {} {
      var m := InOrder(cands, s)[0];
      OrderCovers(cands, s - {m});
      assert InOrder(cands, s)[1..] == InOrder(cands, s - {m});
    }
  }

  lemma {:induction false} ListingCovers(roll: set<nat>)
    ensures |Listing(roll)| == |roll| && NoRepeats(Listing(roll))
    ensures forall v :: v in Listing(roll) <==> v in roll
    decreases |roll|
  {
    if roll != {} {
      var m := Listing(roll)[0];
      ListingCovers(roll - {m});
      assert Listing(roll)[1..] == Listing(roll - {m});
    }
  }

  // ---- Guards (api/src/services/guards.service.ts) ----

  predicate CloseRegistrationGuards(env: Env, db: Db, e: Election) {
    NoPending(db) && |e.roll| >= env.ringMin && |e.candidates| >= 2
  }

  predicate PublishGuards(env: Env, db: Db, e: Election) {
    && e.rings != [] && e.roll != {} && Unassigned(e) == {} && NoneSmaller(e, env.ringMin)
    && NoPending(db) && |e.candidates| >= 2
  }

  predicate VotingOpenGuards(env: Env, e: Election) {
    && |e.candidates| >= 2 && e.rings != [] && AllPublished(e)
    && e.roll != {} && Unassigned(e) == {} && NoneSmaller(e, env.ringMin)
  }

  predicate TransitionGuards(env: Env, db: Db, e: Election, to: Status) {
    if to == RingsFrozen then CloseRegistrationGuards(env, db, e)
    else if to == VotingOpen then VotingOpenGuards(env, e)
    else true
  }

  // ---- Calls on one election ----

  predicate WindowOk(opens: Option<nat>, closes: Option<nat>) {
    opens.Some? && closes.Some? ==> opens.value < closes.value
  }

  predicate GivenWindowOk(opens: Option<Option<nat>>, closes: Option<Option<nat>>) {
    opens.Some? && closes.Some? ==> WindowOk(opens.value, closes.value)
  }

  /** What the request schemas admit (api/src/api/schemas.ts); anything else never reaches a service. */
  const RING_SIZE_MAX: nat := 1000

  const POSITION_MAX: nat := 999

  predicate RingSizeGiven(ringSize: Option<nat>) {
    ringSize.Some? ==> 2 <= ringSize.value <= RING_SIZE_MAX
  }

  predicate PositionGiven(position: Option<nat>) {
    position.Some? ==> 1 <= position.value <= POSITION_MAX
  }

  function OrElse<T>(given: Option<T>, now: T): T {
    if given.Some? then given.value else now
  }

  /** `updateElectionMetadata`: the window is checked as given, and again as stored by the table. */
  function UpdateMetadataIn(e: Election, title: Option<string>, opens: Option<Option<nat>>, closes: Option<Option<nat>>, ringSize: Option<nat>)
    : Result<Election, Refusal>
  {
    if !RingSizeGiven(ringSize) || !GivenWindowOk(opens, closes) then Err(BadRequest)
    else if e.status !in OperationStates(EditMetadata) then Err(Conflict)
    else
      var e' := e.(title := OrElse(title, e.title), opens := OrElse(opens, e.opens),
                   closes := OrElse(closes, e.closes), ringSize := OrElse(ringSize, e.ringSize));
      if !WindowOk(e'.opens, e'.closes) || e'.ringSize < 2 then Err(Conflict) else Ok(e')
  }

  /** `transitionElection`. */
  function TransitionIn(env: Env, db: Db, e: Election, to: Status, superAdmin: bool): Result<Election, Refusal> {
    if to !in AllowedTransitions(e.status) then Err(Conflict)
    else if !superAdmin then Err(Forbidden)
    else if !TransitionGuards(env, db, e, to) then Err(Conflict)
    else Ok(e.(status := to))
  }

  /** `setEligibility`: granting twice is harmless; a voter already in a group cannot be taken off. */
  function SetEligibilityIn(voters: map<nat, bytes>, e: Election, voter: nat, eligible: bool): Result<Election, Refusal> {
    if e.status !in OperationStates(ReviewVoters) then Err(Conflict)
    else if eligible then
      if voter !in voters then Err(Conflict) else Ok(e.(roll := e.roll + {voter}))
    else if FindRing(e.rings, voter).Some? then Err(Conflict)
    else Ok(e.(roll := e.roll - {voter}))
  }

  /** `transferVotersOntoRoll`: all or none. */
  function TransferIn(voters: map<nat, bytes>, e: Election, ids: seq<nat>): Result<Election, Refusal> {
    if e.status !in OperationStates(ReviewVoters) then Err(Conflict)
    else if exists i :: 0 <= i < |ids| && ids[i] !in voters then Err(Conflict)
    else Ok(e.(roll := e.roll + set i | 0 <= i < |ids| :: ids[i]))
  }

  /** `removeVotersFromRoll`: those already in a group stay. */
  function RemoveIn(e: Election, ids: seq<nat>): Result<Election, Refusal> {
    if e.status !in OperationStates(ReviewVoters) then Err(Conflict)
    else Ok(e.(roll := e.roll - set i | 0 <= i < |ids| && ids[i] !in VotersIn(MembersOf(e.rings)) :: ids[i]))
  }

  predicate PositionFree(cands: map<string, Candidate>, candidate: string, position: nat) {
    forall c :: c in cands && c != candidate ==> cands[c].position != position
  }

  /** One past the highest ballot position. */
  ghost function NextPosition(cands: map<string, Candidate>): (p: nat)
    ensures p >= 1 && forall c :: c in cands ==> cands[c].position < p
    decreases |cands|
  {
    if cands == map[] then 1
    else
      var c :| c in cands;
      var rest := cands - {c};
      var p := NextPosition(rest);
      assert forall d :: d in cands && d != c ==> d in rest && rest[d] == cands[d];
      if cands[c].position + 1 > p then cands[c].position + 1 else p
  }

  ghost function AddCandidateIn(e: Election, candidate: string, name: string, affiliation: Option<string>, position: Option<nat>)
    : Result<Election, Refusal>
  {
    if !PositionGiven(position) then Err(BadRequest)
    else if e.status !in OperationStates(ManageCandidates) then Err(Conflict)
    else if candidate in e.candidates || Blank(candidate) then Err(Conflict)
    else
      var p := OrElse(position, NextPosition(e.candidates));
      if p < 1 || !PositionFree(e.candidates, candidate, p) then Err(Conflict)
      else Ok(e.(candidates := e.candidates[candidate := Candidate(name, affiliation, p)]))
  }

  function EditCandidateIn(e: Election, candidate: string, name: Option<string>, affiliation: Option<Option<string>>, position: Option<nat>)
    : Result<Election, Refusal>
  {
    if !PositionGiven(position) then Err(BadRequest)
    else if candidate !in e.candidates then Err(NotFound)
    else if e.status !in OperationStates(ManageCandidates) then Err(Conflict)
    else
      var c := e.candidates[candidate];
      var c' := Candidate(OrElse(name, c.name), OrElse(affiliation, c.affiliation), OrElse(position, c.position));
      if c'.position < 1 || !PositionFree(e.candidates, candidate, c'.position) then Err(Conflict)
      else Ok(e.(candidates := e.candidates[candidate := c']))
  }

  function RemoveCandidateIn(e: Election, candidate: string): Result<Election, Refusal> {
    if candidate !in e.candidates then Err(NotFound)
    else if e.status !in OperationStates(ManageCandidates) then Err(Conflict)
    else Ok(e.(candidates := e.candidates - {candidate}))
  }

  const REORDER_OFFSET: nat := 10000

  /** One pass of the reorder from index k: each update must find its position free. */
  function Pass(cands: map<string, Candidate>, order: seq<string>, offset: nat, k: nat): Option<map<string, Candidate>>
    requires k <= |order| && forall i :: 0 <= i < |order| ==> order[i] in cands
    decreases |order| - k
  {
    if k == |order| then Some(cands)
    else if !PositionFree(cands, order[k], offset + k + 1) then None
    else Pass(cands[order[k] := cands[order[k]].(position := offset + k + 1)], order, offset, k + 1)
  }

  /** `reorderCandidates`: park every row above the offset, then give each its place. */
  function ReorderIn(e: Election, order: seq<string>): Result<Election, Refusal> {
    if e.status !in OperationStates(ManageCandidates) then Err(Conflict)
    else if |order| != |e.candidates| then Err(Conflict)
    else if exists i :: 0 <= i < |order| && order[i] !in e.candidates then Err(Conflict)
    else
      match Pass(e.candidates, order, REORDER_OFFSET, 0)
      case None => Err(Conflict)
      case Some(parked) =>
        PassKeepsIds(e.candidates, order, REORDER_OFFSET, 0);
        match Pass(parked, order, 0, 0)
        case None => Err(Conflict)
        case Some(placed) => Ok(e.(candidates := placed))
  }

  lemma {:induction false} PassKeepsIds(cands: map<string, Candidate>, order: seq<string>, offset: nat, k: nat)
    requires k <= |order| && forall i :: 0 <= i < |order| ==> order[i] in cands
    ensures Pass(cands, order, offset, k).Some? ==> Pass(cands, order, offset, k).value.Keys == cands.Keys
    decreases |order| - k
  {
    if k < |order| && PositionFree(cands, order[k], offset + k + 1) {
      PassKeepsIds(cands[order[k] := cands[order[k]].(position := offset + k + 1)], order, offset, k + 1);
    }
  }

  predicate RingIdsOk(ringIds: seq<string>) {
    && (forall i :: 0 <= i < |ringIds| ==> !Blank(ringIds[i]))
    && forall i, j :: 0 <= i < j < |ringIds| ==> ringIds[i] != ringIds[j]
  }

  /** The electorate in id order, each with the key on their record now. */
  ghost function Electorate(voters: map<nat, bytes>, roll: set<nat>): (members: seq<Member>)
    requires roll <= voters.Keys
    ensures |members| == |roll|
  {
    var listed := Listing(roll);
    ListingCovers(roll);
    seq(|listed|, i requires 0 <= i < |listed| => assert listed[i] in listed; Member(listed[i], voters[listed[i]]))
  }

  function NewRings(groups: seq<seq<Member>>, ringIds: seq<string>): (rings: seq<RingRow>)
    requires |ringIds| == |groups|
    ensures |rings| == |groups|
    ensures forall k :: 0 <= k < |rings| ==> rings[k] == RingRow(ringIds[k], k, groups[k], None)
  {
    seq(|groups|, k requires 0 <= k < |groups| => RingRow(ringIds[k], k, groups[k], None))
  }

  /** `formRings`: refused once a group is published, or when not everyone can be placed. */
  ghost function FormRingsIn(env: Env, voters: map<nat, bytes>, e: Election, ringIds: seq<string>, draws: seq<nat>): Result<Election, Refusal>
    requires e.roll <= voters.Keys
  {
    if e.status !in OperationStates(FormGroups) then Err(Conflict)
    else if SomePublished(e) then Err(Conflict)
    else if e.ringSize < env.ringMin || |e.roll| < env.ringMin then Err(Conflict)
    else if !Draws(draws, |e.roll|) then Err(Conflict)
    else if e.ringSize == 0 || |e.roll| < e.ringSize then Err(Conflict)
    else
      var groups := Grouped(Electorate(voters, e.roll), draws, e.ringSize);
      if |ringIds| != |groups| || !RingIdsOk(ringIds) then Err(Conflict)
      else Ok(e.(rings := NewRings(groups, ringIds)))
  }

  function Publish(rings: seq<RingRow>, digest: string): (r: seq<RingRow>)
    ensures |r| == |rings|
    ensures forall k :: 0 <= k < |rings| ==>
              r[k] == if rings[k].published.Some? then rings[k] else rings[k].(published := Some(digest))
  {
    seq(|rings|, k requires 0 <= k < |rings| =>
      if rings[k].published.Some? then rings[k] else rings[k].(published := Some(digest)))
  }

  /** `exportChainManifest`: the first export publishes every group under the digest of what it returns. */
  ghost function ExportIn(env: Env, db: Db, id: string, e: Election, superAdmin: bool): Result<Election, Refusal> {
    if e.status !in OperationStates(ExportChainManifest) then Err(Conflict)
    else if e.rings == [] || |e.candidates| == 0 then Err(Conflict)
    else if AllPublished(e) then Ok(e)
    else if !superAdmin then Err(Forbidden)
    else if !PublishGuards(env, db, e) then Err(Conflict)
    else Ok(e.(rings := Publish(e.rings, env.digest(ManifestOf(env, id, e)))))
  }

  /** `issueTokens`: one credential for each voter on the roll who has none. */
  function IssueIn(e: Election, superAdmin: bool, now: nat, week: nat): Result<Election, Refusal> {
    if e.status !in OperationStates(IssueAccess) then Err(Conflict)
    else if !superAdmin then Err(Forbidden)
    else if e.roll == {} then Err(Conflict)
    else
      var expiresAt := OrElse(e.closes, now + week);
      if expiresAt <= now && e.roll - e.tokens.Keys != {} then Err(Conflict)
      else Ok(e.(tokens := map v | v in e.roll + e.tokens.Keys :: if v in e.tokens then e.tokens[v] else Token(expiresAt, false)))
  }

  /** The credential part of `redeemForRing`: unknown or expired ones are refused alike. */
  function RedeemIn(e: Election, voter: nat, now: nat): Result<Election, Refusal> {
    if voter !in e.tokens || e.tokens[voter].expiresAt <= now then Err(Forbidden)
    else if e.status != VotingOpen then Err(Conflict)
    else Ok(e.(tokens := e.tokens[voter := e.tokens[voter].(redeemed := true)]))
  }

  // ---- Calls on the whole database ----

  function Stored(db: Db, id: string, r: Result<Election, Refusal>): Result<Db, Refusal> {
    match r
    case Err(e) => Err(e)
    case Ok(e) => Ok(db.(elections := db.elections[id := e]))
  }

  function SubmitRegistrationIn(env: Env, db: Db, reg: nat, key: bytes): Result<Db, Refusal> {
    if !env.keyOk(key) then Err(BadRequest)
    else if KeyClaimed(db.registrations, key) || KeyHeld(db.voters, key) || reg in db.registrations then Err(Conflict)
    else Ok(db.(registrations := db.registrations[reg := Registration(Pending, key, None)]))
  }

  /** `approveRegistration`: mint the voter, and put them on the named roll in the same transaction. */
  function ApproveIn(db: Db, reg: nat, voter: nat, rollOf: Option<string>): Result<Db, Refusal> {
    if reg !in db.registrations then Err(NotFound)
    else
      var r := db.registrations[reg];
      if !r.status.Pending? then Err(Conflict)
      else if KeyHeld(db.voters, r.key) || voter in db.voters then Err(Conflict)
      else
        var db' := db.(voters := db.voters[voter := r.key],
                       registrations := db.registrations[reg := Registration(Approved, r.key, Some(voter))]);
        match rollOf
        case None => Ok(db')
        case Some(id) =>
          if id !in db.elections then Err(NotFound)
          else if db.elections[id].status !in OperationStates(ReviewVoters) then Err(Conflict)
          else Ok(db'.(elections := db.elections[id := db.elections[id].(roll := db.elections[id].roll + {voter})]))
  }

  function RejectIn(db: Db, reg: nat): Result<Db, Refusal> {
    if reg !in db.registrations then Err(NotFound)
    else if !db.registrations[reg].status.Pending? then Err(Conflict)
    else Ok(db.(registrations := db.registrations[reg := db.registrations[reg].(status := Rejected)]))
  }

  predicate RotationSafe(s: Status) {
    s == Draft || s == RegistrationOpen
  }

  /** Some enrolment is still open, or there is none: the rule of `assessRotationEligibility`. */
  predicate RotationAllowed(db: Db, voter: nat) {
    || (forall id :: id in db.elections ==> voter !in db.elections[id].roll)
    || (exists id :: id in db.elections && voter in db.elections[id].roll && RotationSafe(db.elections[id].status))
  }

  /** `requestKeyReplacement`: a pending registration is corrected in place, an approved voter files a request. */
  function RequestRotationIn(env: Env, db: Db, rotation: nat, reg: nat, key: bytes): Result<Db, Refusal> {
    if !env.keyOk(key) then Err(BadRequest)
    else if reg !in db.registrations then Err(NotFound)
    else
      var r := db.registrations[reg];
      match r.status
      case Rejected => Err(Conflict)
      case Pending =>
        if r.key == key || KeyHeld(db.voters, key) || KeyClaimed(db.registrations, key) then Err(Conflict)
        else Ok(db.(registrations := db.registrations[reg := r.(key := key)]))
      case Approved =>
        if r.voter.None? || r.voter.value !in db.voters then Err(Conflict)
        else
          var v := r.voter.value;
          if KeyHeld(db.voters, key) || !RotationAllowed(db, v) || rotation in db.rotations then Err(Conflict)
          else if exists q :: q in db.rotations && db.rotations[q].voter == v && db.rotations[q].status.Pending? then Err(Conflict)
          else Ok(db.(rotations := db.rotations[rotation := Rotation(v, key, Pending)]))
  }

  /** `reviewKeyReplacement`: the only change ever made to an approved voter's key. */
  function ReviewRotationIn(db: Db, rotation: nat, approve: bool): Result<Db, Refusal> {
    if rotation !in db.rotations then Err(NotFound)
    else
      var q := db.rotations[rotation];
      if !q.status.Pending? then Err(Conflict)
      else if q.voter !in db.voters then Err(NotFound)
      else if !approve then Ok(db.(rotations := db.rotations[rotation := q.(status := Rejected)]))
      else if !RotationAllowed(db, q.voter) then Err(Conflict)
      else if KeyHeld(db.voters - {q.voter}, q.newKey) then Err(Conflict)
      else Ok(db.(voters := db.voters[q.voter := q.newKey], rotations := db.rotations[rotation := q.(status := Approved)]))
  }

  function CreateElectionIn(db: Db, id: string, title: string, opens: Option<nat>, closes: Option<nat>, ringSize: nat): Result<Db, Refusal> {
    if !RingSizeGiven(Some(ringSize)) || !WindowOk(opens, closes) then Err(BadRequest)
    else if id in db.elections || Blank(id) then Err(Conflict)
    else Ok(db.(elections := db.elections[id := Election(title, opens, closes, ringSize, Draft, map[], {}, [], map[])]))
  }

  /** The election a call is about, for the calls that lock one. */
  function ElectionNamed(call: Call): Option<string> {
    match call
    case CreateElection(_, _, _, _, _) => None
    case SubmitRegistration(_, _) => None
    case Approve(_, _, _) => None
    case Reject(_) => None
    case RequestRotation(_, _, _) => None
    case ReviewRotation(_, _) => None
    case _ => Some(call.id)
  }

  ghost function ElectionCall(env: Env, db: Db, call: Call, e: Election): Result<Election, Refusal>
    requires ElectionNamed(call).Some?
  {
    match call
    case UpdateMetadata(_, title, opens, closes, ringSize) => UpdateMetadataIn(e, title, opens, closes, ringSize)
    case Transition(_, to, superAdmin) => TransitionIn(env, db, e, to, superAdmin)
    case SetEligibility(_, voter, eligible) => SetEligibilityIn(db.voters, e, voter, eligible)
    case TransferOntoRoll(_, voters) => TransferIn(db.voters, e, voters)
    case RemoveFromRoll(_, voters) => RemoveIn(e, voters)
    case AddCandidate(_, candidate, name, affiliation, position) => AddCandidateIn(e, candidate, name, affiliation, position)
    case EditCandidate(_, candidate, name, affiliation, position) => EditCandidateIn(e, candidate, name, affiliation, position)
    case RemoveCandidate(_, candidate) => RemoveCandidateIn(e, candidate)
    case Reorder(_, order) => ReorderIn(e, order)
    case FormRings(_, ringIds, draws) =>
      if e.roll <= db.voters.Keys then FormRingsIn(env, db.voters, e, ringIds, draws) else Err(Conflict)
    case ExportManifest(id, superAdmin) => ExportIn(env, db, id, e, superAdmin)
    case IssueTokens(_, superAdmin, now, week) => IssueIn(e, superAdmin, now, week)
    case Redeem(_, voter, now) => RedeemIn(e, voter, now)
  }

  ghost function Apply(env: Env, db: Db, call: Call): Result<Db, Refusal> {
    match call
    case CreateElection(id, title, opens, closes, ringSize) => CreateElectionIn(db, id, title, opens, closes, ringSize)
    case SubmitRegistration(reg, key) => SubmitRegistrationIn(env, db, reg, key)
    case Approve(reg, voter, rollOf) => ApproveIn(db, reg, voter, rollOf)
    case Reject(reg) => RejectIn(db, reg)
    case RequestRotation(rotation, reg, key) => RequestRotationIn(env, db, rotation, reg, key)
    case ReviewRotation(rotation, approve) => ReviewRotationIn(db, rotation, approve)
    case _ =>
      var id := ElectionNamed(call).value;
      if id !in db.elections then Err(NotFound)
      else Stored(db, id, ElectionCall(env, db, call, db.elections[id]))
  }

  /** A refused call rolls back. */
  ghost function Step(env: Env, db: Db, call: Call): Db {
    match Apply(env, db, call) case Ok(db') => db' case Err(_) => db
  }

  ghost function Run(env: Env, db: Db, calls: seq<Call>): Db
    decreases |calls|
  {
    if calls == [] then db else Run(env, Step(env, db, calls[0]), calls[1..])
  }
}
