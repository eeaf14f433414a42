/** Theorems about whole runs of service calls, starting from empty tables. */
module ElectionRuns {
  import opened Wrappers
  import opened Lifecycle
  import opened Manifests
  import opened RingFormation
  import opened Elections
  import opened ElectionSafety

  // ---- Every voter in exactly one group ----

  ghost predicate HasAt(rings: seq<RingRow>, k: nat, p: nat, voter: nat) {
    k < |rings| && p < |rings[k].members| && rings[k].members[p].voter == voter
  }

  ghost predicate InExactlyOne(rings: seq<RingRow>, voter: nat) {
    exists k: nat, p: nat :: HasAt(rings, k, p, voter) && OnlyAt(rings, k, p, voter)
  }

  ghost predicate OnlyAt(rings: seq<RingRow>, k: nat, p: nat, voter: nat) {
    forall k': nat, p': nat :: HasAt(rings, k', p', voter) ==> k' == k && p' == p
  }

  /** How many members the groups before k have. */
  function Start(rings: seq<RingRow>, k: nat): nat
    requires k <= |rings|
  {
    |MembersOf(rings[..k])|
  }

  lemma {:induction false} Starts(rings: seq<RingRow>, j: nat, k: nat)
    requires j < k <= |rings|
    ensures Start(rings, j) + |rings[j].members| <= Start(rings, k)
    decreases k
  {
    assert rings[..k][..k - 1] == rings[..k - 1];
    if j < k - 1 {
      Starts(rings, j, k - 1);
    }
  }

  lemma {:induction false} RowAt(rings: seq<RingRow>, k: nat, p: nat)
    requires k < |rings| && p < |rings[k].members|
    ensures Start(rings, k) + p < |MembersOf(rings)|
    ensures MembersOf(rings)[Start(rings, k) + p] == rings[k].members[p]
    decreases |rings|
  {
    var n := |rings| - 1;
    if k < n {
      RowAt(rings[..n], k, p);
      assert rings[..n][..k] == rings[..k];
    }
  }

  lemma {:induction false} RowOf(rings: seq<RingRow>, i: nat) returns (k: nat, p: nat)
    requires i < |MembersOf(rings)|
    ensures k < |rings| && p < |rings[k].members| && rings[k].members[p] == MembersOf(rings)[i]
    decreases |rings|
  {
    var n := |rings| - 1;
    if i < |MembersOf(rings[..n])| {
      k, p := RowOf(rings[..n], i);
    } else {
      k, p := n, i - |MembersOf(rings[..n])|;
    }
  }

  lemma CoverIsUnique(env: Env, rings: seq<RingRow>, roll: set<nat>, voter: nat)
    requires CoversExactly(env, MembersOf(rings), roll) && voter in roll
    ensures InExactlyOne(rings, voter)
  {
    hide MembersOf, Start;
    var members := MembersOf(rings);
    var i :| 0 <= i < |members| && members[i].voter == voter;
    var k, p := RowOf(rings, i);
    RowAt(rings, k, p);
    forall k': nat, p': nat | HasAt(rings, k', p', voter) ensures k' == k && p' == p {
      RowAt(rings, k', p');
      assert Start(rings, k') + p' == Start(rings, k) + p;
      if k' < k {
        Starts(rings, k', k);
      } else if k < k' {
        Starts(rings, k, k');
      }
    }
    assert HasAt(rings, k, p, voter) && OnlyAt(rings, k, p, voter);
  }

  /**
   * Once voting is open the electorate is complete and in order: a contested ballot, every group
   * published and of at least the minimum size, every voter on the roll in exactly one group, and
   * nobody else in any.
   */
  lemma OpenElectionIsSound(env: Env, calls: seq<Call>, id: string)
    requires EnvOk(env) && id in Run(env, EMPTY, calls).elections
    requires Opened(Run(env, EMPTY, calls).elections[id].status)
    ensures var e := Run(env, EMPTY, calls).elections[id];
            && |e.candidates| >= 2 && e.rings != [] && AllPublished(e) && NoneSmaller(e, env.ringMin)
            && (forall v :: v in e.roll ==> InExactlyOne(e.rings, v))
            && (forall k: nat, p: nat, v: nat :: HasAt(e.rings, k, p, v) ==> v in e.roll)
  {
    hide VotersOk, ClaimsOk, CandidatesFit, PublicationFits, RingIdsFit, Run, CoversExactly, InExactlyOne, HasAt, Blank;
    EmptyOk(env);
    RunKeeps(env, EMPTY, calls);
    var db := Run(env, EMPTY, calls);
    var e := db.elections[id];
    assert ElectionOk(env, db.voters.Keys, id, e);
    assert e.rings != [] && AllPublished(e);
    forall v | v in e.roll ensures InExactlyOne(e.rings, v) {
      CoverIsUnique(env, e.rings, e.roll, v);
    }
    forall k: nat, p: nat, v: nat | HasAt(e.rings, k, p, v) ensures v in e.roll {
      MemberOnRoll(env, e.rings, e.roll, k, p, v);
    }
  }

  lemma MemberOnRoll(env: Env, rings: seq<RingRow>, roll: set<nat>, k: nat, p: nat, v: nat)
    requires CoversExactly(env, MembersOf(rings), roll) && HasAt(rings, k, p, v)
    ensures v in roll
  {
    hide MembersOf, Start;
    RowAt(rings, k, p);
  }

  // ---- How one call changes one election ----

  /** Groups exist and all of them are published. */
  predicate Fixed(e: Election) {
    e.rings != [] && AllPublished(e)
  }

  /** Groups of the wanted size can be formed from the roll. */
  predicate Formable(env: Env, e: Election) {
    e.ringSize >= env.ringMin && |e.roll| >= e.ringSize
  }

  ghost predicate Evolves(env: Env, id: string, e: Election, e': Election) {
    && Stage(e.status) <= Stage(e'.status)
    && (Stage(e.status) == Stage(e'.status) ==> e.status == e'.status)
    && (Frozen(e.status) ==>
          && Frozen(e'.status)
          && e'.title == e.title && e'.opens == e.opens && e'.closes == e.closes
          && e'.candidates == e.candidates && e'.roll == e.roll && e'.ringSize == e.ringSize)
    && (Frozen(e.status) && !Formable(env, e) ==> e'.rings == [] && e'.status == e.status)
    && (Fixed(e) ==> Fixed(e') && ManifestOf(env, id, e') == ManifestOf(env, id, e))
  }

  lemma SameEvolves(env: Env, id: string, e: Election)
    requires Frozen(e.status) && !Formable(env, e) ==> e.rings == []
    ensures Evolves(env, id, e, e)
  {
    hide ManifestOf;
  }

  /** Before groups freeze there is nothing to preserve but the order of stages. */
  lemma UnfrozenEvolves(env: Env, voterIds: set<nat>, id: string, e: Election, e': Election)
    requires ElectionOk(env, voterIds, id, e) && !Frozen(e.status) && e'.status == e.status
    ensures Evolves(env, id, e, e')
  {
    hide CandidatesFit, FormedOk, ManifestOf;
  }

  lemma TransitionEvolves(env: Env, db: Db, id: string, e: Election, to: Status, superAdmin: bool)
    requires ElectionOk(env, db.voters.Keys, id, e) && TransitionIn(env, db, e, to, superAdmin).Ok?
    ensures Evolves(env, id, e, TransitionIn(env, db, e, to, superAdmin).value)
  {
    hide CandidatesFit, CoversExactly, RingIdsFit, PublicationFits, ManifestOf, CloseRegistrationGuards, NoneSmaller, Unassigned;
    TransitionsGoOn(e.status, to);
    SameManifest(env, id, e, e.(status := to));
  }

  lemma TokensEvolve(env: Env, voterIds: set<nat>, id: string, e: Election, tokens: map<nat, Token>)
    requires ElectionOk(env, voterIds, id, e)
    ensures Evolves(env, id, e, e.(tokens := tokens))
  {
    hide CandidatesFit, CoversExactly, RingIdsFit, PublicationFits, ManifestOf;
    SameManifest(env, id, e, e.(tokens := tokens));
  }

  lemma TokenEvolves(env: Env, db: Db, id: string, e: Election, call: Call)
    requires ElectionOk(env, db.voters.Keys, id, e) && (call.IssueTokens? || call.Redeem?)
    requires ElectionCall(env, db, call, e).Ok?
    ensures Evolves(env, id, e, ElectionCall(env, db, call, e).value)
  {
    hide ElectionOk, Evolves;
    TokensEvolve(env, db.voters.Keys, id, e, ElectionCall(env, db, call, e).value.tokens);
  }

  lemma ExportEvolves(env: Env, db: Db, id: string, e: Election, superAdmin: bool)
    requires ElectionOk(env, db.voters.Keys, id, e) && ExportIn(env, db, id, e, superAdmin).Ok?
    ensures Evolves(env, id, e, ExportIn(env, db, id, e, superAdmin).value)
  {
    ExportKeeps(env, db, id, e, superAdmin);
    hide CandidatesFit, CoversExactly, RingIdsFit, PublicationFits, ManifestOf, PublishGuards;
  }

  lemma FormEvolves(env: Env, db: Db, id: string, e: Election, ringIds: seq<string>, draws: seq<nat>)
    requires ElectionOk(env, db.voters.Keys, id, e) && FormRingsIn(env, db.voters, e, ringIds, draws).Ok?
    ensures Evolves(env, id, e, FormRingsIn(env, db.voters, e, ringIds, draws).value)
  {
    hide CandidatesFit, FormedOk, ManifestOf, Electorate, Grouped, Draws, RingIdsOk;
    assert e.rings != [] ==> e.rings[0].published.None?;
  }

  lemma CallEvolves(env: Env, db: Db, call: Call)
    requires DbOk(env, db) && ElectionNamed(call).Some? && ElectionNamed(call).value in db.elections
    ensures var id := ElectionNamed(call).value;
            var e := db.elections[id];
            var r := ElectionCall(env, db, call, e);
            r.Ok? ==> Evolves(env, id, e, r.value)
  {
    hide VotersOk, ClaimsOk, ElectionOk, Blank, Evolves, TransitionIn, FormRingsIn, ExportIn, IssueIn, RedeemIn, Pass, MembersOf, VotersIn, FindRing, NextPosition, PositionFree, WindowOk, GivenWindowOk;
    var id := ElectionNamed(call).value;
    var e := db.elections[id];
    if ElectionCall(env, db, call, e).Ok? {
      if call.Transition? {
        TransitionEvolves(env, db, id, e, call.to, call.superAdmin);
      } else if call.FormRings? {
        FormEvolves(env, db, id, e, call.ringIds, call.draws);
      } else if call.ExportManifest? {
        ExportEvolves(env, db, id, e, call.superAdmin);
      } else if call.IssueTokens? || call.Redeem? {
        TokenEvolves(env, db, id, e, call);
      } else {
        UnfrozenEvolves(env, db.voters.Keys, id, e, ElectionCall(env, db, call, e).value);
      }
    }
  }

  lemma OkFormable(env: Env, db: Db, id: string)
    requires DbOk(env, db) && id in db.elections
    ensures var e := db.elections[id]; e.rings != [] ==> Formable(env, e)
  {
    hide VotersOk, ClaimsOk, CandidatesFit, CoversExactly, RingIdsFit, PublicationFits, Blank;
    assert ElectionOk(env, db.voters.Keys, id, db.elections[id]);
  }

  lemma StepEvolves(env: Env, db: Db, call: Call, id: string)
    requires DbOk(env, db) && id in db.elections
    ensures id in Step(env, db, call).elections
    ensures Evolves(env, id, db.elections[id], Step(env, db, call).elections[id])
  {
    hide DbOk, Evolves, Step;
    OkFormable(env, db, id);
    SameEvolves(env, id, db.elections[id]);
    match call
    case Approve(reg, voter, rollOf) => ApproveEvolves(env, db, reg, voter, rollOf, id);
    case SubmitRegistration(_, _) => PeopleCallKeeps(env, db, call);
    case Reject(_) => PeopleCallKeeps(env, db, call);
    case RequestRotation(_, _, _) => PeopleCallKeeps(env, db, call);
    case ReviewRotation(_, _) => PeopleCallKeeps(env, db, call);
    case CreateElection(_, _, _, _, _) => CreateLeaves(env, db, call, id);
    case _ => NamedEvolves(env, db, call, id);
  }

  lemma CreateLeaves(env: Env, db: Db, call: Call, id: string)
    requires call.CreateElection? && id in db.elections
    ensures id in Step(env, db, call).elections && Step(env, db, call).elections[id] == db.elections[id]
  {
    hide Blank, WindowOk, RingSizeGiven;
  }

  lemma NamedEvolves(env: Env, db: Db, call: Call, id: string)
    requires DbOk(env, db) && id in db.elections && ElectionNamed(call).Some?
    requires Evolves(env, id, db.elections[id], db.elections[id])
    ensures id in Step(env, db, call).elections
    ensures Evolves(env, id, db.elections[id], Step(env, db, call).elections[id])
  {
    hide DbOk, Evolves, Step, ElectionCall, ElectionNamed;
    CallsElection(env, db, call);
    if ElectionNamed(call) == Some(id) {
      CallEvolves(env, db, call);
    }
  }

  lemma ApproveEvolves(env: Env, db: Db, reg: nat, voter: nat, rollOf: Option<string>, id: string)
    requires DbOk(env, db) && id in db.elections && Evolves(env, id, db.elections[id], db.elections[id])
    ensures id in Step(env, db, Approve(reg, voter, rollOf)).elections
    ensures Evolves(env, id, db.elections[id], Step(env, db, Approve(reg, voter, rollOf)).elections[id])
  {
    hide VotersOk, ClaimsOk, ElectionOk, Evolves, KeyHeld, Blank;
    var e := db.elections[id];
    UnlessFrozen(env, db, id, e.(roll := e.roll + {voter}));
  }

  lemma UnlessFrozen(env: Env, db: Db, id: string, e': Election)
    requires DbOk(env, db) && id in db.elections && e'.status == db.elections[id].status
    ensures !Frozen(e'.status) ==> Evolves(env, id, db.elections[id], e')
  {
    hide VotersOk, ClaimsOk, ElectionOk, Evolves, Blank;
    if !Frozen(e'.status) {
      UnfrozenEvolves(env, db.voters.Keys, id, db.elections[id], e');
    }
  }

  // ---- Over runs ----

  lemma EvolvesOn(env: Env, id: string, a: Election, b: Election, c: Election)
    requires Evolves(env, id, a, b) && Evolves(env, id, b, c)
    ensures Evolves(env, id, a, c)
  {
    hide ManifestOf;
  }

  lemma {:induction false} RunEvolves(env: Env, db: Db, calls: seq<Call>, id: string)
    requires DbOk(env, db) && id in db.elections
    ensures id in Run(env, db, calls).elections
    ensures Evolves(env, id, db.elections[id], Run(env, db, calls).elections[id])
    decreases |calls|
  {
    hide DbOk, Evolves, Step;
    if calls == [] {
      OkFormable(env, db, id);
      SameEvolves(env, id, db.elections[id]);
    } else {
      var next := Step(env, db, calls[0]);
      StepEvolves(env, db, calls[0], id);
      StepKeeps(env, db, calls[0]);
      RunEvolves(env, next, calls[1..], id);
      EvolvesOn(env, id, db.elections[id], next.elections[id], Run(env, db, calls).elections[id]);
    }
  }

  lemma {:induction false} RunConcat(env: Env, db: Db, first: seq<Call>, second: seq<Call>)
    ensures Run(env, db, first + second) == Run(env, Run(env, db, first), second)
    decreases |first|
  {
    hide Step;
    if first == [] {
      assert first + second == second;
    } else {
      RunConcat(env, Step(env, db, first[0]), first[1..], second);
      assert (first + second)[1..] == first[1..] + second;
    }
  }

  /** A state once left is never entered again. */
  lemma StatusNeverReturns(env: Env, first: seq<Call>, second: seq<Call>, third: seq<Call>, id: string)
    requires id in Run(env, EMPTY, first).elections
    ensures var a, b, c := Run(env, EMPTY, first), Run(env, EMPTY, first + second), Run(env, EMPTY, first + second + third);
            && id in b.elections && id in c.elections
            && (b.elections[id].status != a.elections[id].status ==> c.elections[id].status != a.elections[id].status)
  {
    hide DbOk, Run;
    EmptyOk(env);
    RunKeeps(env, EMPTY, first);
    RunKeeps(env, EMPTY, first + second);
    RunConcat(env, EMPTY, first, second);
    RunConcat(env, EMPTY, first + second, third);
    RunEvolves(env, Run(env, EMPTY, first), second, id);
    RunEvolves(env, Run(env, EMPTY, first + second), third, id);
  }

  // ---- The frozen manifest ----

  /** What an export returns, when it succeeds. */
  ghost function Exported(env: Env, db: Db, id: string, superAdmin: bool): Option<RawManifest> {
    if Apply(env, db, ExportManifest(id, superAdmin)).Ok? then Some(ManifestOf(env, id, db.elections[id])) else None
  }

  lemma ExportFixes(env: Env, db: Db, id: string, superAdmin: bool)
    requires DbOk(env, db) && Exported(env, db, id, superAdmin).Some?
    ensures var db' := Step(env, db, ExportManifest(id, superAdmin));
            && id in db.elections && id in db'.elections && DbOk(env, db') && Fixed(db'.elections[id])
            && ManifestOf(env, id, db'.elections[id]) == Exported(env, db, id, superAdmin).value
            && forall k :: 0 <= k < |db'.elections[id].rings| ==>
                 db'.elections[id].rings[k].published == Some(env.digest(Exported(env, db, id, superAdmin).value))
  {
    hide VotersOk, ClaimsOk, ElectionOk, Blank, ManifestOf, ExportIn;
    StepKeeps(env, db, ExportManifest(id, superAdmin));
    ExportKeeps(env, db, id, db.elections[id], superAdmin);
  }

  lemma FixedDigests(env: Env, db: Db, id: string)
    requires DbOk(env, db) && id in db.elections && Fixed(db.elections[id])
    ensures forall k :: 0 <= k < |db.elections[id].rings| ==>
              db.elections[id].rings[k].published == Some(env.digest(ManifestOf(env, id, db.elections[id])))
  {
    hide VotersOk, ClaimsOk, CandidatesFit, CoversExactly, RingIdsFit, Blank, ManifestOf;
    var e := db.elections[id];
    assert ElectionOk(env, db.voters.Keys, id, e);
    assert e.rings[0].published.Some?;
  }

  /**
   * The manifest never moves once exported. Whatever calls follow, every later export returns the
   * same content, and every group carries the digest of exactly that content.
   */
  lemma FrozenManifest(env: Env, before: seq<Call>, id: string, superAdmin: bool, between: seq<Call>, superAdmin': bool)
    requires Exported(env, Run(env, EMPTY, before), id, superAdmin).Some?
    ensures var m := Exported(env, Run(env, EMPTY, before), id, superAdmin).value;
            var now := Run(env, EMPTY, before + [ExportManifest(id, superAdmin)] + between);
            && id in now.elections && now.elections[id].rings != []
            && (forall k :: 0 <= k < |now.elections[id].rings| ==> now.elections[id].rings[k].published == Some(env.digest(m)))
            && Exported(env, now, id, superAdmin') == Some(m)
  {
    hide DbOk, Run, ManifestOf, Apply;
    var db, call := Run(env, EMPTY, before), ExportManifest(id, superAdmin);
    EmptyOk(env);
    RunKeeps(env, EMPTY, before);
    ExportFixes(env, db, id, superAdmin);
    var fixed := Step(env, db, call);
    RunOne(env, db, call);
    RunConcat(env, EMPTY, before, [call]);
    RunConcat(env, EMPTY, before + [call], between);
    RunEvolves(env, fixed, between, id);
    RunKeeps(env, fixed, between);
    FixedDigests(env, Run(env, fixed, between), id);
    FixedExports(env, Run(env, fixed, between), id, superAdmin');
  }

  lemma RunOne(env: Env, db: Db, call: Call)
    ensures Run(env, db, [call]) == Step(env, db, call)
  {
    hide Step;
    assert [call][1..] == [];
    assert Run(env, Step(env, db, call), []) == Step(env, db, call);
  }

  /** With everything published an export is a plain re-read, open to any admin. */
  lemma FixedExports(env: Env, db: Db, id: string, superAdmin: bool)
    requires DbOk(env, db) && id in db.elections && Fixed(db.elections[id])
    ensures Exported(env, db, id, superAdmin) == Some(ManifestOf(env, id, db.elections[id]))
  {
    hide VotersOk, ClaimsOk, CandidatesFit, FormedOk, Blank, ManifestOf;
    assert ElectionOk(env, db.voters.Keys, id, db.elections[id]);
  }
}
