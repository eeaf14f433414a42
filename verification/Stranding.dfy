/**
 * Which frozen elections can still open. Closing registration checks the electorate against the
 * minimum group size only, while forming groups needs the election's own group size, and neither the
 * roll nor the group size can change any more.
 */
module Stranding {
  import opened Bytes
  import opened Wrappers
  import opened Lifecycle
  import opened Manifests
  import opened RingFormation
  import opened Elections
  import opened ElectionSafety
  import opened ElectionRuns

  ghost predicate CanOpen(env: Env, db: Db, id: string) {
    exists more: seq<Call> :: id in Run(env, db, more).elections && Run(env, db, more).elections[id].status == VotingOpen
  }

  // ---- The steps that open a formable election ----

  ghost function PendingIn(db: Db): set<nat> {
    set r | r in db.registrations && db.registrations[r].status.Pending?
  }

  /** The review queue can always be cleared by rejecting what is in it. */
  lemma {:induction false} ClearQueue(env: Env, db: Db) returns (calls: seq<Call>)
    ensures var db' := Run(env, db, calls);
            NoPending(db') && db'.elections == db.elections && db'.voters == db.voters
    decreases |PendingIn(db)|
  {
    hide Apply;
    if PendingIn(db) == {} {
      calls := [];
      assert forall r :: r in db.registrations && db.registrations[r].status.Pending? ==> r in PendingIn(db);
    } else {
      var r :| r in PendingIn(db);
      var next := Step(env, db, Reject(r));
      RejectOne(env, db, r);
      assert PendingIn(next) == PendingIn(db) - {r};
      var rest := ClearQueue(env, next);
      calls := [Reject(r)] + rest;
      assert calls[1..] == rest;
    }
  }

  lemma RejectOne(env: Env, db: Db, r: nat)
    requires r in db.registrations && db.registrations[r].status.Pending?
    ensures var next := Step(env, db, Reject(r));
            && next.elections == db.elections && next.voters == db.voters
            && next.registrations == db.registrations[r := db.registrations[r].(status := Rejected)]
  {
  }

  /** Distinct names, for any number of groups or candidates. */
  function Label(n: nat): (s: string)
    ensures |s| == n + 1
  {
    seq(n + 1, _ => 'g')
  }

  function Labels(n: nat): (names: seq<string>)
    ensures |names| == n && forall k :: 0 <= k < n ==> names[k] == Label(k)
  {
    seq(n, k requires 0 <= k < n => Label(k))
  }

  lemma NamesFit(n: nat)
    ensures RingIdsOk(Labels(n))
  {
    var names := Labels(n);
    forall i | 0 <= i < n ensures !Blank(names[i]) {
      assert names[i][0] == 'g' && !IsWhitespace('g');
    }
    forall i, j | 0 <= i < j < n ensures names[i] != names[j] {
      assert |names[i]| != |names[j]|;
    }
  }

  /** With enough voters some ids and draws form the groups. */
  lemma FormingWorks(env: Env, voters: map<nat, bytes>, e: Election) returns (ringIds: seq<string>, draws: seq<nat>)
    requires EnvOk(env) && e.roll <= voters.Keys && e.status == RingsFrozen && e.rings == [] && Formable(env, e)
    ensures var r := FormRingsIn(env, voters, e, ringIds, draws);
            && r.Ok? && r.value.rings != [] && r.value.status == RingsFrozen && Formable(env, r.value)
  {
    hide Electorate, Grouped, RingIdsOk;
    draws := seq(|e.roll|, _ => 0);
    var items := Electorate(voters, e.roll);
    GroupsCover(items, draws, e.ringSize);
    var groups := Grouped(items, draws, e.ringSize);
    NamesFit(|groups|);
    ringIds := Labels(|groups|);
  }

  /** What a formed or unformed election needs to go on. */
  ghost predicate Waiting(env: Env, db: Db, id: string) {
    && DbOk(env, db) && NoPending(db) && id in db.elections
    && db.elections[id].status == RingsFrozen && Formable(env, db.elections[id])
  }

  lemma CallOn(env: Env, db: Db, call: Call)
    requires ElectionNamed(call).Some? && ElectionNamed(call).value in db.elections
    requires ElectionCall(env, db, call, db.elections[ElectionNamed(call).value]).Ok?
    ensures var id := ElectionNamed(call).value;
            Step(env, db, call) == db.(elections := db.elections[id := ElectionCall(env, db, call, db.elections[id]).value])
  {
    hide ElectionCall;
  }

  lemma FormStep(env: Env, db: Db, id: string) returns (calls: seq<Call>)
    requires EnvOk(env) && Waiting(env, db, id)
    ensures Waiting(env, Run(env, db, calls), id) && Run(env, db, calls).elections[id].rings != []
  {
    hide VotersOk, ClaimsOk, CandidatesFit, FormedOk, StageOk, Blank, FormRingsIn, Formable, NoPending;
    var e := db.elections[id];
    assert ElectionOk(env, db.voters.Keys, id, e);
    if e.rings != [] {
      calls := [];
    } else {
      var ringIds, draws := FormingWorks(env, db.voters, e);
      var call := FormRings(id, ringIds, draws);
      calls := [call];
      StepKeeps(env, db, call);
      CallOn(env, db, call);
      RunOne(env, db, call);
      SameQueue(db, Step(env, db, call));
    }
  }

  lemma SameQueue(db: Db, db': Db)
    requires NoPending(db) && db'.registrations == db.registrations
    ensures NoPending(db')
  {
  }

  lemma GuardsHold(env: Env, db: Db, id: string)
    requires EnvOk(env) && Waiting(env, db, id) && db.elections[id].rings != []
    ensures PublishGuards(env, db, db.elections[id])
    ensures AllPublished(db.elections[id]) ==> VotingOpenGuards(env, db.elections[id])
  {
    hide VotersOk, ClaimsOk, CandidatesFit, RingIdsFit, PublicationFits, Blank, NoPending;
    var e := db.elections[id];
    assert ElectionOk(env, db.voters.Keys, id, e);
    assert |e.roll| > 0;
    assert Unassigned(e) == {};
  }

  lemma PublishStep(env: Env, db: Db, id: string)
    requires EnvOk(env) && Waiting(env, db, id) && db.elections[id].rings != []
    ensures var db' := Step(env, db, ExportManifest(id, true));
            Waiting(env, db', id) && Fixed(db'.elections[id])
  {
    hide DbOk, PublishGuards, VotingOpenGuards, ManifestOf, Exported;
    var e := db.elections[id];
    GuardsHold(env, db, id);
    StillContested(env, db, id);
    assert ExportIn(env, db, id, e, true).Ok?;
    CallOn(env, db, ExportManifest(id, true));
    StepKeeps(env, db, ExportManifest(id, true));
  }

  lemma StillContested(env: Env, db: Db, id: string)
    requires DbOk(env, db) && id in db.elections && Frozen(db.elections[id].status)
    ensures |db.elections[id].candidates| >= 2
  {
    hide VotersOk, ClaimsOk, CandidatesFit, FormedOk, Blank;
    assert ElectionOk(env, db.voters.Keys, id, db.elections[id]);
  }

  lemma OpenStep(env: Env, db: Db, id: string)
    requires EnvOk(env) && Waiting(env, db, id) && Fixed(db.elections[id])
    ensures var db' := Step(env, db, Transition(id, VotingOpen, true));
            id in db'.elections && db'.elections[id].status == VotingOpen
  {
    hide DbOk, PublishGuards, VotingOpenGuards;
    GuardsHold(env, db, id);
    assert TransitionIn(env, db, db.elections[id], VotingOpen, true).Ok?;
    CallOn(env, db, Transition(id, VotingOpen, true));
  }

  /** A frozen election whose roll fills a group can be brought to voting. */
  lemma FormableOpens(env: Env, db: Db, id: string)
    requires EnvOk(env) && DbOk(env, db) && id in db.elections
    requires db.elections[id].status == RingsFrozen && Formable(env, db.elections[id])
    ensures CanOpen(env, db, id)
  {
    hide DbOk, Step, Formable, Fixed, NoPending;
    var clear := ClearQueue(env, db);
    var db1 := Run(env, db, clear);
    RunKeeps(env, db, clear);
    var form := FormStep(env, db1, id);
    var db2 := Run(env, db1, form);
    PublishStep(env, db2, id);
    var db3 := Step(env, db2, ExportManifest(id, true));
    OpenStep(env, db3, id);
    var last := [ExportManifest(id, true)] + [Transition(id, VotingOpen, true)];
    RunOne(env, db2, ExportManifest(id, true));
    RunOne(env, db3, Transition(id, VotingOpen, true));
    RunConcat(env, db2, [ExportManifest(id, true)], [Transition(id, VotingOpen, true)]);
    RunConcat(env, db1, form, last);
    RunConcat(env, db, clear, form + last);
    var more := clear + (form + last);
    assert id in Run(env, db, more).elections && Run(env, db, more).elections[id].status == VotingOpen;
  }

  /**
   * A frozen election can reach voting exactly when its roll fills one group of its size and that size
   * meets the minimum. Otherwise no call ever moves it again.
   */
  lemma FrozenCanOpen(env: Env, calls: seq<Call>, id: string)
    requires EnvOk(env) && id in Run(env, EMPTY, calls).elections
    requires Run(env, EMPTY, calls).elections[id].status == RingsFrozen
    ensures var db := Run(env, EMPTY, calls);
            && (CanOpen(env, db, id) <==> Formable(env, db.elections[id]))
            && (!Formable(env, db.elections[id]) ==>
                  forall more: seq<Call> :: id in Run(env, db, more).elections && Run(env, db, more).elections[id].status == RingsFrozen)
  {
    hide DbOk, Run, Formable, Evolves;
    var db := Run(env, EMPTY, calls);
    EmptyOk(env);
    RunKeeps(env, EMPTY, calls);
    if Formable(env, db.elections[id]) {
      FormableOpens(env, db, id);
    } else {
      forall more: seq<Call>
        ensures id in Run(env, db, more).elections && Run(env, db, more).elections[id].status == RingsFrozen
      {
        RunEvolves(env, db, more, id);
        StuckStays(env, id, db.elections[id], Run(env, db, more).elections[id]);
      }
    }
  }

  lemma StuckStays(env: Env, id: string, e: Election, e': Election)
    requires Evolves(env, id, e, e') && Frozen(e.status) && !Formable(env, e)
    ensures e'.status == e.status
  {
    hide ManifestOf;
  }

  // ---- Such an election exists ----

  lemma RunSnoc(env: Env, db: Db, calls: seq<Call>, call: Call)
    ensures Run(env, db, calls + [call]) == Step(env, Run(env, db, calls), call)
  {
    hide Step;
    RunConcat(env, db, calls, [call]);
    RunOne(env, Run(env, db, calls), call);
  }

  const SOLO: string := "e"

  const TITLE: string := "Council"

  const NAME: string := "Ada"

  function Solo(status: Status, candidates: map<string, Candidate>, roll: set<nat>): Election {
    Election(TITLE, None, None, 3, status, candidates, roll, [], map[])
  }

  function SoloDb(e: Election, voters: map<nat, bytes>, registrations: map<nat, Registration>): Db {
    Db(map[SOLO := e], voters, registrations, map[])
  }

  lemma SoloNames()
    ensures !Blank(SOLO) && !Blank("a") && !Blank("b")
  {
    assert !IsWhitespace('e') && !IsWhitespace('a') && !IsWhitespace('b');
    assert SOLO[0] == 'e' && "a"[0] == 'a' && "b"[0] == 'b';
  }

  /** Opening registration for an election in groups of three. */
  lemma SoloOpens(env: Env) returns (calls: seq<Call>)
    ensures Run(env, EMPTY, calls) == SoloDb(Solo(RegistrationOpen, map[], {}), map[], map[])
  {
    hide Blank, Run;
    SoloNames();
    var create := CreateElection(SOLO, TITLE, None, None, 3);
    var open := Transition(SOLO, RegistrationOpen, true);
    assert Step(env, EMPTY, create) == SoloDb(Solo(Draft, map[], {}), map[], map[]);
    var draft := SoloDb(Solo(Draft, map[], {}), map[], map[]);
    assert draft.elections[SOLO := Solo(RegistrationOpen, map[], {})] == map[SOLO := Solo(RegistrationOpen, map[], {})];
    assert Step(env, draft, open) == SoloDb(Solo(RegistrationOpen, map[], {}), map[], map[]);
    RunOne(env, EMPTY, create);
    RunSnoc(env, EMPTY, [create], open);
    calls := [create] + [open];
  }

  /** Two voters, vetted and on the roll. */
  lemma SoloEnrols(env: Env, k: bytes, l: bytes) returns (calls: seq<Call>)
    requires env.keyOk(k) && env.keyOk(l) && k != l
    ensures var done := map[0 := Registration(Approved, k, Some(0)), 1 := Registration(Approved, l, Some(1))];
            Run(env, EMPTY, calls) == SoloDb(Solo(RegistrationOpen, map[], {0, 1}), map[0 := k, 1 := l], done)
  {
    hide Run, Step, Solo, SoloDb;
    var start := SoloOpens(env);
    var db0 := SoloDb(Solo(RegistrationOpen, map[], {}), map[], map[]);
    SoloFields(Solo(RegistrationOpen, map[], {}), map[], map[]);
    var first := SoloEnrolsOne(env, db0, 0, k, {}, {0}, start);
    var db1 := SoloDb(Solo(RegistrationOpen, map[], {0}), map[0 := k], map[0 := Registration(Approved, k, Some(0))]);
    SoloFields(Solo(RegistrationOpen, map[], {0}), map[0 := k], map[0 := Registration(Approved, k, Some(0))]);
    calls := SoloEnrolsOne(env, db1, 1, l, {0}, {0, 1}, first);
    assert map[0 := k][1 := l] == map[0 := k, 1 := l];
  }

  lemma SoloFields(e: Election, voters: map<nat, bytes>, registrations: map<nat, Registration>)
    ensures SoloDb(e, voters, registrations).voters == voters && SoloDb(e, voters, registrations).registrations == registrations
    ensures SoloDb(e, voters, registrations).elections == map[SOLO := e]
  {
  }

  /** One person registers and is approved onto the roll. */
  lemma SoloEnrolsOne(env: Env, db: Db, who: nat, key: bytes, roll: set<nat>, roll': set<nat>, before: seq<Call>) returns (calls: seq<Call>)
    requires db == Run(env, EMPTY, before) == SoloDb(Solo(RegistrationOpen, map[], roll), db.voters, db.registrations)
    requires env.keyOk(key) && !KeyHeld(db.voters, key) && !KeyClaimed(db.registrations, key)
    requires who !in db.registrations && who !in db.voters && roll' == roll + {who}
    ensures Run(env, EMPTY, calls) ==
            SoloDb(Solo(RegistrationOpen, map[], roll'), db.voters[who := key],
                   db.registrations[who := Registration(Approved, key, Some(who))])
  {
    hide Run, KeyHeld, KeyClaimed;
    var pending := db.registrations[who := Registration(Pending, key, None)];
    var db1 := db.(registrations := pending);
    assert Step(env, db, SubmitRegistration(who, key)) == db1;
    ApproveSolo(env, db1, who, who, roll, roll');
    RunSnoc(env, EMPTY, before, SubmitRegistration(who, key));
    RunSnoc(env, EMPTY, before + [SubmitRegistration(who, key)], Approve(who, who, Some(SOLO)));
    calls := before + [SubmitRegistration(who, key)] + [Approve(who, who, Some(SOLO))];
    assert pending[who := Registration(Approved, key, Some(who))] == db.registrations[who := Registration(Approved, key, Some(who))];
  }

  lemma ApproveSolo(env: Env, db: Db, reg: nat, voter: nat, roll: set<nat>, roll': set<nat>)
    requires db == SoloDb(Solo(RegistrationOpen, map[], roll), db.voters, db.registrations)
    requires reg in db.registrations && db.registrations[reg].status.Pending?
    requires voter !in db.voters && !KeyHeld(db.voters, db.registrations[reg].key) && roll' == roll + {voter}
    ensures Step(env, db, Approve(reg, voter, Some(SOLO))) ==
            SoloDb(Solo(RegistrationOpen, map[], roll'), db.voters[voter := db.registrations[reg].key],
                   db.registrations[reg := Registration(Approved, db.registrations[reg].key, Some(voter))])
  {
    assert db.elections[SOLO := Solo(RegistrationOpen, map[], roll')] == map[SOLO := Solo(RegistrationOpen, map[], roll')];
  }

  /**
   * The guard on closing registration does not keep the dead end unreachable: two approved voters and
   * two candidates, with groups of three and a minimum of two, close registration and are stranded.
   */
  lemma ReachableDeadEnd(env: Env, k: bytes, l: bytes) returns (calls: seq<Call>)
    requires env.ringMin == 2 && env.keyOk(k) && env.keyOk(l) && k != l
    ensures var db := Run(env, EMPTY, calls);
            SOLO in db.elections && db.elections[SOLO].status == RingsFrozen && !Formable(env, db.elections[SOLO])
  {
    hide Run, Blank, Step;
    var start := SoloEnrols(env, k, l);
    SoloNames();
    var db0 := Run(env, EMPTY, start);
    var one := map["a" := Candidate(NAME, None, 1)];
    var two := one["b" := Candidate(NAME, None, 2)];
    var add1 := AddCandidate(SOLO, "a", NAME, None, Some(1));
    var add2 := AddCandidate(SOLO, "b", NAME, None, Some(2));
    var close := Transition(SOLO, RingsFrozen, true);
    var db1 := SoloDb(Solo(RegistrationOpen, one, {0, 1}), db0.voters, db0.registrations);
    SoloCall(env, db0, add1, Solo(RegistrationOpen, map[], {0, 1}), Solo(RegistrationOpen, one, {0, 1}));
    var db2 := SoloDb(Solo(RegistrationOpen, two, {0, 1}), db0.voters, db0.registrations);
    SoloCall(env, db1, add2, Solo(RegistrationOpen, one, {0, 1}), Solo(RegistrationOpen, two, {0, 1}));
    var db3 := SoloDb(Solo(RingsFrozen, two, {0, 1}), db0.voters, db0.registrations);
    assert |two| == 2 && |{0, 1}| == 2;
    assert NoPending(db2);
    SoloCall(env, db2, close, Solo(RegistrationOpen, two, {0, 1}), Solo(RingsFrozen, two, {0, 1}));
    RunSnoc(env, EMPTY, start, add1);
    RunSnoc(env, EMPTY, start + [add1], add2);
    RunSnoc(env, EMPTY, start + [add1] + [add2], close);
    calls := start + [add1] + [add2] + [close];
  }

  lemma SoloCall(env: Env, db: Db, call: Call, e: Election, e': Election)
    requires db.elections == map[SOLO := e] && ElectionNamed(call) == Some(SOLO)
    requires ElectionCall(env, db, call, e) == Ok(e')
    ensures Step(env, db, call) == db.(elections := map[SOLO := e'])
  {
    hide ElectionCall;
    CallOn(env, db, call);
    assert map[SOLO := e][SOLO := e'] == map[SOLO := e'];
  }
}
