/** Loading an election manifest (blockchain/src/election.rs), from its parsed JSON onwards. */
module Manifests {
  import opened Bytes
  import opened Wrappers
  import opened Sums
  import opened Groups

  datatype RawCandidate = RawCandidate(candidateId: string, name: Option<string>, affiliation: Option<string>, ballotPosition: Option<int>)

  /** Public keys are the bytes their base64url text stands for. */
  datatype RawRing = RawRing(ringId: string, index: nat, publicKeys: seq<bytes>)

  datatype RawManifest = RawManifest(
    version: nat, electionId: string, title: string,
    votingOpensAt: Option<string>, votingClosesAt: Option<string>, ringSize: Option<nat>,
    candidates: seq<RawCandidate>, rings: seq<RawRing>)

  datatype Ring = Ring(ringId: string, index: nat, publicKeys: seq<bytes>)

  datatype ElectionManifest = ElectionManifest(
    electionId: string, title: string,
    votingOpensAt: Option<string>, votingClosesAt: Option<string>, ringSize: Option<nat>,
    candidateIds: set<string>, rings: map<string, Ring>)

  datatype LoadError =
    | UnsupportedVersion(found: nat)
    | EmptyElectionId
    | NoCandidates
    | NoRings
    | EmptyCandidateId(at: nat)
    | DuplicateCandidate(at: nat)
    | EmptyRingId(at: nat)
    | NoKeys(at: nat)
    | BadKey(at: nat, position: nat)
    | DuplicateKey(at: nat)
    | DuplicateRing(at: nat)

  const SUPPORTED_VERSION: nat := 1

  /** The Unicode White_Space property, which `trim` goes by. */
  predicate IsWhitespace(c: char) {
    var v := c as int;
    9 <= v <= 13 || v == 0x20 || v == 0x85 || v == 0xa0 || v == 0x1680 || 0x2000 <= v <= 0x200a
    || v == 0x2028 || v == 0x2029 || v == 0x202f || v == 0x205f || v == 0x3000
  }

  /** `trim().is_empty()`. */
  predicate Blank(s: string) {
    forall i :: 0 <= i < |s| ==> IsWhitespace(s[i])
  }

  // ---- What a manifest must be ----

  predicate KeyOk<P(==)>(grp: Group<P>, key: bytes) {
    |key| == 32 && DecodeMember(grp, key).Some?
  }

  ghost predicate Distinct<T(!new)>(s: seq<T>) {
    forall i, j :: 0 <= i < j < |s| ==> s[i] != s[j]
  }

  ghost predicate RingOk<P(!new)>(grp: Group<P>, ring: RawRing) {
    && !Blank(ring.ringId) && ring.publicKeys != []
    && (forall k :: 0 <= k < |ring.publicKeys| ==> KeyOk(grp, ring.publicKeys[k]))
    && Distinct(ring.publicKeys)
  }

  /** What is checked before the two loops. */
  ghost predicate HeaderOk(raw: RawManifest) {
    raw.version == SUPPORTED_VERSION && !Blank(raw.electionId) && raw.candidates != [] && raw.rings != []
  }

  /** The first i candidates have ids, all different. */
  ghost predicate CandidatesUpTo(raw: RawManifest, i: nat)
    requires i <= |raw.candidates|
  {
    && (forall k :: 0 <= k < i ==> !Blank(raw.candidates[k].candidateId))
    && (forall j, k :: 0 <= j < k < i ==> raw.candidates[j].candidateId != raw.candidates[k].candidateId)
  }

  ghost predicate CandidatesOk(raw: RawManifest) {
    CandidatesUpTo(raw, |raw.candidates|)
  }

  /** The first i groups are usable and have different ids. */
  ghost predicate RingsUpTo<P(!new)>(grp: Group<P>, raw: RawManifest, i: nat)
    requires i <= |raw.rings|
  {
    && (forall k :: 0 <= k < i ==> RingOk(grp, raw.rings[k]))
    && (forall j, k :: 0 <= j < k < i ==> raw.rings[j].ringId != raw.rings[k].ringId)
  }

  ghost predicate RingsOk<P(!new)>(grp: Group<P>, raw: RawManifest) {
    RingsUpTo(grp, raw, |raw.rings|)
  }

  ghost predicate Loadable<P(!new)>(grp: Group<P>, raw: RawManifest) {
    HeaderOk(raw) && CandidatesOk(raw) && RingsOk(grp, raw)
  }

  /** The first check that fails for this group, its id being new. */
  ghost predicate BlamesRing<P(!new)>(grp: Group<P>, ring: RawRing, e: LoadError) {
    match e
    case EmptyRingId(_) => Blank(ring.ringId)
    case NoKeys(_) => !Blank(ring.ringId) && ring.publicKeys == []
    case BadKey(_, k) =>
      && !Blank(ring.ringId) && k < |ring.publicKeys| && !KeyOk(grp, ring.publicKeys[k])
      && forall j :: 0 <= j < k ==> KeyOk(grp, ring.publicKeys[j])
    case DuplicateKey(_) =>
      && !Blank(ring.ringId) && ring.publicKeys != [] && !Distinct(ring.publicKeys)
      && forall j :: 0 <= j < |ring.publicKeys| ==> KeyOk(grp, ring.publicKeys[j])
    case _ => false
  }

  /** What each refusal says: this check fails, and all before it pass. */
  ghost predicate Blames<P(!new)>(grp: Group<P>, raw: RawManifest, e: LoadError) {
    match e
    case UnsupportedVersion(v) => v == raw.version != SUPPORTED_VERSION
    case EmptyElectionId => raw.version == SUPPORTED_VERSION && Blank(raw.electionId)
    case NoCandidates => raw.version == SUPPORTED_VERSION && !Blank(raw.electionId) && raw.candidates == []
    case NoRings =>
      raw.version == SUPPORTED_VERSION && !Blank(raw.electionId) && raw.candidates != [] && raw.rings == []
    case EmptyCandidateId(i) =>
      HeaderOk(raw) && i < |raw.candidates| && CandidatesUpTo(raw, i) && Blank(raw.candidates[i].candidateId)
    case DuplicateCandidate(i) =>
      && HeaderOk(raw) && i < |raw.candidates| && CandidatesUpTo(raw, i) && !Blank(raw.candidates[i].candidateId)
      && exists j :: 0 <= j < i && raw.candidates[j].candidateId == raw.candidates[i].candidateId
    case DuplicateRing(i) =>
      && HeaderOk(raw) && CandidatesOk(raw) && i < |raw.rings| && RingsUpTo(grp, raw, i) && RingOk(grp, raw.rings[i])
      && exists j :: 0 <= j < i && raw.rings[j].ringId == raw.rings[i].ringId
    case _ =>
      HeaderOk(raw) && CandidatesOk(raw) && e.at < |raw.rings| && RingsUpTo(grp, raw, e.at) && BlamesRing(grp, raw.rings[e.at], e)
  }

  function RingOf(raw: RawRing): Ring {
    Ring(raw.ringId, raw.index, raw.publicKeys)
  }

  function CandidateIds(raw: RawManifest): set<string> {
    set i | 0 <= i < |raw.candidates| :: raw.candidates[i].candidateId
  }

  /** The loaded manifest says what the file said: same ids, and every ring's keys in the file's order. */
  ghost predicate Loads(raw: RawManifest, m: ElectionManifest) {
    && m.electionId == raw.electionId && m.title == raw.title && m.ringSize == raw.ringSize
    && m.votingOpensAt == raw.votingOpensAt && m.votingClosesAt == raw.votingClosesAt
    && m.candidateIds == CandidateIds(raw)
    && m.rings.Keys == (set i | 0 <= i < |raw.rings| :: raw.rings[i].ringId)
    && forall i :: 0 <= i < |raw.rings| ==> m.rings[raw.rings[i].ringId] == RingOf(raw.rings[i])
  }

  // ---- The loader ----

  function ElementsOf<T>(s: seq<T>): set<T> {
    set i | 0 <= i < |s| :: s[i]
  }

  /** Counting distinct elements tells whether any repeats. */
  lemma {:induction false} DistinctByCount<T(!new)>(s: seq<T>)
    ensures |ElementsOf(s)| <= |s|
    ensures |ElementsOf(s)| == |s| <==> Distinct(s)
    decreases |s|
  {
    if s != [] {
      var n := |s| - 1;
      var front := s[..n];
      DistinctByCount(front);
      assert ElementsOf(s) == ElementsOf(front) + {s[n]} by {
        assert forall i :: 0 <= i < n ==> front[i] == s[i];
      }
      if s[n] in ElementsOf(front) {
        assert ElementsOf(s) == ElementsOf(front);
      }
    }
  }

  /** `from_json` after parsing: the checks in order, two loops, the first failure reported. */
  method FromJson<P(!new,==)>(grp: Group<P>, raw: RawManifest) returns (r: Result<ElectionManifest, LoadError>)
    ensures r.Ok? <==> Loadable(grp, raw)
    ensures r.Ok? ==> Loads(raw, r.value)
    ensures r.Err? ==> Blames(grp, raw, r.error)
  {
    hide Blank, CandidatesOk, RingsOk, CandidatesUpTo, RingsUpTo, BlamesRing;
    if raw.version != SUPPORTED_VERSION {
      return Err(UnsupportedVersion(raw.version));
    }
    if Blank(raw.electionId) {
      return Err(EmptyElectionId);
    }
    if raw.candidates == [] {
      return Err(NoCandidates);
    }
    if raw.rings == [] {
      return Err(NoRings);
    }
    var candidateIds := LoadCandidates(grp, raw);
    if candidateIds.Err? {
      return Err(candidateIds.error);
    }
    var rings := LoadRings(grp, raw);
    if rings.Err? {
      return Err(rings.error);
    }
    return Ok(ElectionManifest(raw.electionId, raw.title, raw.votingOpensAt, raw.votingClosesAt, raw.ringSize,
                               candidateIds.value, rings.value));
  }

  method LoadCandidates<P(!new)>(grp: Group<P>, raw: RawManifest) returns (r: Result<set<string>, LoadError>)
    requires HeaderOk(raw)
    ensures r.Ok? <==> CandidatesOk(raw)
    ensures r.Ok? ==> r.value == CandidateIds(raw)
    ensures r.Err? ==> Blames(grp, raw, r.error)
  {
    hide Blank;
    var ids: set<string> := {};
    for i := 0 to |raw.candidates|
      invariant ids == set j | 0 <= j < i :: raw.candidates[j].candidateId
      invariant CandidatesUpTo(raw, i)
    {
      var id := raw.candidates[i].candidateId;
      if Blank(id) {
        return Err(EmptyCandidateId(i));
      }
      if id in ids {
        return Err(DuplicateCandidate(i));
      }
      ids := ids + {id};
    }
    return Ok(ids);
  }

  /** The first i groups have distinct ids, and are filed under them. */
  ghost predicate Filed(raw: RawManifest, i: nat, rings: map<string, Ring>)
    requires i <= |raw.rings|
  {
    && rings.Keys == (set j | 0 <= j < i :: raw.rings[j].ringId)
    && (forall j, k :: 0 <= j < k < i ==> raw.rings[j].ringId != raw.rings[k].ringId)
    && (forall j :: 0 <= j < i ==> raw.rings[j].ringId in rings && rings[raw.rings[j].ringId] == RingOf(raw.rings[j]))
  }

  lemma NoneFiled(raw: RawManifest)
    ensures Filed(raw, 0, map[])
  {
  }

  lemma FileOne(raw: RawManifest, i: nat, rings: map<string, Ring>)
    requires i < |raw.rings| && Filed(raw, i, rings)
    ensures raw.rings[i].ringId in rings <==> exists j :: 0 <= j < i && raw.rings[j].ringId == raw.rings[i].ringId
    ensures raw.rings[i].ringId !in rings ==> Filed(raw, i + 1, rings[raw.rings[i].ringId := RingOf(raw.rings[i])])
  {
    var id := raw.rings[i].ringId;
    if id !in rings {
      forall j | 0 <= j < i ensures raw.rings[j].ringId != id {
        assert raw.rings[j].ringId in rings;
      }
    }
  }

  lemma AllFiled(raw: RawManifest, rings: map<string, Ring>)
    requires Filed(raw, |raw.rings|, rings)
    ensures rings.Keys == (set i | 0 <= i < |raw.rings| :: raw.rings[i].ringId)
    ensures forall j, k :: 0 <= j < k < |raw.rings| ==> raw.rings[j].ringId != raw.rings[k].ringId
    ensures forall i :: 0 <= i < |raw.rings| ==> rings[raw.rings[i].ringId] == RingOf(raw.rings[i])
  {
  }

  lemma OneMoreRing<P(!new)>(grp: Group<P>, raw: RawManifest, i: nat)
    requires i < |raw.rings| && RingsUpTo(grp, raw, i) && RingOk(grp, raw.rings[i])
    requires !exists j :: 0 <= j < i && raw.rings[j].ringId == raw.rings[i].ringId
    ensures RingsUpTo(grp, raw, i + 1)
  {
    hide RingOk;
  }

  method LoadRings<P(!new,==)>(grp: Group<P>, raw: RawManifest) returns (r: Result<map<string, Ring>, LoadError>)
    requires HeaderOk(raw) && CandidatesOk(raw)
    ensures r.Ok? <==> RingsOk(grp, raw)
    ensures r.Ok? ==> r.value.Keys == (set i | 0 <= i < |raw.rings| :: raw.rings[i].ringId)
    ensures r.Ok? ==> forall i :: 0 <= i < |raw.rings| ==> r.value[raw.rings[i].ringId] == RingOf(raw.rings[i])
    ensures r.Err? ==> Blames(grp, raw, r.error)
  {
    hide Blank, RingOk, KeyOk, Filed, HeaderOk, CandidatesOk, BlamesRing;
    var rings: map<string, Ring> := map[];
    NoneFiled(raw);
    for i := 0 to |raw.rings|
      invariant RingsUpTo(grp, raw, i)
      invariant Filed(raw, i, rings)
    {
      var why := LoadRing(grp, raw, i);
      if why.Some? {
        return Err(why.value);
      }
      var id := raw.rings[i].ringId;
      FileOne(raw, i, rings);
      if id in rings {
        return Err(DuplicateRing(i));
      }
      rings := rings[id := RingOf(raw.rings[i])];
      OneMoreRing(grp, raw, i);
    }
    AllFiled(raw, rings);
    return Ok(rings);
  }

  /** The checks on one group: its id, its keys one by one, then a count of distinct keys. */
  method LoadRing<P(!new,==)>(grp: Group<P>, raw: RawManifest, i: nat) returns (why: Option<LoadError>)
    requires i < |raw.rings|
    ensures why.None? <==> RingOk(grp, raw.rings[i])
    ensures why.Some? ==> (why.value.EmptyRingId? || why.value.NoKeys? || why.value.BadKey? || why.value.DuplicateKey?)
                          && why.value.at == i && BlamesRing(grp, raw.rings[i], why.value)
  {
    hide Blank, KeyOk;
    var ring := raw.rings[i];
    if Blank(ring.ringId) {
      return Some(EmptyRingId(i));
    }
    if ring.publicKeys == [] {
      return Some(NoKeys(i));
    }
    var publicKeys: seq<bytes> := [];
    for position := 0 to |ring.publicKeys|
      invariant publicKeys == ring.publicKeys[..position]
      invariant forall k :: 0 <= k < position ==> KeyOk(grp, ring.publicKeys[k])
    {
      if !KeyOk(grp, ring.publicKeys[position]) {
        return Some(BadKey(i, position));
      }
      publicKeys := publicKeys + [ring.publicKeys[position]];
    }
    assert publicKeys == ring.publicKeys;
    DistinctByCount(publicKeys);
    var distinct := ElementsOf(publicKeys);
    if |distinct| != |publicKeys| {
      return Some(DuplicateKey(i));
    }
    return None;
  }

  /** The code points `trim` removes, one by one. */
  lemma WhitespaceListed(c: char)
    ensures IsWhitespace(c) <==>
            c as int in [9, 10, 11, 12, 13, 0x20, 0x85, 0xa0, 0x1680,
                         0x2000, 0x2001, 0x2002, 0x2003, 0x2004, 0x2005, 0x2006, 0x2007, 0x2008, 0x2009, 0x200a,
                         0x2028, 0x2029, 0x202f, 0x205f, 0x3000]
  {
  }

  /** An id is refused as empty exactly when trimming removes every character. */
  lemma BlankMeans(s: string)
    ensures !Blank(s) <==> exists k :: 0 <= k < |s| && !IsWhitespace(s[k])
  {
    hide IsWhitespace;
  }

  /** A group is usable when it has an id and different keys, each 32 bytes of a point other than the identity. */
  lemma RingMeans<P(!new)>(grp: Group<P>, ring: RawRing)
    ensures RingOk(grp, ring) <==>
            && !Blank(ring.ringId) && |ring.publicKeys| > 0
            && forall k :: 0 <= k < |ring.publicKeys| ==>
                 var key := ring.publicKeys[k];
                 && |key| == 32 && grp.dec(key).Some? && grp.dec(key).value != grp.zero
                 && forall j :: 0 <= j < k ==> ring.publicKeys[j] != key
  {
    hide Blank;
  }

  /**
   * A manifest loads exactly when it is version 1 and named, and both its candidates and its groups
   * are there, have ids that differ from all before them, and the groups are usable.
   */
  lemma LoadsWhen<P(!new)>(grp: Group<P>, raw: RawManifest)
    ensures Loadable(grp, raw) <==>
            && raw.version == 1 && !Blank(raw.electionId) && |raw.candidates| > 0 && |raw.rings| > 0
            && (forall i :: 0 <= i < |raw.candidates| ==>
                  var id := raw.candidates[i].candidateId;
                  !Blank(id) && forall j :: 0 <= j < i ==> raw.candidates[j].candidateId != id)
            && forall i :: 0 <= i < |raw.rings| ==>
                 RingOk(grp, raw.rings[i]) && forall j :: 0 <= j < i ==> raw.rings[j].ringId != raw.rings[i].ringId
  {
    hide Blank, RingOk;
  }

  /** There is one refusal for every manifest that does not load, and none for one that does. */
  lemma OneBlame<P(!new)>(grp: Group<P>, raw: RawManifest, a: LoadError, b: LoadError)
    requires Blames(grp, raw, a)
    ensures !Loadable(grp, raw)
    ensures Blames(grp, raw, b) ==> a == b
  {
    hide Blank, KeyOk;
  }

  /** A loaded group is found under its own id with the file's keys in the file's order, and no other group is there. */
  lemma LoadedGroups(raw: RawManifest, m: ElectionManifest, id: string)
    requires Loads(raw, m)
    ensures m.electionId == raw.electionId && m.title == raw.title && m.ringSize == raw.ringSize
    ensures m.votingOpensAt == raw.votingOpensAt && m.votingClosesAt == raw.votingClosesAt
    ensures id in m.candidateIds <==> exists i :: 0 <= i < |raw.candidates| && raw.candidates[i].candidateId == id
    ensures id in m.rings <==> exists i :: 0 <= i < |raw.rings| && raw.rings[i].ringId == id
    ensures forall i :: 0 <= i < |raw.rings| && raw.rings[i].ringId == id ==>
              m.rings[id] == Ring(id, raw.rings[i].index, raw.rings[i].publicKeys)
  {
  }

  // ---- What loading keeps ----

  ghost function SizeIn(m: ElectionManifest): string -> nat {
    id => if id in m.rings then |m.rings[id].publicKeys| else 0
  }

  /** `voter_count`: the keys of all rings together. */
  ghost function VoterCount(m: ElectionManifest): nat {
    Total(m.rings.Keys, SizeIn(m))
  }

  /** Keys listed by the first i groups of the file. */
  function KeysUpTo(raw: RawManifest, i: nat): nat
    requires i <= |raw.rings|
    decreases i
  {
    if i == 0 then 0 else KeysUpTo(raw, i - 1) + |raw.rings[i - 1].publicKeys|
  }

  function IdsUpTo(raw: RawManifest, i: nat): (ids: set<string>)
    requires i <= |raw.rings|
    ensures forall id :: id in ids <==> exists j :: 0 <= j < i && raw.rings[j].ringId == id
    decreases i
  {
    if i == 0 then {} else IdsUpTo(raw, i - 1) + {raw.rings[i - 1].ringId}
  }

  lemma {:induction false} CountUpTo<P(!new)>(grp: Group<P>, raw: RawManifest, m: ElectionManifest, i: nat)
    requires RingsOk(grp, raw) && Loads(raw, m) && i <= |raw.rings|
    ensures Total(IdsUpTo(raw, i), SizeIn(m)) == KeysUpTo(raw, i)
    decreases i
  {
    hide RingOk, Total;
    if i == 0 {
      TotalOfNone(SizeIn(m));
    } else {
      CountUpTo(grp, raw, m, i - 1);
      var id := raw.rings[i - 1].ringId;
      TotalPick(IdsUpTo(raw, i), SizeIn(m), id);
      assert IdsUpTo(raw, i) - {id} == IdsUpTo(raw, i - 1);
      assert m.rings[id] == RingOf(raw.rings[i - 1]);
    }
  }

  lemma TotalOfNone(f: string -> nat)
    ensures Total({}, f) == 0
  {
  }

  /** A loaded manifest counts every key the file lists, once per listing. */
  lemma VoterCountIsListed<P(!new)>(grp: Group<P>, raw: RawManifest, m: ElectionManifest)
    requires Loadable(grp, raw) && Loads(raw, m)
    ensures VoterCount(m) == KeysUpTo(raw, |raw.rings|)
  {
    hide RingsOk, CandidatesOk, Total, SizeIn;
    CountUpTo(grp, raw, m, |raw.rings|);
    assert m.rings.Keys == IdsUpTo(raw, |raw.rings|);
  }
}
