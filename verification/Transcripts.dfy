/**
 * The byte strings that get hashed: the signed message, the input of the key-image base and the
 * challenge transcript, as web/src/crypto/lrs and blockchain/src/lrs each build them.
 *
 * SHA-512 and the final map onto the curve are uninterpreted.
 */
module Transcripts {
  import opened Bytes
  import opened Words
  import opened Wrappers
  import opened Strings
  import opened PrimeField
  import opened Groups
  import opened Xmd

  datatype Suite<!P> = Suite(grp: Group<P>, sha512: bytes -> bytes, oneWayMap: bytes -> P)

  ghost predicate SuiteOk<P(!new)>(su: Suite<P>) {
    Lawful(su.grp) && IsSha512Sized(su.sha512)
  }

  // The domain-separation tags in ASCII; TagHp and the lemmas after it spell them out.
  const DST_HP: bytes := [0x53, 0x45, 0x43, 0x55, 0x52, 0x45, 0x50, 0x4f, 0x4c, 0x4c, 0x2f, 0x76, 0x31, 0x2f, 0x48, 0x5f, 0x70]
  const PREFIX_HS: bytes := [0x53, 0x45, 0x43, 0x55, 0x52, 0x45, 0x50, 0x4f, 0x4c, 0x4c, 0x2f, 0x76, 0x31, 0x2f, 0x48, 0x5f, 0x73]
  const PREFIX_CHAL: bytes := [0x53, 0x45, 0x43, 0x55, 0x52, 0x45, 0x50, 0x4f, 0x4c, 0x4c, 0x2f, 0x76, 0x31, 0x2f, 0x63, 0x68, 0x61, 0x6c]
  const PREFIX_VOTE: bytes := [0x53, 0x45, 0x43, 0x55, 0x52, 0x45, 0x50, 0x4f, 0x4c, 0x4c, 0x2f, 0x76, 0x31, 0x2f, 0x76, 0x6f, 0x74, 0x65]

  // ---- The transcripts ----

  /** Length, then bytes. */
  function Lp(b: bytes): bytes {
    U32le(|b|) + b
  }

  function EncodeMessage(electionId: string, ringId: string, candidateId: string): bytes {
    PREFIX_VOTE + (Lp(Utf8(electionId)) + (Lp(Utf8(ringId)) + Lp(Utf8(candidateId))))
  }

  function KeyImageInput(publicKey: bytes, electionId: string): bytes {
    Lp(publicKey) + Lp(Utf8(electionId))
  }

  function ChallengeInput(message: bytes, ring: seq<bytes>, l: bytes, r: bytes): bytes {
    PREFIX_CHAL + (Lp(message) + (U32le(|ring|) + (Flatten(ring) + (l + r))))
  }

  // ---- What is hashed from them ----

  function HashToScalar<P>(su: Suite<P>, b: bytes): (s: nat)
    requires su.grp.q > 0
    ensures s < su.grp.q
  {
    LeToNat(su.sha512(PREFIX_HS + b)) % su.grp.q
  }

  /** XMD expansion to 64 bytes, then the map onto the curve. */
  function HashToPoint<P>(su: Suite<P>, b: bytes): P
    requires IsSha512Sized(su.sha512)
  {
    su.oneWayMap(Expand(su.sha512, b, DST_HP, 64))
  }

  function KeyImageBase<P>(su: Suite<P>, publicKey: bytes, electionId: string): P
    requires IsSha512Sized(su.sha512)
  {
    HashToPoint(su, KeyImageInput(publicKey, electionId))
  }

  function Challenge<P>(su: Suite<P>, message: bytes, ring: seq<bytes>, l: P, r: P): (c: nat)
    requires su.grp.q > 0
    ensures c < su.grp.q
  {
    HashToScalar(su, ChallengeInput(message, ring, su.grp.enc(l), su.grp.enc(r)))
  }

  // ---- Injectivity ----

  predicate Fits(b: bytes) {
    |b| < TWO32
  }

  /** A length prefix says where its field ends, so what follows is determined too. */
  lemma LpSplit(a: bytes, x: bytes, b: bytes, y: bytes)
    requires Fits(a) && Fits(b) && Lp(a) + x == Lp(b) + y
    ensures a == b && x == y
  {
    hide U32le;
    assert Lp(a) + x == U32le(|a|) + (a + x) && Lp(b) + y == U32le(|b|) + (b + y);
    SplitSame(U32le(|a|), a + x, U32le(|b|), b + y);
    U32leInjective(|a|, |b|);
    SplitSame(a, x, b, y);
  }

  lemma LpInjective(a: bytes, b: bytes)
    requires Fits(a) && Fits(b) && Lp(a) == Lp(b)
    ensures a == b
  {
    hide U32le;
    assert Lp(a) + [] == Lp(a) && Lp(b) + [] == Lp(b);
    LpSplit(a, [], b, []);
  }

  predicate MessageFits(electionId: string, ringId: string, candidateId: string) {
    Fits(Utf8(electionId)) && Fits(Utf8(ringId)) && Fits(Utf8(candidateId))
  }

  /** A signed message commits to its election, its ring and its candidate. */
  lemma MessageInjective(e: string, r: string, c: string, e': string, r': string, c': string)
    requires MessageFits(e, r, c) && MessageFits(e', r', c')
    requires EncodeMessage(e, r, c) == EncodeMessage(e', r', c')
    ensures e == e' && r == r' && c == c'
  {
    hide Lp, Utf8;
    var tail, tail' := Lp(Utf8(r)) + Lp(Utf8(c)), Lp(Utf8(r')) + Lp(Utf8(c'));
    SplitSame(PREFIX_VOTE, Lp(Utf8(e)) + tail, PREFIX_VOTE, Lp(Utf8(e')) + tail');
    LpSplit(Utf8(e), tail, Utf8(e'), tail');
    LpSplit(Utf8(r), Lp(Utf8(c)), Utf8(r'), Lp(Utf8(c')));
    LpInjective(Utf8(c), Utf8(c'));
    Utf8Injective(e, e');
    Utf8Injective(r, r');
    Utf8Injective(c, c');
  }

  /** A key-image base is scoped to one key and one election. */
  lemma KeyImageInputInjective(k: bytes, e: string, k': bytes, e': string)
    requires Fits(k) && Fits(k') && Fits(Utf8(e)) && Fits(Utf8(e'))
    requires KeyImageInput(k, e) == KeyImageInput(k', e')
    ensures k == k' && e == e'
  {
    hide Lp, Utf8;
    LpSplit(k, Lp(Utf8(e)), k', Lp(Utf8(e')));
    LpInjective(Utf8(e), Utf8(e'));
    Utf8Injective(e, e');
  }

  /** A challenge commits to the message, the ring in order, and both points. */
  lemma ChallengeInjective(m: bytes, ring: seq<bytes>, l: bytes, r: bytes, m': bytes, ring': seq<bytes>, l': bytes, r': bytes)
    requires Fits(m) && Fits(m') && |ring| < TWO32 && |ring'| < TWO32
    requires AllSized(ring, 32) && AllSized(ring', 32) && |l| == |l'| == |r| == |r'| == 32
    requires ChallengeInput(m, ring, l, r) == ChallengeInput(m', ring', l', r')
    ensures m == m' && ring == ring' && l == l' && r == r'
  {
    hide Lp, U32le, Flatten, AllSized;
    var t, t' := Flatten(ring) + (l + r), Flatten(ring') + (l' + r');
    SplitSame(PREFIX_CHAL, Lp(m) + (U32le(|ring|) + t), PREFIX_CHAL, Lp(m') + (U32le(|ring'|) + t'));
    LpSplit(m, U32le(|ring|) + t, m', U32le(|ring'|) + t');
    SplitSame(U32le(|ring|), t, U32le(|ring'|), t');
    U32leInjective(|ring|, |ring'|);
    FlattenLength(ring, 32);
    FlattenLength(ring', 32);
    SplitSame(Flatten(ring), l + r, Flatten(ring'), l' + r');
    FlattenInjective(ring, ring', 32);
    SplitSame(l, r, l', r');
  }

  /** A signed message, and a challenge transcript, never start like one another. */
  lemma PrefixesDiffer(m: bytes, ring: seq<bytes>, l: bytes, r: bytes, e: string, i: string, c: string)
    ensures EncodeMessage(e, i, c) != ChallengeInput(m, ring, l, r)
  {
    hide Utf8, Lp;
    assert PREFIX_VOTE[14] != PREFIX_CHAL[14];
    if EncodeMessage(e, i, c) == ChallengeInput(m, ring, l, r) {
      SplitSame(PREFIX_VOTE, Lp(Utf8(e)) + (Lp(Utf8(i)) + Lp(Utf8(c))),
                PREFIX_CHAL, Lp(m) + (U32le(|ring|) + (Flatten(ring) + (l + r))));
    }
  }

  lemma {:induction false} AsciiBytes(s: string)
    requires forall i :: 0 <= i < |s| ==> s[i] as int < 0x80
    ensures |Utf8(s)| == |s| && forall i :: 0 <= i < |s| ==> Utf8(s)[i] == ByteOf(s[i] as int)
    decreases |s|
  {
    hide ByteOf;
    if s != [] {
      AsciiBytes(s[1..]);
    }
  }

  lemma TagIsText(s: string, tag: bytes)
    requires |s| == |tag| && forall i :: 0 <= i < |s| ==> tag[i] as int == s[i] as int < 0x80
    ensures Utf8(s) == tag
  {
    hide Utf8;
    AsciiBytes(s);
    forall i | 0 <= i < |s| ensures tag[i] == ByteOf(s[i] as int) {
      NatOfByte(tag[i]);
    }
  }

  lemma TagHp(s: string)
    requires s == "SECUREPOLL/v1/H_p"
    ensures Utf8(s) == DST_HP
  {
    hide Utf8;
    TagIsText(s, DST_HP);
  }

  lemma TagHs(s: string)
    requires s == "SECUREPOLL/v1/H_s"
    ensures Utf8(s) == PREFIX_HS
  {
    hide Utf8;
    TagIsText(s, PREFIX_HS);
  }

  lemma TagChal(s: string)
    requires s == "SECUREPOLL/v1/chal"
    ensures Utf8(s) == PREFIX_CHAL
  {
    hide Utf8;
    TagIsText(s, PREFIX_CHAL);
  }

  lemma TagVote(s: string)
    requires s == "SECUREPOLL/v1/vote"
    ensures Utf8(s) == PREFIX_VOTE
  {
    hide Utf8;
    TagIsText(s, PREFIX_VOTE);
  }

  // ---- The TypeScript builders ----

  /** `concat` of serialize.ts: one pass for the length, one that writes at a running offset. */
  method Concat(parts: seq<bytes>) returns (out: bytes)
    ensures out == Flatten(parts)
  {
    hide Flatten;
    var total: nat := 0;
    FlattenNone();
    for i := 0 to |parts|
      invariant total == |Flatten(parts[..i])|
    {
      TakeOneMore(parts, i);
      total := total + |parts[i]|;
    }
    assert parts[..|parts|] == parts;
    var buffer := new byte[total](_ => 0);
    var offset: nat := 0;
    for i := 0 to |parts|
      invariant offset == |Flatten(parts[..i])| <= total
      invariant buffer[..offset] == Flatten(parts[..i])
    {
      TakeOneMore(parts, i);
      FlattenPrefix(parts, i + 1);
      Set(buffer, parts[i], offset);
      offset := offset + |parts[i]|;
    }
    out := buffer[..];
    assert out == buffer[..offset];
  }

  /** `Uint8Array.set`. */
  method Set(buffer: array<byte>, part: bytes, offset: nat)
    requires offset + |part| <= buffer.Length
    modifies buffer
    ensures buffer[..] == old(buffer[..offset]) + part + old(buffer[offset + |part|..])
    ensures buffer[..offset + |part|] == old(buffer[..offset]) + part
  {
    for i := 0 to |part|
      invariant buffer[..] == old(buffer[..offset]) + part[..i] + old(buffer[offset + i..])
    {
      buffer[offset + i] := part[i];
    }
    assert part[..|part|] == part;
    assert buffer[..offset + |part|] == buffer[..][..offset + |part|];
  }

  lemma TakeOneMore(parts: seq<bytes>, i: nat)
    requires i < |parts|
    ensures Flatten(parts[..i + 1]) == Flatten(parts[..i]) + parts[i]
  {
    FlattenAppend(parts[..i], parts[i]);
    assert parts[..i + 1] == parts[..i] + [parts[i]];
  }

  lemma {:induction false} FlattenPrefix(parts: seq<bytes>, i: nat)
    requires i <= |parts|
    ensures |Flatten(parts[..i])| <= |Flatten(parts)|
    decreases |parts| - i
  {
    if i < |parts| {
      TakeOneMore(parts, i);
      FlattenPrefix(parts, i + 1);
    } else {
      assert parts[..i] == parts;
    }
  }

  /** `encodeMessage`; a field of 2^32 bytes or more is refused. */
  method TsEncodeMessage(electionId: string, ringId: string, candidateId: string) returns (r: Result<bytes, string>)
    ensures r.Ok? <==> MessageFits(electionId, ringId, candidateId)
    ensures r.Ok? ==> r.value == EncodeMessage(electionId, ringId, candidateId)
  {
    hide Utf8, Flatten, U32le;
    var parts := [PREFIX_VOTE];
    var fields := [electionId, ringId, candidateId];
    FlattenStep(parts, 0);
    assert parts[0..] == parts && parts[1..] == [];
    for i := 0 to 3
      invariant Flatten(parts) == Tagged(PREFIX_VOTE, fields[..i])
      invariant forall j :: 0 <= j < i ==> Fits(Utf8(fields[j]))
    {
      var encoded := Utf8(fields[i]);
      var tag := TsU32le(|encoded|);
      if tag.Err? {
        assert !Fits(Utf8(fields[i]));
        return Err(tag.error);
      }
      FlattenAppend(parts, tag.value);
      FlattenAppend(parts + [tag.value], encoded);
      TaggedOne(PREFIX_VOTE, fields, i);
      assert parts + [tag.value] + [encoded] == parts + [tag.value, encoded];
      parts := parts + [tag.value, encoded];
    }
    var out := Concat(parts);
    assert Fits(Utf8(fields[0])) && Fits(Utf8(fields[1])) && Fits(Utf8(fields[2]));
    TaggedIsMessage(electionId, ringId, candidateId);
    assert fields[..3] == fields;
    return Ok(out);
  }

  /** A byte string followed by a tag and a body for each field. */
  function Tagged(front: bytes, fields: seq<string>): bytes
    decreases |fields|
  {
    if fields == [] then front
    else Tagged(front, fields[..|fields| - 1]) + Lp(Utf8(fields[|fields| - 1]))
  }

  lemma TaggedOne(front: bytes, fields: seq<string>, i: nat)
    requires i < |fields|
    ensures Tagged(front, fields[..i + 1]) == Tagged(front, fields[..i]) + Lp(Utf8(fields[i]))
    ensures Tagged(front, []) == front
  {
    assert fields[..i + 1][..i] == fields[..i];
  }

  lemma TaggedIsMessage(e: string, r: string, c: string)
    ensures Tagged(PREFIX_VOTE, [e, r, c]) == EncodeMessage(e, r, c)
  {
    hide Utf8, Lp, Tagged;
    var fields := [e, r, c];
    TaggedOne(PREFIX_VOTE, fields, 0);
    TaggedOne(PREFIX_VOTE, fields, 1);
    TaggedOne(PREFIX_VOTE, fields, 2);
    assert fields[..0] == [] && fields[..3] == fields;
  }

  lemma FlattenStep(parts: seq<bytes>, k: nat)
    requires k < |parts|
    ensures Flatten(parts[k..]) == parts[k] + Flatten(parts[k + 1..])
    ensures Flatten([]) == []
  {
    assert parts[k..][0] == parts[k] && parts[k..][1..] == parts[k + 1..];
  }

  /** The transcript of `challenge` in hash.ts. */
  method TsChallengeInput(message: bytes, ring: seq<bytes>, l: bytes, r: bytes) returns (out: Result<bytes, string>)
    ensures out.Ok? <==> Fits(message) && |ring| < TWO32
    ensures out.Ok? ==> out.value == ChallengeInput(message, ring, l, r)
  {
    hide Flatten, U32le;
    var messageTag := TsU32le(|message|);
    if messageTag.Err? {
      return Err(messageTag.error);
    }
    var ringTag := TsU32le(|ring|);
    if ringTag.Err? {
      return Err(ringTag.error);
    }
    var joined := Concat([PREFIX_CHAL, messageTag.value + message, ringTag.value] + ring + [l, r]);
    FlattenChallenge(PREFIX_CHAL, Lp(message), U32le(|ring|), ring, l, r);
    return Ok(joined);
  }

  lemma FlattenChallenge(a: bytes, b: bytes, c: bytes, ring: seq<bytes>, l: bytes, r: bytes)
    ensures Flatten([a, b, c] + ring + [l, r]) == a + (b + (c + (Flatten(ring) + (l + r))))
  {
    var parts := [a, b, c] + ring + [l, r];
    FlattenStep(parts, 0);
    FlattenStep(parts, 1);
    FlattenStep(parts, 2);
    hide Flatten;
    assert parts[0..] == parts && parts[3..] == ring + [l] + [r] == (ring + [l]) + [r];
    FlattenAppend(ring, l);
    FlattenAppend(ring + [l], r);
    assert Flatten(parts[3..]) == Flatten(ring) + (l + r);
  }

  /** `challenge` of hash.ts; the caller has checked the lengths, or the transcript throws. */
  method TsChallenge<P>(su: Suite<P>, message: bytes, ring: seq<bytes>, l: P, r: P) returns (c: nat)
    requires su.grp.q > 0 && Fits(message) && |ring| < TWO32
    ensures c == Challenge(su, message, ring, l, r)
  {
    hide ChallengeInput, LeToNat;
    var input := TsChallengeInput(message, ring, su.grp.enc(l), su.grp.enc(r));
    c := LeToNat(su.sha512(PREFIX_HS + input.value)) % su.grp.q;
  }

  // ---- The Rust builders ----

  /** `push_len_prefixed`. */
  method PushLenPrefixed(out: bytes, b: bytes) returns (out': bytes)
    ensures out' == out + Lp(b)
  {
    out' := out + U32le(|b|);
    out' := out' + b;
  }

  /** `encode_message`: the same bytes, for fields of any length the tag can hold or not. */
  method RustEncodeMessage(electionId: string, ringId: string, candidateId: string) returns (out: bytes)
    ensures out == EncodeMessage(electionId, ringId, candidateId)
  {
    hide Utf8, Lp, Tagged;
    out := [];
    out := out + PREFIX_VOTE;
    var fields := [electionId, ringId, candidateId];
    TaggedOne(PREFIX_VOTE, fields, 0);
    assert fields[..0] == [];
    for i := 0 to 3
      invariant out == Tagged(PREFIX_VOTE, fields[..i])
    {
      TaggedOne(PREFIX_VOTE, fields, i);
      out := PushLenPrefixed(out, Utf8(fields[i]));
    }
    TaggedIsMessage(electionId, ringId, candidateId);
    assert fields[..3] == fields;
  }

  /** The transcript of `challenge` in hash.rs. */
  method RustChallengeInput(message: bytes, ring: seq<bytes>, l: bytes, r: bytes) returns (input: bytes)
    ensures input == ChallengeInput(message, ring, l, r)
  {
    hide Flatten, Lp, Utf8, U32le;
    input := PREFIX_CHAL;
    input := PushLenPrefixed(input, message);
    input := input + U32le(|ring|);
    ghost var front := input;
    FlattenNone();
    for i := 0 to |ring|
      invariant input == front + Flatten(ring[..i])
    {
      TakeOneMore(ring, i);
      input := input + ring[i];
    }
    assert ring[..|ring|] == ring;
    input := input + l;
    input := input + r;
    FiveParts(PREFIX_CHAL, Lp(message), U32le(|ring|), Flatten(ring), l, r);
  }

  /** `challenge` of hash.rs. */
  method RustChallenge<P>(su: Suite<P>, message: bytes, ring: seq<bytes>, l: P, r: P) returns (c: nat)
    requires su.grp.q > 0
    ensures c == Challenge(su, message, ring, l, r)
  {
    hide ChallengeInput, LeToNat;
    var input := RustChallengeInput(message, ring, su.grp.enc(l), su.grp.enc(r));
    c := LeToNat(su.sha512(PREFIX_HS + input)) % su.grp.q;
  }

  lemma FiveParts(a: bytes, b: bytes, c: bytes, d: bytes, l: bytes, r: bytes)
    ensures a + b + c + d + l + r == a + (b + (c + (d + (l + r))))
  {
  }

  lemma FlattenNone()
    ensures Flatten([]) == []
  {
  }

  /** The input of `key_image_base`, and of `keyImageBase` when the election id fits. */
  method RustKeyImageInput(publicKey: bytes, electionId: string) returns (input: bytes)
    ensures input == KeyImageInput(publicKey, electionId)
  {
    hide Lp;
    input := PushLenPrefixed([], publicKey);
    assert [] + Lp(publicKey) == Lp(publicKey);
    input := PushLenPrefixed(input, Utf8(electionId));
  }

  method TsKeyImageInput(publicKey: bytes, electionId: string) returns (r: Result<bytes, string>)
    ensures r.Ok? <==> Fits(publicKey) && Fits(Utf8(electionId))
    ensures r.Ok? ==> r.value == KeyImageInput(publicKey, electionId)
  {
    hide U32le, Flatten;
    var eid := Utf8(electionId);
    var keyTag := TsU32le(|publicKey|);
    if keyTag.Err? {
      return Err(keyTag.error);
    }
    var idTag := TsU32le(|eid|);
    if idTag.Err? {
      return Err(idTag.error);
    }
    var parts := [keyTag.value + publicKey, idTag.value + eid];
    var out := Concat(parts);
    FlattenStep(parts, 0);
    FlattenStep(parts, 1);
    assert parts[0..] == parts && parts[2..] == [];
    return Ok(out);
  }

  // ---- A suite that meets its laws ----

  const SUITE13: Suite<Z13> := Suite(THIRTEEN, _ => Zeros(64), _ => 1)

  lemma SuiteCanBeMet()
    ensures SuiteOk(SUITE13)
  {
    LawsCanBeMet();
  }
}
