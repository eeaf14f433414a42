/**
 * The wire format of a ring signature: web/src/crypto/lrs/serialize.ts and
 * blockchain/src/lrs/serialize.rs.
 */
module Wire {
  import opened Bytes
  import opened Words
  import opened Wrappers
  import opened Groups
  import opened Transcripts

  datatype RingSignature = RingSignature(c0: bytes, s: seq<bytes>, keyImage: bytes)

  /** A signature as the Rust node holds it: decoded, with the key image also as it arrived. */
  datatype Parsed<P> = Parsed(c0: nat, s: seq<nat>, keyImage: P, keyImageBytes: bytes)

  const SIGNATURE_VERSION: byte := 1
  const HEADER_BYTES: nat := 69
  const RUST_CAP: nat := 4096
  const TS_CAP: nat := 0xffff_ffff

  datatype DecodeError =
    | TooShort
    | Version(found: byte)
    | RingSize(n: nat)
    | Length(expected: nat, actual: nat)
    | NonCanonicalChallenge
    | NonCanonicalScalar(at: nat)
    | NonCanonicalPoint
    | IdentityKeyImage

  /** What a signature must be for the format to carry it. */
  ghost predicate Shaped(sig: RingSignature) {
    2 <= |sig.s| < TWO32 && |sig.c0| == 32 && |sig.keyImage| == 32 && AllSized(sig.s, 32)
  }

  function Serialized(sig: RingSignature): bytes {
    [SIGNATURE_VERSION] + (U32le(|sig.s|) + (sig.c0 + (sig.keyImage + Flatten(sig.s))))
  }

  predicate CanonicalScalar(q: nat, b: bytes) {
    BytesToScalar(q, b).Ok?
  }

  ghost predicate Canonical<P(!new)>(grp: Group<P>, sig: RingSignature) {
    && 2 <= |sig.s| < TWO32
    && CanonicalScalar(grp.q, sig.c0)
    && (forall i :: 0 <= i < |sig.s| ==> CanonicalScalar(grp.q, sig.s[i]))
    && |sig.keyImage| == 32 && grp.dec(sig.keyImage).Some? && grp.dec(sig.keyImage).value != grp.zero
  }

  // ---- Decoding ----

  /** The i-th response of a buffer. */
  function Response(b: bytes, i: nat): bytes
    requires HEADER_BYTES + 32 * (i + 1) <= |b|
  {
    b[HEADER_BYTES + 32 * i..HEADER_BYTES + 32 * (i + 1)]
  }

  function Responses(b: bytes, n: nat): (s: seq<bytes>)
    requires HEADER_BYTES + 32 * n <= |b|
    ensures |s| == n && forall i :: 0 <= i < n ==> s[i] == Response(b, i)
  {
    seq(n, i requires 0 <= i < n => Response(b, i))
  }

  /** The first response from position i on that is not canonical. */
  function FirstBad(q: nat, s: seq<bytes>, i: nat): Option<nat>
    requires i <= |s|
    decreases |s| - i
  {
    if i == |s| then None
    else if !CanonicalScalar(q, s[i]) then Some(i)
    else FirstBad(q, s, i + 1)
  }

  function Pieces(b: bytes): RingSignature
    requires HEADER_BYTES <= |b| && |b| == HEADER_BYTES + 32 * LeToNat(b[1..5])
  {
    RingSignature(b[5..37], Responses(b, LeToNat(b[1..5])), b[37..69])
  }

  /** Both deserializers, apart from the largest ring each accepts: checks in order, first failure wins. */
  function Decode<P(==)>(grp: Group<P>, cap: nat, b: bytes): Result<RingSignature, DecodeError> {
    if |b| < HEADER_BYTES then Err(TooShort)
    else if b[0] != SIGNATURE_VERSION then Err(Version(b[0]))
    else
      var n := LeToNat(b[1..5]);
      if n < 2 || n > cap then Err(RingSize(n))
      else if |b| != HEADER_BYTES + 32 * n then Err(Length(HEADER_BYTES + 32 * n, |b|))
      else
        var sig := Pieces(b);
        if !CanonicalScalar(grp.q, sig.c0) then Err(NonCanonicalChallenge)
        else if grp.dec(sig.keyImage).None? then Err(NonCanonicalPoint)
        else if grp.dec(sig.keyImage).value == grp.zero then Err(IdentityKeyImage)
        else match FirstBad(grp.q, sig.s, 0)
          case Some(i) => Err(NonCanonicalScalar(i))
          case None => Ok(sig)
  }

  function Values(s: seq<bytes>): (v: seq<nat>)
    ensures |v| == |s| && forall i :: 0 <= i < |s| ==> v[i] == LeToNat(s[i])
  {
    seq(|s|, i requires 0 <= i < |s| => LeToNat(s[i]))
  }

  function Parse<P(==)>(grp: Group<P>, sig: RingSignature): Parsed<P>
    requires grp.dec(sig.keyImage).Some?
  {
    Parsed(LeToNat(sig.c0), Values(sig.s), grp.dec(sig.keyImage).value, sig.keyImage)
  }

  lemma {:induction false} FirstBadMeans(q: nat, s: seq<bytes>, i: nat)
    requires i <= |s|
    ensures var f := FirstBad(q, s, i);
            && (f.None? <==> forall j :: i <= j < |s| ==> CanonicalScalar(q, s[j]))
            && (f.Some? ==> i <= f.value < |s| && !CanonicalScalar(q, s[f.value])
                            && forall j :: i <= j < f.value ==> CanonicalScalar(q, s[j]))
    decreases |s| - i
  {
    hide CanonicalScalar;
    if i < |s| {
      FirstBadMeans(q, s, i + 1);
    }
  }

  lemma CanonicalIsShaped<P(!new)>(grp: Group<P>, sig: RingSignature)
    requires Canonical(grp, sig)
    ensures Shaped(sig)
  {
  }

  /** The fixed offsets of a serialized signature are where its fields are. */
  lemma Offsets(sig: RingSignature)
    requires Shaped(sig)
    ensures var b := Serialized(sig);
            && |b| == HEADER_BYTES + 32 * |sig.s|
            && b[0] == SIGNATURE_VERSION && b[1..5] == U32le(|sig.s|)
            && b[5..37] == sig.c0 && b[37..69] == sig.keyImage && b[69..] == Flatten(sig.s)
  {
    hide U32le, Flatten;
    FlattenLength(sig.s, 32);
    var b := Serialized(sig);
    var flat := [SIGNATURE_VERSION] + U32le(|sig.s|) + sig.c0 + sig.keyImage + Flatten(sig.s);
    assert b == flat;
  }

  lemma SliceOfDrop(b: bytes, k: nat, i: nat, j: nat)
    requires i <= j && k + j <= |b|
    ensures b[k..][i..j] == b[k + i..k + j]
  {
  }

  /** The i-th piece of joined 32-byte pieces is a slice at a multiple of 32. */
  lemma {:induction false} FlattenSlice(parts: seq<bytes>, i: nat)
    requires AllSized(parts, 32) && i < |parts|
    ensures 32 * (i + 1) <= |Flatten(parts)|
    ensures Flatten(parts)[32 * i..32 * (i + 1)] == parts[i]
    decreases i
  {
    FlattenLength(parts, 32);
    if i > 0 {
      FlattenSlice(parts[1..], i - 1);
      assert Flatten(parts)[32..] == Flatten(parts[1..]);
      SliceOfDrop(Flatten(parts), 32, 32 * (i - 1), 32 * i);
    }
  }

  lemma ResponsesOfSerialized(sig: RingSignature)
    requires Shaped(sig)
    ensures |Serialized(sig)| == HEADER_BYTES + 32 * |sig.s|
    ensures Responses(Serialized(sig), |sig.s|) == sig.s
  {
    hide Flatten, Serialized;
    Offsets(sig);
    var b := Serialized(sig);
    forall i | 0 <= i < |sig.s| ensures Response(b, i) == sig.s[i] {
      FlattenSlice(sig.s, i);
      SliceOfDrop(b, 69, 32 * i, 32 * (i + 1));
    }
  }

  /** Decoding an encoding gives back every canonical signature within the cap. */
  lemma DecodeSerialized<P(!new)>(grp: Group<P>, cap: nat, sig: RingSignature)
    requires Lawful(grp) && Canonical(grp, sig) && |sig.s| <= cap
    ensures Decode(grp, cap, Serialized(sig)) == Ok(sig)
  {
    hide Lawful, Serialized, U32le, LeToNat, CanonicalScalar;
    CanonicalIsShaped(grp, sig);
    Offsets(sig);
    U32leReads(|sig.s|);
    ResponsesOfSerialized(sig);
    FirstBadMeans(grp.q, sig.s, 0);
    assert Pieces(Serialized(sig)) == sig;
  }

  lemma {:induction false} JoinResponses(b: bytes, n: nat)
    requires HEADER_BYTES + 32 * n <= |b|
    ensures Flatten(Responses(b, n)) == b[HEADER_BYTES..HEADER_BYTES + 32 * n]
    decreases n
  {
    if n > 0 {
      JoinResponses(b, n - 1);
      FlattenAppend(Responses(b, n - 1), Response(b, n - 1));
      assert Responses(b, n) == Responses(b, n - 1) + [Response(b, n - 1)];
    }
  }

  lemma SerializedPieces(b: bytes)
    requires HEADER_BYTES <= |b| && |b| == HEADER_BYTES + 32 * LeToNat(b[1..5]) && b[0] == SIGNATURE_VERSION
    ensures Serialized(Pieces(b)) == b
  {
    hide LeToNat, Flatten, Responses, U32le;
    var n := LeToNat(b[1..5]);
    TagOfValue(b[1..5]);
    JoinResponses(b, n);
    FiveSlices(b);
  }

  lemma TagOfValue(w: bytes)
    requires |w| == 4
    ensures U32le(LeToNat(w)) == w && LeToNat(w) < TWO32
  {
    hide LeToNat, NatToLe, Pow256;
    LeRange(w);
    Places();
    NatOfLe(w);
  }

  lemma FiveSlices(b: bytes)
    requires |b| >= 69
    ensures b == [b[0]] + (b[1..5] + (b[5..37] + (b[37..69] + b[69..])))
  {
    assert b[37..] == b[37..69] + b[69..];
    assert b[5..] == b[5..37] + b[37..];
    assert b[1..] == b[1..5] + b[5..];
    assert b == [b[0]] + b[1..];
  }

  /** Whatever is accepted is canonical and is the encoding of what it decodes to. */
  lemma SerializedDecode<P(!new)>(grp: Group<P>, cap: nat, b: bytes)
    requires Lawful(grp) && Decode(grp, cap, b).Ok?
    ensures var sig := Decode(grp, cap, b).value;
            Canonical(grp, sig) && |sig.s| <= cap && Serialized(sig) == b
  {
    hide Lawful, Serialized, LeToNat, CanonicalScalar, Responses;
    SerializedPieces(b);
    TagOfValue(b[1..5]);
    FirstBadMeans(grp.q, Pieces(b).s, 0);
  }

  /** A signature has exactly one accepted encoding. */
  lemma OneEncoding<P(!new)>(grp: Group<P>, cap: nat, a: bytes, b: bytes)
    requires Lawful(grp) && Decode(grp, cap, a).Ok? && Decode(grp, cap, a) == Decode(grp, cap, b)
    ensures a == b
  {
    hide Lawful, Decode, Canonical, Serialized;
    SerializedDecode(grp, cap, a);
    SerializedDecode(grp, cap, b);
  }

  /** Raising the cap changes nothing for a buffer that declares a ring within the lower cap. */
  lemma CapOnlyLimitsSize<P(!new)>(grp: Group<P>, b: bytes)
    ensures Decode(grp, RUST_CAP, b).Ok? <==> Decode(grp, TS_CAP, b).Ok? && |Decode(grp, TS_CAP, b).value.s| <= RUST_CAP
    ensures |b| >= 5 && LeToNat(b[1..5]) <= RUST_CAP ==> Decode(grp, RUST_CAP, b) == Decode(grp, TS_CAP, b)
    ensures |b| >= HEADER_BYTES && b[0] == SIGNATURE_VERSION && LeToNat(b[1..5]) > RUST_CAP ==>
              Decode(grp, RUST_CAP, b) == Err(RingSize(LeToNat(b[1..5])))
  {
    hide LeToNat, CanonicalScalar, Responses, FirstBad;
    if |b| >= 5 {
      assert LeToNat(b[1..5]) <= TS_CAP by {
        LeRange(b[1..5]);
        Places();
      }
    }
  }

  // ---- The code ----

  /** `serializeSignature`. */
  method Serialize(sig: RingSignature) returns (r: Result<bytes, string>)
    ensures r.Ok? <==> Shaped(sig)
    ensures r.Ok? ==> r.value == Serialized(sig)
  {
    hide Flatten, U32le, Serialized;
    var n := |sig.s|;
    if n < 2 {
      return Err("ring size must be >= 2");
    }
    if |sig.c0| != 32 {
      return Err("c0 must be 32 bytes");
    }
    if |sig.keyImage| != 32 {
      return Err("keyImage must be 32 bytes");
    }
    var out := new byte[HEADER_BYTES + 32 * n](_ => 0);
    var tag := TsU32le(n);
    if tag.Err? {
      return Err(tag.error);
    }
    WriteHeader(out, sig, tag.value);
    hide SignatureHeader;
    ghost var header := SignatureHeader(sig);
    FlattenNone();
    for i := 0 to n
      invariant forall j :: 0 <= j < i ==> |sig.s[j]| == 32
      invariant out[..69 + 32 * i] == header + Flatten(sig.s[..i])
    {
      if |sig.s[i]| != 32 {
        return Err("s[i] must be 32 bytes");
      }
      TakeOneMore(sig.s, i);
      Set(out, sig.s[i], 69 + i * 32);
    }
    assert sig.s[..n] == sig.s;
    assert out[..] == out[..69 + 32 * n];
    SerializedIsHeaderFirst(sig);
    return Ok(out[..]);
  }

  /** The version byte and the three fields before the responses, each at its offset. */
  method WriteHeader(out: array<byte>, sig: RingSignature, tag: bytes)
    requires out.Length >= HEADER_BYTES && tag == U32le(|sig.s|) && |sig.c0| == 32 && |sig.keyImage| == 32
    modifies out
    ensures out[..HEADER_BYTES] == SignatureHeader(sig)
  {
    hide U32le;
    out[0] := SIGNATURE_VERSION;
    Set(out, tag, 1);
    assert out[..5] == [SIGNATURE_VERSION] + tag;
    Set(out, sig.c0, 5);
    Set(out, sig.keyImage, 37);
  }

  function SignatureHeader(sig: RingSignature): bytes {
    [SIGNATURE_VERSION] + U32le(|sig.s|) + sig.c0 + sig.keyImage
  }

  lemma SerializedIsHeaderFirst(sig: RingSignature)
    ensures Serialized(sig) == SignatureHeader(sig) + Flatten(sig.s)
  {
    hide U32le, Flatten;
  }

  /** `deserializeSignature`. */
  method TsDeserialize<P(==)>(grp: Group<P>, b: bytes) returns (r: Result<RingSignature, DecodeError>)
    ensures r == Decode(grp, TS_CAP, b)
  {
    hide LeToNat, CanonicalScalar, ReadU32le, Responses, FirstBad, Pow256;
    if |b| < HEADER_BYTES {
      return Err(TooShort);
    }
    if b[0] != SIGNATURE_VERSION {
      return Err(Version(b[0]));
    }
    var n := ReadU32le(b, 1);
    ReadIsLittleEndian(b, 1);
    LeRange(b[1..5]);
    Places();
    if n < 2 {
      return Err(RingSize(n));
    }
    var expectedLength := HEADER_BYTES + 32 * n;
    if |b| != expectedLength {
      return Err(Length(expectedLength, |b|));
    }
    var c0Bytes := b[5..5 + 32];
    if !CanonicalScalar(grp.q, c0Bytes) {
      return Err(NonCanonicalChallenge);
    }
    var keyImage := b[37..37 + 32];
    var imagePoint := grp.dec(keyImage);
    if imagePoint.None? {
      return Err(NonCanonicalPoint);
    }
    if imagePoint.value == grp.zero {
      return Err(IdentityKeyImage);
    }
    var s := TsResponses(grp.q, b, n);
    if s.Err? {
      return Err(NonCanonicalScalar(s.error));
    }
    return Ok(RingSignature(c0Bytes, s.value, keyImage));
  }

  /** Its loop over the responses. */
  method TsResponses(q: nat, b: bytes, n: nat) returns (r: Result<seq<bytes>, nat>)
    requires |b| == HEADER_BYTES + 32 * n
    ensures r == match FirstBad(q, Responses(b, n), 0)
                 case None => Ok(Responses(b, n))
                 case Some(i) => Err(i)
  {
    hide CanonicalScalar;
    ghost var all := Responses(b, n);
    var s := new bytes[n](_ => []);
    for i := 0 to n
      invariant forall j :: 0 <= j < i ==> s[j] == all[j]
      invariant FirstBad(q, all, 0) == FirstBad(q, all, i)
    {
      var si := b[HEADER_BYTES + i * 32..HEADER_BYTES + (i + 1) * 32];
      assert si == all[i];
      if !CanonicalScalar(q, si) {
        return Err(i);
      }
      s[i] := si;
    }
    assert s[..] == all;
    return Ok(s[..]);
  }

  /** `deserialize_signature`: the same checks, a lower cap, and the fields decoded as it goes. */
  method RustDeserialize<P(==)>(grp: Group<P>, b: bytes) returns (r: Result<Parsed<P>, DecodeError>)
    ensures r == match Decode(grp, RUST_CAP, b)
                 case Ok(sig) => Ok(Parse(grp, sig))
                 case Err(e) => Err(e)
  {
    hide LeToNat, Responses, FirstBad, Values;
    if |b| < HEADER_BYTES {
      return Err(TooShort);
    }
    if b[0] != SIGNATURE_VERSION {
      return Err(Version(b[0]));
    }
    var n := LeToNat(b[1..5]);
    if n < 2 || n > 4096 {
      return Err(RingSize(n));
    }
    var expected := HEADER_BYTES + 32 * n;
    if |b| != expected {
      return Err(Length(expected, |b|));
    }
    var c0 := BytesToScalar(grp.q, b[5..37]);
    if c0.Err? {
      return Err(NonCanonicalChallenge);
    }
    var keyImageBytes := b[37..69];
    var keyImage := grp.dec(keyImageBytes);
    if keyImage.None? {
      return Err(NonCanonicalPoint);
    }
    if keyImage.value == grp.zero {
      return Err(IdentityKeyImage);
    }
    var s := RustResponses(grp.q, b, n);
    if s.Err? {
      return Err(NonCanonicalScalar(s.error));
    }
    FirstBadMeans(grp.q, Responses(b, n), 0);
    return Ok(Parsed(c0.value, s.value, keyImage.value, keyImageBytes));
  }

  /** Its loop over the responses. */
  method RustResponses(q: nat, b: bytes, n: nat) returns (r: Result<seq<nat>, nat>)
    requires |b| == HEADER_BYTES + 32 * n
    ensures r == match FirstBad(q, Responses(b, n), 0)
                 case None => Ok(Values(Responses(b, n)))
                 case Some(i) => Err(i)
  {
    hide LeToNat;
    ghost var all := Responses(b, n);
    var s: seq<nat> := [];
    for i := 0 to n
      invariant |s| == i && forall j :: 0 <= j < i ==> s[j] == LeToNat(all[j])
      invariant FirstBad(q, all, 0) == FirstBad(q, all, i)
    {
      var start := HEADER_BYTES + i * 32;
      var value := BytesToScalar(q, b[start..start + 32]);
      assert b[start..start + 32] == all[i];
      if value.Err? {
        return Err(i);
      }
      s := s + [value.value];
    }
    assert s == Values(all);
    return Ok(s);
  }
}
