/** UTF-8 (section 3 of RFC 3629), the encoding both languages apply to ids before hashing. */
module Strings {
  import opened Bytes

  function EncodeChar(c: char): (b: bytes)
    ensures 1 <= |b| <= 4
  {
    var v := c as int;
    if v < 0x80 then [ByteOf(v)]
    else if v < 0x800 then [ByteOf(0xc0 + v / 64), ByteOf(0x80 + v % 64)]
    else if v < 0x1_0000 then [ByteOf(0xe0 + v / 64 / 64), ByteOf(0x80 + v / 64 % 64), ByteOf(0x80 + v % 64)]
    else [ByteOf(0xf0 + v / 64 / 64 / 64), ByteOf(0x80 + v / 64 / 64 % 64), ByteOf(0x80 + v / 64 % 64), ByteOf(0x80 + v % 64)]
  }

  function Utf8(s: string): bytes {
    if s == [] then [] else EncodeChar(s[0]) + Utf8(s[1..])
  }

  /** How many bytes the character starting with this byte takes. */
  function LeadLength(lead: nat): nat {
    if lead < 0x80 then 1 else if lead < 0xe0 then 2 else if lead < 0xf0 then 3 else 4
  }

  /** The code point four payload values stand for, most significant first. */
  function Joined(d3: nat, d2: nat, d1: nat, d0: nat): nat {
    ((d3 * 64 + d2) * 64 + d1) * 64 + d0
  }

  function CharValue(b: bytes): nat
    requires 1 <= |b| <= 4
  {
    match |b|
    case 1 => b[0] as nat
    case 2 => Joined(0, 0, b[0] as nat % 32, b[1] as nat % 64)
    case 3 => Joined(0, b[0] as nat % 16, b[1] as nat % 64, b[2] as nat % 64)
    case _ => Joined(b[0] as nat % 8, b[1] as nat % 64, b[2] as nat % 64, b[3] as nat % 64)
  }

  lemma Digits(v: nat)
    requires v < 0x11_0000
    ensures Joined(v / 64 / 64 / 64, v / 64 / 64 % 64, v / 64 % 64, v % 64) == v
    ensures v / 64 / 64 / 64 < 8
  {
    var w := v / 64;
    var u := w / 64;
    assert u == u / 64 * 64 + u % 64 && w == u * 64 + w % 64 && v == w * 64 + v % 64;
  }

  /** A payload of p under a marker m that is a multiple of the payload's range d. */
  lemma Marked(m: nat, d: nat, p: nat)
    requires d == 8 || d == 16 || d == 32 || d == 64
    requires m == 0xf0 || m == 0xe0 || m == 0xc0 || m == 0x80
    requires p < d && (m == 0xf0 ==> d == 8) && m + p < 256 && (m == 0xe0 ==> d == 16) && (m == 0xc0 ==> d == 32)
    ensures ByteOf(m + p) as nat == m + p && ByteOf(m + p) as nat % d == p
  {
    hide ByteOf;
    ByteOfNat(m + p);
  }

  lemma OneByte(c: char)
    requires 0 <= c as int < 0x80
    ensures CharValue(EncodeChar(c)) == c as int
    ensures |EncodeChar(c)| == LeadLength(EncodeChar(c)[0] as nat)
  {
    hide ByteOf, Joined;
    var v := c as int;
    ByteOfNat(v);
  }

  lemma TwoBytes(c: char)
    requires 0x80 <= c as int < 0x800
    ensures CharValue(EncodeChar(c)) == c as int
    ensures |EncodeChar(c)| == LeadLength(EncodeChar(c)[0] as nat)
  {
    hide ByteOf, Joined;
    var v := c as int;
    var w := v / 64;
    assert w / 64 == 0 && w < 32 && w % 64 == w;
    Digits(v);
    Marked(0x80, 64, v % 64);
    Marked(0xc0, 32, w);
  }

  lemma ThreeBytes(c: char)
    requires 0x800 <= c as int < 0x1_0000
    ensures CharValue(EncodeChar(c)) == c as int
    ensures |EncodeChar(c)| == LeadLength(EncodeChar(c)[0] as nat)
  {
    hide ByteOf, Joined;
    var v := c as int;
    var w := v / 64;
    var u := w / 64;
    assert u / 64 == 0 && u < 16 && u % 64 == u;
    Digits(v);
    Marked(0x80, 64, v % 64);
    Marked(0x80, 64, w % 64);
    Marked(0xe0, 16, u);
  }

  lemma FourBytes(c: char)
    requires 0x1_0000 <= c as int < 0x11_0000
    ensures CharValue(EncodeChar(c)) == c as int
    ensures |EncodeChar(c)| == LeadLength(EncodeChar(c)[0] as nat)
  {
    hide ByteOf, Joined;
    var v := c as int;
    var w := v / 64;
    var u := w / 64;
    Digits(v);
    FourMarked(u / 64, u % 64, w % 64, v % 64);
    assert EncodeChar(c) == [ByteOf(0xf0 + u / 64), ByteOf(0x80 + u % 64), ByteOf(0x80 + w % 64), ByteOf(0x80 + v % 64)];
  }

  lemma FourMarked(d3: nat, d2: nat, d1: nat, d0: nat)
    requires d3 < 8 && d2 < 64 && d1 < 64 && d0 < 64
    ensures CharValue([ByteOf(0xf0 + d3), ByteOf(0x80 + d2), ByteOf(0x80 + d1), ByteOf(0x80 + d0)]) == Joined(d3, d2, d1, d0)
    ensures ByteOf(0xf0 + d3) as nat == 0xf0 + d3
  {
    hide ByteOf, Joined;
    Marked(0x80, 64, d0);
    Marked(0x80, 64, d1);
    Marked(0x80, 64, d2);
    Marked(0xf0, 8, d3);
  }

  lemma CharDecodes(c: char)
    ensures CharValue(EncodeChar(c)) == c as int
    ensures |EncodeChar(c)| == LeadLength(EncodeChar(c)[0] as nat)
  {
    hide EncodeChar, CharValue, LeadLength;
    var v := c as int;
    if
    case v < 0x80 => OneByte(c);
    case 0x80 <= v < 0x800 => TwoBytes(c);
    case 0x800 <= v < 0x1_0000 => ThreeBytes(c);
    case 0x1_0000 <= v => FourBytes(c);
  }

  lemma CharSplit(c: char, x: bytes, d: char, y: bytes)
    requires EncodeChar(c) + x == EncodeChar(d) + y
    ensures c == d && x == y
  {
    hide EncodeChar, LeadLength, CharValue;
    CharDecodes(c);
    CharDecodes(d);
    assert EncodeChar(c)[0] == (EncodeChar(c) + x)[0] == (EncodeChar(d) + y)[0] == EncodeChar(d)[0];
    SplitSame(EncodeChar(c), x, EncodeChar(d), y);
  }

  /** Different strings have different encodings. */
  lemma {:induction false} Utf8Injective(s: string, t: string)
    requires Utf8(s) == Utf8(t)
    ensures s == t
    decreases |s|
  {
    hide EncodeChar;
    assert (s == [] <==> |Utf8(s)| == 0) && (t == [] <==> |Utf8(t)| == 0);
    if s != [] {
      CharSplit(s[0], Utf8(s[1..]), t[0], Utf8(t[1..]));
      Utf8Injective(s[1..], t[1..]);
      assert s == [s[0]] + s[1..] && t == [t[0]] + t[1..];
    }
  }
}
