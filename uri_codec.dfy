/** Percent-encoding of text in URLs, in the two flavours the client meets:
    `encodeURIComponent`/`decodeURIComponent`, and the
    application/x-www-form-urlencoded form that `URLSearchParams` writes and
    reads. Both encode a character as the UTF-8 bytes of its code point, each
    byte written `%XY` with upper-case hex digits. */
module UriCodec {
  import opened Common

  datatype Scheme =
    | Component  // encodeURIComponent / decodeURIComponent
    | Form       // URLSearchParams: space is '+', fewer characters left as they are

  predicate IsAlnum(c: char) {
    ('a' <= c <= 'z') || ('A' <= c <= 'Z') || ('0' <= c <= '9')
  }

  /** Characters that are written as they are. */
  predicate Kept(scheme: Scheme, c: char) {
    IsAlnum(c) || c == '-' || c == '_' || c == '.' || c == '*'
    || (scheme == Component && (c == '!' || c == '~' || c == '\'' || c == '(' || c == ')'))
  }

  predicate IsUpperHex(c: char) {
    ('0' <= c <= '9') || ('A' <= c <= 'F')
  }

  /** The characters an encoder can produce. */
  predicate EncodedChar(scheme: Scheme, c: char) {
    Kept(scheme, c) || c == '%' || IsUpperHex(c) || (scheme == Form && c == '+')
  }

  function HexDigit(d: nat): (c: char)
    requires d < 16
    ensures IsUpperHex(c)
  {
    if d < 10 then ('0' as int + d) as char else ('A' as int + d - 10) as char
  }

  /** A hexadecimal digit of either case. */
  function HexValue(c: char): (r: Option<nat>)
    ensures r.Some? ==> r.value < 16
  {
    if '0' <= c <= '9' then Some(c as int - '0' as int)
    else if 'A' <= c <= 'F' then Some(c as int - 'A' as int + 10)
    else if 'a' <= c <= 'f' then Some(c as int - 'a' as int + 10)
    else None
  }

  predicate IsScalar(cp: int) {
    (0 <= cp < 0xD800) || (0xE000 <= cp < 0x11_0000)
  }

  /** The UTF-8 bytes of a code point. */
  function Utf8(cp: int): (bytes: seq<nat>)
    requires IsScalar(cp)
    ensures 1 <= |bytes| <= 4
    ensures forall i :: 0 <= i < |bytes| ==> bytes[i] < 256
  {
    if cp < 0x80 then [cp]
    else if cp < 0x800 then [0xC0 + cp / 64, 0x80 + cp % 64]
    else if cp < 0x1_0000 then [0xE0 + cp / 4096, 0x80 + (cp / 64) % 64, 0x80 + cp % 64]
    else [0xF0 + cp / 262144, 0x80 + (cp / 4096) % 64, 0x80 + (cp / 64) % 64, 0x80 + cp % 64]
  }

  function PercentByte(b: nat): string
    requires b < 256
  {
    ['%', HexDigit(b / 16), HexDigit(b % 16)]
  }

  function PercentBytes(bytes: seq<nat>): (s: string)
    requires forall i :: 0 <= i < |bytes| ==> bytes[i] < 256
    ensures |s| == 3 * |bytes|
  {
    if bytes == [] then [] else PercentByte(bytes[0]) + PercentBytes(bytes[1..])
  }

  function EncodeChar(scheme: Scheme, c: char): string {
    if Kept(scheme, c) then [c]
    else if scheme == Form && c == ' ' then "+"
    else PercentBytes(Utf8(c as int))
  }

  /** Encoding under `scheme`; the output uses only the characters an encoder
      can produce, so never '&', '=' or a space. */
  function Encode(scheme: Scheme, s: string): (r: string)
    ensures forall i :: 0 <= i < |r| ==> EncodedChar(scheme, r[i])
  {
    if s == [] then []
    else
      var head := EncodeChar(scheme, s[0]);
      assert forall i :: 0 <= i < |head| ==> EncodedChar(scheme, head[i]) by {
        if !Kept(scheme, s[0]) && !(scheme == Form && s[0] == ' ') {
          PercentBytesChars(Utf8(s[0] as int), scheme);
        }
      }
      head + Encode(scheme, s[1..])
  }

  lemma {:induction false} PercentBytesChars(bytes: seq<nat>, scheme: Scheme)
    requires forall i :: 0 <= i < |bytes| ==> bytes[i] < 256
    ensures forall i :: 0 <= i < |PercentBytes(bytes)| ==> EncodedChar(scheme, PercentBytes(bytes)[i])
  {
    if bytes != [] {
      PercentBytesChars(bytes[1..], scheme);
    }
  }

  /** The byte written `%XY` at the start of `s`, if there is one. */
  function ByteAt(s: string): (r: Option<nat>)
    ensures r.Some? ==> |s| >= 3 && s[0] == '%' && r.value < 256
  {
    if |s| >= 3 && s[0] == '%' && HexValue(s[1]).Some? && HexValue(s[2]).Some? then
      Some(HexValue(s[1]).value * 16 + HexValue(s[2]).value)
    else None
  }

  /** Reads `n` continuation bytes (0x80..0xBF), folding their six payload bits
      into `acc`. */
  function Trail(s: string, n: nat, acc: nat): (r: Option<nat>)
    ensures r.Some? ==> |s| >= 3 * n
  {
    if n == 0 then Some(acc)
    else match ByteAt(s)
      case Some(b) =>
        if 0x80 <= b <= 0xBF then Trail(s[3..], n - 1, acc * 64 + (b - 0x80)) else None
      case None => None
  }

  /** UTF-8 forbids overlong forms and surrogates. */
  predicate WellFormed(cp: nat, length: nat) {
    (length == 2 && 0x80 <= cp < 0x800)
    || (length == 3 && 0x800 <= cp < 0x1_0000 && !(0xD800 <= cp < 0xE000))
    || (length == 4 && 0x1_0000 <= cp < 0x11_0000)
  }

  /** The first character of encoded text and how many characters it used. */
  function DecodeFirst(scheme: Scheme, s: string): (r: Option<(char, nat)>)
    requires s != []
    ensures r.Some? ==> 0 < r.value.1 <= |s|
  {
    if scheme == Form && s[0] == '+' then Some((' ', 1))
    else if s[0] != '%' then Some((s[0], 1))
    else match ByteAt(s)
      case None => None
      case Some(b0) =>
        if b0 < 0x80 then Some((b0 as char, 3))
        else
          var n := if 0xC2 <= b0 <= 0xDF then 1 else if 0xE0 <= b0 <= 0xEF then 2 else if 0xF0 <= b0 <= 0xF4 then 3 else 0;
          if n == 0 then None
          else
            var lead := if n == 1 then b0 - 0xC0 else if n == 2 then b0 - 0xE0 else b0 - 0xF0;
            match Trail(s[3..], n, lead)
            case None => None
            case Some(cp) => if WellFormed(cp, n + 1) then Some((cp as char, 3 * (n + 1))) else None
  }

  /** Decoding under `scheme`; `None` is the `URIError` of a malformed
      escape. Every character of the result comes from at least one of `s`,
      and text without escapes (and, for forms, without '+') is its own
      decoding. */
  function Decode(scheme: Scheme, s: string): (r: Option<string>)
    ensures r.Some? ==> |r.value| <= |s|
    ensures '%' !in s && (scheme == Component || '+' !in s) ==> r == Some(s)
    decreases |s|
  {
    if s == [] then Some([])
    else match DecodeFirst(scheme, s)
      case None => None
      case Some((c, k)) =>
        assert '%' !in s && (scheme == Component || '+' !in s) ==> k == 1 && c == s[0] && s == [s[0]] + s[1..];
        match Decode(scheme, s[k..])
        case None => None
        case Some(t) => Some([c] + t)
  }

  lemma HexRoundTrip(d: nat)
    requires d < 16
    ensures HexValue(HexDigit(d)) == Some(d)
  {
  }

  lemma ByteAtPercent(b: nat, rest: string)
    requires b < 256
    ensures ByteAt(PercentByte(b) + rest) == Some(b)
  {
    var s := PercentByte(b) + rest;
    HexRoundTrip(b / 16);
    HexRoundTrip(b % 16);
    assert s[0] == '%' && s[1] == HexDigit(b / 16) && s[2] == HexDigit(b % 16);
  }

  /** What `Trail` computes from a list of continuation bytes. */
  function Fold(acc: nat, bytes: seq<nat>): nat
    requires forall i :: 0 <= i < |bytes| ==> 0x80 <= bytes[i]
    decreases |bytes|
  {
    if bytes == [] then acc else Fold(acc * 64 + (bytes[0] - 0x80), bytes[1..])
  }

  lemma {:induction false} TrailOfPercentBytes(bytes: seq<nat>, rest: string, acc: nat)
    requires forall i :: 0 <= i < |bytes| ==> 0x80 <= bytes[i] <= 0xBF
    ensures Trail(PercentBytes(bytes) + rest, |bytes|, acc) == Some(Fold(acc, bytes))
  {
    if bytes != [] {
      var b, tail := bytes[0], bytes[1..];
      var after := PercentBytes(tail) + rest;
      var s := PercentBytes(bytes) + rest;
      assert s == PercentByte(b) + after;
      ByteAtPercent(b, after);
      assert s[3..] == after;
      TrailStep(s, |bytes|, acc, b);
      TrailOfPercentBytes(tail, rest, acc * 64 + (b - 0x80));
    }
  }

  /** `Trail` consumes one continuation byte at a time. */
  lemma TrailStep(s: string, n: nat, acc: nat, b: nat)
    requires n > 0 && ByteAt(s) == Some(b) && 0x80 <= b <= 0xBF
    ensures Trail(s, n, acc) == Trail(s[3..], n - 1, acc * 64 + (b - 0x80))
  {
  }

  lemma SixBitGroups(cp: nat)
    ensures (cp / 64) * 64 + cp % 64 == cp
    ensures (cp / 4096) * 64 + (cp / 64) % 64 == cp / 64
    ensures (cp / 262144) * 64 + (cp / 4096) % 64 == cp / 4096
  {
    var q := cp / 64;
    assert q / 64 == cp / 4096;
    assert (cp / 4096) / 64 == cp / 262144;
  }

  /** The first three characters of an encoded multi-byte character are its
      lead byte, and the rest are its continuation bytes. */
  lemma LeadAndTrail(c: char, rest: string)
    requires c as int >= 0x80
    ensures var bytes := Utf8(c as int);
      var s := PercentBytes(bytes) + rest;
      ByteAt(s) == Some(bytes[0]) && s[3..] == PercentBytes(bytes[1..]) + rest
  {
    var bytes := Utf8(c as int);
    var s := PercentBytes(bytes) + rest;
    assert s == PercentByte(bytes[0]) + (PercentBytes(bytes[1..]) + rest);
    ByteAtPercent(bytes[0], PercentBytes(bytes[1..]) + rest);
  }

  /** How `DecodeFirst` reads a well-formed multi-byte character. */
  lemma DecodeFirstMulti(scheme: Scheme, s: string, b0: nat, n: nat, lead: nat, cp: nat)
    requires s != [] && ByteAt(s) == Some(b0)
    requires (n == 1 && 0xC2 <= b0 <= 0xDF && lead == b0 - 0xC0)
          || (n == 2 && 0xE0 <= b0 <= 0xEF && lead == b0 - 0xE0)
          || (n == 3 && 0xF0 <= b0 <= 0xF4 && lead == b0 - 0xF0)
    requires Trail(s[3..], n, lead) == Some(cp) && WellFormed(cp, n + 1)
    ensures DecodeFirst(scheme, s) == Some((cp as char, 3 * (n + 1)))
  {
  }

  lemma DecodeFirstTwoBytes(scheme: Scheme, c: char, rest: string)
    requires 0x80 <= c as int < 0x800
    ensures DecodeFirst(scheme, PercentBytes(Utf8(c as int)) + rest) == Some((c, 6))
  {
    var cp := c as int;
    var bytes := Utf8(cp);
    LeadAndTrail(c, rest);
    SixBitGroups(cp);
    TrailOfPercentBytes(bytes[1..], rest, cp / 64);
    assert Fold(cp / 64, bytes[1..]) == cp;
    DecodeFirstMulti(scheme, PercentBytes(bytes) + rest, bytes[0], 1, cp / 64, cp);
  }

  lemma DecodeFirstThreeBytes(scheme: Scheme, c: char, rest: string)
    requires 0x800 <= c as int < 0x1_0000
    ensures DecodeFirst(scheme, PercentBytes(Utf8(c as int)) + rest) == Some((c, 9))
  {
    var cp := c as int;
    var bytes := Utf8(cp);
    LeadAndTrail(c, rest);
    SixBitGroups(cp);
    TrailOfPercentBytes(bytes[1..], rest, cp / 4096);
    var mid := cp / 4096 * 64 + (cp / 64) % 64;
    assert bytes[1..] == [0x80 + (cp / 64) % 64] + [0x80 + cp % 64];
    assert Fold(cp / 4096, bytes[1..]) == Fold(mid, [0x80 + cp % 64]);
    assert mid == cp / 64;
    assert Fold(mid, [0x80 + cp % 64]) == Fold(mid * 64 + cp % 64, []) == cp;
    assert WellFormed(cp, 3);
    DecodeFirstMulti(scheme, PercentBytes(bytes) + rest, bytes[0], 2, cp / 4096, cp);
  }

  lemma FourByteFold(cp: nat)
    requires 0x1_0000 <= cp < 0x11_0000
    ensures Fold(cp / 262144, Utf8(cp)[1..]) == cp
  {
    SixBitGroups(cp);
    var bytes := Utf8(cp);
    var high := cp / 262144 * 64 + (cp / 4096) % 64;
    var mid := high * 64 + (cp / 64) % 64;
    assert bytes[1..] == [0x80 + (cp / 4096) % 64] + ([0x80 + (cp / 64) % 64] + [0x80 + cp % 64]);
    assert Fold(cp / 262144, bytes[1..]) == Fold(high, [0x80 + (cp / 64) % 64] + [0x80 + cp % 64]);
    assert high == cp / 4096;
    assert Fold(high, [0x80 + (cp / 64) % 64] + [0x80 + cp % 64]) == Fold(mid, [0x80 + cp % 64]);
    assert mid == cp / 64;
    assert Fold(mid, [0x80 + cp % 64]) == Fold(mid * 64 + cp % 64, []) == cp;
  }

  lemma DecodeFirstFourBytes(scheme: Scheme, c: char, rest: string)
    requires 0x1_0000 <= c as int
    ensures DecodeFirst(scheme, PercentBytes(Utf8(c as int)) + rest) == Some((c, 12))
  {
    var cp := c as int;
    var bytes := Utf8(cp);
    LeadAndTrail(c, rest);
    TrailOfPercentBytes(bytes[1..], rest, cp / 262144);
    FourByteFold(cp);
    DecodeFirstMulti(scheme, PercentBytes(bytes) + rest, bytes[0], 3, cp / 262144, cp);
  }

  /** One encoded character decodes back to itself. Text written by
      encodeURIComponent may be read by either decoder; text written in the
      form flavour must be read by the form decoder, because of '+'. */
  lemma DecodeFirstOfEncoded(e: Scheme, d: Scheme, c: char, rest: string)
    requires e == Component || d == Form
    ensures EncodeChar(e, c) != []
    ensures DecodeFirst(d, EncodeChar(e, c) + rest) == Some((c, |EncodeChar(e, c)|))
  {
    if !Kept(e, c) && !(e == Form && c == ' ') {
      if c as int < 0x80 {
        ByteAtPercent(c as int, rest);
      } else {
        if c as int < 0x800 {
          DecodeFirstTwoBytes(d, c, rest);
        } else if c as int < 0x1_0000 {
          DecodeFirstThreeBytes(d, c, rest);
        } else {
          DecodeFirstFourBytes(d, c, rest);
        }
      }
    }
  }

  /** Decoding what was encoded gives the text back. */
  lemma {:induction false} DecodeEncode(e: Scheme, d: Scheme, s: string)
    requires e == Component || d == Form
    ensures Decode(d, Encode(e, s)) == Some(s)
  {
    if s != [] {
      var head := EncodeChar(e, s[0]);
      var tail := Encode(e, s[1..]);
      DecodeFirstOfEncoded(e, d, s[0], tail);
      assert (head + tail)[|head|..] == tail;
      DecodeEncode(e, d, s[1..]);
      assert [s[0]] + s[1..] == s;
    }
  }

  /** The round trip of a value that is encoded twice, once by
      encodeURIComponent and once more by `URLSearchParams`, and decoded twice
      in the opposite order. */
  lemma DoubleRoundTrip(s: string)
    ensures Decode(Form, Encode(Form, Encode(Component, s))) == Some(Encode(Component, s))
    ensures Decode(Component, Encode(Component, s)) == Some(s)
  {
    DecodeEncode(Form, Form, Encode(Component, s));
    DecodeEncode(Component, Component, s);
  }
}
