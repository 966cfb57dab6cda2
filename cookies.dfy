/** Reading a cookie out of the `document.cookie` text, in the two ways the
    API client does it: `getCookie(name)` and the scan inside `refreshToken`. */
module Cookies {
  import opened Common
  import opened Strings

  /** One cookie as the browser lists it in `document.cookie`. */
  datatype Cookie = Cookie(name: string, value: string)

  /** A cookie name is a token: no ';', no '=' and no whitespace. */
  predicate NameChar(c: char) {
    c != ';' && c != '=' && !IsJsSpace(c)
  }

  /** A cookie value may hold '=' but no ';' and no whitespace. */
  predicate ValueChar(c: char) {
    c != ';' && !IsJsSpace(c)
  }

  predicate ValidName(n: string) {
    forall i :: 0 <= i < |n| ==> NameChar(n[i])
  }

  predicate ValidValue(v: string) {
    forall i :: 0 <= i < |v| ==> ValueChar(v[i])
  }

  predicate ValidCookie(c: Cookie) {
    ValidName(c.name) && ValidValue(c.value)
  }

  predicate ValidJar(jar: seq<Cookie>) {
    forall i :: 0 <= i < |jar| ==> ValidCookie(jar[i])
  }

  function Pair(c: Cookie): string {
    c.name + "=" + c.value
  }

  function Pairs(jar: seq<Cookie>): (ps: seq<string>)
    ensures |ps| == |jar|
    ensures forall i :: 0 <= i < |jar| ==> ps[i] == Pair(jar[i])
  {
    if jar == [] then [] else [Pair(jar[0])] + Pairs(jar[1..])
  }

  /** The text of `document.cookie`: `name=value` pairs joined by "; ". */
  function CookieHeader(jar: seq<Cookie>): string {
    Join(Pairs(jar), "; ")
  }

  /** How many cookies carry the name. */
  function Count(jar: seq<Cookie>, name: string): nat {
    if jar == [] then 0 else (if jar[0].name == name then 1 else 0) + Count(jar[1..], name)
  }

  /** The value of the first cookie with the name. */
  function Lookup(jar: seq<Cookie>, name: string): (r: Option<string>)
    ensures r.None? <==> Count(jar, name) == 0
  {
    if jar == [] then None else if jar[0].name == name then Some(jar[0].value) else Lookup(jar[1..], name)
  }

  /** `getCookie(name)`: split "; " + the cookie text at "; name=", and only
      when that gives exactly two parts take the second one up to its first
      ';'; an empty value counts as missing. */
  function GetCookie(doc: string, name: string): (r: Option<string>)
    ensures r.Some? ==> r.value != [] && ';' !in r.value
  {
    var parts := Split("; " + doc, "; " + name + "=");
    if |parts| == 2 then
      var v := Split(parts[1], ";")[0];
      SplitPartsFree(parts[1], ';');
      if v == [] then None else Some(v)
    else None
  }

  /** One piece of `document.cookie.split(';')` as `refreshToken` reads it:
      trimmed and split at '='. `None` when its name is not `name`; otherwise
      the text between the first and the second '=' (`None` inside when the
      piece has no '='). */
  function MatchPiece(piece: string, name: string): (r: Option<Option<string>>)
    ensures r.Some? && r.value.Some? ==> '=' !in r.value.value
  {
    SplitPartsFree(Trim(piece), '=');
    var kv := Split(Trim(piece), "=");
    if kv[0] == name then Some(if |kv| >= 2 then Some(kv[1]) else None) else None
  }

  /** The loop of `refreshToken` over the pieces, as a function: the first
      piece whose name matches decides, and what it reads stops at the
      value's first '='. */
  function CookieScan(pieces: seq<string>, name: string): (r: Option<string>)
    ensures r.Some? ==> '=' !in r.value
    ensures (forall i :: 0 <= i < |pieces| ==> MatchPiece(pieces[i], name).None?) ==> r.None?
  {
    if pieces == [] then None
    else match MatchPiece(pieces[0], name)
      case Some(value) => value
      case None =>
        CookieScan(pieces[1..], name)
  }

  /** The scan in `refreshToken` over `document.cookie.split(';')`, with its
      early `break`. */
  method ScanCookies(cookies: seq<string>, name: string) returns (value: Option<string>)
    ensures value == CookieScan(cookies, name)
  {
    value := None;
    var i := 0;
    while i < |cookies|
      invariant 0 <= i <= |cookies|
      invariant CookieScan(cookies, name) == CookieScan(cookies[i..], name)
    {
      assert cookies[i..][0] == cookies[i] && cookies[i..][1..] == cookies[i + 1..];
      var matched := MatchPiece(cookies[i], name);
      if matched.Some? {
        value := matched.value;
        return;
      }
      i := i + 1;
    }
  }

  // ---------------------------------------------------------------------------
  // What the scan reads out of a well-formed cookie header

  /** The scan's answer for a cookie jar: the first cookie with the name,
      cut at its first '='. */
  function ScanJar(jar: seq<Cookie>, name: string): Option<string> {
    match Lookup(jar, name)
    case Some(v) => Some(Split(v, "=")[0])
    case None => None
  }

  lemma TrimPair(c: Cookie)
    requires ValidCookie(c)
    ensures Trim(Pair(c)) == Pair(c)
    ensures Trim(" " + Pair(c)) == Pair(c)
  {
    var p := Pair(c);
    assert !IsJsSpace(p[0]) by {
      if c.name != [] {
        assert p[0] == c.name[0] && NameChar(c.name[0]);
      } else {
        assert p[0] == '=';
      }
    }
    assert !IsJsSpace(p[|p| - 1]) by {
      if c.value != [] {
        assert p[|p| - 1] == c.value[|c.value| - 1] && ValueChar(c.value[|c.value| - 1]);
      } else {
        assert p[|p| - 1] == '=';
      }
    }
    TrimUntouched(p);
    TrimStartSpace(" " + p);
    assert (" " + p)[1..] == p;
  }

  /** The pieces of " " + header, each a space then a pair. */
  lemma {:induction false} SpacedHeader(jar: seq<Cookie>)
    requires jar != [] && ValidJar(jar)
    ensures var ps := Split(" " + CookieHeader(jar), ";");
      |ps| == |jar| && forall i :: 0 <= i < |jar| ==> ps[i] == " " + Pair(jar[i])
    decreases |jar|
  {
    var p := Pair(jar[0]);
    assert ';' !in p by {
      assert ValidCookie(jar[0]);
      forall i | 0 <= i < |p| ensures p[i] != ';' {
        if i < |jar[0].name| { assert p[i] == jar[0].name[i]; }
        else if i > |jar[0].name| { assert p[i] == jar[0].value[i - |jar[0].name| - 1]; }
      }
    }
    assert ';' !in " " + p;
    if |jar| == 1 {
      assert CookieHeader(jar) == p;
      SplitNoSeparator(" " + p, ';');
    } else {
      var rest := jar[1..];
      assert Pairs(jar) == [p] + Pairs(rest);
      JoinCons(p, Pairs(rest), "; ");
      assert " " + CookieHeader(jar) == (" " + p) + [';'] + (" " + CookieHeader(rest));
      SplitAtFirst(" " + p, ';', " " + CookieHeader(rest));
      SpacedHeader(rest);
    }
  }

  /** The pieces of a header: the first pair, then a space and each later pair. */
  lemma HeaderSplit(jar: seq<Cookie>)
    requires jar != [] && ValidJar(jar)
    ensures var ps := Split(CookieHeader(jar), ";");
      && |ps| == |jar| && ps[0] == Pair(jar[0])
      && forall i :: 0 < i < |jar| ==> ps[i] == " " + Pair(jar[i])
  {
    var h := CookieHeader(jar);
    var ps := Split(h, ";");
    var spaced := Split(" " + h, ";");
    SpacedHeader(jar);
    SplitHeadOther(" " + h, ';');
    assert (" " + h)[1..] == h;
    assert spaced == [" " + ps[0]] + ps[1..];
    assert ps[0] == (" " + ps[0])[1..] == spaced[0][1..];
  }

  /** How the scan reads one well-formed piece. */
  lemma MatchPair(c: Cookie, piece: string, name: string)
    requires ValidCookie(c)
    requires piece == Pair(c) || piece == " " + Pair(c)
    ensures MatchPiece(piece, name) == if c.name == name then Some(Some(Split(c.value, "=")[0])) else None
  {
    TrimPair(c);
    assert '=' !in c.name by {
      forall i | 0 <= i < |c.name| ensures c.name[i] != '=' { assert NameChar(c.name[i]); }
    }
    SplitAtFirst(c.name, '=', c.value);
  }

  lemma {:induction false} ScanPieces(pieces: seq<string>, jar: seq<Cookie>, name: string)
    requires |pieces| == |jar| && ValidJar(jar)
    requires forall i :: 0 <= i < |jar| ==> pieces[i] == Pair(jar[i]) || pieces[i] == " " + Pair(jar[i])
    ensures CookieScan(pieces, name) == ScanJar(jar, name)
    decreases |jar|
  {
    if jar != [] {
      MatchPair(jar[0], pieces[0], name);
      ScanPieces(pieces[1..], jar[1..], name);
    }
  }

  /** What the scan in `refreshToken` reads from a well-formed header: the
      value of the FIRST cookie with the name, cut at its first '='. */
  lemma ScanOfHeader(jar: seq<Cookie>, name: string)
    requires ValidJar(jar)
    ensures CookieScan(Split(CookieHeader(jar), ";"), name) == ScanJar(jar, name)
  {
    if jar == [] {
      assert CookieHeader(jar) == [];
      assert Split([], ";") == [[]];
      assert Split([], "=") == [[]];
    } else {
      HeaderSplit(jar);
      ScanPieces(Split(CookieHeader(jar), ";"), jar, name);
    }
  }

  lemma JarAround(a: seq<Cookie>, c: Cookie, b: seq<Cookie>)
    requires ValidJar(a) && ValidCookie(c) && ValidJar(b)
    ensures ValidJar(a + [c] + b)
  {
    var jar := a + [c] + b;
    forall i | 0 <= i < |jar| ensures ValidCookie(jar[i]) {
      if i < |a| { assert jar[i] == a[i]; }
      else if i > |a| { assert jar[i] == b[i - |a| - 1]; }
    }
  }

  lemma {:induction false} LookupAfter(a: seq<Cookie>, b: seq<Cookie>, name: string)
    requires Count(a, name) == 0
    ensures Lookup(a + b, name) == Lookup(b, name)
    decreases |a|
  {
    if a == [] {
      assert a + b == b;
    } else {
      assert (a + b)[1..] == a[1..] + b;
      LookupAfter(a[1..], b, name);
    }
  }

  /** The scan finds the first cookie with the name, whole when its value has
      no '='. */
  lemma ScanFirst(a: seq<Cookie>, c: Cookie, b: seq<Cookie>)
    requires ValidJar(a) && ValidCookie(c) && ValidJar(b)
    requires Count(a, c.name) == 0 && '=' !in c.value
    ensures CookieScan(Split(CookieHeader(a + [c] + b), ";"), c.name) == Some(c.value)
  {
    JarAround(a, c, b);
    ScanOfHeader(a + [c] + b, c.name);
    LookupAround(a, c, b);
    SplitNoSeparator(c.value, '=');
  }

  lemma LookupAround(a: seq<Cookie>, c: Cookie, b: seq<Cookie>)
    requires Count(a, c.name) == 0
    ensures Lookup(a + [c] + b, c.name) == Some(c.value)
  {
    LookupAfter(a, [c] + b, c.name);
    assert a + [c] + b == a + ([c] + b);
  }

  // ---------------------------------------------------------------------------
  // What getCookie reads out of a well-formed cookie header

  /** The header with "; " in front of every pair. */
  function Blocks(jar: seq<Cookie>): string {
    if jar == [] then [] else "; " + Pair(jar[0]) + Blocks(jar[1..])
  }

  function Marker(name: string): string {
    "; " + name + "="
  }

  lemma {:induction false} BlocksOfHeader(jar: seq<Cookie>)
    requires jar != []
    ensures "; " + CookieHeader(jar) == Blocks(jar)
    decreases |jar|
  {
    var rest := jar[1..];
    assert Pairs(jar) == [Pair(jar[0])] + Pairs(rest);
    JoinCons(Pair(jar[0]), Pairs(rest), "; ");
    if rest != [] {
      BlocksOfHeader(rest);
    }
  }

  lemma {:induction false} BlocksAppend(a: seq<Cookie>, b: seq<Cookie>)
    ensures Blocks(a + b) == Blocks(a) + Blocks(b)
    decreases |a|
  {
    if a == [] {
      assert a + b == b;
    } else {
      assert (a + b)[1..] == a[1..] + b;
      BlocksAppend(a[1..], b);
    }
  }

  lemma {:induction false} CountAppend(a: seq<Cookie>, b: seq<Cookie>, name: string)
    ensures Count(a + b, name) == Count(a, name) + Count(b, name)
    decreases |a|
  {
    if a == [] {
      assert a + b == b;
    } else {
      assert (a + b)[1..] == a[1..] + b;
      CountAppend(a[1..], b, name);
    }
  }

  /** No occurrence of "; name=" starts inside the block of a cookie with
      another name. */
  lemma OtherBlock(c: Cookie, name: string, y: string)
    requires ValidCookie(c) && ValidName(name) && c.name != name
    ensures forall p :: 0 <= p < |"; " + Pair(c)| ==> !StartsWith(("; " + Pair(c) + y)[p..], Marker(name))
  {
    var b := "; " + Pair(c);
    var m := Marker(name);
    var s := b + y;
    forall p | 0 <= p < |b| ensures !StartsWith(s[p..], m) {
      if p == 0 {
        assert s[p..] == s;
        if |c.name| == |name| {
          var j :| 0 <= j < |name| && c.name[j] != name[j];
          assert s[2 + j] == c.name[j] && m[2 + j] == name[j];
        } else if |c.name| < |name| {
          assert s[2 + |c.name|] == '=' && m[2 + |c.name|] == name[|c.name|];
          assert NameChar(name[|c.name|]);
        } else {
          assert s[2 + |name|] == c.name[|name|] && m[2 + |name|] == '=';
          assert NameChar(c.name[|name|]);
        }
      } else if p == 1 {
        assert s[1] == ' ';
      } else if p < 2 + |c.name| {
        assert s[p] == c.name[p - 2];
        assert NameChar(c.name[p - 2]);
      } else if p == 2 + |c.name| {
        assert s[p] == '=';
      } else {
        assert s[p] == c.value[p - 3 - |c.name|];
        assert ValueChar(c.value[p - 3 - |c.name|]);
      }
    }
  }

  /** No occurrence of "; name=" starts inside a cookie value. */
  lemma InsideValue(v: string, name: string, y: string)
    requires ValidValue(v)
    ensures forall p :: 0 <= p < |v| ==> !StartsWith((v + y)[p..], Marker(name))
  {
    forall p | 0 <= p < |v| ensures !StartsWith((v + y)[p..], Marker(name)) {
      assert (v + y)[p] == v[p];
      assert ValueChar(v[p]);
    }
  }

  /** The block of a cookie with another name is glued to the part after it. */
  lemma OtherStep(c: Cookie, name: string, rest: string)
    requires ValidCookie(c) && ValidName(name) && c.name != name
    ensures var parts := Split(rest, Marker(name));
      Split("; " + Pair(c) + rest, Marker(name)) == [("; " + Pair(c)) + parts[0]] + parts[1..]
  {
    OtherBlock(c, name, rest);
    SplitSkip("; " + Pair(c), rest, Marker(name));
  }

  /** The block of the cookie with the name starts a new part with its value. */
  lemma NamedStep(c: Cookie, rest: string)
    requires ValidValue(c.value)
    ensures var parts := Split(rest, Marker(c.name));
      Split(Marker(c.name) + c.value + rest, Marker(c.name)) == [[], c.value + parts[0]] + parts[1..]
  {
    var m := Marker(c.name);
    var s := m + c.value + rest;
    assert s[|m|..] == c.value + rest;
    SplitAtSeparator(s, m);
    InsideValue(c.value, c.name, rest);
    SplitSkip(c.value, rest, m);
  }

  /** Regrouping the glued part: `b` glued to `r + y`, where `r` is glued to
      `y`, is `b + r` glued to `y`. */
  lemma Reglue(b: string, r: string, y: string, sep: string)
    requires sep != []
    requires Split(b + (r + y), sep) == [b + Split(r + y, sep)[0]] + Split(r + y, sep)[1..]
    requires Split(r + y, sep) == [r + Split(y, sep)[0]] + Split(y, sep)[1..]
    ensures Split(b + r + y, sep) == [b + r + Split(y, sep)[0]] + Split(y, sep)[1..]
  {
    assert b + r + y == b + (r + y);
    assert b + (r + Split(y, sep)[0]) == b + r + Split(y, sep)[0];
  }

  lemma OthersStep(c: Cookie, r: string, name: string, y: string)
    requires ValidCookie(c) && ValidName(name) && c.name != name
    requires Split(r + y, Marker(name)) == [r + Split(y, Marker(name))[0]] + Split(y, Marker(name))[1..]
    ensures var parts := Split(y, Marker(name));
      Split("; " + Pair(c) + r + y, Marker(name)) == ["; " + Pair(c) + r + parts[0]] + parts[1..]
  {
    OtherStep(c, name, r + y);
    Reglue("; " + Pair(c), r, y, Marker(name));
  }

  lemma OthersBase(y: string, name: string)
    ensures var parts := Split(y, Marker(name));
      Split(Blocks([]) + y, Marker(name)) == [Blocks([]) + parts[0]] + parts[1..]
  {
    var parts := Split(y, Marker(name));
    assert Blocks([]) == [];
    assert Blocks([]) + y == y;
    assert Blocks([]) + parts[0] == parts[0];
    assert parts == [parts[0]] + parts[1..];
  }

  /** Cookies with other names are glued to the part that follows them. */
  lemma {:induction false} SplitOthers(jar: seq<Cookie>, name: string, y: string)
    requires ValidJar(jar) && ValidName(name) && Count(jar, name) == 0
    ensures var parts := Split(y, Marker(name));
      Split(Blocks(jar) + y, Marker(name)) == [Blocks(jar) + parts[0]] + parts[1..]
    decreases |jar|
  {
    if jar == [] {
      OthersBase(y, name);
    } else {
      assert ValidCookie(jar[0]);
      SplitOthers(jar[1..], name, y);
      OthersStep(jar[0], Blocks(jar[1..]), name, y);
    }
  }

  /** Cookies with other names alone form one part. */
  lemma OthersAlone(jar: seq<Cookie>, name: string)
    requires ValidJar(jar) && ValidName(name) && Count(jar, name) == 0
    ensures Split(Blocks(jar), Marker(name)) == [Blocks(jar)]
  {
    SplitOthers(jar, name, []);
    assert Blocks(jar) + [] == Blocks(jar);
    assert Split([], Marker(name)) == [[]];
  }

  /** Every cookie with the name adds one part. */
  lemma {:induction false} CountParts(jar: seq<Cookie>, name: string, y: string)
    requires ValidJar(jar) && ValidName(name)
    ensures |Split(Blocks(jar) + y, Marker(name))| == Count(jar, name) + |Split(y, Marker(name))|
    decreases |jar|
  {
    if jar == [] {
      assert Blocks(jar) + y == y;
    } else {
      var c := jar[0];
      assert ValidCookie(c);
      CountParts(jar[1..], name, y);
      assert Blocks(jar) + y == "; " + Pair(c) + (Blocks(jar[1..]) + y);
      CountPartsHead(c, name, Blocks(jar[1..]) + y);
    }
  }

  /** One cookie's block in front of `rest` adds a part exactly when it has
      the name. */
  lemma CountPartsHead(c: Cookie, name: string, rest: string)
    requires ValidCookie(c) && ValidName(name)
    ensures |Split("; " + Pair(c) + rest, Marker(name))| == (if c.name == name then 1 else 0) + |Split(rest, Marker(name))|
  {
    if c.name == name {
      assert "; " + Pair(c) + rest == Marker(name) + c.value + rest;
      NamedStep(c, rest);
    } else {
      OtherStep(c, name, rest);
    }
  }

  /** From the cookie with the name on, the header is one part after the
      marker. */
  lemma TailParts(c: Cookie, b: seq<Cookie>)
    requires ValidCookie(c) && ValidJar(b) && Count(b, c.name) == 0
    ensures Split(Marker(c.name) + c.value + Blocks(b), Marker(c.name)) == [[], c.value + Blocks(b)]
  {
    NamedStep(c, Blocks(b));
    OthersAlone(b, c.name);
  }

  lemma BlocksAround(a: seq<Cookie>, c: Cookie, b: seq<Cookie>)
    ensures Blocks(a + [c] + b) == Blocks(a) + (Marker(c.name) + c.value + Blocks(b))
  {
    var cb := [c] + b;
    BlocksAppend(a, cb);
    assert a + [c] + b == a + cb;
    assert cb[0] == c && cb[1..] == b;
    calc {
      Blocks(cb);
      "; " + Pair(c) + Blocks(b);
      { assert "; " + Pair(c) == Marker(c.name) + c.value; }
      Marker(c.name) + c.value + Blocks(b);
    }
  }

  /** A header in which exactly one cookie has the name splits into the text
      before it and its value followed by the rest. */
  lemma UniqueParts(a: seq<Cookie>, c: Cookie, b: seq<Cookie>)
    requires ValidJar(a) && ValidCookie(c) && ValidJar(b)
    requires Count(a, c.name) == 0 && Count(b, c.name) == 0
    ensures Split(Blocks(a + [c] + b), Marker(c.name)) == [Blocks(a), c.value + Blocks(b)]
  {
    BlocksAround(a, c, b);
    TailParts(c, b);
    SplitOthers(a, c.name, Marker(c.name) + c.value + Blocks(b));
    assert Blocks(a) + [] == Blocks(a);
  }

  /** The value of a cookie ends where the next block's ';' begins. */
  lemma ValueThenBlocks(v: string, b: seq<Cookie>)
    requires ValidValue(v)
    ensures Split(v + Blocks(b), ";")[0] == v
  {
    assert ';' !in v by {
      forall i | 0 <= i < |v| ensures v[i] != ';' { assert ValueChar(v[i]); }
    }
    if b == [] {
      assert v + Blocks(b) == v;
      SplitNoSeparator(v, ';');
    } else {
      var rest := " " + Pair(b[0]) + Blocks(b[1..]);
      assert v + Blocks(b) == v + [';'] + rest;
      SplitAtFirst(v, ';', rest);
    }
  }

  /** `getCookie` on a header where exactly one cookie has the name gives its
      value (or nothing, when that value is empty). */
  lemma GetCookieUnique(a: seq<Cookie>, c: Cookie, b: seq<Cookie>)
    requires ValidJar(a) && ValidCookie(c) && ValidJar(b)
    requires Count(a, c.name) == 0 && Count(b, c.name) == 0
    ensures GetCookie(CookieHeader(a + [c] + b), c.name) == (if c.value == [] then None else Some(c.value))
  {
    BlocksOfHeader(a + [c] + b);
    UniqueParts(a, c, b);
    ValueThenBlocks(c.value, b);
  }

  /** `getCookie` finds nothing when no cookie or more than one cookie has the
      name: a duplicated cookie is lost. */
  lemma GetCookieNotUnique(jar: seq<Cookie>, name: string)
    requires ValidJar(jar) && ValidName(name) && Count(jar, name) != 1
    ensures GetCookie(CookieHeader(jar), name) == None
  {
    if jar == [] {
      assert "; " + CookieHeader(jar) == "; ";
      assert |Marker(name)| > 2;
    } else {
      BlocksOfHeader(jar);
      CountParts(jar, name, []);
      assert Blocks(jar) + [] == Blocks(jar);
      assert Split([], Marker(name)) == [[]];
    }
  }

  /** The two readers disagree on a duplicated cookie: `getCookie` gives up,
      the scan takes the first. */
  lemma DuplicateCookie(name: string, v1: string, v2: string)
    requires ValidName(name) && ValidValue(v1) && ValidValue(v2) && '=' !in v1
    ensures var jar := [Cookie(name, v1), Cookie(name, v2)];
      && GetCookie(CookieHeader(jar), name) == None
      && CookieScan(Split(CookieHeader(jar), ";"), name) == Some(v1)
  {
    var jar := [Cookie(name, v1), Cookie(name, v2)];
    assert ValidJar(jar);
    GetCookieNotUnique(jar, name);
    ScanOfHeader(jar, name);
    SplitNoSeparator(v1, '=');
  }

  /** The two readers disagree on a value holding '=': `getCookie` returns all
      of it, the scan only the text before the first '='. */
  lemma ValueWithEquals(name: string, v1: string, v2: string)
    requires ValidName(name) && ValidValue(v1) && ValidValue(v2) && '=' !in v1
    ensures var jar := [Cookie(name, v1 + "=" + v2)];
      && GetCookie(CookieHeader(jar), name) == Some(v1 + "=" + v2)
      && CookieScan(Split(CookieHeader(jar), ";"), name) == Some(v1)
  {
    var c := Cookie(name, v1 + "=" + v2);
    var jar := [c];
    assert ValidValue(c.value) by {
      forall i | 0 <= i < |c.value| ensures ValueChar(c.value[i]) {
        if i < |v1| { assert c.value[i] == v1[i]; }
        else if i > |v1| { assert c.value[i] == v2[i - |v1| - 1]; }
      }
    }
    assert jar == [] + [c] + [];
    GetCookieUnique([], c, []);
    ScanOfHeader(jar, name);
    SplitAtFirst(v1, '=', v2);
  }
}
