/** The JavaScript string operations the client relies on: `split` with a
    string separator, `Array.prototype.join`, `trim`, `startsWith`,
    `includes` and ASCII `toLowerCase`. */
module Strings {

  /** Characters removed by `String.prototype.trim`: the ECMAScript
      WhiteSpace and LineTerminator code points. */
  predicate IsJsSpace(c: char) {
    c == '\t' || c == '\n' || c == '\U{000B}' || c == '\U{000C}' || c == '\r' || c == ' '
    || c == '\U{00A0}' || c == '\U{1680}' || ('\U{2000}' <= c <= '\U{200A}')
    || c == '\U{2028}' || c == '\U{2029}' || c == '\U{202F}' || c == '\U{205F}'
    || c == '\U{3000}' || c == '\U{FEFF}'
  }

  predicate AllSpace(s: string) {
    forall i :: 0 <= i < |s| ==> IsJsSpace(s[i])
  }

  /** Leading whitespace removed: the result is a suffix of `s`, what was cut is
      whitespace, and the result does not start with whitespace. */
  function TrimStart(s: string): (r: string)
    ensures |r| <= |s| && r == s[|s| - |r|..]
    ensures AllSpace(s[..|s| - |r|])
    ensures r == [] || !IsJsSpace(r[0])
  {
    if s != [] && IsJsSpace(s[0]) then TrimStart(s[1..]) else s
  }

  /** Trailing whitespace removed: the result is a prefix of `s`, what was cut is
      whitespace, and the result does not end with whitespace. */
  function TrimEnd(s: string): (r: string)
    ensures |r| <= |s| && r == s[..|r|]
    ensures AllSpace(s[|r|..])
    ensures r == [] || !IsJsSpace(r[|r| - 1])
  {
    if s != [] && IsJsSpace(s[|s| - 1]) then TrimEnd(s[..|s| - 1]) else s
  }

  /** `s.trim()`: a piece of `s` with whitespace at neither end. */
  function Trim(s: string): (r: string)
    ensures |r| <= |s|
    ensures r == [] || (!IsJsSpace(r[0]) && !IsJsSpace(r[|r| - 1]))
  {
    TrimEnd(TrimStart(s))
  }

  /** `s.trim()` is empty exactly when `s` is made of whitespace only. */
  lemma TrimEmptyIffAllSpace(s: string)
    ensures Trim(s) == [] <==> AllSpace(s)
  {
    var t := TrimStart(s);
    if Trim(s) == [] {
      assert AllSpace(t) by { assert t[|Trim(s)|..] == t; }
      assert t == [];
      assert s[..|s|] == s;
    }
  }

  /** Leading whitespace is dropped one character at a time. */
  lemma TrimStartSpace(s: string)
    requires s != [] && IsJsSpace(s[0])
    ensures TrimStart(s) == TrimStart(s[1..])
  {
  }

  /** Trimming a string that has no surrounding whitespace leaves it unchanged. */
  lemma TrimUntouched(s: string)
    requires s == [] || (!IsJsSpace(s[0]) && !IsJsSpace(s[|s| - 1]))
    ensures Trim(s) == s
  {
  }

  function StartsWith(s: string, prefix: string): bool {
    |prefix| <= |s| && s[..|prefix|] == prefix
  }

  /** `s.includes(sub)`. */
  function Contains(s: string, sub: string): bool
    decreases |s|
  {
    StartsWith(s, sub) || (s != [] && Contains(s[1..], sub))
  }

  function LowerChar(c: char): char {
    if 'A' <= c <= 'Z' then (c as int - 'A' as int + 'a' as int) as char else c
  }

  function UpperChar(c: char): char {
    if 'a' <= c <= 'z' then (c as int - 'a' as int + 'A' as int) as char else c
  }

  /** `s.toLowerCase()` on the ASCII letters. */
  function ToLower(s: string): (r: string)
    ensures |r| == |s|
  {
    seq(|s|, i requires 0 <= i < |s| => LowerChar(s[i]))
  }

  /** `s.toUpperCase()` on the ASCII letters. */
  function ToUpper(s: string): (r: string)
    ensures |r| == |s|
  {
    seq(|s|, i requires 0 <= i < |s| => UpperChar(s[i]))
  }

  /** Lower-casing forgets any earlier upper-casing. */
  lemma LowerOfUpper(s: string)
    ensures ToLower(ToUpper(s)) == ToLower(s)
  {
    forall i | 0 <= i < |s| ensures ToLower(ToUpper(s))[i] == ToLower(s)[i] {
      var c := s[i];
      if 'a' <= c <= 'z' {
        assert UpperChar(c) as int == c as int - 32;
      }
    }
  }

  /** `parts.join(sep)`. */
  function Join(parts: seq<string>, sep: string): string {
    if |parts| == 0 then []
    else if |parts| == 1 then parts[0]
    else parts[0] + sep + Join(parts[1..], sep)
  }

  /** `s.split(sep)` for a non-empty separator: cut at every occurrence,
      scanning left to right and never overlapping. */
  function Split(s: string, sep: string): (parts: seq<string>)
    requires sep != []
    ensures |parts| >= 1
    decreases |s|
  {
    if |s| < |sep| then [s]
    else if s[..|sep|] == sep then [[]] + Split(s[|sep|..], sep)
    else
      var rest := Split(s[1..], sep);
      [[s[0]] + rest[0]] + rest[1..]
  }

  function Last<T>(s: seq<T>): T
    requires s != []
  {
    s[|s| - 1]
  }

  /** Everything but the last element (`lines.pop()` leaves this behind). */
  function AllButLast<T>(s: seq<T>): seq<T>
    requires s != []
  {
    s[..|s| - 1]
  }

  lemma JoinCons(x: string, t: seq<string>, sep: string)
    ensures Join([x] + t, sep) == x + (if t == [] then [] else sep + Join(t, sep))
  {
    assert ([x] + t)[1..] == t;
  }

  /** Splitting then joining with the same separator gives the string back. */
  lemma {:induction false} JoinSplit(s: string, sep: string)
    requires sep != []
    ensures Join(Split(s, sep), sep) == s
    decreases |s|
  {
    if |s| < |sep| {
    } else if s[..|sep|] == sep {
      var tail := Split(s[|sep|..], sep);
      JoinSplit(s[|sep|..], sep);
      JoinCons([], tail, sep);
      assert s == s[..|sep|] + s[|sep|..];
    } else {
      var rest := Split(s[1..], sep);
      JoinSplit(s[1..], sep);
      JoinCons([s[0]] + rest[0], rest[1..], sep);
      JoinCons(rest[0], rest[1..], sep);
      assert rest == [rest[0]] + rest[1..];
      assert s == [s[0]] + s[1..];
    }
  }

  /** No part holds the one-character separator. */
  lemma {:induction false} SplitPartsFree(s: string, c: char)
    ensures forall i :: 0 <= i < |Split(s, [c])| ==> c !in Split(s, [c])[i]
    decreases |s|
  {
    if |s| >= 1 {
      SplitPartsFree(s[1..], c);
      var rest := Split(s[1..], [c]);
      if s[..1] != [c] {
        assert s[0] != c;
        var parts := Split(s, [c]);
        forall i | 0 <= i < |parts| ensures c !in parts[i] {
          if i > 0 { assert parts[i] == rest[i]; }
        }
      }
    }
  }

  /** A string with no occurrence of the one-character separator is one part. */
  lemma {:induction false} SplitNoSeparator(s: string, c: char)
    requires c !in s
    ensures Split(s, [c]) == [s]
    decreases |s|
  {
    if s != [] {
      assert s[..1] != [c] by { assert s[..1][0] == s[0]; }
      SplitNoSeparator(s[1..], c);
      assert [s[0]] + s[1..] == s;
    }
  }

  /** Cutting at the first occurrence of a one-character separator. */
  lemma {:induction false} SplitAtFirst(x: string, c: char, y: string)
    requires c !in x
    ensures Split(x + [c] + y, [c]) == [x] + Split(y, [c])
    decreases |x|
  {
    var s := x + [c] + y;
    if x == [] {
      assert s[..1] == [c];
      assert s[1..] == y;
    } else {
      assert s[..1] != [c] by { assert s[..1][0] == x[0]; }
      assert s[1..] == x[1..] + [c] + y;
      SplitAtFirst(x[1..], c, y);
      assert [x[0]] + x[1..] == x;
    }
  }

  /** Joining parts free of a one-character separator and splitting again
      gives the parts back. */
  lemma {:induction false} SplitJoin(parts: seq<string>, c: char)
    requires parts != []
    requires forall i :: 0 <= i < |parts| ==> c !in parts[i]
    ensures Split(Join(parts, [c]), [c]) == parts
    decreases |parts|
  {
    if |parts| == 1 {
      SplitNoSeparator(parts[0], c);
    } else {
      SplitJoin(parts[1..], c);
      SplitAtFirst(parts[0], c, Join(parts[1..], [c]));
      assert [parts[0]] + parts[1..] == parts;
    }
  }

  /** A prefix in which no occurrence of the separator starts is glued to the
      first part of what follows it. */
  lemma {:induction false} SplitSkip(x: string, y: string, sep: string)
    requires sep != []
    requires forall p :: 0 <= p < |x| ==> !StartsWith((x + y)[p..], sep)
    ensures Split(x + y, sep) == [x + Split(y, sep)[0]] + Split(y, sep)[1..]
    decreases |x|
  {
    if x != [] {
      var s := x + y;
      assert !StartsWith(s[0..], sep);
      assert s[0..] == s;
      if |s| >= |sep| {
        assert s[1..] == x[1..] + y;
        forall p | 0 <= p < |x| - 1 ensures !StartsWith((x[1..] + y)[p..], sep) {
          assert (x[1..] + y)[p..] == s[p + 1..];
        }
        SplitSkip(x[1..], y, sep);
        assert s[..|sep|] != sep;
        var rest := Split(s[1..], sep);
        assert Split(s, sep) == [[s[0]] + rest[0]] + rest[1..];
        assert s[0] == x[0];
        assert [x[0]] + (x[1..] + Split(y, sep)[0]) == x + Split(y, sep)[0];
      } else {
        assert s == x + y;
      }
    } else {
      var parts := Split(y, sep);
      assert x + y == y && x + parts[0] == parts[0];
      assert parts == [parts[0]] + parts[1..];
    }
  }

  /** A string that starts with the separator begins with an empty part. */
  lemma SplitAtSeparator(s: string, sep: string)
    requires sep != [] && StartsWith(s, sep)
    ensures Split(s, sep) == [[]] + Split(s[|sep|..], sep)
  {
  }

  lemma SplitHeadSeparator(s: string, c: char)
    requires s != [] && s[0] == c
    ensures Split(s, [c]) == [[]] + Split(s[1..], [c])
  {
    assert s[..1] == [c];
  }

  lemma SplitHeadOther(s: string, c: char)
    requires s != [] && s[0] != c
    ensures Split(s, [c]) == [[s[0]] + Split(s[1..], [c])[0]] + Split(s[1..], [c])[1..]
  {
    assert s[..1] != [c] by { assert s[..1][0] == s[0]; }
  }

  /** The property SplitAppend states, for one split point. */
  predicate AppendSplits(x: string, y: string, c: char) {
    Split(x + y, [c]) == AllButLast(Split(x, [c])) + Split(Last(Split(x, [c])) + y, [c])
  }

  /** A part put in front of a non-empty list of parts stays in front when
      the last part is replaced by `more`. */
  lemma ConsAllButLast(e: string, parts: seq<string>, more: seq<string>)
    requires parts != []
    ensures AllButLast([e] + parts) + more == [e] + (AllButLast(parts) + more)
    ensures Last([e] + parts) == Last(parts)
  {
    assert AllButLast([e] + parts) == [e] + AllButLast(parts);
  }

  lemma AppendAfterSeparator(x: string, y: string, c: char)
    requires x != [] && x[0] == c
    requires AppendSplits(x[1..], y, c)
    ensures AppendSplits(x, y, c)
  {
    var sx' := Split(x[1..], [c]);
    SplitHeadSeparator(x, c);
    assert (x + y)[0] == x[0] && (x + y)[1..] == x[1..] + y;
    SplitHeadSeparator(x + y, c);
    ConsAllButLast([], sx', Split(Last(sx') + y, [c]));
  }

  /** AppendInsidePart when the rest of `x` holds no separator. */
  lemma AppendInsideOnlyPart(x: string, y: string, c: char)
    requires x != [] && x[0] != c
    requires AppendSplits(x[1..], y, c)
    requires |Split(x[1..], [c])| == 1
    ensures AppendSplits(x, y, c)
  {
    var sx' := Split(x[1..], [c]);
    var sx := Split(x, [c]);
    SplitHeadOther(x, c);
    SplitHeadOther(x + y, c);
    assert (x + y)[1..] == x[1..] + y;
    var z := [x[0]] + sx'[0] + y;
    assert z[0] == x[0] && z[1..] == Last(sx') + y;
    SplitHeadOther(z, c);
    assert Last(sx) == [x[0]] + sx'[0];
    assert AllButLast(sx) == [];
  }

  /** AppendInsidePart when a separator follows in the rest of `x`. */
  lemma AppendInsideEarlierPart(x: string, y: string, c: char)
    requires x != [] && x[0] != c
    requires AppendSplits(x[1..], y, c)
    requires |Split(x[1..], [c])| > 1
    ensures AppendSplits(x, y, c)
  {
    var sx' := Split(x[1..], [c]);
    var head := [x[0]] + sx'[0];
    var tail := Split(Last(sx') + y, [c]);
    SplitHeadOther(x, c);
    assert Split(x, [c]) == [head] + sx'[1..];
    assert (x + y)[0] == x[0] && (x + y)[1..] == x[1..] + y;
    SplitHeadOther(x + y, c);
    PartsAfterHead(sx', tail);
    assert Split(x + y, [c]) == [head] + (AllButLast(sx')[1..] + tail);
    assert AllButLast([head] + sx'[1..]) == [head] + AllButLast(sx')[1..];
    assert Last([head] + sx'[1..]) == Last(sx');
  }

  /** The first part and the rest of a split list followed by more parts. */
  lemma PartsAfterHead(parts: seq<string>, more: seq<string>)
    requires |parts| > 1
    ensures (AllButLast(parts) + more)[0] == parts[0]
    ensures (AllButLast(parts) + more)[1..] == AllButLast(parts)[1..] + more
  {
  }

  lemma AppendInsidePart(x: string, y: string, c: char)
    requires x != [] && x[0] != c
    requires AppendSplits(x[1..], y, c)
    ensures AppendSplits(x, y, c)
  {
    if |Split(x[1..], [c])| == 1 {
      AppendInsideOnlyPart(x, y, c);
    } else {
      AppendInsideEarlierPart(x, y, c);
    }
  }

  /** Appending text after a string only extends its last part: the complete
      parts before it stay as they were. */
  lemma {:induction false} SplitAppend(x: string, y: string, c: char)
    ensures AppendSplits(x, y, c)
    decreases |x|
  {
    if x == [] {
      assert x + y == y;
    } else {
      SplitAppend(x[1..], y, c);
      if x[0] == c {
        AppendAfterSeparator(x, y, c);
      } else {
        AppendInsidePart(x, y, c);
      }
    }
  }
}
