/** The query string of a URL as `URLSearchParams` writes it (`toString`) and
    reads it back (`get`). */
module QueryString {
  import opened Common
  import opened Strings
  import opened UriCodec

  /** Name/value pairs in insertion order, as `URLSearchParams` keeps them. */
  type Params = seq<(string, string)>

  function EncodePair(p: (string, string)): string {
    Encode(Form, p.0) + "=" + Encode(Form, p.1)
  }

  function EncodePairs(ps: Params): (pieces: seq<string>)
    ensures |pieces| == |ps|
    ensures forall i :: 0 <= i < |ps| ==> pieces[i] == EncodePair(ps[i])
  {
    if ps == [] then [] else [EncodePair(ps[0])] + EncodePairs(ps[1..])
  }

  /** `params.toString()`: the encoded pairs joined by '&'; only the empty
      list writes nothing, since every pair writes at least its '='. */
  function Serialize(ps: Params): (r: string)
    ensures r == [] <==> ps == []
  {
    PiecesNotEmpty(ps);
    Join(EncodePairs(ps), "&")
  }

  lemma PiecesNotEmpty(ps: Params)
    ensures ps != [] ==> Join(EncodePairs(ps), "&") != []
  {
    if ps != [] {
      var pieces := EncodePairs(ps);
      assert pieces[0] == EncodePair(ps[0]);
      assert |pieces| == 1 ==> Join(pieces, "&") == EncodePair(ps[0]);
    }
  }

  /** Position of the first `c` in `s`. */
  function IndexOf(s: string, c: char): (r: Option<nat>)
    ensures r.Some? ==> r.value < |s| && s[r.value] == c && c !in s[..r.value]
    ensures r.None? ==> c !in s
  {
    if s == [] then None
    else if s[0] == c then Some(0)
    else match IndexOf(s[1..], c)
      case None => None
      case Some(k) =>
        assert s[..k + 1] == [s[0]] + s[1..][..k];
        Some(k + 1)
  }

  /** One `name=value` piece: cut at the first '=' (a piece without one is a
      name with an empty value), then form-decoded. */
  function ParsePiece(piece: string): Option<(string, string)> {
    var name := match IndexOf(piece, '=') case Some(k) => piece[..k] case None => piece;
    var value := match IndexOf(piece, '=') case Some(k) => piece[k + 1..] case None => [];
    match (Decode(Form, name), Decode(Form, value))
    case (Some(n), Some(v)) => Some((n, v))
    case _ => None
  }

  /** Pieces in order; empty pieces (from "&&" or an empty query) are
      skipped, so there are at most as many pairs as pieces. */
  function ParsePieces(pieces: seq<string>): (r: Option<Params>)
    ensures r.Some? ==> |r.value| <= |pieces|
  {
    if pieces == [] then Some([])
    else if pieces[0] == [] then ParsePieces(pieces[1..])
    else match (ParsePiece(pieces[0]), ParsePieces(pieces[1..]))
      case (Some(p), Some(rest)) => Some([p] + rest)
      case _ => None
  }

  /** `new URLSearchParams(query)` for a query without its leading '?' whose
      escapes are well formed, as every query `Serialize` or
      `encodeURIComponent` writes is. `None` marks a malformed escape, where
      `URLSearchParams` would keep the '%' or substitute U+FFFD instead. A
      query holds at most one pair per '&'-separated piece, and the empty
      query holds none. */
  function Parse(query: string): (r: Option<Params>)
    ensures r.Some? ==> |r.value| <= |Split(query, "&")|
    ensures query == [] ==> r == Some([])
  {
    assert query == [] ==> Split(query, "&") == [[]];
    assert ParsePieces([[]]) == ParsePieces([]);
    ParsePieces(Split(query, "&"))
  }

  /** `params.get(name)`: the value of the first pair with that name. */
  function Get(ps: Params, name: string): (r: Option<string>)
    ensures r.Some? <==> exists i :: 0 <= i < |ps| && ps[i].0 == name
    ensures r.Some? ==> (name, r.value) in ps
  {
    if ps == [] then None
    else if ps[0].0 == name then Some(ps[0].1)
    else
      var r := Get(ps[1..], name);
      assert forall i :: 1 <= i < |ps| ==> ps[i] == ps[1..][i - 1];
      r
  }

  /** The answer of `get` is the value of the first pair with the name,
      whatever pairs with that name follow it. */
  lemma {:induction false} GetFirst(ps: Params, name: string, i: nat)
    requires i < |ps| && ps[i].0 == name
    requires forall j :: 0 <= j < i ==> ps[j].0 != name
    ensures Get(ps, name) == Some(ps[i].1)
  {
    if i > 0 {
      assert ps[0].0 != name;
      assert forall j :: 0 <= j < i - 1 ==> ps[1..][j] == ps[j + 1];
      GetFirst(ps[1..], name, i - 1);
    }
  }

  /** `get` on a list that only grew at the end answers as before for a name
      already present. */
  lemma {:induction false} GetAppend(a: Params, b: Params, name: string)
    ensures Get(a + b, name) == if Get(a, name).Some? then Get(a, name) else Get(b, name)
  {
    if a != [] {
      assert (a + b)[0] == a[0];
      assert (a + b)[1..] == a[1..] + b;
      GetAppend(a[1..], b, name);
    } else {
      assert a + b == b;
    }
  }

  lemma ParseEncodedPair(p: (string, string))
    ensures ParsePiece(EncodePair(p)) == Some(p)
  {
    var n := Encode(Form, p.0);
    var piece := EncodePair(p);
    assert '=' !in n by {
      forall i | 0 <= i < |n| ensures n[i] != '=' { assert EncodedChar(Form, n[i]); }
    }
    assert piece[..|n|] == n;
    assert piece[|n|] == '=';
    assert IndexOf(piece, '=') == Some(|n|);
    assert piece[|n| + 1..] == Encode(Form, p.1);
    DecodeEncode(Form, Form, p.0);
    DecodeEncode(Form, Form, p.1);
  }

  lemma {:induction false} ParseEncodedPairs(ps: Params)
    ensures ParsePieces(EncodePairs(ps)) == Some(ps)
  {
    if ps != [] {
      ParseEncodedPair(ps[0]);
      ParseEncodedPairs(ps[1..]);
      assert EncodePairs(ps)[1..] == EncodePairs(ps[1..]);
      assert [ps[0]] + ps[1..] == ps;
    }
  }

  lemma NoAmpersand(s: string, scheme: Scheme)
    ensures '&' !in Encode(scheme, s)
  {
    var r := Encode(scheme, s);
    forall i | 0 <= i < |r| ensures r[i] != '&' { assert EncodedChar(scheme, r[i]); }
  }

  /** Reading a serialised query gives back exactly the pairs that were set,
      in order. */
  lemma ParseSerialize(ps: Params)
    ensures Parse(Serialize(ps)) == Some(ps)
  {
    var pieces := EncodePairs(ps);
    if ps == [] {
      assert Serialize(ps) == [];
      assert Split([], "&") == [[]];
    } else {
      forall i | 0 <= i < |pieces| ensures '&' !in pieces[i] {
        NoAmpersand(ps[i].0, Form);
        NoAmpersand(ps[i].1, Form);
      }
      SplitJoin(pieces, '&');
    }
    ParseEncodedPairs(ps);
  }

  predicate Plain(s: string) {
    forall i :: 0 <= i < |s| ==> IsAlnum(s[i]) || s[i] == '_'
  }

  /** Letters, digits and '_' stand for themselves in every flavour. */
  lemma {:induction false} PlainIsEncoded(scheme: Scheme, s: string)
    requires Plain(s)
    ensures Encode(scheme, s) == s
  {
    if s != [] {
      PlainIsEncoded(scheme, s[1..]);
      assert [s[0]] + s[1..] == s;
    }
  }
}
