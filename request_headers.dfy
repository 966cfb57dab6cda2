/** The header record `fetchWithAuth` builds with object spread:
    `{'Content-Type': 'application/json', ...options.headers,
      ...(token && {Authorization: 'Bearer ' + token})}`,
    and the replay headers `{...headers, Authorization: 'Bearer ' + newToken}`. */
module RequestHeaders {
  import opened Common

  /** A plain header record: names (case-sensitive, as object keys) to
      values, in insertion order. */
  type Headers = seq<(string, string)>

  const ContentType := "Content-Type"
  const Authorization := "Authorization"
  const Json := "application/json"

  /** `h[name]`. */
  function Get(h: Headers, name: string): (r: Option<string>)
    ensures r.None? <==> forall i :: 0 <= i < |h| ==> h[i].0 != name
  {
    if h == [] then None
    else if h[0].0 == name then Some(h[0].1)
    else
      var r := Get(h[1..], name);
      assert forall i :: 1 <= i < |h| ==> h[i] == h[1..][i - 1];
      r
  }

  /** An object has each key once. */
  predicate Distinct(h: Headers) {
    forall i, j :: 0 <= i < j < |h| ==> h[i].0 != h[j].0
  }

  /** `{...h, [name]: value}`: an existing key keeps its place and takes the
      new value; a new key goes last. */
  function Assign(h: Headers, name: string, value: string): (r: Headers)
    ensures Get(r, name) == Some(value)
    ensures forall k :: k != name ==> Get(r, k) == Get(h, k)
  {
    if h == [] then [(name, value)]
    else if h[0].0 == name then [(name, value)] + h[1..]
    else
      var rest := Assign(h[1..], name, value);
      assert forall i :: 1 <= i < |h| ==> h[i] == h[1..][i - 1];
      [h[0]] + rest
  }

  /** Assigning keeps a record a record. */
  lemma {:induction false} AssignDistinct(h: Headers, name: string, value: string)
    requires Distinct(h)
    ensures Distinct(Assign(h, name, value))
    decreases |h|
  {
    if h != [] && h[0].0 != name {
      var rest := Assign(h[1..], name, value);
      assert Distinct(h[1..]) by {
        forall i, j | 0 <= i < j < |h[1..]| ensures h[1..][i].0 != h[1..][j].0 {
          assert h[1..][i] == h[i + 1] && h[1..][j] == h[j + 1];
        }
      }
      AssignDistinct(h[1..], name, value);
      assert Get(h[1..], h[0].0).None? by {
        forall i | 0 <= i < |h[1..]| ensures h[1..][i].0 != h[0].0 {
          assert h[1..][i] == h[i + 1];
        }
      }
      assert Get(rest, h[0].0).None?;
    }
  }

  /** `{...h, ...src}`: the entries of `src` assigned in order. */
  function Spread(h: Headers, src: Headers): Headers
    decreases |src|
  {
    if src == [] then h else Spread(Assign(h, src[0].0, src[0].1), src[1..])
  }

  /** The request headers: JSON content type, then the caller's headers, then
      the stored access token when it is not empty. */
  function AuthHeaders(caller: Headers, token: Option<string>): Headers {
    var base := Spread([(ContentType, Json)], caller);
    if token.Some? && token.value != [] then Assign(base, Authorization, "Bearer " + token.value) else base
  }

  /** The replay headers after a refresh. */
  function RetryHeaders(h: Headers, newToken: string): Headers {
    Assign(h, Authorization, "Bearer " + newToken)
  }

  /** Spreading a record: its keys take its values, the other keys keep
      theirs, and the result is still a record. */
  lemma {:induction false} SpreadGet(h: Headers, src: Headers, k: string)
    requires Distinct(src)
    ensures Get(Spread(h, src), k) == if Get(src, k).Some? then Get(src, k) else Get(h, k)
    decreases |src|
  {
    if src != [] {
      var h' := Assign(h, src[0].0, src[0].1);
      assert Distinct(src[1..]) by {
        forall i, j | 0 <= i < j < |src[1..]| ensures src[1..][i].0 != src[1..][j].0 {
          assert src[1..][i] == src[i + 1] && src[1..][j] == src[j + 1];
        }
      }
      SpreadGet(h', src[1..], k);
      if k == src[0].0 {
        assert Get(src[1..], k).None? by {
          forall i | 0 <= i < |src[1..]| ensures src[1..][i].0 != k {
            assert src[1..][i] == src[i + 1];
          }
        }
      } else {
        assert Get(src, k) == Get(src[1..], k);
      }
    }
  }

  lemma {:induction false} SpreadDistinct(h: Headers, src: Headers)
    requires Distinct(h)
    ensures Distinct(Spread(h, src))
    decreases |src|
  {
    if src != [] {
      AssignDistinct(h, src[0].0, src[0].1);
      SpreadDistinct(Assign(h, src[0].0, src[0].1), src[1..]);
    }
  }

  /** A non-empty stored token replaces any Authorization the caller gave;
      without one, the caller's Authorization (if any) goes out unchanged. */
  lemma StoredTokenWins(caller: Headers, token: Option<string>)
    requires Distinct(caller)
    ensures token.Some? && token.value != [] ==>
      Get(AuthHeaders(caller, token), Authorization) == Some("Bearer " + token.value)
    ensures !(token.Some? && token.value != []) ==>
      Get(AuthHeaders(caller, token), Authorization) == Get(caller, Authorization)
  {
    SpreadGet([(ContentType, Json)], caller, Authorization);
  }

  /** Every other header is the caller's when the caller set it; the content
      type defaults to JSON; nothing else is added. */
  lemma CallerHeadersKept(caller: Headers, token: Option<string>, k: string)
    requires Distinct(caller) && k != Authorization
    ensures Get(AuthHeaders(caller, token), k) ==
      if Get(caller, k).Some? then Get(caller, k)
      else if k == ContentType then Some(Json) else None
  {
    SpreadGet([(ContentType, Json)], caller, k);
  }

  /** The headers form a record: each name once. */
  lemma AuthHeadersDistinct(caller: Headers, token: Option<string>)
    ensures Distinct(AuthHeaders(caller, token))
  {
    SpreadDistinct([(ContentType, Json)], caller);
    if token.Some? && token.value != [] {
      AssignDistinct(Spread([(ContentType, Json)], caller), Authorization, "Bearer " + token.value);
    }
  }

  /** The replay carries the new token and otherwise the original headers. */
  lemma RetryCarriesNewToken(caller: Headers, token: Option<string>, newToken: string, k: string)
    requires Distinct(caller)
    ensures Get(RetryHeaders(AuthHeaders(caller, token), newToken), Authorization) == Some("Bearer " + newToken)
    ensures k != Authorization ==>
      Get(RetryHeaders(AuthHeaders(caller, token), newToken), k) == Get(AuthHeaders(caller, token), k)
  {
  }
}
