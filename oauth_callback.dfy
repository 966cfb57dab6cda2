/** The OAuth callback route (`GET /api/auth/callback`, single sign-on through
    Linux.do): it checks the provider's query, trades `code` and `state` for
    tokens at the backend, and redirects to the dashboard with the tokens in
    the query and in cookies, or back to the login page with an error code.
    The backend's answer is an input. */
module OAuthCallback {
  import opened Common
  import opened Strings
  import opened Decimal
  import opened UriCodec
  import opened QueryString

  const BackendPath := "/api/auth/sso/callback"
  const LoginPath := "/auth"
  const DashboardPath := "/dashboard"
  const MissingParams := "missing_oauth_params"
  const CallbackFailed := "oauth_callback_failed"

  /** Seven and thirty days, in seconds. */
  const WeekSeconds := 60 * 60 * 24 * 7
  const MonthSeconds := 60 * 60 * 24 * 30

  /** The fields of the backend's JSON answer the route uses; `userJson` is
      `JSON.stringify(user)`. */
  datatype LoginData = LoginData(
    accessToken: string,
    refreshToken: Option<string>,
    expiresIn: Option<Num>,
    userJson: string)

  /** How the backend call ends: it throws (network failure or a body that
      is not JSON), answers with a status that is not ok, or answers with
      the login data. */
  datatype Backend = Threw | NotOk(status: int) | Answered(data: LoginData)

  datatype SameSite = Lax

  /** A `Set-Cookie` of the redirect response. */
  datatype Cookie = Cookie(
    name: string,
    value: string,
    httpOnly: bool,
    secure: bool,
    sameSite: SameSite,
    maxAge: nat,
    path: string)

  /** A redirect to `path?query` on the frontend, with the cookies it sets. */
  datatype Redirect = Redirect(path: string, query: string, cookies: seq<Cookie>)

  /** A value the route treats as set: present and not "". */
  predicate Set(v: Option<string>) {
    v.Some? && v.value != []
  }

  /** The query of a hand-written URL: `name=` and `encodeURIComponent(value)`
      for each pair, joined by '&'. */
  function ComponentQuery(ps: Params): string
    decreases |ps|
  {
    if ps == [] then []
    else
      var piece := ps[0].0 + "=" + Encode(Component, ps[0].1);
      if |ps| == 1 then piece else piece + "&" + ComponentQuery(ps[1..])
  }

  /** The backend request the route sends, when it sends one: the path and
      query of `${API_BASE_URL}/api/auth/sso/callback?code=...&state=...`. */
  function BackendRequest(query: Params): (r: Option<string>)
    ensures r.Some? <==> !Set(Get(query, "error")) && Set(Get(query, "code")) && Set(Get(query, "state"))
  {
    var code := Get(query, "code");
    var state := Get(query, "state");
    if Set(Get(query, "error")) || !Set(code) || !Set(state) then None
    else Some(BackendPath + "?" + ComponentQuery([("code", code.value), ("state", state.value)]))
  }

  /** The dashboard query on success, in the order the route sets it. */
  function SuccessParams(data: LoginData): Params {
    [("login", "success"), ("token", data.accessToken), ("user", Encode(Component, data.userJson))]
    + (if Set(data.refreshToken) then [("refresh_token", data.refreshToken.value)] else [])
    + (if data.expiresIn.Some? && Truthy(data.expiresIn.value) then [("expires_in", IntToString(data.expiresIn.value.n))] else [])
  }

  /** The backup cookies on success. */
  function SuccessCookies(data: LoginData, production: bool): seq<Cookie> {
    [Cookie("access_token", data.accessToken, true, production, Lax, WeekSeconds, "/")]
    + (if Set(data.refreshToken) then [Cookie("refresh_token", data.refreshToken.value, true, production, Lax, MonthSeconds, "/")] else [])
    + [Cookie("user", data.userJson, false, production, Lax, WeekSeconds, "/")]
  }

  function LoginError(code: string): Redirect {
    Redirect(LoginPath, "error=" + code, [])
  }

  /** `GET(request)`: the redirect for the provider's `query`, where
      `backend` is how the backend call ends if the route makes it. The
      dashboard is reached exactly when the backend was asked and answered;
      every other outcome goes back to the login page without a cookie. */
  function Callback(query: Params, backend: Backend, production: bool): (r: Redirect)
    ensures r.path == DashboardPath <==> BackendRequest(query).Some? && backend.Answered?
    ensures r.path != DashboardPath ==> r.path == LoginPath && r.cookies == []
    ensures r.path == DashboardPath ==>
      r.query == Serialize(SuccessParams(backend.data)) && r.cookies == SuccessCookies(backend.data, production)
  {
    var error := Get(query, "error");
    if Set(error) then LoginError(Encode(Component, error.value))
    else if !Set(Get(query, "code")) || !Set(Get(query, "state")) then LoginError(MissingParams)
    else match backend
      case Answered(data) =>
        Redirect(DashboardPath, Serialize(SuccessParams(data)), SuccessCookies(data, production))
      case _ => LoginError(CallbackFailed)
  }

  // ---------------------------------------------------------------------------
  // Reading the URLs back

  /** A piece `name=encodeURIComponent(value)` with a plain name is read back
      as that pair by `URLSearchParams`. */
  lemma ParseComponentPiece(name: string, value: string)
    requires Plain(name)
    ensures ParsePiece(name + "=" + Encode(Component, value)) == Some((name, value))
  {
    var piece := name + "=" + Encode(Component, value);
    PlainIsEncoded(Form, name);
    assert '=' !in name by {
      forall i | 0 <= i < |name| ensures name[i] != '=' { assert Plain(name); }
    }
    assert piece[..|name|] == name;
    assert piece[|name|] == '=';
    assert IndexOf(piece, '=') == Some(|name|);
    assert piece[|name| + 1..] == Encode(Component, value);
    DecodeEncode(Form, Form, name);
    DecodeEncode(Component, Form, value);
  }

  /** A hand-written query with plain names parses back to its pairs. */
  lemma {:induction false} ParseComponentQuery(ps: Params)
    requires forall i :: 0 <= i < |ps| ==> Plain(ps[i].0) && ps[i].0 != []
    ensures Parse(ComponentQuery(ps)) == Some(ps)
  {
    if ps == [] {
      assert Split([], "&") == [[]];
    } else {
      var pieces := ComponentPieces(ps);
      ComponentQueryJoin(ps);
      forall i | 0 <= i < |pieces| ensures '&' !in pieces[i] {
        NoAmpersand(ps[i].1, Component);
        assert '&' !in ps[i].0 by {
          forall j | 0 <= j < |ps[i].0| ensures ps[i].0[j] != '&' { assert Plain(ps[i].0); }
        }
      }
      SplitJoin(pieces, '&');
      ParseComponentPieces(ps);
    }
  }

  function ComponentPieces(ps: Params): (pieces: seq<string>)
    ensures |pieces| == |ps|
    ensures forall i :: 0 <= i < |ps| ==> pieces[i] == ps[i].0 + "=" + Encode(Component, ps[i].1)
  {
    if ps == [] then [] else [ps[0].0 + "=" + Encode(Component, ps[0].1)] + ComponentPieces(ps[1..])
  }

  lemma {:induction false} ComponentQueryJoin(ps: Params)
    ensures ComponentQuery(ps) == Join(ComponentPieces(ps), "&")
    decreases |ps|
  {
    if |ps| > 1 {
      ComponentQueryJoin(ps[1..]);
      assert ComponentPieces(ps)[1..] == ComponentPieces(ps[1..]);
    }
  }

  lemma {:induction false} ParseComponentPieces(ps: Params)
    requires forall i :: 0 <= i < |ps| ==> Plain(ps[i].0) && ps[i].0 != []
    ensures ParsePieces(ComponentPieces(ps)) == Some(ps)
  {
    if ps != [] {
      ParseComponentPiece(ps[0].0, ps[0].1);
      ParseComponentPieces(ps[1..]);
      assert ComponentPieces(ps)[1..] == ComponentPieces(ps[1..]);
      assert [ps[0]] + ps[1..] == ps;
    }
  }

  /** The backend receives `code` and `state` exactly as the provider sent
      them. */
  lemma BackendReceivesCode(query: Params)
    requires BackendRequest(query).Some?
    ensures var r := BackendRequest(query).value;
      && r[..|BackendPath| + 1] == BackendPath + "?"
      && Parse(r[|BackendPath| + 1..]) == Some([("code", Get(query, "code").value), ("state", Get(query, "state").value)])
  {
    var ps := [("code", Get(query, "code").value), ("state", Get(query, "state").value)];
    assert Plain("code") && Plain("state");
    ParseComponentQuery(ps);
    var r := BackendRequest(query).value;
    assert r == (BackendPath + "?") + ComponentQuery(ps);
  }

  // ---------------------------------------------------------------------------
  // The branches

  /** The error codes are read back verbatim by the login page; the
      provider's own error comes first, then missing parameters, then a
      backend that threw or answered not ok. No error redirect sets a
      cookie. */
  lemma ErrorBranches(query: Params, backend: Backend, production: bool)
    ensures var r := Callback(query, backend, production);
      && (Set(Get(query, "error")) ==>
            r.path == LoginPath && r.cookies == [] && Parse(r.query) == Some([("error", Get(query, "error").value)]))
      && (!Set(Get(query, "error")) && (!Set(Get(query, "code")) || !Set(Get(query, "state"))) ==>
            r == LoginError(MissingParams) && BackendRequest(query).None?)
      && (BackendRequest(query).Some? && !backend.Answered? ==> r == LoginError(CallbackFailed))
  {
    if Set(Get(query, "error")) {
      var e := Get(query, "error").value;
      assert Plain("error");
      ParseComponentQuery([("error", e)]);
      assert ComponentQuery([("error", e)]) == "error=" + Encode(Component, e);
    }
  }

  /** On success the dashboard reads back `login=success`, the access token,
      the user JSON still encoded once, the refresh token only when the
      backend sent a non-empty one, and the lifetime (through `parseInt`)
      only when it is a non-zero number. */
  lemma SuccessQuery(data: LoginData)
    ensures var ps := SuccessParams(data);
      && Parse(Serialize(ps)) == Some(ps)
      && Get(ps, "login") == Some("success")
      && Get(ps, "token") == Some(data.accessToken)
      && Get(ps, "user") == Some(Encode(Component, data.userJson))
      && (Get(ps, "refresh_token").Some? <==> Set(data.refreshToken))
      && (Get(ps, "refresh_token").Some? ==> Get(ps, "refresh_token") == data.refreshToken)
      && (Get(ps, "expires_in").Some? <==> data.expiresIn.Some? && Truthy(data.expiresIn.value))
      && (Get(ps, "expires_in").Some? ==> ParseInt(Get(ps, "expires_in").value) == data.expiresIn.value)
  {
    ParseSerialize(SuccessParams(data));
    SuccessFixed(data);
    SuccessOptional(data);
  }

  function FixedParams(data: LoginData): Params {
    [("login", "success"), ("token", data.accessToken), ("user", Encode(Component, data.userJson))]
  }

  function OptionalParams(data: LoginData): Params {
    (if Set(data.refreshToken) then [("refresh_token", data.refreshToken.value)] else [])
    + (if data.expiresIn.Some? && Truthy(data.expiresIn.value) then [("expires_in", IntToString(data.expiresIn.value.n))] else [])
  }

  lemma SuccessFixed(data: LoginData)
    ensures var ps := SuccessParams(data);
      && Get(ps, "login") == Some("success")
      && Get(ps, "token") == Some(data.accessToken)
      && Get(ps, "user") == Some(Encode(Component, data.userJson))
  {
    var f := FixedParams(data);
    assert SuccessParams(data) == f + OptionalParams(data);
    assert f[1..][1..] == [("user", Encode(Component, data.userJson))];
    assert Get(f[1..], "user") == Get(f[1..][1..], "user");
    GetAppend(FixedParams(data), OptionalParams(data), "login");
    GetAppend(FixedParams(data), OptionalParams(data), "token");
    GetAppend(FixedParams(data), OptionalParams(data), "user");
  }

  lemma SuccessOptional(data: LoginData)
    ensures var ps := SuccessParams(data);
      && (Get(ps, "refresh_token").Some? <==> Set(data.refreshToken))
      && (Get(ps, "refresh_token").Some? ==> Get(ps, "refresh_token") == data.refreshToken)
      && (Get(ps, "expires_in").Some? <==> data.expiresIn.Some? && Truthy(data.expiresIn.value))
      && (Get(ps, "expires_in").Some? ==> ParseInt(Get(ps, "expires_in").value) == data.expiresIn.value)
  {
    var f := FixedParams(data);
    var o := OptionalParams(data);
    assert SuccessParams(data) == f + o;
    assert Get(f, "refresh_token").None? && Get(f, "expires_in").None?;
    GetAppend(f, o, "refresh_token");
    GetAppend(f, o, "expires_in");
    if data.expiresIn.Some? && Truthy(data.expiresIn.value) {
      ParseIntOfString(data.expiresIn.value.n);
    }
  }

  /** Names of the cookies page scripts can read through `document.cookie`. */
  function ScriptVisible(cookies: seq<Cookie>): seq<string> {
    if cookies == [] then []
    else (if cookies[0].httpOnly then [] else [cookies[0].name]) + ScriptVisible(cookies[1..])
  }

  /** On success the tokens are set as `httpOnly` cookies and only `user` is
      visible to page scripts: the `refresh_token` cookie is never in
      `document.cookie`, where the client's cookie fallback looks for it. The
      cookies are `secure` exactly in production; the access and user cookies
      live a week, the refresh cookie thirty days. */
  lemma SuccessCookiesHidden(data: LoginData, production: bool)
    ensures var cs := SuccessCookies(data, production);
      && ScriptVisible(cs) == ["user"]
      && (forall i :: 0 <= i < |cs| ==> cs[i].secure == production && cs[i].path == "/")
      && (forall i :: 0 <= i < |cs| && cs[i].name == "refresh_token" ==>
            cs[i].httpOnly && cs[i].maxAge == 2592000 && Set(data.refreshToken))
      && (forall i :: 0 <= i < |cs| && cs[i].name != "refresh_token" ==> cs[i].maxAge == 604800)
  {
    var cs := SuccessCookies(data, production);
    if Set(data.refreshToken) {
      assert cs[1..][1..] == [cs[2]];
      assert ScriptVisible(cs[1..][1..]) == ["user"];
    } else {
      assert cs[1..] == [cs[1]];
      assert ScriptVisible(cs[1..][1..]) == [];
      assert ScriptVisible(cs[1..]) == ["user"];
    }
  }
}
