/** Where the refresh token comes from: `refreshToken` looks in
    `localStorage` first and scans the cookies second, while
    `getStoredRefreshToken` asks `getCookie` first, falls back to
    `localStorage`, and copies a cookie value into `localStorage`. */
module RefreshTokenSource {
  import opened Common
  import opened Strings
  import opened Cookies
  import opened CredentialStore

  /** The refresh token `refreshToken` sends: the stored one when it is not
      empty, otherwise what the cookie scan finds; `None` when neither gives
      a non-empty value. */
  function RefreshTokenLookup(items: Items, doc: string): (r: Option<string>)
    ensures r.Some? ==> r.value != []
  {
    var stored := GetItem(items, RefreshTokenKey);
    if Present(stored) then stored
    else
      var scanned := CookieScan(Split(doc, ";"), RefreshTokenKey);
      if Present(scanned) then scanned else None
  }

  /** The lookup at the start of `refreshToken`. */
  method FindRefreshToken(storage: LocalStorage, doc: string) returns (token: Option<string>)
    ensures token == RefreshTokenLookup(storage.items, doc)
  {
    token := GetItem(storage.items, RefreshTokenKey);
    if !Present(token) {
      token := ScanCookies(Split(doc, ";"), RefreshTokenKey);
    }
    if !Present(token) {
      token := None;
    }
  }

  /** What `getStoredRefreshToken` returns, and the store it leaves: a cookie
      value wins and is copied into the store; otherwise the stored item is
      returned as it is. Afterwards the store holds whatever token was
      returned, and no other key changes. */
  function StoredRefreshToken(items: Items, doc: string): (r: (Option<string>, Items))
    ensures r.0.Some? ==> GetItem(r.1, RefreshTokenKey) == r.0
    ensures r.0.None? ==> r.1 == items
    ensures forall k :: k != RefreshTokenKey ==> GetItem(r.1, k) == GetItem(items, k)
  {
    match GetCookie(doc, RefreshTokenKey)
    case Some(v) => (Some(v), items[RefreshTokenKey := v])
    case None => (GetItem(items, RefreshTokenKey), items)
  }

  method GetStoredRefreshToken(storage: LocalStorage, doc: string) returns (token: Option<string>)
    modifies storage
    ensures (token, storage.items) == StoredRefreshToken(old(storage.items), doc)
  {
    token := GetCookie(doc, RefreshTokenKey);
    if token.None? {
      token := GetItem(storage.items, RefreshTokenKey);
    } else {
      storage.SetItem(RefreshTokenKey, token.value);
    }
  }

  /** What the `/api/auth/refresh` call answers. */
  datatype RefreshReply =
    | Granted(pair: TokenPair)      // 2xx with the new tokens
    | Refused                       // any other status
    | NetworkFailure(message: string) // `fetch` itself threw

  /** The outcome of `refreshToken()`: its error message, or the new tokens.
      Without a token no request is made. */
  function RefreshResult(token: Option<string>, reply: RefreshReply): (r: Result<TokenPair>)
    ensures token.None? ==> r == Err("No refresh token available")
    ensures token.Some? && reply.Refused? ==> r == Err("Token refresh failed")
    ensures r.Ok? <==> token.Some? && reply.Granted?
  {
    if token.None? then Err("No refresh token available")
    else match reply
      case Granted(pair) => Ok(pair)
      case Refused => Err("Token refresh failed")
      case NetworkFailure(message) => Err(message)
  }

  /** The refresh-token cookie in a header where it is the only cookie with
      that name. */
  predicate HoldsRefreshCookie(a: seq<Cookie>, c: Cookie, b: seq<Cookie>) {
    && ValidJar(a) && ValidCookie(c) && ValidJar(b)
    && c.name == RefreshTokenKey
    && Count(a, RefreshTokenKey) == 0 && Count(b, RefreshTokenKey) == 0
  }

  lemma RefreshKeyValid()
    ensures ValidName(RefreshTokenKey)
  {
  }

  /** The two readers consult their sources in opposite order: with a
      non-empty token in the store and another one in the cookie,
      `refreshToken` sends the stored one, while `getStoredRefreshToken`
      returns the cookie's and overwrites the store with it. */
  lemma OppositeSourceOrder(items: Items, a: seq<Cookie>, c: Cookie, b: seq<Cookie>)
    requires HoldsRefreshCookie(a, c, b) && c.value != []
    requires Present(GetItem(items, RefreshTokenKey))
    ensures var doc := CookieHeader(a + [c] + b);
      && RefreshTokenLookup(items, doc) == Some(items[RefreshTokenKey])
      && StoredRefreshToken(items, doc) == (Some(c.value), items[RefreshTokenKey := c.value])
  {
    GetCookieUnique(a, c, b);
  }

  /** With no token in the store, both readers agree on a cookie value
      without '=', and after `getStoredRefreshToken` has copied it the store
      gives the same token to `refreshToken`. */
  lemma CookieOnly(items: Items, a: seq<Cookie>, c: Cookie, b: seq<Cookie>)
    requires HoldsRefreshCookie(a, c, b) && c.value != [] && '=' !in c.value
    requires !Present(GetItem(items, RefreshTokenKey))
    ensures var doc := CookieHeader(a + [c] + b);
      && RefreshTokenLookup(items, doc) == Some(c.value)
      && StoredRefreshToken(items, doc).0 == Some(c.value)
      && RefreshTokenLookup(StoredRefreshToken(items, doc).1, doc) == Some(c.value)
  {
    GetCookieUnique(a, c, b);
    ScanFirst(a, c, b);
  }

  /** A cookie value holding '=' reaches `refreshToken` cut at its first '='
      when the store is empty, while `getStoredRefreshToken` returns all of
      it. */
  lemma TruncatedCookieValue(items: Items, v1: string, v2: string)
    requires ValidValue(v1) && ValidValue(v2) && '=' !in v1 && v1 != []
    requires !Present(GetItem(items, RefreshTokenKey))
    ensures var doc := CookieHeader([Cookie(RefreshTokenKey, v1 + "=" + v2)]);
      && RefreshTokenLookup(items, doc) == Some(v1)
      && StoredRefreshToken(items, doc).0 == Some(v1 + "=" + v2)
  {
    RefreshKeyValid();
    ValueWithEquals(RefreshTokenKey, v1, v2);
  }

  /** Without a refresh token the refresh fails with its own message and
      never reaches the network. */
  lemma NoTokenNoRequest(items: Items, doc: string, reply1: RefreshReply, reply2: RefreshReply)
    requires RefreshTokenLookup(items, doc).None?
    ensures RefreshResult(RefreshTokenLookup(items, doc), reply1) == RefreshResult(RefreshTokenLookup(items, doc), reply2)
    ensures RefreshResult(RefreshTokenLookup(items, doc), reply1) == Err("No refresh token available")
  {
  }
}
