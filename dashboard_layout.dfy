/** The dashboard layout's mount effect: after the OAuth callback redirected
    to `/dashboard?login=success&...`, it copies the tokens and the user from
    the query into `localStorage`, and then marks authentication ready so
    the children render. */
module DashboardLayout {
  import opened Common
  import opened Strings
  import opened Decimal
  import opened UriCodec
  import opened QueryString
  import opened CredentialStore
  import opened RefreshScheduler
  import OAuthCallback

  /** `String(Date.now() + parseInt(expiresIn, 10) * 1000)`: a lifetime that
      does not parse makes the sum `NaN`, written as "NaN". */
  function ExpiryText(expiresIn: string, now: int): string {
    match ParseInt(expiresIn)
    case NaN => "NaN"
    case Finite(n) => IntToString(now + n * 1000)
  }

  /** What the effect leaves in the store for the page's `query` at time
      `now`. The writes happen one by one inside a `try`: when
      `decodeURIComponent` throws on the user parameter, the access token is
      already written and the rest is skipped. A page that is not a login
      redirect leaves the store alone; otherwise only the credential keys
      change, and a changed store holds the query's access token. */
  function Synced(items: Items, query: Params, now: int): (r: Items)
    ensures Get(query, "login") != Some("success") ==> r == items
    ensures forall k :: k !in CredentialKeys ==> GetItem(r, k) == GetItem(items, k)
    ensures r != items ==> GetItem(r, AccessTokenKey) == Get(query, "token")
  {
    var token := Get(query, "token");
    var user := Get(query, "user");
    var refresh := Get(query, "refresh_token");
    var expires := Get(query, "expires_in");
    if Get(query, "login") != Some("success") || !Present(token) || !Present(user) then items
    else
      var withToken := items[AccessTokenKey := token.value];
      match Decode(Component, user.value)
      case None => withToken
      case Some(u) =>
        var withUser := withToken[UserKey := u];
        var withRefresh := if Present(refresh) then withUser[RefreshTokenKey := refresh.value] else withUser;
        if Present(expires) then withRefresh[ExpiresAtKey := ExpiryText(expires.value, now)] else withRefresh
  }

  /** The layout component's state. */
  class Layout {
    var isAuthReady: bool
    const storage: LocalStorage

    /** `useState(false)`: nothing is rendered but the loading indicator. */
    constructor (storage: LocalStorage)
      ensures this.storage == storage && !isAuthReady
    {
      this.storage := storage;
      isAuthReady := false;
    }

    /** The `useEffect` callback for the page's `query` at time `now`. */
    method SyncEffect(query: Params, now: int)
      modifies this, storage
      ensures storage.items == Synced(old(storage.items), query, now)
      ensures isAuthReady
    {
      var login := Get(query, "login");
      var token := Get(query, "token");
      var user := Get(query, "user");
      var refresh := Get(query, "refresh_token");
      var expires := Get(query, "expires_in");
      if login == Some("success") && Present(token) && Present(user) {
        storage.SetItem(AccessTokenKey, token.value);
        var decoded := Decode(Component, user.value);
        if decoded.Some? {
          storage.SetItem(UserKey, decoded.value);
          if Present(refresh) {
            storage.SetItem(RefreshTokenKey, refresh.value);
          }
          if Present(expires) {
            storage.SetItem(ExpiresAtKey, ExpiryText(expires.value, now));
          }
        }
      }
      isAuthReady := true;
    }
  }

  // ---------------------------------------------------------------------------
  // The hand-off from the callback route

  /** The store after the dashboard synced the redirect of a successful
      callback that answered `data`. */
  function HandoffItems(items: Items, data: OAuthCallback.LoginData, now: int): Items {
    var withUser := items[AccessTokenKey := data.accessToken][UserKey := data.userJson];
    var withRefresh :=
      if OAuthCallback.Set(data.refreshToken) then withUser[RefreshTokenKey := data.refreshToken.value] else withUser;
    if data.expiresIn.Some? && Truthy(data.expiresIn.value)
    then withRefresh[ExpiresAtKey := IntToString(now + data.expiresIn.value.n * 1000)]
    else withRefresh
  }

  /** The store after a login redirect whose user parameter decodes to `u`. */
  lemma SyncedLogin(items: Items, query: Params, now: int, u: string)
    requires Get(query, "login") == Some("success")
    requires Present(Get(query, "token")) && Present(Get(query, "user"))
    requires Decode(Component, Get(query, "user").value) == Some(u)
    ensures var withUser := items[AccessTokenKey := Get(query, "token").value][UserKey := u];
      var refresh := Get(query, "refresh_token");
      var expires := Get(query, "expires_in");
      var withRefresh := if Present(refresh) then withUser[RefreshTokenKey := refresh.value] else withUser;
      Synced(items, query, now) ==
        if Present(expires) then withRefresh[ExpiresAtKey := ExpiryText(expires.value, now)] else withRefresh
  {
  }

  /** The dashboard reads the redirect's query back and writes each value
      the route put into it, the user JSON decoded back to what the route
      encoded. */
  lemma HandoffSynced(items: Items, data: OAuthCallback.LoginData, now: int)
    requires data.accessToken != [] && data.userJson != []
    ensures Synced(items, OAuthCallback.SuccessParams(data), now) == HandoffItems(items, data, now)
  {
    var ps := OAuthCallback.SuccessParams(data);
    OAuthCallback.SuccessFixed(data);
    OAuthCallback.SuccessOptional(data);
    DoubleRoundTrip(data.userJson);
    var user := Encode(Component, data.userJson);
    assert user != [];
    SyncedLogin(items, ps, now, data.userJson);
    var refresh := Get(ps, "refresh_token");
    assert Present(refresh) <==> OAuthCallback.Set(data.refreshToken);
    var expires := Get(ps, "expires_in");
    if data.expiresIn.Some? && Truthy(data.expiresIn.value) {
      assert ExpiryText(expires.value, now) == IntToString(now + data.expiresIn.value.n * 1000);
    } else {
      assert !Present(expires);
    }
  }

  /** What the hand-off stored reads back as the backend's answer: the
      access token and user, the refresh token and expiry only when the
      route sent them (an older value stays otherwise), and no other key
      changes. */
  lemma LoginHandoff(items: Items, data: OAuthCallback.LoginData, now: int)
    ensures var stored := HandoffItems(items, data, now);
      && GetItem(stored, AccessTokenKey) == Some(data.accessToken)
      && GetItem(stored, UserKey) == Some(data.userJson)
      && GetItem(stored, RefreshTokenKey) ==
           (if OAuthCallback.Set(data.refreshToken) then data.refreshToken else GetItem(items, RefreshTokenKey))
      && (data.expiresIn.Some? && Truthy(data.expiresIn.value) ==>
           GetTokenExpiresAt(stored) == Some(Finite(now + data.expiresIn.value.n * 1000)))
      && (!(data.expiresIn.Some? && Truthy(data.expiresIn.value)) ==>
           GetItem(stored, ExpiresAtKey) == GetItem(items, ExpiresAtKey))
      && (forall k :: k !in CredentialKeys ==> GetItem(stored, k) == GetItem(items, k))
  {
    if data.expiresIn.Some? && Truthy(data.expiresIn.value) {
      HandoffExpiry(items, data, now);
    }
  }

  /** The expiry the hand-off stores reads back as the lifetime the backend
      sent, counted from `now`. */
  lemma HandoffExpiry(items: Items, data: OAuthCallback.LoginData, now: int)
    requires data.expiresIn.Some? && Truthy(data.expiresIn.value)
    ensures GetTokenExpiresAt(HandoffItems(items, data, now)) == Some(Finite(now + data.expiresIn.value.n * 1000))
  {
    var at := now + data.expiresIn.value.n * 1000;
    ParseIntOfString(at);
    assert GetItem(HandoffItems(items, data, now), ExpiresAtKey) == Some(IntToString(at));
  }

  /** When the backend sent both a refresh token and a lifetime, the hand-off
      stores exactly what `saveAuthCredentials` with the user would. */
  lemma HandoffIsSave(items: Items, data: OAuthCallback.LoginData, now: int)
    requires OAuthCallback.Set(data.refreshToken)
    requires data.expiresIn.Some? && Truthy(data.expiresIn.value)
    ensures HandoffItems(items, data, now) ==
      SavedItems(items, TokenPair(data.accessToken, data.refreshToken.value, data.expiresIn.value.n), Some(data.userJson), now)
  {
  }

  /** A user parameter that `decodeURIComponent` rejects leaves the new
      access token stored beside whatever user, refresh token and expiry
      were stored before. */
  lemma MalformedUserPartialWrite(items: Items, query: Params, now: int)
    requires Get(query, "login") == Some("success")
    requires Present(Get(query, "token")) && Present(Get(query, "user"))
    requires Decode(Component, Get(query, "user").value).None?
    ensures var synced := Synced(items, query, now);
      && GetItem(synced, AccessTokenKey) == Get(query, "token")
      && (forall k :: k != AccessTokenKey ==> GetItem(synced, k) == GetItem(items, k))
  {
  }

  /** A lifetime that is not a number stores the expiry "NaN", which reads
      back as `NaN`: the token then always counts as expiring soon, and the
      proactive refresh schedules nothing. */
  lemma UnparsableLifetime(items: Items, query: Params, now: int, later: int, thresholdMs: int)
    requires Get(query, "login") == Some("success")
    requires Present(Get(query, "token")) && Present(Get(query, "user"))
    requires Decode(Component, Get(query, "user").value).Some?
    requires Present(Get(query, "expires_in")) && ParseInt(Get(query, "expires_in").value) == NaN
    ensures var synced := Synced(items, query, now);
      && GetItem(synced, ExpiresAtKey) == Some("NaN")
      && GetTokenExpiresAt(synced) == Some(NaN)
      && IsTokenExpiringSoon(synced, later, thresholdMs)
      && Schedule(GetTokenExpiresAt(synced), later) == Idle
  {
    var t: string := "NaN";
    assert !IsJsSpace(t[0]);
    assert TrimStart(t) == t;
    assert DigitRun(t) == 0;
  }
}
