/** The credential store of the API client: the browser's `localStorage`
    holding `access_token`, `refresh_token`, `token_expires_at` and `user`,
    the two writers `saveAuthCredentials` and `clearAuthCredentials`, and the
    read-only accessors. */
module CredentialStore {
  import opened Common
  import opened Decimal

  const AccessTokenKey := "access_token"
  const RefreshTokenKey := "refresh_token"
  const ExpiresAtKey := "token_expires_at"
  const UserKey := "user"

  /** The four keys a logout removes. */
  const CredentialKeys: set<string> := {AccessTokenKey, RefreshTokenKey, ExpiresAtKey, UserKey}

  /** The contents of `localStorage`: string keys to string values. */
  type Items = map<string, string>

  /** The token fields of a login or refresh response (`LoginResponse`,
      `RefreshTokenResponse`); `expiresIn` is in seconds. */
  datatype TokenPair = TokenPair(accessToken: string, refreshToken: string, expiresIn: int)

  /** `localStorage`: a string-to-string map updated one key at a time. */
  class LocalStorage {
    var items: Items

    constructor (initial: Items)
      ensures items == initial
    {
      items := initial;
    }

    method SetItem(key: string, value: string)
      modifies this
      ensures items == old(items)[key := value]
    {
      items := items[key := value];
    }

    method RemoveItem(key: string)
      modifies this
      ensures items == old(items) - {key}
    {
      items := items - {key};
    }
  }

  /** `localStorage.getItem(key)`. */
  function GetItem(items: Items, key: string): (r: Option<string>)
    ensures r.Some? <==> key in items
    ensures r.Some? ==> r.value == items[key]
  {
    if key in items then Some(items[key]) else None
  }

  /** A stored value that JavaScript treats as true: present and non-empty. */
  function Present(v: Option<string>): bool {
    v.Some? && v.value != []
  }

  /** What `saveAuthCredentials(data, user)` leaves in the store at time `now`
      (milliseconds): the three token keys, with the expiry instant written as
      decimal text, and `user` only when one was passed. */
  function SavedItems(items: Items, data: TokenPair, user: Option<string>, now: int): (r: Items)
    ensures GetItem(r, AccessTokenKey) == Some(data.accessToken)
    ensures GetItem(r, RefreshTokenKey) == Some(data.refreshToken)
    ensures GetItem(r, ExpiresAtKey) == Some(IntToString(now + data.expiresIn * 1000))
    ensures GetItem(r, UserKey) == if user.Some? then user else GetItem(items, UserKey)
    ensures forall k :: k !in CredentialKeys ==> GetItem(r, k) == GetItem(items, k)
  {
    var written := items[AccessTokenKey := data.accessToken]
                        [RefreshTokenKey := data.refreshToken]
                        [ExpiresAtKey := IntToString(now + data.expiresIn * 1000)];
    if user.Some? then written[UserKey := user.value] else written
  }

  /** What `clearAuthCredentials` leaves in the store. */
  function ClearedItems(items: Items): (r: Items)
    ensures r.Keys == items.Keys - CredentialKeys
    ensures forall k :: k in r ==> r[k] == items[k]
  {
    items - CredentialKeys
  }

  /** `saveAuthCredentials`: writes the store key by key. */
  method SaveAuthCredentials(storage: LocalStorage, data: TokenPair, user: Option<string>, now: int)
    modifies storage
    ensures storage.items == SavedItems(old(storage.items), data, user, now)
  {
    storage.SetItem(AccessTokenKey, data.accessToken);
    storage.SetItem(RefreshTokenKey, data.refreshToken);
    storage.SetItem(ExpiresAtKey, IntToString(now + data.expiresIn * 1000));
    if user.Some? {
      storage.SetItem(UserKey, user.value);
    }
  }

  /** `clearAuthCredentials`: removes the four keys one by one. */
  method ClearAuthCredentials(storage: LocalStorage)
    modifies storage
    ensures storage.items == ClearedItems(old(storage.items))
  {
    storage.RemoveItem(AccessTokenKey);
    storage.RemoveItem(RefreshTokenKey);
    storage.RemoveItem(ExpiresAtKey);
    storage.RemoveItem(UserKey);
  }

  /** `isAuthenticated()`: an access token is stored and is not empty. */
  function IsAuthenticated(items: Items): (r: bool)
    ensures r <==> AccessTokenKey in items && items[AccessTokenKey] != []
  {
    Present(GetItem(items, AccessTokenKey))
  }

  /** `getStoredUser()`: the stored user JSON when it is not empty. */
  function GetStoredUser(items: Items): (r: Option<string>)
    ensures r.Some? <==> Present(GetItem(items, UserKey))
  {
    if Present(GetItem(items, UserKey)) then GetItem(items, UserKey) else None
  }

  /** `getTokenExpiresAt()`: `parseInt` of the stored text when it is not
      empty, otherwise `null`. */
  function GetTokenExpiresAt(items: Items): (r: Option<Num>)
    ensures r.Some? <==> Present(GetItem(items, ExpiresAtKey))
  {
    if Present(GetItem(items, ExpiresAtKey)) then Some(ParseInt(items[ExpiresAtKey])) else None
  }

  /** `isTokenExpiringSoon(thresholdMs)` at time `now`: true when no usable
      expiry is stored (missing, `0` or `NaN`), or when it falls within the
      threshold. */
  function IsTokenExpiringSoon(items: Items, now: int, thresholdMs: int): (r: bool)
    ensures GetTokenExpiresAt(items).None? ==> r
    ensures !r <==> && GetTokenExpiresAt(items).Some? && Truthy(GetTokenExpiresAt(items).value)
                    && now + thresholdMs < GetTokenExpiresAt(items).value.n
  {
    var expiresAt := GetTokenExpiresAt(items);
    if expiresAt.None? || !Truthy(expiresAt.value) then true
    else now + thresholdMs >= expiresAt.value.n
  }

  /** What `saveAuthCredentials` stored can be read back: the access token,
      the refresh token, the expiry instant `now + expiresIn * 1000`, and the
      user only when one was passed, the old user otherwise; every other key
      is left alone. */
  lemma SavedReadBack(items: Items, data: TokenPair, user: Option<string>, now: int)
    ensures var saved := SavedItems(items, data, user, now);
      && GetItem(saved, AccessTokenKey) == Some(data.accessToken)
      && GetItem(saved, RefreshTokenKey) == Some(data.refreshToken)
      && GetTokenExpiresAt(saved) == Some(Finite(now + data.expiresIn * 1000))
      && GetItem(saved, UserKey) == (if user.Some? then user else GetItem(items, UserKey))
      && (forall k :: k !in CredentialKeys ==> GetItem(saved, k) == GetItem(items, k))
  {
    ParseIntOfString(now + data.expiresIn * 1000);
  }

  /** A refresh saves without a user, so the stored user survives it. */
  lemma RefreshKeepsUser(items: Items, data: TokenPair, now: int)
    ensures GetStoredUser(SavedItems(items, data, None, now)) == GetStoredUser(items)
    ensures IsAuthenticated(SavedItems(items, data, None, now)) <==> data.accessToken != []
  {
  }

  /** After saving, the token counts as expiring within `thresholdMs` exactly
      when the new expiry instant is within the threshold (or is the falsy
      instant 0). */
  lemma ExpiringSoonAfterSave(items: Items, data: TokenPair, now: int, later: int, thresholdMs: int)
    ensures var expiresAt := now + data.expiresIn * 1000;
      (IsTokenExpiringSoon(SavedItems(items, data, None, now), later, thresholdMs)
       <==> (expiresAt == 0 || later + thresholdMs >= expiresAt))
  {
    SavedReadBack(items, data, None, now);
  }

  /** Clearing removes the four credential keys and nothing else, leaves the
      user logged out, and clearing twice is the same as clearing once. */
  lemma ClearRemovesCredentials(items: Items)
    ensures forall k :: k in CredentialKeys ==> GetItem(ClearedItems(items), k).None?
    ensures forall k :: k !in CredentialKeys ==> GetItem(ClearedItems(items), k) == GetItem(items, k)
    ensures !IsAuthenticated(ClearedItems(items))
    ensures ClearedItems(ClearedItems(items)) == ClearedItems(items)
    ensures IsTokenExpiringSoon(ClearedItems(items), 0, 0)
  {
  }
}
