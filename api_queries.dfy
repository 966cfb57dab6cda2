/** Request builders of the API client that compute something before the
    request: `getAPIKeyInfo`'s choice of key, and the query strings of the
    consumption endpoints, where each filter is appended only when it is set
    to a truthy value. */
module ApiQueries {
  import opened Common
  import opened Strings
  import opened Decimal
  import opened QueryString

  // ---------------------------------------------------------------------------
  // getAPIKeyInfo

  datatype ConfigType = Antigravity | Kiro

  /** A `PluginAPIKey` as the backend lists it. */
  datatype ApiKey = ApiKey(
    id: int,
    userId: int,
    keyPreview: string,
    name: string,
    configType: ConfigType,
    isActive: bool,
    createdAt: string,
    lastUsedAt: Option<string>,
    expiresAt: Option<string>)

  /** `keys.find(key => key.is_active)`: the first active key. */
  function FindActive(keys: seq<ApiKey>): (r: Option<nat>)
    ensures r.Some? ==> r.value < |keys| && keys[r.value].isActive
    ensures r.Some? ==> forall i :: 0 <= i < r.value ==> !keys[i].isActive
    ensures r.None? ==> forall i :: 0 <= i < |keys| ==> !keys[i].isActive
  {
    if keys == [] then None
    else if keys[0].isActive then Some(0)
    else match FindActive(keys[1..])
      case None => None
      case Some(k) => Some(k + 1)
  }

  /** `getAPIKeyInfo` on the listed keys: `find(...) || keys[0] || null`. A
      key object is always truthy, so the fallback to `keys[0]` applies only
      when no key is active. */
  function KeyInfo(keys: seq<ApiKey>): (r: Option<ApiKey>)
    ensures r.Some? <==> keys != []
    ensures r.Some? ==> r.value in keys
  {
    match FindActive(keys)
    case Some(i) => Some(keys[i])
    case None => if keys == [] then None else Some(keys[0])
  }

  /** The key returned is the first active key when any is active, and
      otherwise the first key, which is then inactive. */
  lemma KeyInfoChoice(keys: seq<ApiKey>)
    ensures (exists i :: 0 <= i < |keys| && keys[i].isActive) ==>
      exists j :: 0 <= j < |keys| && KeyInfo(keys) == Some(keys[j]) && keys[j].isActive &&
        forall i :: 0 <= i < j ==> !keys[i].isActive
    ensures keys != [] && (forall i :: 0 <= i < |keys| ==> !keys[i].isActive) ==>
      KeyInfo(keys) == Some(keys[0]) && !KeyInfo(keys).value.isActive
  {
    match FindActive(keys)
    case Some(j) =>
      assert KeyInfo(keys) == Some(keys[j]);
    case None =>
  }

  // ---------------------------------------------------------------------------
  // Query strings

  /** `if (value) queryParams.append(name, value)` for a string filter: the
      pairs so far stay, and one pair is added exactly when the value is a
      non-empty string. */
  function AppendText(ps: Params, name: string, value: Option<string>): (r: Params)
    ensures |ps| <= |r| && r[..|ps|] == ps
    ensures |r| > |ps| <==> value.Some? && value.value != []
    ensures |r| > |ps| ==> r[|ps|..] == [(name, value.value)]
  {
    if value.Some? && value.value != [] then ps + [(name, value.value)] else ps
  }

  /** `if (value) queryParams.append(name, value.toString())` for a number
      filter: the pairs so far stay, and the number's decimal text is added
      exactly when it is truthy, so `0` and `NaN` are left out. */
  function AppendNumber(ps: Params, name: string, value: Option<Num>): (r: Params)
    ensures |ps| <= |r| && r[..|ps|] == ps
    ensures |r| > |ps| <==> value.Some? && Truthy(value.value)
    ensures |r| > |ps| ==> r[|ps|..] == [(name, IntToString(value.value.n))]
  {
    if value.Some? && Truthy(value.value) then ps + [(name, IntToString(value.value.n))] else ps
  }

  /** The URL of an endpoint with its query: `?` and the serialised pairs,
      or nothing when the serialisation is empty, which it is exactly when
      no pair was appended. */
  function WithQuery(path: string, ps: Params): (r: string)
    ensures ps == [] ==> r == path
    ensures ps != [] ==> r == path + "?" + Serialize(ps)
  {
    var q := Serialize(ps);
    if q != [] then path + "?" + q else path
  }

  /** `getQuotaConsumption`'s query: empty exactly when no filter is set to
      a truthy value, and no value sent is empty. */
  function QuotaConsumptionParams(limit: Option<Num>, startDate: Option<string>, endDate: Option<string>): (r: Params)
    ensures r == [] <==> NumberRead(limit).None? && TextRead(startDate).None? && TextRead(endDate).None?
    ensures forall i :: 0 <= i < |r| ==> r[i].1 != []
  {
    AppendText(AppendText(AppendNumber([], "limit", limit), "start_date", startDate), "end_date", endDate)
  }

  function QuotaConsumptionUrl(base: string, limit: Option<Num>, startDate: Option<string>, endDate: Option<string>): string {
    WithQuery(base + "/api/plugin-api/quotas/consumption", QuotaConsumptionParams(limit, startDate, endDate))
  }

  /** `getKiroAccountConsumption`'s query: the same, with `offset`. */
  function KiroConsumptionParams(limit: Option<Num>, offset: Option<Num>, startDate: Option<string>, endDate: Option<string>): (r: Params)
    ensures r == [] <==> NumberRead(limit).None? && NumberRead(offset).None? && TextRead(startDate).None? && TextRead(endDate).None?
    ensures forall i :: 0 <= i < |r| ==> r[i].1 != []
  {
    AppendText(AppendText(AppendNumber(AppendNumber([], "limit", limit), "offset", offset), "start_date", startDate), "end_date", endDate)
  }

  function KiroConsumptionUrl(base: string, accountId: int, limit: Option<Num>, offset: Option<Num>, startDate: Option<string>, endDate: Option<string>): string {
    WithQuery(base + "/api/kiro/accounts/" + IntToString(accountId) + "/consumption",
      KiroConsumptionParams(limit, offset, startDate, endDate))
  }

  /** `getKiroConsumptionStats`'s query: the same, with the dates only. */
  function KiroStatsParams(startDate: Option<string>, endDate: Option<string>): (r: Params)
    ensures r == [] <==> TextRead(startDate).None? && TextRead(endDate).None?
    ensures forall i :: 0 <= i < |r| ==> r[i].1 != []
  {
    AppendText(AppendText([], "start_date", startDate), "end_date", endDate)
  }

  function KiroStatsUrl(base: string, startDate: Option<string>, endDate: Option<string>): string {
    WithQuery(base + "/api/kiro/consumption/stats", KiroStatsParams(startDate, endDate))
  }

  // ---------------------------------------------------------------------------
  // What the server reads

  /** What a string filter reads back as: its value when it was set to a
      non-empty string, absent otherwise. */
  function TextRead(value: Option<string>): (r: Option<string>)
    ensures r.Some? <==> value.Some? && value.value != []
    ensures r.Some? ==> r == value
  {
    if value.Some? && value.value != [] then value else None
  }

  /** What a number filter reads back as, through `parseInt`: the number
      itself when it is truthy, absent otherwise. */
  function NumberRead(value: Option<Num>): (r: Option<Num>)
    ensures r.Some? <==> value.Some? && Truthy(value.value)
    ensures r.Some? ==> r == value
  {
    if value.Some? && Truthy(value.value) then value else None
  }

  function ParsedNumber(v: Option<string>): Option<Num> {
    if v.Some? then Some(ParseInt(v.value)) else None
  }

  lemma GetAppendText(ps: Params, name: string, value: Option<string>, asked: string)
    ensures Get(AppendText(ps, name, value), asked) ==
      if Get(ps, asked).Some? then Get(ps, asked)
      else if asked == name then TextRead(value)
      else None
  {
    if value.Some? && value.value != [] {
      GetAppend(ps, [(name, value.value)], asked);
    }
  }

  lemma GetAppendNumber(ps: Params, name: string, value: Option<Num>, asked: string)
    ensures Get(AppendNumber(ps, name, value), asked) ==
      if Get(ps, asked).Some? then Get(ps, asked)
      else if asked == name && NumberRead(value).Some? then Some(IntToString(value.value.n))
      else None
  {
    if value.Some? && Truthy(value.value) {
      GetAppend(ps, [(name, IntToString(value.value.n))], asked);
    }
  }

  /** The server parses `getQuotaConsumption`'s query back into exactly the
      filters that were set: `limit` as the same number, the dates verbatim,
      and a filter set to `0`, `NaN` or "" as absent. */
  lemma QuotaConsumptionReadBack(limit: Option<Num>, startDate: Option<string>, endDate: Option<string>)
    ensures var ps := QuotaConsumptionParams(limit, startDate, endDate);
      && Parse(Serialize(ps)) == Some(ps)
      && ParsedNumber(Get(ps, "limit")) == NumberRead(limit)
      && Get(ps, "start_date") == TextRead(startDate)
      && Get(ps, "end_date") == TextRead(endDate)
  {
    var p1 := AppendNumber([], "limit", limit);
    var p2 := AppendText(p1, "start_date", startDate);
    ParseSerialize(AppendText(p2, "end_date", endDate));
    if NumberRead(limit).Some? {
      ParseIntOfString(limit.value.n);
    }
    GetAppendNumber([], "limit", limit, "limit");
    GetAppendText(p1, "start_date", startDate, "limit");
    GetAppendText(p2, "end_date", endDate, "limit");
    GetAppendNumber([], "limit", limit, "start_date");
    GetAppendText(p1, "start_date", startDate, "start_date");
    GetAppendText(p2, "end_date", endDate, "start_date");
    GetAppendNumber([], "limit", limit, "end_date");
    GetAppendText(p1, "start_date", startDate, "end_date");
    GetAppendText(p2, "end_date", endDate, "end_date");
  }

  /** The same for `getKiroAccountConsumption`: in particular `offset: 0`,
      the first page, is not sent at all and the server's default applies. */
  lemma KiroConsumptionReadBack(limit: Option<Num>, offset: Option<Num>, startDate: Option<string>, endDate: Option<string>)
    ensures var ps := KiroConsumptionParams(limit, offset, startDate, endDate);
      && Parse(Serialize(ps)) == Some(ps)
      && ParsedNumber(Get(ps, "limit")) == NumberRead(limit)
      && ParsedNumber(Get(ps, "offset")) == NumberRead(offset)
      && Get(ps, "start_date") == TextRead(startDate)
      && Get(ps, "end_date") == TextRead(endDate)
  {
    var p1 := AppendNumber([], "limit", limit);
    var p2 := AppendNumber(p1, "offset", offset);
    var p3 := AppendText(p2, "start_date", startDate);
    ParseSerialize(AppendText(p3, "end_date", endDate));
    if NumberRead(limit).Some? {
      ParseIntOfString(limit.value.n);
    }
    if NumberRead(offset).Some? {
      ParseIntOfString(offset.value.n);
    }
    KiroConsumptionGets(p1, p2, p3, limit, offset, startDate, endDate, "limit");
    KiroConsumptionGets(p1, p2, p3, limit, offset, startDate, endDate, "offset");
    KiroConsumptionGets(p1, p2, p3, limit, offset, startDate, endDate, "start_date");
    KiroConsumptionGets(p1, p2, p3, limit, offset, startDate, endDate, "end_date");
  }

  lemma KiroConsumptionGets(p1: Params, p2: Params, p3: Params, limit: Option<Num>, offset: Option<Num>,
                            startDate: Option<string>, endDate: Option<string>, asked: string)
    requires p1 == AppendNumber([], "limit", limit) && p2 == AppendNumber(p1, "offset", offset)
    requires p3 == AppendText(p2, "start_date", startDate)
    ensures Get(AppendText(p3, "end_date", endDate), asked) ==
      if asked == "limit" && NumberRead(limit).Some? then Some(IntToString(limit.value.n))
      else if asked == "offset" && NumberRead(offset).Some? then Some(IntToString(offset.value.n))
      else if asked == "start_date" then TextRead(startDate)
      else if asked == "end_date" then TextRead(endDate)
      else None
  {
    GetAppendNumber([], "limit", limit, asked);
    GetAppendNumber(p1, "offset", offset, asked);
    GetAppendText(p2, "start_date", startDate, asked);
    GetAppendText(p3, "end_date", endDate, asked);
  }

  /** The same for `getKiroConsumptionStats`. */
  lemma KiroStatsReadBack(startDate: Option<string>, endDate: Option<string>)
    ensures var ps := KiroStatsParams(startDate, endDate);
      && Parse(Serialize(ps)) == Some(ps)
      && Get(ps, "start_date") == TextRead(startDate)
      && Get(ps, "end_date") == TextRead(endDate)
  {
    var p1 := AppendText([], "start_date", startDate);
    ParseSerialize(AppendText(p1, "end_date", endDate));
    GetAppendText([], "start_date", startDate, "start_date");
    GetAppendText(p1, "end_date", endDate, "start_date");
    GetAppendText([], "start_date", startDate, "end_date");
    GetAppendText(p1, "end_date", endDate, "end_date");
  }

  /** With no truthy filter (or no `params` at all) the URL is the bare
      endpoint, without a `?`. */
  lemma UnfilteredUrls(base: string, accountId: int, limit: Option<Num>, offset: Option<Num>, startDate: Option<string>, endDate: Option<string>)
    requires NumberRead(limit).None? && NumberRead(offset).None?
    requires TextRead(startDate).None? && TextRead(endDate).None?
    ensures QuotaConsumptionUrl(base, limit, startDate, endDate) == base + "/api/plugin-api/quotas/consumption"
    ensures KiroConsumptionUrl(base, accountId, limit, offset, startDate, endDate) ==
      base + "/api/kiro/accounts/" + IntToString(accountId) + "/consumption"
    ensures KiroStatsUrl(base, startDate, endDate) == base + "/api/kiro/consumption/stats"
  {
  }

  /** With some truthy filter the URL is the endpoint, `?`, and the query
      read back above. */
  lemma FilteredUrl(base: string, limit: Option<Num>, startDate: Option<string>, endDate: Option<string>)
    requires NumberRead(limit).Some? || TextRead(startDate).Some? || TextRead(endDate).Some?
    ensures QuotaConsumptionUrl(base, limit, startDate, endDate) ==
      base + "/api/plugin-api/quotas/consumption" + "?" + Serialize(QuotaConsumptionParams(limit, startDate, endDate))
  {
  }
}
