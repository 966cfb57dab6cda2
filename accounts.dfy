/** The account list logic of the dashboard's accounts page: the entities it
    shows, the list updates its handlers apply after a successful API call
    (status toggle, delete, rename), the normalisation of the account list
    response, the Kiro balance record, and the model display name and icon
    of the quota dialog. */
module Accounts {
  import opened Common
  import opened Strings

  /** An Antigravity account (`Account`). */
  datatype Account = Account(
    cookieId: string,
    name: Option<string>,
    email: Option<string>,
    status: int,       // 0 disabled, 1 enabled
    isShared: int,     // 0 dedicated, 1 shared
    createdAt: string,
    updatedAt: string)

  /** A Kiro account (`KiroAccount`). */
  datatype KiroAccount = KiroAccount(
    accountId: int,
    userId: int,
    accountName: Option<string>,
    email: Option<string>,
    provider: string,
    isShared: int,
    status: int)

  /** One model quota of an account, as the quota dialog uses it. */
  datatype Quota = Quota(modelName: string, status: int, quota: string)

  // ---------------------------------------------------------------------------
  // Generic list updates: `list.map(x => matches(x) ? update(x) : x)` and
  // `list.filter(keep)`

  function Updated<T>(xs: seq<T>, matches: T -> bool, update: T -> T): (r: seq<T>)
    ensures |r| == |xs|
    ensures forall i :: 0 <= i < |xs| ==> r[i] == if matches(xs[i]) then update(xs[i]) else xs[i]
  {
    seq(|xs|, i requires 0 <= i < |xs| => if matches(xs[i]) then update(xs[i]) else xs[i])
  }

  function Filter<T>(xs: seq<T>, keep: T -> bool): (r: seq<T>)
    ensures |r| <= |xs|
    ensures forall x :: x in r ==> x in xs && keep(x)
    ensures forall x :: x in xs && keep(x) ==> x in r
  {
    if xs == [] then []
    else (if keep(xs[0]) then [xs[0]] else []) + Filter(xs[1..], keep)
  }

  /** Filtering keeps the relative order: the filter of a concatenation is
      the concatenation of the filters. */
  lemma {:induction false} FilterAppend<T>(a: seq<T>, b: seq<T>, keep: T -> bool)
    ensures Filter(a + b, keep) == Filter(a, keep) + Filter(b, keep)
  {
    if a == [] {
      assert a + b == b;
    } else {
      assert (a + b)[0] == a[0];
      assert (a + b)[1..] == a[1..] + b;
      FilterAppend(a[1..], b, keep);
    }
  }

  /** A list whose every element is kept comes back unchanged. */
  lemma {:induction false} FilterKeepsAll<T>(xs: seq<T>, keep: T -> bool)
    requires forall i :: 0 <= i < |xs| ==> keep(xs[i])
    ensures Filter(xs, keep) == xs
  {
    if xs != [] {
      FilterKeepsAll(xs[1..], keep);
    }
  }

  // ---------------------------------------------------------------------------
  // Status toggle

  /** `status === 1 ? 0 : 1`: always 0 or 1, the other one for a 0/1
      status, and 1 for any other status. */
  function NextStatus(status: int): (r: int)
    ensures r in {0, 1}
    ensures status in {0, 1} ==> r != status
    ensures status !in {0, 1} ==> r == 1
  {
    if status == 1 then 0 else 1
  }

  /** Setting a status changes the status of the entries with the given id
      and nothing else: same length, same order, every other field and every
      other entry as before. */
  function SetAccountStatus(accounts: seq<Account>, cookieId: string, status: int): (r: seq<Account>)
    ensures |r| == |accounts|
    ensures forall i :: 0 <= i < |r| && accounts[i].cookieId == cookieId ==> r[i] == accounts[i].(status := status)
    ensures forall i :: 0 <= i < |r| && accounts[i].cookieId != cookieId ==> r[i] == accounts[i]
  {
    Updated(accounts, (a: Account) => a.cookieId == cookieId, (a: Account) => a.(status := status))
  }

  function SetKiroStatus(accounts: seq<KiroAccount>, accountId: int, status: int): (r: seq<KiroAccount>)
    ensures |r| == |accounts|
    ensures forall i :: 0 <= i < |r| && accounts[i].accountId == accountId ==> r[i] == accounts[i].(status := status)
    ensures forall i :: 0 <= i < |r| && accounts[i].accountId != accountId ==> r[i] == accounts[i]
  {
    Updated(accounts, (a: KiroAccount) => a.accountId == accountId, (a: KiroAccount) => a.(status := status))
  }

  function SetQuotaStatus(quotas: seq<Quota>, modelName: string, status: int): (r: seq<Quota>)
    ensures |r| == |quotas|
    ensures forall i :: 0 <= i < |r| && quotas[i].modelName == modelName ==> r[i] == quotas[i].(status := status)
    ensures forall i :: 0 <= i < |r| && quotas[i].modelName != modelName ==> r[i] == quotas[i]
  {
    Updated(quotas, (q: Quota) => q.modelName == modelName, (q: Quota) => q.(status := status))
  }

  /** Clicking the toggle twice on an account whose entries share a 0/1
      status gives back the list as it was. */
  lemma ToggleTwice(accounts: seq<Account>, account: Account)
    requires account.status in {0, 1}
    requires forall i :: 0 <= i < |accounts| && accounts[i].cookieId == account.cookieId ==> accounts[i].status == account.status
    ensures var once := SetAccountStatus(accounts, account.cookieId, NextStatus(account.status));
      SetAccountStatus(once, account.cookieId, NextStatus(NextStatus(account.status))) == accounts
  {
    var once := SetAccountStatus(accounts, account.cookieId, NextStatus(account.status));
    var twice := SetAccountStatus(once, account.cookieId, NextStatus(NextStatus(account.status)));
    assert forall i :: 0 <= i < |accounts| ==> twice[i] == accounts[i];
  }

  /** The same holds for a Kiro account. */
  lemma ToggleKiroTwice(accounts: seq<KiroAccount>, account: KiroAccount)
    requires account.status in {0, 1}
    requires forall i :: 0 <= i < |accounts| && accounts[i].accountId == account.accountId ==> accounts[i].status == account.status
    ensures var once := SetKiroStatus(accounts, account.accountId, NextStatus(account.status));
      SetKiroStatus(once, account.accountId, NextStatus(NextStatus(account.status))) == accounts
  {
    var once := SetKiroStatus(accounts, account.accountId, NextStatus(account.status));
    var twice := SetKiroStatus(once, account.accountId, NextStatus(NextStatus(account.status)));
    assert forall i :: 0 <= i < |accounts| ==> twice[i] == accounts[i];
  }

  // ---------------------------------------------------------------------------
  // Delete

  /** Deleting removes every entry with the id and keeps every other one. */
  function DeleteAccount(accounts: seq<Account>, cookieId: string): (r: seq<Account>)
    ensures forall a :: a in r ==> a in accounts && a.cookieId != cookieId
    ensures forall a :: a in accounts && a.cookieId != cookieId ==> a in r
  {
    Filter(accounts, (a: Account) => a.cookieId != cookieId)
  }

  function DeleteKiro(accounts: seq<KiroAccount>, accountId: int): (r: seq<KiroAccount>)
    ensures forall a :: a in r ==> a in accounts && a.accountId != accountId
    ensures forall a :: a in accounts && a.accountId != accountId ==> a in r
  {
    Filter(accounts, (a: KiroAccount) => a.accountId != accountId)
  }

  /** Deleting keeps the other entries in their original order, and
      deleting again changes nothing. */
  lemma DeleteRemovesOnly(accounts: seq<Account>, more: seq<Account>, cookieId: string)
    ensures var r := DeleteAccount(accounts, cookieId);
      && DeleteAccount(accounts + more, cookieId) == r + DeleteAccount(more, cookieId)
      && DeleteAccount(r, cookieId) == r
  {
    var keep := (a: Account) => a.cookieId != cookieId;
    FilterAppend(accounts, more, keep);
    var r := DeleteAccount(accounts, cookieId);
    FilterKeepsAll(r, keep);
  }

  lemma DeleteKiroRemovesOnly(accounts: seq<KiroAccount>, more: seq<KiroAccount>, accountId: int)
    ensures var r := DeleteKiro(accounts, accountId);
      && DeleteKiro(accounts + more, accountId) == r + DeleteKiro(more, accountId)
      && DeleteKiro(r, accountId) == r
  {
    var keep := (a: KiroAccount) => a.accountId != accountId;
    FilterAppend(accounts, more, keep);
    var r := DeleteKiro(accounts, accountId);
    FilterKeepsAll(r, keep);
  }

  // ---------------------------------------------------------------------------
  // Rename

  /** The name a rename dialog submits: the trimmed input, or nothing (a
      warning and no API call) when the input is empty or only whitespace.
      An accepted name is not empty and has no whitespace at either end. */
  function NameToSend(input: string): (r: Option<string>)
    ensures r.None? <==> AllSpace(input)
    ensures r.Some? ==> r.value != [] && !IsJsSpace(r.value[0]) && !IsJsSpace(r.value[|r.value| - 1])
  {
    TrimEmptyIffAllSpace(input);
    var t := Trim(input);
    if t == [] then None else Some(t)
  }

  /** The dialog's initial text: `account.name || ''`. */
  function AccountNameDefault(account: Account): string {
    if account.name.Some? && account.name.value != [] then account.name.value else []
  }

  /** The Kiro dialog's initial text: `account.account_name || account.email || ''`. */
  function KiroNameDefault(account: KiroAccount): string {
    if account.accountName.Some? && account.accountName.value != [] then account.accountName.value
    else if account.email.Some? && account.email.value != [] then account.email.value
    else []
  }

  /** Renaming sets the name of the entries with the id and changes nothing
      else. */
  function RenameAccount(accounts: seq<Account>, cookieId: string, name: string): (r: seq<Account>)
    ensures |r| == |accounts|
    ensures forall i :: 0 <= i < |r| && accounts[i].cookieId == cookieId ==> r[i] == accounts[i].(name := Some(name))
    ensures forall i :: 0 <= i < |r| && accounts[i].cookieId != cookieId ==> r[i] == accounts[i]
  {
    Updated(accounts, (a: Account) => a.cookieId == cookieId, (a: Account) => a.(name := Some(name)))
  }

  function RenameKiro(accounts: seq<KiroAccount>, accountId: int, name: string): (r: seq<KiroAccount>)
    ensures |r| == |accounts|
    ensures forall i :: 0 <= i < |r| && accounts[i].accountId == accountId ==> r[i] == accounts[i].(accountName := Some(name))
    ensures forall i :: 0 <= i < |r| && accounts[i].accountId != accountId ==> r[i] == accounts[i]
  {
    Updated(accounts, (a: KiroAccount) => a.accountId == accountId, (a: KiroAccount) => a.(accountName := Some(name)))
  }

  // ---------------------------------------------------------------------------
  // Loading

  /** What `getAccounts()` resolved to, as far as the page distinguishes:
      an array, an object (whose `accounts` field is an array or falsy), or
      anything else. */
  datatype AccountsData = List(items: seq<Account>) | Object(accounts: Option<seq<Account>>) | Other

  /** The list the page keeps: the array itself, the object's `accounts`
      or [], or []. */
  function NormalizeAccounts(data: AccountsData): (r: seq<Account>)
    ensures data.List? ==> r == data.items
    ensures data.Object? && data.accounts.Some? ==> r == data.accounts.value
    ensures data.Other? || (data.Object? && data.accounts.None?) ==> r == []
  {
    match data
    case List(items) => items
    case Object(accounts) => accounts.GetOr([])
    case Other => []
  }

  /** What `getKiroAccountBalance` gave for one account: the balance's
      `available` amount (absent when missing or `null`), or a thrown error. */
  datatype BalanceReply = Balance(available: Option<real>) | LookupFailed

  /** `balanceData.balance.available || 0`, and 0 when the lookup threw. */
  function BalanceOf(reply: BalanceReply): (r: real)
    ensures reply.LookupFailed? ==> r == 0.0
    ensures reply.Balance? && reply.available.Some? ==> r == reply.available.value
    ensures reply.Balance? && reply.available.None? ==> r == 0.0
  {
    match reply
    case Balance(available) => available.GetOr(0.0)
    case LookupFailed => 0.0
  }

  /** The balance record after the lookups for `accounts` settled in order,
      `replies[i]` answering for `accounts[i]`: every Kiro account gets an
      entry and no other id does. */
  function BalanceMap(accounts: seq<KiroAccount>, replies: seq<BalanceReply>): (r: map<int, real>)
    requires |replies| == |accounts|
    ensures r.Keys == set a | a in accounts :: a.accountId
  {
    if accounts == [] then map[]
    else
      var earlier := BalanceMap(AllButLast(accounts), AllButLast(replies));
      assert accounts == AllButLast(accounts) + [Last(accounts)];
      earlier[Last(accounts).accountId := BalanceOf(Last(replies))]
  }

  /** An account whose id no later account shares gets the balance of its
      own lookup, 0 when the lookup failed or had no amount. */
  lemma {:induction false} BalanceValue(accounts: seq<KiroAccount>, replies: seq<BalanceReply>, i: nat)
    requires |replies| == |accounts| && i < |accounts|
    requires forall j :: i < j < |accounts| ==> accounts[j].accountId != accounts[i].accountId
    ensures accounts[i].accountId in BalanceMap(accounts, replies)
    ensures BalanceMap(accounts, replies)[accounts[i].accountId] == BalanceOf(replies[i])
  {
    var n := |accounts| - 1;
    if i < n {
      assert AllButLast(accounts)[i] == accounts[i] && AllButLast(replies)[i] == replies[i];
      BalanceValue(AllButLast(accounts), AllButLast(replies), i);
      assert accounts[n].accountId != accounts[i].accountId;
    }
  }

  // ---------------------------------------------------------------------------
  // Quota dialog labels

  /** The display names of the known model ids. */
  const ModelNames: map<string, string> := map[
    "gemini-2.5-pro" := "Gemini 2.5 Pro",
    "gemini-2.5-flash-lite" := "Gemini 2.5 Flash Lite",
    "claude-sonnet-4-5-thinking" := "Claude Sonnet 4.5 Thinking",
    "gemini-2.5-flash-image" := "Gemini 2.5 Flash Image",
    "gemini-2.5-flash-thinking" := "Gemini 2.5 Flash Thinking",
    "gemini-2.5-flash" := "Gemini 2.5 Flash",
    "gpt-oss-120b-medium" := "GPT OSS 120B Medium",
    "gemini-3-pro-image" := "Gemini 3 Pro Image",
    "gemini-3-pro-high" := "Gemini 3 Pro High",
    "gemini-3-pro-low" := "Gemini 3 Pro Low",
    "claude-sonnet-4-5" := "Claude Sonnet 4.5",
    "chat_20706" := "Chat 20706",
    "chat_23310" := "Chat 23310",
    "rev19-uic3-1p" := "Rev19 UIC3 1P"]

  /** `getModelDisplayName(model)`: `modelNames[model] || model`. A known id
      shows its display name, which always differs from the id; any other id
      shows itself. */
  function ModelDisplayName(model: string): (r: string)
    ensures model in ModelNames ==> r == ModelNames[model]
    ensures r != model <==> model in ModelNames
  {
    assert model in ModelNames ==> ModelNames[model] != [] && ModelNames[model][0] != model[0];
    if model in ModelNames && ModelNames[model] != [] then ModelNames[model] else model
  }

  datatype Icon = GeminiIcon | ClaudeIcon | OpenAIIcon | Logo

  /** `getModelIcon(modelName)`: the first of "gemini", "claude", "gpt"
      found in the lower-cased name. A name mentioning Gemini gets its icon
      whatever else it mentions, Claude wins over GPT, and the logo is shown
      only when none is mentioned. */
  function ModelIcon(modelName: string): (r: Icon)
    ensures var lower := ToLower(modelName);
      && (Contains(lower, "gemini") ==> r == GeminiIcon)
      && (r == ClaudeIcon <==> !Contains(lower, "gemini") && Contains(lower, "claude"))
      && (r == OpenAIIcon <==> !Contains(lower, "gemini") && !Contains(lower, "claude") && Contains(lower, "gpt"))
      && (r == Logo <==> !Contains(lower, "gemini") && !Contains(lower, "claude") && !Contains(lower, "gpt"))
  {
    var lower := ToLower(modelName);
    if Contains(lower, "gemini") then GeminiIcon
    else if Contains(lower, "claude") then ClaudeIcon
    else if Contains(lower, "gpt") then OpenAIIcon
    else Logo
  }

  /** The icon does not depend on letter case. */
  lemma IconIgnoresCase(modelName: string)
    ensures ModelIcon(ToUpper(modelName)) == ModelIcon(modelName)
  {
    LowerOfUpper(modelName);
  }
}
