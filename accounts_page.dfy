/** The accounts page component: its state variables and the handlers that
    call the API and then update them. Each API call's outcome is an input;
    the toast each handler shows is an output. */
module AccountsPage {
  import opened Common
  import opened Strings
  import opened Accounts

  datatype Variant = Success | Warning | Error

  /** A toast notification. */
  datatype Toast = Toast(variant: Variant, title: string, message: string)

  /** The API calls the handlers make. */
  datatype ApiCall =
    | UpdateAccountStatus(cookieId: string, status: int)
    | DeleteAccountCall(cookieId: string)
    | UpdateAccountName(cookieId: string, name: string)
    | UpdateKiroAccountStatus(accountId: int, status: int)
    | DeleteKiroAccountCall(accountId: int)
    | UpdateKiroAccountName(accountId: int, name: string)
    | UpdateQuotaStatus(cookieId: string, modelName: string, status: int)

  /** How an awaited call ends: its value, or a throw whose message is
      present when the thrown value is an `Error`. */
  datatype Reply<T> = Got(value: T) | Threw(error: Option<string>)

  /** `err instanceof Error ? err.message : fallback`. */
  function ErrorText<T>(r: Reply<T>, fallback: string): string
    requires r.Threw?
  {
    r.error.GetOr(fallback)
  }

  /** `账号已启用` or `账号已禁用`. */
  function StatusMessage(status: int): string {
    "账号已" + (if status == 1 then "启用" else "禁用")
  }

  /** The page's state variables. */
  datatype Page = Page(
    accounts: seq<Account>,
    kiroAccounts: seq<KiroAccount>,
    kiroBalances: map<int, real>,
    hasBeta: bool,
    isLoading: bool,
    isRefreshing: bool,
    currentAccount: Option<Account>,
    quotaDialogOpen: bool,
    quotas: Option<seq<Quota>>,
    isLoadingQuotas: bool,
    renamingAccount: Option<Account>,
    accountNameInput: string,
    accountRenameOpen: bool,
    renamingKiro: Option<KiroAccount>,
    kiroNameInput: string,
    kiroRenameOpen: bool)

  /** The state of the quota and rename dialogs is the same in both. */
  predicate SameDialogs(a: Page, b: Page) {
    && a.currentAccount == b.currentAccount && a.quotaDialogOpen == b.quotaDialogOpen
    && a.quotas == b.quotas && a.isLoadingQuotas == b.isLoadingQuotas
    && a.renamingAccount == b.renamingAccount && a.accountNameInput == b.accountNameInput
    && a.accountRenameOpen == b.accountRenameOpen && a.renamingKiro == b.renamingKiro
    && a.kiroNameInput == b.kiroNameInput && a.kiroRenameOpen == b.kiroRenameOpen
  }

  /** The balance loop of `loadAccounts`: one lookup per Kiro account, each
      writing its entry of the record. */
  method LoadBalances(kiro: seq<KiroAccount>, replies: seq<BalanceReply>) returns (balances: map<int, real>)
    requires |replies| == |kiro|
    ensures balances == BalanceMap(kiro, replies)
  {
    balances := map[];
    var i := 0;
    while i < |kiro|
      invariant 0 <= i <= |kiro|
      invariant balances == BalanceMap(kiro[..i], replies[..i])
    {
      assert AllButLast(kiro[..i + 1]) == kiro[..i] && AllButLast(replies[..i + 1]) == replies[..i];
      var amount := 0.0;
      if replies[i].Balance? && replies[i].available.Some? {
        amount := replies[i].available.value;
      }
      balances := balances[kiro[i].accountId := amount];
      i := i + 1;
    }
    assert kiro[..i] == kiro && replies[..i] == replies;
  }

  /** What `loadAccounts` leaves in the page: the account list, then (in a
      nested `try`) the user's beta flag, the Kiro accounts and their
      balances. A failure of the account list empties both lists; a later
      failure empties only the Kiro list; the loading flags drop either way,
      a toast shows only a failed account list, and the dialogs' state is
      not touched. */
  function Loaded(p: Page, data: Reply<AccountsData>, beta: Reply<int>, kiro: Reply<seq<KiroAccount>>, replies: seq<BalanceReply>)
    : (r: (Page, Option<Toast>))
    requires kiro.Got? ==> |replies| == |kiro.value|
    ensures !r.0.isLoading && !r.0.isRefreshing
    ensures r.1.Some? <==> data.Threw?
    ensures SameDialogs(r.0, p)
  {
    match data
    case Threw(_) =>
      (p.(accounts := [], kiroAccounts := [], isLoading := false, isRefreshing := false),
       Some(Toast(Error, "加载失败", ErrorText(data, "加载账号列表失败"))))
    case Got(d) =>
      (KiroLoaded(p.(accounts := NormalizeAccounts(d)), beta, kiro, replies).(isLoading := false, isRefreshing := false), None)
  }

  /** The nested `try` of `loadAccounts`: the beta flag, and with beta
      access the Kiro accounts and their balances. The account list and the
      loading flags stay; the flag follows an answered beta query, and the
      balances change only when the Kiro accounts were listed. */
  function KiroLoaded(p: Page, beta: Reply<int>, kiro: Reply<seq<KiroAccount>>, replies: seq<BalanceReply>): (r: Page)
    requires kiro.Got? ==> |replies| == |kiro.value|
    ensures r.accounts == p.accounts && r.isLoading == p.isLoading && r.isRefreshing == p.isRefreshing
    ensures SameDialogs(r, p)
    ensures beta.Got? ==> (r.hasBeta <==> beta.value == 1)
    ensures r.kiroBalances != p.kiroBalances ==> beta == Got(1) && kiro.Got?
  {
    match beta
    case Threw(_) => p.(kiroAccounts := [])
    case Got(b) =>
      if b != 1 then p.(hasBeta := false)
      else match kiro
        case Threw(_) => p.(hasBeta := true, kiroAccounts := [])
        case Got(k) => p.(hasBeta := true, kiroAccounts := k, kiroBalances := BalanceMap(k, replies))
  }

  /** A failed account list empties both lists and shows the error; the
      balance record and the beta flag stay as they were. */
  lemma LoadFailure(p: Page, data: Reply<AccountsData>, beta: Reply<int>, kiro: Reply<seq<KiroAccount>>, replies: seq<BalanceReply>)
    requires kiro.Got? ==> |replies| == |kiro.value|
    requires data.Threw?
    ensures var (q, toast) := Loaded(p, data, beta, kiro, replies);
      && q.accounts == [] && q.kiroAccounts == [] && !q.isLoading && !q.isRefreshing
      && q.kiroBalances == p.kiroBalances && q.hasBeta == p.hasBeta
      && toast == Some(Toast(Error, "加载失败", data.error.GetOr("加载账号列表失败")))
  {
  }

  /** A user without beta access keeps whatever Kiro accounts and balances
      the page held before; only the flag drops. */
  lemma NoBetaKeepsKiro(p: Page, data: Reply<AccountsData>, beta: Reply<int>, kiro: Reply<seq<KiroAccount>>, replies: seq<BalanceReply>)
    requires kiro.Got? ==> |replies| == |kiro.value|
    requires data.Got? && beta.Got? && beta.value != 1
    ensures var (q, toast) := Loaded(p, data, beta, kiro, replies);
      && q.accounts == NormalizeAccounts(data.value) && !q.hasBeta
      && q.kiroAccounts == p.kiroAccounts && q.kiroBalances == p.kiroBalances
      && toast.None?
  {
  }

  /** A full load lists the Kiro accounts and gives each a balance entry:
      the amount its lookup reported, 0 when the lookup failed or had none,
      when the account ids are distinct. */
  lemma LoadedBalances(p: Page, data: Reply<AccountsData>, kiro: seq<KiroAccount>, replies: seq<BalanceReply>)
    requires |replies| == |kiro| && data.Got?
    requires forall i, j :: 0 <= i < j < |kiro| ==> kiro[i].accountId != kiro[j].accountId
    ensures var (q, toast) := Loaded(p, data, Got(1), Got(kiro), replies);
      && q.hasBeta && q.kiroAccounts == kiro && toast.None?
      && q.kiroBalances.Keys == (set a | a in kiro :: a.accountId)
      && (forall i :: 0 <= i < |kiro| ==> q.kiroBalances[kiro[i].accountId] == BalanceOf(replies[i]))
  {
    forall i | 0 <= i < |kiro| ensures kiro[i].accountId in BalanceMap(kiro, replies) && BalanceMap(kiro, replies)[kiro[i].accountId] == BalanceOf(replies[i]) {
      BalanceValue(kiro, replies, i);
    }
  }

  class AccountsPageState {
    var accounts: seq<Account>
    var kiroAccounts: seq<KiroAccount>
    var kiroBalances: map<int, real>
    var hasBeta: bool
    var isLoading: bool
    var isRefreshing: bool
    var currentAccount: Option<Account>
    var quotaDialogOpen: bool
    var quotas: Option<seq<Quota>>
    var isLoadingQuotas: bool
    var renamingAccount: Option<Account>
    var accountNameInput: string
    var accountRenameOpen: bool
    var renamingKiro: Option<KiroAccount>
    var kiroNameInput: string
    var kiroRenameOpen: bool

    function State(): Page
      reads this
    {
      Page(accounts, kiroAccounts, kiroBalances, hasBeta, isLoading, isRefreshing,
           currentAccount, quotaDialogOpen, quotas, isLoadingQuotas,
           renamingAccount, accountNameInput, accountRenameOpen,
           renamingKiro, kiroNameInput, kiroRenameOpen)
    }

    /** The initial `useState` values. */
    constructor ()
      ensures State() == Page([], [], map[], false, true, false, None, false, None, false, None, [], false, None, [], false)
    {
      accounts := [];
      kiroAccounts := [];
      kiroBalances := map[];
      hasBeta := false;
      isLoading := true;
      isRefreshing := false;
      currentAccount := None;
      quotaDialogOpen := false;
      quotas := None;
      isLoadingQuotas := false;
      renamingAccount := None;
      accountNameInput := [];
      accountRenameOpen := false;
      renamingKiro := None;
      kiroNameInput := [];
      kiroRenameOpen := false;
    }

    /** `loadAccounts`. */
    method LoadAccounts(data: Reply<AccountsData>, beta: Reply<int>, kiro: Reply<seq<KiroAccount>>, replies: seq<BalanceReply>)
      returns (toast: Option<Toast>)
      requires kiro.Got? ==> |replies| == |kiro.value|
      modifies this
      ensures State() == Loaded(old(State()), data, beta, kiro, replies).0
      ensures toast == Loaded(old(State()), data, beta, kiro, replies).1
    {
      if data.Threw? {
        toast := Some(Toast(Error, "加载失败", ErrorText(data, "加载账号列表失败")));
        LoadFailed();
      } else {
        toast := None;
        LoadSucceeded(data.value, beta, kiro, replies);
      }
    }

    /** The `catch` of `loadAccounts` and its `finally`. */
    method LoadFailed()
      modifies this
      ensures State() == old(State()).(accounts := [], kiroAccounts := [], isLoading := false, isRefreshing := false)
    {
      accounts := [];
      kiroAccounts := [];
      isLoading := false;
      isRefreshing := false;
    }

    /** The body of `loadAccounts` after the account list arrived, and its
        `finally`. */
    method LoadSucceeded(d: AccountsData, beta: Reply<int>, kiro: Reply<seq<KiroAccount>>, replies: seq<BalanceReply>)
      requires kiro.Got? ==> |replies| == |kiro.value|
      modifies this
      ensures State() == KiroLoaded(old(State()).(accounts := NormalizeAccounts(d)), beta, kiro, replies)
        .(isLoading := false, isRefreshing := false)
    {
      accounts := NormalizeAccounts(d);
      LoadKiro(beta, kiro, replies);
      ghost var loaded := State();
      isLoading := false;
      isRefreshing := false;
      assert State() == loaded.(isLoading := false, isRefreshing := false);
    }

    /** The nested `try` of `loadAccounts`. */
    method LoadKiro(beta: Reply<int>, kiro: Reply<seq<KiroAccount>>, replies: seq<BalanceReply>)
      requires kiro.Got? ==> |replies| == |kiro.value|
      modifies this
      ensures State() == KiroLoaded(old(State()), beta, kiro, replies)
    {
      if beta.Threw? {
        kiroAccounts := [];
      } else {
        hasBeta := beta.value == 1;
        if beta.value == 1 {
          if kiro.Threw? {
            kiroAccounts := [];
          } else {
            kiroAccounts := kiro.value;
            var balances := LoadBalances(kiro.value, replies);
            kiroBalances := balances;
          }
        }
      }
    }

    /** `handleToggleStatus(account)`: send the flipped status; on success
        update the matching entries. */
    method ToggleStatus(account: Account, outcome: Reply<()>) returns (call: ApiCall, toast: Toast)
      modifies this
      ensures call == UpdateAccountStatus(account.cookieId, NextStatus(account.status))
      ensures outcome.Got? ==>
        && State() == old(State()).(accounts := SetAccountStatus(old(accounts), account.cookieId, NextStatus(account.status)))
        && toast == Toast(Success, "状态已更新", StatusMessage(NextStatus(account.status)))
      ensures outcome.Threw? ==>
        State() == old(State()) && toast == Toast(Error, "更新失败", ErrorText(outcome, "更新状态失败"))
    {
      var newStatus := NextStatus(account.status);
      call := UpdateAccountStatus(account.cookieId, newStatus);
      if outcome.Got? {
        accounts := SetAccountStatus(accounts, account.cookieId, newStatus);
        toast := Toast(Success, "状态已更新", StatusMessage(newStatus));
      } else {
        toast := Toast(Error, "更新失败", ErrorText(outcome, "更新状态失败"));
      }
    }

    /** `handleToggleKiroStatus(account)`. */
    method ToggleKiroStatus(account: KiroAccount, outcome: Reply<()>) returns (call: ApiCall, toast: Toast)
      modifies this
      ensures call == UpdateKiroAccountStatus(account.accountId, NextStatus(account.status))
      ensures outcome.Got? ==>
        && State() == old(State()).(kiroAccounts := SetKiroStatus(old(kiroAccounts), account.accountId, NextStatus(account.status)))
        && toast == Toast(Success, "状态已更新", StatusMessage(NextStatus(account.status)))
      ensures outcome.Threw? ==>
        State() == old(State()) && toast == Toast(Error, "更新失败", ErrorText(outcome, "更新状态失败"))
    {
      var newStatus := NextStatus(account.status);
      call := UpdateKiroAccountStatus(account.accountId, newStatus);
      if outcome.Got? {
        kiroAccounts := SetKiroStatus(kiroAccounts, account.accountId, newStatus);
        toast := Toast(Success, "状态已更新", StatusMessage(newStatus));
      } else {
        toast := Toast(Error, "更新失败", ErrorText(outcome, "更新状态失败"));
      }
    }

    /** `handleDelete(cookieId)`: nothing unless the user confirms; on
        success drop the entries with the id. */
    method Delete(cookieId: string, confirmed: bool, outcome: Reply<()>) returns (call: Option<ApiCall>, toast: Option<Toast>)
      modifies this
      ensures !confirmed ==> State() == old(State()) && call.None? && toast.None?
      ensures confirmed ==> call == Some(DeleteAccountCall(cookieId))
      ensures confirmed && outcome.Got? ==>
        && State() == old(State()).(accounts := DeleteAccount(old(accounts), cookieId))
        && toast == Some(Toast(Success, "删除成功", "账号已删除"))
      ensures confirmed && outcome.Threw? ==>
        State() == old(State()) && toast == Some(Toast(Error, "删除失败", ErrorText(outcome, "删除失败")))
    {
      call := None;
      toast := None;
      if !confirmed {
        return;
      }
      call := Some(DeleteAccountCall(cookieId));
      if outcome.Got? {
        accounts := DeleteAccount(accounts, cookieId);
        toast := Some(Toast(Success, "删除成功", "账号已删除"));
      } else {
        toast := Some(Toast(Error, "删除失败", ErrorText(outcome, "删除失败")));
      }
    }

    /** `handleDeleteKiro(accountId)`. */
    method DeleteKiroAccount(accountId: int, confirmed: bool, outcome: Reply<()>) returns (call: Option<ApiCall>, toast: Option<Toast>)
      modifies this
      ensures !confirmed ==> State() == old(State()) && call.None? && toast.None?
      ensures confirmed ==> call == Some(DeleteKiroAccountCall(accountId))
      ensures confirmed && outcome.Got? ==>
        && State() == old(State()).(kiroAccounts := DeleteKiro(old(kiroAccounts), accountId))
        && toast == Some(Toast(Success, "删除成功", "Kiro账号已删除"))
      ensures confirmed && outcome.Threw? ==>
        State() == old(State()) && toast == Some(Toast(Error, "删除失败", ErrorText(outcome, "删除失败")))
    {
      call := None;
      toast := None;
      if !confirmed {
        return;
      }
      call := Some(DeleteKiroAccountCall(accountId));
      if outcome.Got? {
        kiroAccounts := DeleteKiro(kiroAccounts, accountId);
        toast := Some(Toast(Success, "删除成功", "Kiro账号已删除"));
      } else {
        toast := Some(Toast(Error, "删除失败", ErrorText(outcome, "删除失败")));
      }
    }

    /** `handleRenameAntigravity(account)`: open the dialog on its name. */
    method OpenRename(account: Account)
      modifies this
      ensures State() == old(State()).(renamingAccount := Some(account),
                                       accountNameInput := AccountNameDefault(account), accountRenameOpen := true)
    {
      renamingAccount := Some(account);
      accountNameInput := AccountNameDefault(account);
      accountRenameOpen := true;
    }

    /** `handleRenameKiro(account)`: open the dialog on its name or e-mail. */
    method OpenKiroRename(account: KiroAccount)
      modifies this
      ensures State() == old(State()).(renamingKiro := Some(account),
                                       kiroNameInput := KiroNameDefault(account), kiroRenameOpen := true)
    {
      renamingKiro := Some(account);
      kiroNameInput := KiroNameDefault(account);
      kiroRenameOpen := true;
    }

    /** The dialog's text field changes. */
    method TypeName(input: string)
      modifies this
      ensures State() == old(State()).(accountNameInput := input)
    {
      accountNameInput := input;
    }

    method TypeKiroName(input: string)
      modifies this
      ensures State() == old(State()).(kiroNameInput := input)
    {
      kiroNameInput := input;
    }

    /** `handleSubmitAntigravityRename`: refuse an all-whitespace name with
        a warning and no call; otherwise send the trimmed name and, on
        success, store it on the matching entries and close the dialog. */
    method SubmitRename(outcome: Reply<()>) returns (call: Option<ApiCall>, toast: Option<Toast>)
      modifies this
      ensures old(renamingAccount).None? ==> State() == old(State()) && call.None? && toast.None?
      ensures old(renamingAccount).Some? && NameToSend(old(accountNameInput)).None? ==>
        State() == old(State()) && call.None? && toast == Some(Toast(Warning, "输入错误", "账号名称不能为空"))
      ensures old(renamingAccount).Some? && NameToSend(old(accountNameInput)).Some? ==>
        var id := old(renamingAccount).value.cookieId;
        var name := NameToSend(old(accountNameInput)).value;
        && call == Some(UpdateAccountName(id, name))
        && (outcome.Got? ==>
              && State() == old(State()).(accounts := RenameAccount(old(accounts), id, name), accountRenameOpen := false)
              && toast == Some(Toast(Success, "重命名成功", "账号名称已更新")))
        && (outcome.Threw? ==>
              State() == old(State()) && toast == Some(Toast(Error, "重命名失败", ErrorText(outcome, "更新账号名称失败"))))
    {
      call := None;
      toast := None;
      if renamingAccount.None? {
        return;
      }
      var name := NameToSend(accountNameInput);
      if name.None? {
        toast := Some(Toast(Warning, "输入错误", "账号名称不能为空"));
        return;
      }
      call := Some(UpdateAccountName(renamingAccount.value.cookieId, name.value));
      if outcome.Got? {
        accounts := RenameAccount(accounts, renamingAccount.value.cookieId, name.value);
        accountRenameOpen := false;
        toast := Some(Toast(Success, "重命名成功", "账号名称已更新"));
      } else {
        toast := Some(Toast(Error, "重命名失败", ErrorText(outcome, "更新账号名称失败")));
      }
    }

    /** `handleSubmitRename` for a Kiro account. */
    method SubmitKiroRename(outcome: Reply<()>) returns (call: Option<ApiCall>, toast: Option<Toast>)
      modifies this
      ensures old(renamingKiro).None? ==> State() == old(State()) && call.None? && toast.None?
      ensures old(renamingKiro).Some? && NameToSend(old(kiroNameInput)).None? ==>
        State() == old(State()) && call.None? && toast == Some(Toast(Warning, "输入错误", "账号名称不能为空"))
      ensures old(renamingKiro).Some? && NameToSend(old(kiroNameInput)).Some? ==>
        var id := old(renamingKiro).value.accountId;
        var name := NameToSend(old(kiroNameInput)).value;
        && call == Some(UpdateKiroAccountName(id, name))
        && (outcome.Got? ==>
              && State() == old(State()).(kiroAccounts := RenameKiro(old(kiroAccounts), id, name), kiroRenameOpen := false)
              && toast == Some(Toast(Success, "重命名成功", "账号名称已更新")))
        && (outcome.Threw? ==>
              State() == old(State()) && toast == Some(Toast(Error, "重命名失败", ErrorText(outcome, "更新账号名称失败"))))
    {
      call := None;
      toast := None;
      if renamingKiro.None? {
        return;
      }
      var name := NameToSend(kiroNameInput);
      if name.None? {
        toast := Some(Toast(Warning, "输入错误", "账号名称不能为空"));
        return;
      }
      call := Some(UpdateKiroAccountName(renamingKiro.value.accountId, name.value));
      if outcome.Got? {
        kiroAccounts := RenameKiro(kiroAccounts, renamingKiro.value.accountId, name.value);
        kiroRenameOpen := false;
        toast := Some(Toast(Success, "重命名成功", "账号名称已更新"));
      } else {
        toast := Some(Toast(Error, "重命名失败", ErrorText(outcome, "更新账号名称失败")));
      }
    }

    /** `handleViewQuotas(account)`: open the dialog and load the quotas. */
    method ViewQuotas(account: Account, reply: Reply<seq<Quota>>) returns (toast: Option<Toast>)
      modifies this
      ensures reply.Got? ==>
        State() == old(State()).(currentAccount := Some(account), quotaDialogOpen := true,
                                 quotas := Some(reply.value), isLoadingQuotas := false) && toast.None?
      ensures reply.Threw? ==>
        && State() == old(State()).(currentAccount := Some(account), quotaDialogOpen := true,
                                    quotas := None, isLoadingQuotas := false)
        && toast == Some(Toast(Error, "加载失败", ErrorText(reply, "加载配额信息失败")))
    {
      currentAccount := Some(account);
      quotaDialogOpen := true;
      quotas := None;
      toast := None;
      if reply.Got? {
        quotas := Some(reply.value);
      } else {
        toast := Some(Toast(Error, "加载失败", ErrorText(reply, "加载配额信息失败")));
      }
      isLoadingQuotas := false;
    }

    /** `handleToggleQuotaStatus(modelName, currentStatus)`: nothing without
        a current account; otherwise send the flipped status and, on
        success, update the quotas of that model. */
    method ToggleQuotaStatus(modelName: string, currentStatus: int, outcome: Reply<()>)
      returns (call: Option<ApiCall>, toast: Option<Toast>)
      modifies this
      ensures old(currentAccount).None? ==> State() == old(State()) && call.None? && toast.None?
      ensures old(currentAccount).Some? ==>
        && call == Some(UpdateQuotaStatus(old(currentAccount).value.cookieId, modelName, NextStatus(currentStatus)))
        && (outcome.Got? ==>
              && State() == old(State()).(quotas :=
                   if old(quotas).Some? then Some(SetQuotaStatus(old(quotas).value, modelName, NextStatus(currentStatus))) else None)
              && toast == Some(Toast(Success, "状态已更新",
                   "模型 " + ModelDisplayName(modelName) + " 已" + (if NextStatus(currentStatus) == 1 then "启用" else "禁用"))))
        && (outcome.Threw? ==>
              State() == old(State()) && toast == Some(Toast(Error, "更新失败", ErrorText(outcome, "更新模型状态失败"))))
    {
      call := None;
      toast := None;
      if currentAccount.None? {
        return;
      }
      var newStatus := NextStatus(currentStatus);
      call := Some(UpdateQuotaStatus(currentAccount.value.cookieId, modelName, newStatus));
      if outcome.Got? {
        if quotas.Some? {
          quotas := Some(SetQuotaStatus(quotas.value, modelName, newStatus));
        }
        toast := Some(Toast(Success, "状态已更新",
          "模型 " + ModelDisplayName(modelName) + " 已" + (if newStatus == 1 then "启用" else "禁用")));
      } else {
        toast := Some(Toast(Error, "更新失败", ErrorText(outcome, "更新模型状态失败")));
      }
    }
  }
}
