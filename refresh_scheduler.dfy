/** `setupTokenRefresh`: the proactive refresh. `scheduleRefresh` reads the
    stored expiry and either arms a timer that fires five minutes before it,
    refreshes at once when less than five minutes are left, or does nothing.
    A successful refresh saves the tokens and schedules again; a failed one
    calls `onRefreshFailed` and stops. The returned cleanup clears the last
    timer armed. Timers are ids handed out in order; the refresh result is an
    input. */
module RefreshScheduler {
  import opened Common
  import opened Decimal
  import opened CredentialStore

  /** Five minutes in milliseconds. */
  const Lead := 5 * 60 * 1000

  /** What `scheduleRefresh` does. */
  datatype Decision = Idle | Timer(delay: int) | RefreshNow

  /** The decision for the stored expiry `expiresAt` at time `now`. */
  function Schedule(expiresAt: Option<Num>, now: int): (d: Decision)
    ensures expiresAt.None? || !Truthy(expiresAt.value) ==> d == Idle
  {
    if expiresAt.None? || !Truthy(expiresAt.value) then Idle
    else
      var expiresIn := expiresAt.value.n - now;
      var refreshIn := expiresIn - Lead;
      if refreshIn > 0 then Timer(refreshIn)
      else if expiresIn > 0 then RefreshNow
      else Idle
  }

  /** The timers and refreshes `setupTokenRefresh` has going. */
  datatype Timers = Timers(
    timeoutId: Option<nat>,   // the last timer armed
    armed: map<nat, int>,     // timers not yet fired or cleared, with their delays
    nextId: nat,              // the id the next `setTimeout` returns
    inFlight: nat,            // `refreshToken()` calls not yet settled
    failedCalls: nat)         // how often `onRefreshFailed` was called

  /** Carrying out a decision. */
  function Arm(t: Timers, d: Decision): Timers {
    match d
    case Idle => t
    case Timer(delay) => t.(timeoutId := Some(t.nextId), armed := t.armed[t.nextId := delay], nextId := t.nextId + 1)
    case RefreshNow => t.(inFlight := t.inFlight + 1)
  }

  /** A timer fires and its callback calls `refreshToken()`. */
  function Fire(t: Timers, id: nat): Timers
    requires id in t.armed
  {
    t.(armed := t.armed - {id}, inFlight := t.inFlight + 1)
  }

  /** A refresh settles: on success save and schedule again at `now`; on
      failure notify and stop. */
  function Finish(t: Timers, items: Items, result: Result<TokenPair>, now: int): (Timers, Items)
    requires t.inFlight > 0
  {
    var t1 := t.(inFlight := t.inFlight - 1);
    match result
    case Ok(pair) =>
      var saved := SavedItems(items, pair, None, now);
      (Arm(t1, Schedule(GetTokenExpiresAt(saved), now)), saved)
    case Err(_) => (t1.(failedCalls := t1.failedCalls + 1), items)
  }

  /** The cleanup function: clear the last timer armed. */
  function Cancel(t: Timers): Timers {
    if t.timeoutId.Some? then t.(armed := t.armed - {t.timeoutId.value}) else t
  }

  // ---------------------------------------------------------------------------
  // The decision

  /** A timer fires exactly `Lead` before expiry, and is armed only when more
      than `Lead` is left; a refresh starts at once only when the token is
      still valid but within `Lead` of expiry. */
  lemma DecisionCases(expiresAt: int, now: int)
    requires expiresAt != 0
    ensures Schedule(Some(Finite(expiresAt)), now).Timer? <==> expiresAt - now > Lead
    ensures Schedule(Some(Finite(expiresAt)), now).Timer? ==>
      now + Schedule(Some(Finite(expiresAt)), now).delay + Lead == expiresAt
    ensures Schedule(Some(Finite(expiresAt)), now) == RefreshNow <==> 0 < expiresAt - now <= Lead
  {
  }

  /** An expiry already reached is never refreshed: nothing is scheduled. */
  lemma ExpiredIgnored(expiresAt: Option<Num>, now: int)
    requires expiresAt.Some? && expiresAt.value.Finite? && expiresAt.value.n <= now
    ensures Schedule(expiresAt, now) == Idle
  {
  }

  /** The decision agrees with `isTokenExpiringSoon` at the five-minute
      threshold: an immediate refresh only for a token that is expiring soon,
      a timer only for one that is not. */
  lemma DecisionMatchesExpiringSoon(items: Items, now: int)
    ensures Schedule(GetTokenExpiresAt(items), now) == RefreshNow ==> IsTokenExpiringSoon(items, now, Lead)
    ensures Schedule(GetTokenExpiresAt(items), now).Timer? ==> !IsTokenExpiringSoon(items, now, Lead)
    ensures !IsTokenExpiringSoon(items, now, Lead) ==> Schedule(GetTokenExpiresAt(items), now).Timer?
  {
  }

  /** After a refresh saved `pair` at `now`, the next decision depends only on
      the token's lifetime: a timer `expiresIn * 1000 - Lead` ahead for a
      lifetime over five minutes, another immediate refresh for a positive
      lifetime up to five minutes, nothing otherwise. */
  lemma RescheduleAfterRefresh(items: Items, pair: TokenPair, now: int)
    requires now >= 0
    ensures Schedule(GetTokenExpiresAt(SavedItems(items, pair, None, now)), now) ==
      if pair.expiresIn * 1000 > Lead then Timer(pair.expiresIn * 1000 - Lead)
      else if pair.expiresIn > 0 then RefreshNow
      else Idle
  {
    SavedReadBack(items, pair, None, now);
  }

  // ---------------------------------------------------------------------------
  // Timers over time

  /** A token that lives five minutes or less is refreshed again as soon as a
      refresh of it succeeds, without end: the number of refreshes in flight
      never drops and no timer is armed. */
  lemma ShortLivedTokensRefreshAgain(t: Timers, items: Items, pair: TokenPair, now: int)
    requires t.inFlight > 0 && now >= 0
    requires 0 < pair.expiresIn && pair.expiresIn * 1000 <= Lead
    ensures var next := Finish(t, items, Ok(pair), now).0;
      next.inFlight == t.inFlight && next.armed == t.armed && next.failedCalls == t.failedCalls
  {
    RescheduleAfterRefresh(items, pair, now);
  }

  /** A failed refresh calls `onRefreshFailed` once, arms nothing, and leaves
      the store alone. */
  lemma FailureStops(t: Timers, items: Items, message: string, now: int)
    requires t.inFlight > 0
    ensures var next := Finish(t, items, Err(message), now);
      && next.0.failedCalls == t.failedCalls + 1
      && next.0.armed == t.armed && next.0.inFlight == t.inFlight - 1
      && next.1 == items
  {
  }

  /** The cleanup clears the last timer armed and no other. */
  lemma CleanupClearsLastTimer(t: Timers)
    requires t.timeoutId.Some?
    ensures t.timeoutId.value !in Cancel(t).armed
    ensures forall id :: id in t.armed && id != t.timeoutId.value ==> id in Cancel(t).armed
  {
  }

  /** A refresh still in flight when the cleanup runs arms a new timer after
      it, which nothing clears any more. */
  lemma RefreshAfterCleanupRearms(t: Timers, items: Items, pair: TokenPair, now: int)
    requires t.inFlight > 0 && now >= 0
    requires pair.expiresIn * 1000 > Lead
    ensures var next := Finish(Cancel(t), items, Ok(pair), now).0;
      t.nextId in next.armed && next.timeoutId == Some(t.nextId)
  {
    RescheduleAfterRefresh(items, pair, now);
  }

  // ---------------------------------------------------------------------------
  // The closure's state, imperatively

  class Scheduler {
    var timeoutId: Option<nat>
    var armed: map<nat, int>
    var nextId: nat
    var inFlight: nat
    var failedCalls: nat
    const storage: LocalStorage

    function State(): Timers
      reads this
    {
      Timers(timeoutId, armed, nextId, inFlight, failedCalls)
    }

    /** `setupTokenRefresh`: `timeoutId = null`, then `scheduleRefresh()`. */
    constructor (storage: LocalStorage, firstId: nat, now: int)
      ensures this.storage == storage
      ensures State() == Arm(Timers(None, map[], firstId, 0, 0), Schedule(GetTokenExpiresAt(storage.items), now))
    {
      timeoutId := None;
      armed := map[];
      nextId := firstId;
      inFlight := 0;
      failedCalls := 0;
      this.storage := storage;
      new;
      ScheduleRefresh(now);
    }

    /** `scheduleRefresh()` at time `now`. */
    method ScheduleRefresh(now: int)
      modifies this
      ensures State() == Arm(old(State()), Schedule(GetTokenExpiresAt(storage.items), now))
    {
      var expiresAt := GetTokenExpiresAt(storage.items);
      if expiresAt.None? || !Truthy(expiresAt.value) {
        return;
      }
      var expiresIn := expiresAt.value.n - now;
      var refreshIn := expiresIn - Lead;
      if refreshIn > 0 {
        timeoutId := Some(nextId);
        armed := armed[nextId := refreshIn];
        nextId := nextId + 1;
      } else if expiresIn > 0 {
        inFlight := inFlight + 1;
      }
    }

    /** A timer fires: its callback calls `refreshToken()`. */
    method OnTimer(id: nat)
      requires id in armed
      modifies this
      ensures State() == Fire(old(State()), id)
    {
      armed := armed - {id};
      inFlight := inFlight + 1;
    }

    /** `await refreshToken()` settles in the timer callback or the immediate
        branch. */
    method OnRefreshSettled(result: Result<TokenPair>, now: int)
      requires inFlight > 0
      modifies this, storage
      ensures (State(), storage.items) == Finish(old(State()), old(storage.items), result, now)
    {
      ghost var t1 := State().(inFlight := inFlight - 1);
      inFlight := inFlight - 1;
      if result.Ok? {
        SaveAuthCredentials(storage, result.value, None, now);
        assert State() == t1;
        ScheduleRefresh(now);
      } else {
        failedCalls := failedCalls + 1;
      }
    }

    /** The cleanup function returned by `setupTokenRefresh`. */
    method Cleanup()
      modifies this
      ensures State() == Cancel(old(State()))
    {
      if timeoutId.Some? {
        armed := armed - {timeoutId.value};
      }
    }
  }
}
