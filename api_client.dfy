/** The API client's module state and `fetchWithAuth`, imperatively: the
    variables `isRefreshing` and `failedQueue` with the calls in flight, and
    one method per point where a call resumes. Each method does what the code
    does at that point and is proved to be the `Step` of the state machine. */
module ApiClient {
  import opened Common
  import opened CredentialStore
  import opened HttpResponse
  import opened RequestHeaders
  import opened RefreshTokenSource
  import opened RefreshCoordinator

  class Client {
    var isRefreshing: bool
    var failedQueue: seq<Waiter>
    var leader: Option<Leader>
    var pending: map<RequestId, Headers>
    var replaying: map<RequestId, Headers>
    const storage: LocalStorage
    const cookies: string

    /** The client's state as a session of the state machine. */
    function State(): Session
      reads this, storage
    {
      Session(isRefreshing, failedQueue, leader, pending, replaying, storage.items, cookies)
    }

    /** The state at page load: no refresh, nothing queued or in flight. */
    constructor (storage: LocalStorage, cookies: string)
      ensures this.storage == storage
      ensures State() == Session(false, [], None, map[], map[], storage.items, cookies)
      ensures Inv(State())
    {
      isRefreshing := false;
      failedQueue := [];
      leader := None;
      pending := map[];
      replaying := map[];
      this.storage := storage;
      this.cookies := cookies;
    }

    /** `processQueue`: hand every waiter, in order, the token or the error,
        then empty the queue. */
    method ProcessQueue(sig: Signal) returns (effects: seq<Effect>)
      modifies this
      ensures effects == Drain(old(failedQueue), sig)
      ensures State() == old(State()).(queue := [], replaying := Resumed(old(replaying), old(failedQueue), sig))
    {
      effects := [];
      var i := 0;
      while i < |failedQueue|
        invariant 0 <= i <= |failedQueue|
        invariant failedQueue == old(failedQueue) && isRefreshing == old(isRefreshing)
        invariant leader == old(leader) && pending == old(pending)
        invariant effects == Drain(failedQueue[..i], sig)
        invariant replaying == Resumed(old(replaying), failedQueue[..i], sig)
      {
        var w := failedQueue[i];
        assert failedQueue[..i + 1] == failedQueue[..i] + [w];
        DrainSnoc(failedQueue[..i], w, sig);
        ResumedSnoc(old(replaying), failedQueue[..i], w, sig);
        if sig.Token? && sig.token != [] {
          replaying := replaying[w.id := RetryHeaders(w.headers, sig.token)];
        }
        effects := effects + [Settlement(w, sig)];
        i := i + 1;
      }
      assert failedQueue[..i] == failedQueue;
      failedQueue := [];
    }

    /** `fetchWithAuth(url, {headers})` up to its first `await`: read the
        stored token, build the headers, send the request. */
    method FetchWithAuth(id: RequestId, caller: Headers) returns (effects: seq<Effect>)
      requires Enabled(State(), Call(id, caller))
      modifies this
      ensures (State(), effects) == Step(old(State()), Call(id, caller))
    {
      var token := GetItem(storage.items, AccessTokenKey);
      var headers := AuthHeaders(caller, token);
      pending := pending[id := headers];
      effects := [Fetch(id, headers)];
    }

    /** The first response: pass it on, queue behind a running refresh, or
        raise the flag and call `refreshToken()`. */
    method OnResponse(id: RequestId, reply: Reply) returns (effects: seq<Effect>)
      requires Enabled(State(), Respond(id, reply))
      modifies this
      ensures (State(), effects) == Step(old(State()), Respond(id, reply))
    {
      var headers := pending[id];
      pending := pending - {id};
      if reply.NetworkError? || !Unauthorized(reply.response.status) {
        effects := [Settle(id, ReplyOutcome(reply))];
      } else if isRefreshing {
        failedQueue := failedQueue + [Waiter(id, headers)];
        effects := [];
      } else {
        isRefreshing := true;
        var token := FindRefreshToken(storage, cookies);
        leader := Some(Leader(id, headers, AwaitingRefresh(token)));
        effects := [CallRefresh(token)];
      }
    }

    /** The `catch` and `finally` blocks. */
    method Fail(message: string) returns (effects: seq<Effect>)
      requires leader.Some?
      modifies this, storage
      ensures (State(), effects) == Abort(old(State()), message)
    {
      var l := leader.value;
      effects := ProcessQueue(Failure(message));
      ClearAuthCredentials(storage);
      effects := effects + [Settle(l.id, Fails(Message(SessionExpired)))];
      isRefreshing := false;
      leader := None;
    }

    /** `await refreshToken()` returns or throws: save, resume the queue and
        replay, or fail. */
    method OnRefreshSettled(answer: RefreshReply, now: int) returns (effects: seq<Effect>)
      requires Enabled(State(), RefreshSettled(answer, now))
      modifies this, storage
      ensures (State(), effects) == Step(old(State()), RefreshSettled(answer, now))
    {
      var l := leader.value;
      var result := RefreshResult(l.phase.refreshToken, answer);
      if result.Ok? {
        SaveAuthCredentials(storage, result.value, None, now);
        effects := ProcessQueue(Token(result.value.accessToken));
        effects := effects + [Fetch(l.id, RetryHeaders(l.headers, result.value.accessToken))];
        leader := Some(l.(phase := Replaying));
      } else {
        effects := Fail(result.message);
      }
    }

    /** The leader's replay settles: return `handleResponse`'s outcome and
        lower the flag, or fail when the fetch threw. */
    method OnLeaderReplied(reply: Reply) returns (effects: seq<Effect>)
      requires Enabled(State(), LeaderReplied(reply))
      modifies this, storage
      ensures (State(), effects) == Step(old(State()), LeaderReplied(reply))
    {
      if reply.Answer? {
        effects := [Settle(leader.value.id, HandleResponse(reply.response))];
        isRefreshing := false;
        leader := None;
      } else {
        effects := Fail(reply.message);
      }
    }

    /** A resumed waiter's replay settles its promise. */
    method OnWaiterReplied(id: RequestId, reply: Reply) returns (effects: seq<Effect>)
      requires Enabled(State(), WaiterReplied(id, reply))
      modifies this
      ensures (State(), effects) == Step(old(State()), WaiterReplied(id, reply))
    {
      replaying := replaying - {id};
      effects := [Settle(id, ReplyOutcome(reply))];
    }

    /** A refresh outside `fetchWithAuth` saves its tokens. */
    method SavedElsewhere(pair: TokenPair, now: int) returns (effects: seq<Effect>)
      modifies storage
      ensures (State(), effects) == Step(old(State()), Event.SavedElsewhere(pair, now))
    {
      SaveAuthCredentials(storage, pair, None, now);
      effects := [];
    }
  }
}
