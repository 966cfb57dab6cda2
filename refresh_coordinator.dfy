/** The single-flight token refresh of `fetchWithAuth`, as a sequential state
    machine. Every `fetchWithAuth` call is a request with an id; the module
    variables `isRefreshing` and `failedQueue` are shared by all of them. The
    request that first meets a 401/403 while no refresh runs becomes the
    leader: it calls `refreshToken`, saves the new credentials, settles the
    queued waiters through `processQueue`, and replays itself. The points
    where a request waits (`await fetch`, `await refreshToken()`) are the
    events; what the code starts or settles at each point are the effects. */
module RefreshCoordinator {
  import opened Common
  import opened CredentialStore
  import opened HttpResponse
  import opened RequestHeaders
  import opened RefreshTokenSource

  type RequestId = nat

  const SessionExpired := "Session expired, please login again"
  const RefreshFailed := "Token refresh failed"

  /** A request parked in `failedQueue` with the headers it was sent with. */
  datatype Waiter = Waiter(id: RequestId, headers: Headers)

  /** Where the leader is: waiting for `refreshToken` (which looked up this
      refresh token), or waiting for its own replay. */
  datatype Phase = AwaitingRefresh(refreshToken: Option<string>) | Replaying

  datatype Leader = Leader(id: RequestId, headers: Headers, phase: Phase)

  /** How a `fetch` settles: a response, or a thrown network error. */
  datatype Reply = Answer(response: Response) | NetworkError(message: string)

  datatype Session = Session(
    refreshing: bool,                    // `isRefreshing`
    queue: seq<Waiter>,                  // `failedQueue`
    leader: Option<Leader>,              // the call that owns the refresh
    pending: map<RequestId, Headers>,    // first fetch sent, not answered yet
    replaying: map<RequestId, Headers>,  // waiters resumed with a token, replay sent
    store: Items,                        // `localStorage`
    cookies: string)                     // `document.cookie`

  datatype Event =
    | Call(id: RequestId, headers: Headers)          // `fetchWithAuth(url, {headers})`
    | Respond(id: RequestId, reply: Reply)           // its first fetch settles
    | RefreshSettled(answer: RefreshReply, now: int) // `await refreshToken()` returns or throws
    | LeaderReplied(reply: Reply)                    // the leader's replay fetch settles
    | WaiterReplied(id: RequestId, reply: Reply)     // a resumed waiter's replay settles
    | SavedElsewhere(pair: TokenPair, now: int)      // a refresh that bypasses the flag saved tokens

  datatype Effect =
    | Fetch(id: RequestId, headers: Headers)         // a request goes out
    | CallRefresh(refreshToken: Option<string>)      // `refreshToken()` is called
    | Settle(id: RequestId, outcome: Outcome)        // the caller's promise settles

  /** What `processQueue` hands each waiter. */
  datatype Signal = Token(token: string) | Failure(message: string)

  predicate Unauthorized(status: int) {
    status == 401 || status == 403
  }

  /** The outcome of a fetch that goes through `handleResponse`. */
  function ReplyOutcome(reply: Reply): Outcome {
    match reply
    case Answer(response) => HandleResponse(response)
    case NetworkError(m) => Fails(Message(m))
  }

  /** What a waiter does when `processQueue` reaches it: replay with the new
      token when that token is not empty, otherwise reject. */
  function Settlement(w: Waiter, sig: Signal): Effect {
    match sig
    case Token(t) =>
      if t != [] then Fetch(w.id, RetryHeaders(w.headers, t)) else Settle(w.id, Fails(Message(RefreshFailed)))
    case Failure(m) => Settle(w.id, Fails(Message(m)))
  }

  /** `processQueue`: the waiters' effects, in queue order. */
  function Drain(queue: seq<Waiter>, sig: Signal): (effects: seq<Effect>)
    ensures |effects| == |queue|
    ensures forall i :: 0 <= i < |queue| ==> effects[i] == Settlement(queue[i], sig)
  {
    seq(|queue|, i requires 0 <= i < |queue| => Settlement(queue[i], sig))
  }

  predicate Resumes(sig: Signal) {
    sig.Token? && sig.token != []
  }

  /** The replays in flight after `processQueue` resumed the waiters. */
  function Resumed(replaying: map<RequestId, Headers>, queue: seq<Waiter>, sig: Signal): map<RequestId, Headers>
  {
    if !Resumes(sig) || queue == [] then replaying
    else
      var w := queue[|queue| - 1];
      Resumed(replaying, queue[..|queue| - 1], sig)[w.id := RetryHeaders(w.headers, sig.token)]
  }

  /** Draining one more waiter adds its effect at the end. */
  lemma DrainSnoc(queue: seq<Waiter>, w: Waiter, sig: Signal)
    ensures Drain(queue + [w], sig) == Drain(queue, sig) + [Settlement(w, sig)]
  {
    assert (queue + [w])[|queue|] == w;
  }

  /** Resuming one more waiter adds its replay. */
  lemma ResumedSnoc(replaying: map<RequestId, Headers>, queue: seq<Waiter>, w: Waiter, sig: Signal)
    ensures Resumed(replaying, queue + [w], sig) ==
      if Resumes(sig) then Resumed(replaying, queue, sig)[w.id := RetryHeaders(w.headers, sig.token)]
      else Resumed(replaying, queue, sig)
  {
    assert (queue + [w])[..|queue|] == queue;
  }

  function QueueIds(queue: seq<Waiter>): set<RequestId> {
    set i | 0 <= i < |queue| :: queue[i].id
  }

  function LeaderIds(leader: Option<Leader>): set<RequestId> {
    if leader.Some? then {leader.value.id} else {}
  }

  /** Every id the session is tracking. */
  function Ids(s: Session): set<RequestId> {
    s.pending.Keys + s.replaying.Keys + QueueIds(s.queue) + LeaderIds(s.leader)
  }

  /** The events that can happen next. */
  predicate Enabled(s: Session, e: Event) {
    match e
    case Call(id, _) => id !in Ids(s)
    case Respond(id, _) => id in s.pending
    case RefreshSettled(_, _) => s.leader.Some? && s.leader.value.phase.AwaitingRefresh?
    case LeaderReplied(_) => s.leader.Some? && s.leader.value.phase.Replaying?
    case WaiterReplied(id, _) => id in s.replaying
    case SavedElsewhere(_, _) => true
  }

  /** The `catch` block: reject every waiter with the error, remove the
      credentials, reject the leader with the session-expired message; the
      `finally` block resets the flag. */
  function Abort(s: Session, message: string): (r: (Session, seq<Effect>))
    requires s.leader.Some?
    ensures !r.0.refreshing && r.0.leader.None? && r.0.queue == [] && !IsAuthenticated(r.0.store)
    ensures |r.1| == |s.queue| + 1 && r.1[|s.queue|] == Settle(s.leader.value.id, Fails(Message(SessionExpired)))
    ensures forall i :: 0 <= i < |s.queue| ==> r.1[i] == Settle(s.queue[i].id, Fails(Message(message)))
  {
    (s.(refreshing := false, leader := None, queue := [], store := ClearedItems(s.store)),
     Drain(s.queue, Failure(message)) + [Settle(s.leader.value.id, Fails(Message(SessionExpired)))])
  }

  /** One event: the new session and the effects, in the order the code
      produces them. The cookies are never written; the store changes only
      when a refresh settles, a replay answers, or a refresh outside the
      gate saves; only a first answer can start a refresh or join the
      queue. */
  function Step(s: Session, e: Event): (r: (Session, seq<Effect>))
    requires Enabled(s, e)
    ensures r.0.cookies == s.cookies
    ensures r.0.store != s.store ==> e.RefreshSettled? || e.LeaderReplied? || e.SavedElsewhere?
    ensures |r.0.queue| > |s.queue| || (r.0.refreshing && !s.refreshing) ==> e.Respond?
  {
    match e
    case Call(id, caller) =>
      var h := AuthHeaders(caller, GetItem(s.store, AccessTokenKey));
      (s.(pending := s.pending[id := h]), [Fetch(id, h)])
    case Respond(id, reply) =>
      var h := s.pending[id];
      var s1 := s.(pending := s.pending - {id});
      if reply.NetworkError? || !Unauthorized(reply.response.status) then
        (s1, [Settle(id, ReplyOutcome(reply))])
      else if s.refreshing then
        (s1.(queue := s.queue + [Waiter(id, h)]), [])
      else
        var token := RefreshTokenLookup(s.store, s.cookies);
        (s1.(refreshing := true, leader := Some(Leader(id, h, AwaitingRefresh(token)))), [CallRefresh(token)])
    case RefreshSettled(reply, now) =>
      var l := s.leader.value;
      (match RefreshResult(l.phase.refreshToken, reply)
       case Ok(pair) =>
         var sig := Token(pair.accessToken);
         (s.(store := SavedItems(s.store, pair, None, now), queue := [],
             replaying := Resumed(s.replaying, s.queue, sig), leader := Some(l.(phase := Replaying))),
          Drain(s.queue, sig) + [Fetch(l.id, RetryHeaders(l.headers, pair.accessToken))])
       case Err(m) => Abort(s, m))
    case LeaderReplied(reply) =>
      (match reply
       case Answer(response) =>
         (s.(refreshing := false, leader := None), [Settle(s.leader.value.id, HandleResponse(response))])
       case NetworkError(m) => Abort(s, m))
    case WaiterReplied(id, reply) =>
      (s.(replaying := s.replaying - {id}), [Settle(id, ReplyOutcome(reply))])
    case SavedElsewhere(pair, now) =>
      (s.(store := SavedItems(s.store, pair, None, now)), [])
  }

  // ---------------------------------------------------------------------------
  // The invariant

  predicate DistinctIds(queue: seq<Waiter>) {
    forall i, j :: 0 <= i < j < |queue| ==> queue[i].id != queue[j].id
  }

  /** The flag is set exactly while a leader exists, and every request is in
      one place only. */
  predicate Inv(s: Session) {
    && (s.refreshing <==> s.leader.Some?)
    && DistinctIds(s.queue)
    && s.pending.Keys !! s.replaying.Keys
    && s.pending.Keys !! QueueIds(s.queue)
    && s.replaying.Keys !! QueueIds(s.queue)
    && s.pending.Keys !! LeaderIds(s.leader)
    && s.replaying.Keys !! LeaderIds(s.leader)
    && QueueIds(s.queue) !! LeaderIds(s.leader)
  }

  lemma QueueIdsAppend(queue: seq<Waiter>, w: Waiter)
    ensures QueueIds(queue + [w]) == QueueIds(queue) + {w.id}
  {
    var q := queue + [w];
    forall x | x in QueueIds(q) ensures x in QueueIds(queue) + {w.id} {
      var i :| 0 <= i < |q| && q[i].id == x;
      if i < |queue| { assert q[i] == queue[i]; }
    }
    forall x | x in QueueIds(queue) ensures x in QueueIds(q) {
      var i :| 0 <= i < |queue| && queue[i].id == x;
      assert q[i] == queue[i];
    }
    assert q[|queue|] == w;
  }

  lemma {:induction false} ResumedKeys(replaying: map<RequestId, Headers>, queue: seq<Waiter>, sig: Signal)
    ensures Resumed(replaying, queue, sig).Keys == if Resumes(sig) then replaying.Keys + QueueIds(queue) else replaying.Keys
    decreases |queue|
  {
    if Resumes(sig) && queue != [] {
      var front := queue[..|queue| - 1];
      var w := queue[|queue| - 1];
      ResumedKeys(replaying, front, sig);
      assert front + [w] == queue;
      QueueIdsAppend(front, w);
    } else if Resumes(sig) {
      assert QueueIds(queue) == {};
    }
  }

  /** A 401/403 that arrives during a refresh joins the queue. */
  lemma JoinInv(s: Session, id: RequestId, response: Response)
    requires Inv(s) && id in s.pending && Unauthorized(response.status) && s.refreshing
    ensures Inv(Step(s, Respond(id, Answer(response))).0)
  {
    var s' := Step(s, Respond(id, Answer(response))).0;
    QueueIdsAppend(s.queue, Waiter(id, s.pending[id]));
    forall i, j | 0 <= i < j < |s'.queue| ensures s'.queue[i].id != s'.queue[j].id {
      assert s'.queue[i] == s.queue[i];
      if j == |s.queue| {
        assert s.queue[i].id in QueueIds(s.queue);
      } else {
        assert s'.queue[j] == s.queue[j];
      }
    }
  }

  /** A successful refresh moves the whole queue into the replays. */
  lemma GrantedInv(s: Session, answer: RefreshReply, now: int)
    requires Inv(s) && Enabled(s, RefreshSettled(answer, now))
    requires RefreshResult(s.leader.value.phase.refreshToken, answer).Ok?
    ensures Inv(Step(s, RefreshSettled(answer, now)).0)
  {
    var pair := RefreshResult(s.leader.value.phase.refreshToken, answer).value;
    ResumedKeys(s.replaying, s.queue, Token(pair.accessToken));
  }

  /** Every event keeps the invariant. */
  lemma StepInv(s: Session, e: Event)
    requires Inv(s) && Enabled(s, e)
    ensures Inv(Step(s, e).0)
  {
    match e {
      case Respond(id, reply) =>
        if reply.Answer? && Unauthorized(reply.response.status) && s.refreshing {
          JoinInv(s, id, reply.response);
        }
      case RefreshSettled(answer, now) =>
        if RefreshResult(s.leader.value.phase.refreshToken, answer).Ok? {
          GrantedInv(s, answer, now);
        }
      case _ =>
    }
  }

  // ---------------------------------------------------------------------------
  // Runs of events

  /** The events in order: the final session and all effects, or `None` when
      some event cannot happen where it is placed. */
  function Run(s: Session, es: seq<Event>): Option<(Session, seq<Effect>)>
    decreases |es|
  {
    if es == [] then Some((s, []))
    else if !Enabled(s, es[0]) then None
    else
      var next := Step(s, es[0]);
      match Run(next.0, es[1..])
      case None => None
      case Some(r) => Some((r.0, next.1 + r.1))
  }

  /** Two events in a row. */
  lemma RunTwo(s: Session, e1: Event, e2: Event)
    requires Enabled(s, e1) && Enabled(Step(s, e1).0, e2)
    ensures var first := Step(s, e1);
      var second := Step(first.0, e2);
      Run(s, [e1, e2]) == Some((second.0, first.1 + second.1))
  {
    var first := Step(s, e1);
    assert [e1, e2][1..] == [e2];
    assert [e2][1..] == [];
    var second := Step(first.0, e2);
    assert Run(first.0, [e2]) == Some((second.0, second.1 + []));
    assert second.1 + [] == second.1;
  }

  lemma {:induction false} RunInv(s: Session, es: seq<Event>)
    requires Inv(s) && Run(s, es).Some?
    ensures Inv(Run(s, es).value.0)
    decreases |es|
  {
    if es != [] {
      StepInv(s, es[0]);
      RunInv(Step(s, es[0]).0, es[1..]);
    }
  }

  predicate NoRefresh(effects: seq<Effect>) {
    forall i :: 0 <= i < |effects| ==> !effects[i].CallRefresh?
  }

  /** The id an effect belongs to, if any. */
  function EffectIds(effect: Effect): set<RequestId> {
    match effect
    case Fetch(id, _) => {id}
    case CallRefresh(_) => {}
    case Settle(id, _) => {id}
  }

  /** None of the effects concerns these requests. */
  predicate Untouched(effects: seq<Effect>, ids: set<RequestId>) {
    forall i :: 0 <= i < |effects| ==> EffectIds(effects[i]) !! ids
  }

  // ---------------------------------------------------------------------------
  // The flag

  lemma DrainNoRefresh(queue: seq<Waiter>, sig: Signal, last: Effect)
    requires !last.CallRefresh?
    ensures NoRefresh(Drain(queue, sig) + [last])
  {
  }

  /** Settling the refresh calls no second one. */
  lemma SettledNoRefresh(s: Session, answer: RefreshReply, now: int)
    requires Enabled(s, RefreshSettled(answer, now))
    ensures NoRefresh(Step(s, RefreshSettled(answer, now)).1)
  {
    var l := s.leader.value;
    match RefreshResult(l.phase.refreshToken, answer) {
      case Ok(pair) =>
        DrainNoRefresh(s.queue, Token(pair.accessToken), Fetch(l.id, RetryHeaders(l.headers, pair.accessToken)));
      case Err(m) =>
        DrainNoRefresh(s.queue, Failure(m), Settle(l.id, Fails(Message(SessionExpired))));
    }
  }

  lemma ReplayNoRefresh(s: Session, reply: Reply)
    requires Enabled(s, LeaderReplied(reply))
    ensures NoRefresh(Step(s, LeaderReplied(reply)).1)
  {
    if reply.NetworkError? {
      DrainNoRefresh(s.queue, Failure(reply.message), Settle(s.leader.value.id, Fails(Message(SessionExpired))));
    }
  }

  /** `refreshToken()` is called only when no refresh runs, once per step,
      and the call raises the flag. */
  lemma RefreshOnlyWhenIdle(s: Session, e: Event)
    requires Enabled(s, e)
    ensures var next := Step(s, e);
      !NoRefresh(next.1) ==>
        next.1 == [CallRefresh(RefreshTokenLookup(s.store, s.cookies))] && !s.refreshing && next.0.refreshing
  {
    if e.RefreshSettled? {
      SettledNoRefresh(s, e.answer, e.now);
    } else if e.LeaderReplied? {
      ReplayNoRefresh(s, e.reply);
    }
  }

  /** The flag comes down only together with the leader's settlement, which
      is the step's last effect. */
  lemma FlagDropsWithLeader(s: Session, e: Event)
    requires Inv(s) && Enabled(s, e)
    ensures var next := Step(s, e);
      s.refreshing && !next.0.refreshing ==>
        |next.1| > 0 && next.1[|next.1| - 1] == Settle(s.leader.value.id, next.1[|next.1| - 1].outcome)
  {
  }

  /** A response that is not 401/403, or a fetch that throws, reaches the
      caller through `handleResponse` (or as the thrown error), and the
      refresh state is left as it was. */
  lemma PassThrough(s: Session, id: RequestId, reply: Reply)
    requires id in s.pending
    requires reply.NetworkError? || !Unauthorized(reply.response.status)
    ensures var next := Step(s, Respond(id, reply));
      && next.1 == [Settle(id, if reply.Answer? then HandleResponse(reply.response) else Fails(Message(reply.message)))]
      && next.0.refreshing == s.refreshing && next.0.queue == s.queue
      && next.0.leader == s.leader && next.0.store == s.store
  {
  }

  /** A replay answered 401/403 again is the caller's error: it settles with
      what `handleResponse` throws, and no second refresh starts. */
  lemma NoSecondRefresh(s: Session, e: Event)
    requires Enabled(s, e) && (e.LeaderReplied? || e.WaiterReplied?)
    requires e.reply.Answer? && Unauthorized(e.reply.response.status)
    ensures var next := Step(s, e);
      && NoRefresh(next.1) && |next.1| == 1
      && next.1[0].Settle? && next.1[0].outcome == HandleResponse(e.reply.response)
      && next.1[0].outcome.Fails?
  {
  }

  // ---------------------------------------------------------------------------
  // Settling the refresh

  /** A refresh that succeeds saves the new tokens and keeps the user; every
      waiter, in queue order, replays with the new token — or is rejected
      with "Token refresh failed" when that token is empty; the leader
      replays last; the flag stays up until the leader's replay answers. */
  lemma RefreshSucceeds(s: Session, answer: RefreshReply, now: int, pair: TokenPair)
    requires Enabled(s, RefreshSettled(answer, now))
    requires RefreshResult(s.leader.value.phase.refreshToken, answer) == Ok(pair)
    ensures var next := Step(s, RefreshSettled(answer, now));
      && GetItem(next.0.store, AccessTokenKey) == Some(pair.accessToken)
      && GetItem(next.0.store, RefreshTokenKey) == Some(pair.refreshToken)
      && GetStoredUser(next.0.store) == GetStoredUser(s.store)
      && next.0.refreshing == s.refreshing && next.0.queue == []
      && |next.1| == |s.queue| + 1
      && (forall i :: 0 <= i < |s.queue| ==>
            next.1[i] == (if pair.accessToken != [] then Fetch(s.queue[i].id, RetryHeaders(s.queue[i].headers, pair.accessToken))
                          else Settle(s.queue[i].id, Fails(Message(RefreshFailed)))))
      && next.1[|s.queue|] == Fetch(s.leader.value.id, RetryHeaders(s.leader.value.headers, pair.accessToken))
  {
    var l := s.leader.value;
    var saved := SavedItems(s.store, pair, None, now);
    var effects := Drain(s.queue, Token(pair.accessToken));
    assert Step(s, RefreshSettled(answer, now)).0.store == saved;
    assert Step(s, RefreshSettled(answer, now)).1 == effects + [Fetch(l.id, RetryHeaders(l.headers, pair.accessToken))];
    RefreshKeepsUser(s.store, pair, now);
  }

  /** When the refresh fails, or the leader's replay throws, every waiter is
      rejected with that error's message in queue order, the credentials are
      removed, the leader is rejected with "Session expired, please login
      again", and the flag comes down with the queue empty. */
  lemma RefreshFails(s: Session, e: Event, m: string)
    requires Inv(s) && Enabled(s, e)
    requires || (e.RefreshSettled? && RefreshResult(s.leader.value.phase.refreshToken, e.answer) == Err(m))
             || e == LeaderReplied(NetworkError(m))
    ensures var next := Step(s, e);
      && !next.0.refreshing && next.0.leader.None? && next.0.queue == []
      && !IsAuthenticated(next.0.store)
      && (forall k :: k in CredentialKeys ==> GetItem(next.0.store, k).None?)
      && |next.1| == |s.queue| + 1
      && (forall i :: 0 <= i < |s.queue| ==> next.1[i] == Settle(s.queue[i].id, Fails(Message(m))))
      && next.1[|s.queue|] == Settle(s.leader.value.id, Fails(Message(SessionExpired)))
  {
    ClearRemovesCredentials(s.store);
  }

  /** After a successful refresh, the next call reads the new token and sends
      it, whatever Authorization its caller passed. */
  lemma NextCallCarriesNewToken(s: Session, answer: RefreshReply, now: int, pair: TokenPair, id: RequestId, caller: Headers)
    requires Enabled(s, RefreshSettled(answer, now))
    requires RefreshResult(s.leader.value.phase.refreshToken, answer) == Ok(pair) && pair.accessToken != []
    requires Enabled(Step(s, RefreshSettled(answer, now)).0, Call(id, caller)) && Distinct(caller)
    ensures var next := Step(Step(s, RefreshSettled(answer, now)).0, Call(id, caller));
      && |next.1| == 1 && next.1[0].Fetch?
      && Get(next.1[0].headers, Authorization) == Some("Bearer " + pair.accessToken)
  {
    SavedReadBack(s.store, pair, None, now);
    StoredTokenWins(caller, Some(pair.accessToken));
  }

  /** A refresh outside the gate (the scheduler's or the stream's) saves its
      tokens without looking at the flag or the queue; when the gated refresh
      then succeeds, its tokens replace the others. */
  lemma BypassOverwritten(s: Session, p1: TokenPair, t1: int, answer: RefreshReply, now: int, p2: TokenPair)
    requires Enabled(s, RefreshSettled(answer, now))
    requires RefreshResult(s.leader.value.phase.refreshToken, answer) == Ok(p2)
    ensures var mid := Step(s, SavedElsewhere(p1, t1)).0;
      && mid.refreshing == s.refreshing && mid.queue == s.queue && mid.leader == s.leader
      && GetItem(mid.store, AccessTokenKey) == Some(p1.accessToken)
    ensures Run(s, [SavedElsewhere(p1, t1), RefreshSettled(answer, now)]).Some?
    ensures var store := Run(s, [SavedElsewhere(p1, t1), RefreshSettled(answer, now)]).value.0.store;
      && GetItem(store, AccessTokenKey) == Some(p2.accessToken)
      && GetItem(store, RefreshTokenKey) == Some(p2.refreshToken)
  {
    var mid := Step(s, SavedElsewhere(p1, t1)).0;
    SavedReadBack(s.store, p1, None, t1);
    SavedReadBack(mid.store, p2, None, now);
    RunTwo(s, SavedElsewhere(p1, t1), RefreshSettled(answer, now));
  }

  // ---------------------------------------------------------------------------
  // Bursts of 401s and the stranded waiter

  /** Answers 401/403 to distinct pending requests, one after another. */
  predicate Rejections(pending: map<RequestId, Headers>, es: seq<Event>) {
    && (forall i :: 0 <= i < |es| ==>
          es[i].Respond? && es[i].id in pending && es[i].reply.Answer? && Unauthorized(es[i].reply.response.status))
    && (forall i, j :: 0 <= i < j < |es| ==> es[i].id != es[j].id)
  }

  /** The waiters those requests become. */
  function Parked(pending: map<RequestId, Headers>, es: seq<Event>): (q: seq<Waiter>)
    requires Rejections(pending, es)
    ensures |q| == |es|
    ensures forall i :: 0 <= i < |es| ==> q[i] == Waiter(es[i].id, pending[es[i].id])
  {
    seq(|es|, i requires 0 <= i < |es| => Waiter(es[i].id, pending[es[i].id]))
  }

  /** After the first answer is taken out of `pending`, the rest are still
      pending and become the same waiters. */
  lemma RejectionsTail(pending: map<RequestId, Headers>, es: seq<Event>)
    requires Rejections(pending, es) && es != []
    ensures Rejections(pending - {es[0].id}, es[1..])
    ensures Parked(pending - {es[0].id}, es[1..]) == Parked(pending, es)[1..]
  {
    var rest := pending - {es[0].id};
    forall i | 0 <= i < |es[1..]| ensures es[1..][i].Respond? && es[1..][i].id in rest {
      assert es[1..][i] == es[i + 1];
    }
    forall i, j | 0 <= i < j < |es[1..]| ensures es[1..][i].id != es[1..][j].id {
      assert es[1..][i] == es[i + 1] && es[1..][j] == es[j + 1];
    }
  }

  /** Appending the first waiter and then the rest is appending them all. */
  lemma ParkedSplit(queue: seq<Waiter>, parked: seq<Waiter>)
    requires parked != []
    ensures queue + [parked[0]] + parked[1..] == queue + parked
  {
  }

  /** While a refresh runs, every 401/403 joins the queue in arrival order
      and nothing else happens: no refresh call, no request, no settlement. */
  lemma {:induction false} JoinAll(s: Session, es: seq<Event>)
    requires s.refreshing && Rejections(s.pending, es)
    ensures Run(s, es).Some?
    ensures var r := Run(s, es).value;
      && r.1 == [] && r.0.refreshing && r.0.leader == s.leader && r.0.store == s.store
      && r.0.queue == s.queue + Parked(s.pending, es)
    decreases |es|
  {
    if es != [] {
      var next := Step(s, es[0]);
      RejectionsTail(s.pending, es);
      JoinAll(next.0, es[1..]);
      ParkedSplit(s.queue, Parked(s.pending, es));
    }
  }

  /** Single flight: a burst of 401/403 answers while no refresh runs calls
      `refreshToken()` exactly once, for the first of them; all the others
      wait in the queue in arrival order. */
  lemma SingleFlight(s: Session, es: seq<Event>)
    requires !s.refreshing && es != [] && Rejections(s.pending, es)
    ensures Run(s, es).Some?
    ensures var r := Run(s, es).value;
      var token := RefreshTokenLookup(s.store, s.cookies);
      && r.1 == [CallRefresh(token)]
      && r.0.leader == Some(Leader(es[0].id, s.pending[es[0].id], AwaitingRefresh(token)))
      && r.0.queue == s.queue + Parked(s.pending, es)[1..]
  {
    var next := Step(s, es[0]);
    RejectionsTail(s.pending, es);
    JoinAll(next.0, es[1..]);
  }

  /** A 401/403 that arrives while the leader replays joins the queue; the
      leader's answer then lowers the flag without draining the queue, so the
      waiter is left queued with no refresh running. */
  lemma StrandedWaiter(s: Session, id: RequestId, r: Response, answer: Response)
    requires s.leader.Some? && s.leader.value.phase.Replaying? && s.refreshing
    requires id in s.pending && Unauthorized(r.status)
    ensures Run(s, [Respond(id, Answer(r)), LeaderReplied(Answer(answer))]) ==
      Some((s.(pending := s.pending - {id}, queue := s.queue + [Waiter(id, s.pending[id])], refreshing := false, leader := None),
            [Settle(s.leader.value.id, HandleResponse(answer))]))
  {
    var first := Step(s, Respond(id, Answer(r)));
    assert first == (s.(pending := s.pending - {id}, queue := s.queue + [Waiter(id, s.pending[id])]), []);
    RunTwo(s, Respond(id, Answer(r)), LeaderReplied(Answer(answer)));
    var second := Step(first.0, LeaderReplied(Answer(answer)));
    assert second.1 == [Settle(s.leader.value.id, HandleResponse(answer))];
    assert first.1 + second.1 == second.1;
  }

  lemma UntouchedAppend(f1: seq<Effect>, f2: seq<Effect>, ids: set<RequestId>, fewer: set<RequestId>)
    requires Untouched(f1, ids) && Untouched(f2, ids) && fewer <= ids
    ensures Untouched(f1 + f2, fewer)
  {
    forall i | 0 <= i < |f1 + f2| ensures EffectIds((f1 + f2)[i]) !! fewer {
      if i < |f1| { assert (f1 + f2)[i] == f1[i]; } else { assert (f1 + f2)[i] == f2[i - |f1|]; }
    }
  }

  lemma PrefixIds(q1: seq<Waiter>, q2: seq<Waiter>)
    requires q1 <= q2
    ensures QueueIds(q1) <= QueueIds(q2)
  {
    forall x | x in QueueIds(q1) ensures x in QueueIds(q2) {
      var i :| 0 <= i < |q1| && q1[i].id == x;
      assert q2[i] == q1[i];
    }
  }

  /** Events that cannot drain the queue. */
  predicate Waits(e: Event) {
    !e.RefreshSettled? && !(e.LeaderReplied? && e.reply.NetworkError?)
  }

  /** Until a refresh settles or the leader's replay throws, the queue only
      grows and no effect concerns a queued request. */
  lemma QueueWaits(s: Session, e: Event)
    requires Inv(s) && Enabled(s, e) && Waits(e)
    ensures var next := Step(s, e);
      s.queue <= next.0.queue && Untouched(next.1, QueueIds(s.queue))
  {
  }

  /** The same over a run: a stranded waiter stays queued and unsettled until
      a new refresh settles. */
  lemma {:induction false} QueueWaitsRun(s: Session, es: seq<Event>)
    requires Inv(s) && Run(s, es).Some?
    requires forall i :: 0 <= i < |es| ==> Waits(es[i])
    ensures s.queue <= Run(s, es).value.0.queue
    ensures Untouched(Run(s, es).value.1, QueueIds(s.queue))
    decreases |es|
  {
    if es != [] {
      var next := Step(s, es[0]);
      QueueWaits(s, es[0]);
      StepInv(s, es[0]);
      assert forall i :: 0 <= i < |es[1..]| ==> Waits(es[1..][i]) by {
        forall i | 0 <= i < |es[1..]| ensures Waits(es[1..][i]) { assert es[1..][i] == es[i + 1]; }
      }
      QueueWaitsRun(next.0, es[1..]);
      PrefixIds(s.queue, next.0.queue);
      UntouchedAppend(next.1, Run(next.0, es[1..]).value.1, QueueIds(next.0.queue), QueueIds(s.queue));
    }
  }
}
