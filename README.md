# AntiHub dashboard client: token lifecycle, login hand-off and account list

A Dafny model of the logic in the AntiHub web frontend that decides what
happens to credentials and lists, with proofs of what that logic promises.
It covers:

- the API client's credential store in `localStorage` (save, clear and the
  readers);
- the single-flight token refresh of `fetchWithAuth`. The module flag
  `isRefreshing` and the waiter queue `failedQueue` become a sequential
  state machine (`RefreshCoordinator`), and a class whose methods are proved
  to be its steps (`ApiClient.Client`);
- the flattening of backend errors in `handleResponse`;
- the two ways the refresh token is found: `getCookie` with
  `getStoredRefreshToken`, and the inline cookie scan in `refreshToken`;
- the proactive refresh of `setupTokenRefresh`;
- the server-sent-events framing of `sendChatCompletionStream`;
- `getAPIKeyInfo` and the query strings of the consumption endpoints;
- the OAuth callback route, which turns the provider's query and the
  backend's answer into a redirect with the tokens;
- the dashboard layout effect, which copies that redirect's query into
  `localStorage`;
- the accounts page: its list updates and handlers, `loadAccounts`, and the
  display name and icon of a model.

JavaScript's string operations are written out in the support modules
`Strings`, `Decimal`, `UriCodec` and `QueryString`:

- `split`, `join` and `trim`;
- `String(n)` and `parseInt`;
- `encodeURIComponent`, `decodeURIComponent` and form encoding, over UTF-8;
- `URLSearchParams`.

This lets the round trips between the route, the URL and the dashboard be
proved, rather than assumed.

Time (`Date.now()`) is a parameter `now`. Every network answer, the backend's
JSON and every thrown error is an input datatype. `localStorage` is the class
`CredentialStore.LocalStorage`, whose map is updated one key at a time.
`document.cookie` is a string.

The model follows the code where the code departs from what its own comments
and structure intend:

- The flag `isRefreshing` stays set while the leader's replay is in flight,
  and the queue was already drained before that replay. A 401/403 that
  arrives then is queued and stays queued with no refresh running
  (`RefreshCoordinator.StrandedWaiter`, `RefreshCoordinator.QueueWaitsRun`).
  So the queue is not always empty when no refresh runs.
- The route sets the `refresh_token` cookie `httpOnly`
  (`OAuthCallback.SuccessCookiesHidden`). Page scripts therefore never see it
  in `document.cookie`, where both `getCookie` and the scan in
  `refreshToken` look for it. The cookie fallbacks only ever find a cookie
  written by some other means.
- The comment of `getAPIKeyInfo` says it returns null when no key is active.
  The code returns the first key (`ApiQueries.KeyInfoChoice`).
- `getAuthHeaders` (lib/api.ts:108-114) is `RequestHeaders.AuthHeaders`
  with no caller headers.

## Model

| member | source | states |
|---|---|---|
| CredentialStore.LocalStorage.SetItem | lib/api.ts:122-124 | `setItem` replaces one key's value and leaves every other key |
| CredentialStore.LocalStorage.RemoveItem | lib/api.ts:138-141 | `removeItem` drops one key and leaves every other key |
| CredentialStore.SaveAuthCredentials | lib/api.ts:119-129 | writing key by key leaves exactly `SavedItems`: the three token keys, the user only when one is passed |
| CredentialStore.ClearAuthCredentials | lib/api.ts:134-142 | removing the keys one by one leaves the store minus the four credential keys |
| CredentialStore.GetItem | lib/api.ts:550 | `getItem` answers a value exactly for a stored key, and it is the stored value |
| CredentialStore.SavedItems | lib/api.ts:119-129 | after a save the three token keys read back the new values, the expiry as the decimal text of `now + expires_in*1000`; the user is the one passed or else the old one; no other key changes |
| CredentialStore.ClearedItems | lib/api.ts:134-142 | clearing keeps exactly the keys other than the four credential keys, each with its old value |
| CredentialStore.IsAuthenticated | lib/api.ts:475-478 | the client counts as logged in exactly when a non-empty access token is stored |
| CredentialStore.IsTokenExpiringSoon | lib/api.ts:557-561 | the token counts as not expiring exactly when a truthy expiry later than `now + threshold` is stored; a missing, 0 or NaN expiry always counts as expiring |
| CredentialStore.GetStoredUser | lib/api.ts:483-487 | a user is returned exactly when a non-empty user item is stored |
| CredentialStore.GetTokenExpiresAt | lib/api.ts:548-552 | an expiry is returned exactly when a non-empty expiry item is stored (`parseInt` of it, possibly NaN) |
| CredentialStore.SavedReadBack | lib/api.ts:119-129 | after a save, the access and refresh tokens read back, the expiry reads back as the number `now + expires_in*1000`, the user is the one passed or else the old one, and no other key changes |
| CredentialStore.RefreshKeepsUser | lib/api.ts:271 | a save without a user (the refresh path) keeps the stored user; the client counts as logged in exactly when the new access token is non-empty |
| CredentialStore.ExpiringSoonAfterSave | lib/api.ts:557-561 | after a save, `isTokenExpiringSoon` holds exactly when the new expiry is within the threshold or is the falsy instant 0 |
| CredentialStore.ClearRemovesCredentials | lib/api.ts:134-142 | clearing removes the four keys and nothing else, logs out, counts the token as expiring, and is idempotent |
| RequestHeaders.Assign | lib/api.ts:244-247 | `{...h, Authorization: v}` makes the key read `v` and leaves every other key's value |
| RequestHeaders.AssignDistinct | lib/api.ts:277-280 | assigning into a header record keeps every name once |
| RequestHeaders.SpreadGet | lib/api.ts:218-222 | after spreading a record, its keys read its values and every other key reads as before |
| RequestHeaders.SpreadDistinct | lib/api.ts:218-222 | spreading into a record keeps every name once |
| RequestHeaders.StoredTokenWins | lib/api.ts:216-222 | a non-empty stored token overrides the caller's Authorization; without one the caller's Authorization (or none) goes out |
| RequestHeaders.CallerHeadersKept | lib/api.ts:218-222 | every other header is the caller's, the content type defaults to JSON, and nothing else is added |
| RequestHeaders.AuthHeadersDistinct | lib/api.ts:218-222 | the request headers hold each name once |
| RequestHeaders.RetryCarriesNewToken | lib/api.ts:277-280 | the replay carries `Bearer <new token>` and otherwise exactly the original headers |
| HttpResponse.HandleResponse | lib/api.ts:89-103 | a 2xx response yields exactly the parsed body, or fails with a SyntaxError when the body is not JSON; any other status always fails |
| HttpResponse.StringDetail | lib/api.ts:95-96 | a string `detail` becomes the error message verbatim |
| HttpResponse.EntryMessages | lib/api.ts:97 | mapping validation entries to `msg` gives back each entry's message, in order |
| HttpResponse.ListDetail | lib/api.ts:97 | a list of validation entries becomes their messages joined by ", " in order |
| HttpResponse.UnparsableBody | lib/api.ts:91-93 | a non-JSON error body gives "HTTP <status>: <statusText>" |
| HttpResponse.OtherDetail | lib/api.ts:95-97 | a missing `detail`, or one that is neither string nor list, throws a TypeError instead of a message |
| HttpResponse.OddEntries | lib/api.ts:97 | a `null` entry throws a TypeError; an entry without `msg` contributes the empty string |
| Cookies.ScanCookies | lib/api.ts:172-180 | the loop with its early `break` returns what `CookieScan` gives: the first piece whose trimmed name matches decides |
| Cookies.CookieScan | lib/api.ts:171-181 | what the scan reads holds no '='; when no piece has the name the scan gives nothing |
| Cookies.ScanOfHeader | lib/api.ts:172-180 | on a well-formed cookie header the scan gives the first cookie with the name, cut at its first '=' |
| Cookies.ScanFirst | lib/api.ts:173-179 | the scan returns the first cookie with the name whole when its value has no '=', whatever follows |
| Cookies.GetCookieUnique | lib/api.ts:500-519 | when exactly one cookie has the name, `getCookie` returns its value, or null for an empty value |
| Cookies.GetCookieNotUnique | lib/api.ts:511-518 | when no cookie or more than one cookie has the name, `getCookie` returns null |
| Cookies.GetCookie | lib/api.ts:500-519 | a value `getCookie` returns is non-empty and holds no ';' |
| Cookies.DuplicateCookie | lib/api.ts:506-515 | for a duplicated cookie `getCookie` gives null while the scan takes the first |
| Cookies.ValueWithEquals | lib/api.ts:512 | for a value holding '=' `getCookie` returns all of it while the scan returns the part before the first '=' |
| RefreshTokenSource.RefreshTokenLookup | lib/api.ts:160-181 | a refresh token is never the empty string |
| RefreshTokenSource.FindRefreshToken | lib/api.ts:160-181 | the lookup reads the store first and scans the cookies only when the store gives nothing usable |
| RefreshTokenSource.GetStoredRefreshToken | lib/api.ts:525-543 | the cookie wins and is copied into the store; otherwise the stored item is returned and the store is unchanged |
| RefreshTokenSource.StoredRefreshToken | lib/api.ts:525-543 | a returned token is what the store then holds; without one the store is unchanged; no other key ever changes |
| RefreshTokenSource.RefreshResult | lib/api.ts:183-205 | without a token the refresh fails with "No refresh token available"; a refused refresh fails with "Token refresh failed"; it succeeds exactly with a token and a 2xx answer |
| RefreshTokenSource.OppositeSourceOrder | lib/api.ts:529-538 | with tokens in both places `refreshToken` sends the stored one, while `getStoredRefreshToken` returns the cookie's and overwrites the store |
| RefreshTokenSource.CookieOnly | lib/api.ts:171-181 | with an empty store both readers agree on the cookie, and after the copy the store gives `refreshToken` the same token |
| RefreshTokenSource.TruncatedCookieValue | lib/api.ts:174-176 | a cookie value with '=' reaches `refreshToken` cut at the '=' but `getStoredRefreshToken` whole |
| RefreshTokenSource.NoTokenNoRequest | lib/api.ts:183-186 | without a token the outcome does not depend on any server answer: no request is made |
| RefreshCoordinator.Drain | lib/api.ts:73-82 | `processQueue` settles each waiter exactly once, in queue order: the replay with the token, a rejection with the error, or "Token refresh failed" for an empty token |
| RefreshCoordinator.DrainSnoc | lib/api.ts:74-80 | draining one more waiter adds exactly its settlement at the end |
| RefreshCoordinator.Step | lib/api.ts:212-293 | no event writes the cookies; the store changes only when a refresh settles, the leader's replay answers or a refresh outside the gate saves; only a first answer can queue a request or raise the flag |
| RefreshCoordinator.Abort | lib/api.ts:284-292 | the `catch` and `finally` blocks reject every waiter with the error in queue order, then the leader with "Session expired, please login again", log out and lower the flag with the queue empty |
| RefreshCoordinator.StepInv | lib/api.ts:212-293 | every event keeps the invariant: the flag is up exactly while a leader exists, and each request is in one place only |
| RefreshCoordinator.JoinInv | lib/api.ts:238-261 | a 401/403 joining the queue keeps the invariant |
| RefreshCoordinator.GrantedInv | lib/api.ts:271-281 | moving the whole queue into replays after a refresh keeps the invariant |
| RefreshCoordinator.RunInv | lib/api.ts:212-293 | any run of events keeps the invariant |
| RefreshCoordinator.RefreshOnlyWhenIdle | lib/api.ts:238-267 | `refreshToken()` is called only when no refresh runs, once, with the looked-up token, and the flag goes up with it |
| RefreshCoordinator.FlagDropsWithLeader | lib/api.ts:290-292 | the flag comes down only in the step whose last effect settles the leader |
| RefreshCoordinator.PassThrough | lib/api.ts:226-229 | a response other than 401/403, or a thrown fetch, settles through `handleResponse` (or as the error) and leaves flag, queue, leader and store alone |
| RefreshCoordinator.NoSecondRefresh | lib/api.ts:248-250 | a replay answered 401/403 settles as a failure of `handleResponse` and starts no second refresh |
| RefreshCoordinator.SettledNoRefresh | lib/api.ts:265-289 | settling the refresh calls no other refresh |
| RefreshCoordinator.ReplayNoRefresh | lib/api.ts:281-282 | the leader's replay settling calls no refresh |
| RefreshCoordinator.RefreshSucceeds | lib/api.ts:265-282 | a successful refresh saves the tokens, keeps the user, replays every waiter in order with the new token (or rejects it for an empty token), then replays the leader; the flag stays up |
| RefreshCoordinator.RefreshFails | lib/api.ts:284-292 | a failed refresh or a thrown leader replay rejects every waiter with that error in order, removes the credentials, rejects the leader with "Session expired, please login again", and lowers the flag with the queue empty |
| RefreshCoordinator.NextCallCarriesNewToken | lib/api.ts:216-222 | after a successful refresh the next call sends the new token whatever Authorization its caller passed |
| RefreshCoordinator.BypassOverwritten | lib/api.ts:579-582 | a refresh outside the gate saves without touching flag, queue or leader, and a later gated refresh overwrites its tokens |
| RefreshCoordinator.JoinAll | lib/api.ts:238-260 | while a refresh runs, every 401/403 joins the queue in arrival order and nothing else happens |
| RefreshCoordinator.SingleFlight | lib/api.ts:236-267 | a burst of 401/403s while idle calls `refreshToken()` exactly once, for the first; the rest wait in arrival order |
| RefreshCoordinator.StrandedWaiter | lib/api.ts:274-292 | a 401/403 during the leader's replay is queued, and the replay's answer lowers the flag with that waiter still queued |
| RefreshCoordinator.QueueWaits | lib/api.ts:238-292 | until a refresh settles or the replay throws, the queue only grows and no effect concerns a queued request |
| RefreshCoordinator.QueueWaitsRun | lib/api.ts:238-292 | the same over any run of such events: a stranded waiter stays queued and unsettled |
| ApiClient.Client.constructor | lib/api.ts:67-71 | at load no refresh runs, the queue is empty, nothing is in flight, and the invariant holds |
| ApiClient.Client.ProcessQueue | lib/api.ts:73-82 | the loop produces `Drain` of the old queue, empties the queue, and records the resumed replays |
| ApiClient.Client.FetchWithAuth | lib/api.ts:212-224 | building the headers and sending the request is the `Call` step |
| ApiClient.Client.OnResponse | lib/api.ts:226-263 | the first answer is the `Respond` step: pass on, queue, or raise the flag and call the refresh |
| ApiClient.Client.Fail | lib/api.ts:284-292 | the `catch` and `finally` blocks are `Abort`: reject the queue, clear, reject the leader, lower the flag |
| ApiClient.Client.OnRefreshSettled | lib/api.ts:265-289 | the refresh settling is the `RefreshSettled` step |
| ApiClient.Client.OnLeaderReplied | lib/api.ts:281-292 | the leader's replay settling is the `LeaderReplied` step |
| ApiClient.Client.OnWaiterReplied | lib/api.ts:248-253 | a waiter's replay settling is the `WaiterReplied` step |
| ApiClient.Client.SavedElsewhere | lib/api.ts:1021-1023 | a refresh that bypasses the gate is the `SavedElsewhere` step: it changes only the store |
| RefreshScheduler.Schedule | lib/api.ts:570-572 | no stored expiry, or a falsy one, schedules nothing |
| RefreshScheduler.DecisionCases | lib/api.ts:574-602 | a timer is armed, with delay `expiresAt - now - 300000`, exactly when more than 5 minutes are left; an immediate refresh happens exactly when 0 to 5 minutes are left |
| RefreshScheduler.ExpiredIgnored | lib/api.ts:590 | an expiry already reached schedules nothing |
| RefreshScheduler.DecisionMatchesExpiringSoon | lib/api.ts:574-590 | the decision agrees with `isTokenExpiringSoon` at 5 minutes: a timer exactly when the token is not expiring soon |
| RefreshScheduler.RescheduleAfterRefresh | lib/api.ts:581-584 | after a saved refresh the next decision depends only on the lifetime: a timer `expires_in*1000 - 300000` ahead, an immediate refresh, or nothing |
| RefreshScheduler.ShortLivedTokensRefreshAgain | lib/api.ts:590-601 | a lifetime of 5 minutes or less refreshes again at once after every success, arming nothing |
| RefreshScheduler.FailureStops | lib/api.ts:585-588 | a failed refresh calls `onRefreshFailed` once, arms nothing, and leaves the store |
| RefreshScheduler.CleanupClearsLastTimer | lib/api.ts:608-612 | the cleanup clears the last timer armed and no other |
| RefreshScheduler.RefreshAfterCleanupRearms | lib/api.ts:579-584 | a refresh in flight at cleanup arms a new timer afterwards that nothing clears |
| RefreshScheduler.Scheduler.constructor | lib/api.ts:567-605 | setting up starts with no timer and carries out the first decision |
| RefreshScheduler.Scheduler.ScheduleRefresh | lib/api.ts:570-603 | `scheduleRefresh` carries out the decision for the stored expiry |
| RefreshScheduler.Scheduler.OnTimer | lib/api.ts:579-581 | a timer firing starts a refresh |
| RefreshScheduler.Scheduler.OnRefreshSettled | lib/api.ts:580-600 | a settled refresh saves and reschedules, or notifies and stops |
| RefreshScheduler.Scheduler.Cleanup | lib/api.ts:608-612 | the cleanup function is `Cancel` |
| SseStream.Payload | lib/api.ts:1066-1071 | a line gives a payload exactly when trimmed it starts with "data: " and is not "data: [DONE]"; the payload is the trimmed line minus the prefix |
| SseStream.PayloadsAppend | lib/api.ts:1065-1081 | the payloads of two runs of lines are the payloads of each, in order |
| SseStream.EmitLines | lib/api.ts:1065-1081 | the inner loop emits exactly the payloads of the lines, in order |
| SseStream.ConsumeStream | lib/api.ts:1051-1082 | the reader loop's payloads and buffer depend only on the concatenated text, not on where chunks were cut |
| SseStream.FrameStep | lib/api.ts:1061-1063 | one more chunk adds exactly the lines it completes after the earlier payloads |
| SseStream.CompleteLines | lib/api.ts:1053-1063 | text whose lines all end in "\n" is delivered completely and leaves an empty buffer |
| SseStream.UnterminatedLineDropped | lib/api.ts:1056-1063 | an unterminated last line stays in the buffer and is never parsed |
| SseStream.Framed | lib/api.ts:1061-1063 | the buffer kept after a split never holds "\n"; text without "\n" emits nothing and stays whole in the buffer |
| SseStream.PayloadLines | lib/api.ts:1066-1071 | a `data: p` line gives `p` |
| SseStream.OpenStream | lib/api.ts:992-1031 | a stream is read only with the token the store then holds; the store changes only after a 401/403 answer; a session-expired refusal after an answer leaves the client logged out |
| SseStream.StreamRefresh | lib/api.ts:1014-1031 | a 401/403 stream refreshes on its own: it saves the tokens keeping the user and retries with the new token; a failed refresh, or a retry that throws, clears the credentials, keeps every other key and fails with the session-expired message |
| SseStream.StreamWithoutRefresh | lib/api.ts:992-1014 | without a stored token nothing is sent ("未登录，请先登录"); a first fetch that throws fails with its own message; any answer other than 401/403 streams with the stored token; the store is untouched in each case |
| ApiQueries.FindActive | lib/api.ts:764 | `find` gives the first active key, and none exactly when no key is active |
| ApiQueries.KeyInfo | lib/api.ts:761-765 | a key comes back exactly when the list is non-empty, and it is one of the listed keys |
| ApiQueries.KeyInfoChoice | lib/api.ts:761-765 | the key is the first active key when one is active, and otherwise the first key, which is inactive |
| ApiQueries.AppendText | lib/api.ts:928-929 | the earlier parameters are kept as a prefix; a string filter is appended exactly when it is non-empty, as one pair with its value |
| ApiQueries.AppendNumber | lib/api.ts:927 | the earlier parameters are kept as a prefix; a number filter is appended exactly when it is truthy (not 0 and not NaN), as one pair with its decimal text |
| ApiQueries.GetAppendText | lib/api.ts:928 | appending a string filter adds it only when truthy and leaves earlier names |
| ApiQueries.GetAppendNumber | lib/api.ts:927 | appending a number filter adds its decimal text only when truthy and leaves earlier names |
| ApiQueries.WithQuery | lib/api.ts:931 | with no parameters the URL is the bare endpoint; otherwise it is the endpoint, `?` and the serialised query |
| ApiQueries.QuotaConsumptionParams | lib/api.ts:926-929 | the query is empty exactly when no filter is truthy, and no value sent is empty |
| ApiQueries.KiroConsumptionParams | lib/api.ts:1261-1265 | the same for the Kiro consumption filters, `offset` included |
| ApiQueries.KiroStatsParams | lib/api.ts:1280-1282 | the same for the consumption statistics filters |
| ApiQueries.QuotaConsumptionReadBack | lib/api.ts:926-931 | the server parses the query back to exactly the truthy filters: `limit` as the same number, the dates verbatim |
| ApiQueries.KiroConsumptionReadBack | lib/api.ts:1261-1267 | the same for the Kiro consumption query: `offset: 0` is not sent at all |
| ApiQueries.KiroConsumptionGets | lib/api.ts:1261-1265 | each name of the Kiro consumption query reads back its own filter |
| ApiQueries.KiroStatsReadBack | lib/api.ts:1280-1284 | the same for the consumption statistics query |
| ApiQueries.UnfilteredUrls | lib/api.ts:1267 | with no truthy filter each URL is the bare endpoint without `?` |
| ApiQueries.FilteredUrl | lib/api.ts:931 | with a truthy filter the URL is the endpoint, `?` and the query |
| Strings.TrimEmptyIffAllSpace | app/dashboard/accounts/page.tsx:289 | `trim()` is empty exactly for an all-whitespace string |
| Strings.TrimStart | lib/api.ts:1066 | leading whitespace is cut: the result is a suffix not starting with whitespace |
| Strings.TrimEnd | lib/api.ts:1066 | trailing whitespace is cut: the result is a prefix not ending with whitespace |
| Strings.Trim | lib/api.ts:1066 | the result is never longer, and is empty or starts and ends with a non-whitespace character |
| Strings.Split | lib/api.ts:1062 | a split always gives at least one piece, so `pop()` always finds the last one |
| Strings.SplitPartsFree | lib/api.ts:1062 | no piece of a split holds the separator |
| Strings.JoinSplit | lib/api.ts:1062 | joining the split pieces with the separator gives the text back |
| Strings.SplitJoin | lib/api.ts:1062 | splitting the join of separator-free parts gives the parts back |
| Strings.SplitAppend | lib/api.ts:1061-1063 | appending text only extends the last piece of a split; the complete pieces stay |
| Strings.LowerOfUpper | app/dashboard/accounts/page.tsx:458 | lower-casing forgets an earlier upper-casing |
| Decimal.IntToString | lib/api.ts:125 | `String(n)` is decimal digits, after a '-' for a negative number |
| Decimal.ParseInt | lib/api.ts:551 | `parseInt` of empty or all-whitespace text is NaN, and of a run of digits is their value |
| Decimal.ParseIntOfString | lib/api.ts:551 | `parseInt(String(n))` gives `n` back: the stored expiry survives the string store |
| UriCodec.Encode | app/api/auth/callback/route.ts:20 | encoded text holds only unreserved characters, '%', hex digits (and '+' in form encoding) |
| UriCodec.Decode | app/dashboard/layout.tsx:33 | the decoded text is never longer; text without '%' (and without '+' in form decoding) comes back unchanged |
| UriCodec.DecodeEncode | app/api/auth/callback/route.ts:51 | decoding what was encoded gives the text back (component into component, either into form) |
| UriCodec.DoubleRoundTrip | app/dashboard/layout.tsx:33 | the user JSON encoded by the route twice comes back after the two decodes of the URL parser and `decodeURIComponent` |
| QueryString.Get | app/dashboard/layout.tsx:23-27 | `get` answers exactly when some pair has the name, and the answer is the value of a pair with that name |
| QueryString.GetFirst | app/dashboard/layout.tsx:23-27 | the answer is the value of the first pair with the name, whatever pairs with that name follow |
| QueryString.Serialize | app/api/auth/callback/route.ts:49-59 | the query text is empty exactly when no pair was set |
| QueryString.Parse | app/dashboard/layout.tsx:23-27 | the empty query gives no pairs, and no query gives more pairs than it has '&'-separated pieces |
| QueryString.GetAppend | app/api/auth/callback/route.ts:49-58 | appending pairs does not change the answer for a name already present |
| QueryString.ParseSerialize | app/api/auth/callback/route.ts:48-59 | parsing a serialised query gives exactly the pairs set, in order |
| QueryString.PlainIsEncoded | app/api/auth/callback/route.ts:27 | letters, digits and '_' encode to themselves |
| OAuthCallback.BackendRequest | app/api/auth/callback/route.ts:18-34 | the backend is called exactly when there is no error and both `code` and `state` are set |
| OAuthCallback.Callback | app/api/auth/callback/route.ts:11-96 | the redirect goes to the dashboard exactly when the backend is called and answers; it then carries the serialised success query and the success cookies; every other redirect goes to the login page with no cookie |
| OAuthCallback.ParseComponentQuery | app/api/auth/callback/route.ts:34 | a hand-written `name=encodeURIComponent(value)` query parses back to its pairs |
| OAuthCallback.BackendReceivesCode | app/api/auth/callback/route.ts:33-34 | the backend receives `code` and `state` exactly as the provider sent them |
| OAuthCallback.ErrorBranches | app/api/auth/callback/route.ts:18-42 | the provider's error comes first and reads back verbatim; missing parameters skip the backend; a failed backend gives `oauth_callback_failed` |
| OAuthCallback.SuccessQuery | app/api/auth/callback/route.ts:48-59 | the dashboard reads back `login=success`, the token, the encoded user, the refresh token exactly when truthy and the lifetime exactly when truthy |
| OAuthCallback.SuccessFixed | app/api/auth/callback/route.ts:49-51 | the three fixed parameters read back |
| OAuthCallback.SuccessOptional | app/api/auth/callback/route.ts:54-59 | the optional parameters read back exactly when truthy |
| OAuthCallback.SuccessCookiesHidden | app/api/auth/callback/route.ts:64-88 | only `user` is visible to scripts; the cookies are secure exactly in production; the refresh cookie lives 30 days, the others 7 |
| DashboardLayout.Layout.constructor | app/dashboard/layout.tsx:19 | the layout starts not ready |
| DashboardLayout.Layout.SyncEffect | app/dashboard/layout.tsx:21-56 | the effect leaves `Synced` in the store and always marks authentication ready |
| DashboardLayout.Synced | app/dashboard/layout.tsx:23-46 | a page that is not a login redirect leaves the store alone; only credential keys ever change; a changed store holds the query's token |
| DashboardLayout.HandoffSynced | app/dashboard/layout.tsx:23-46 | syncing the route's success query stores what the backend answered |
| DashboardLayout.LoginHandoff | app/dashboard/layout.tsx:29-46 | after the hand-off the token and user read back, the refresh token and expiry only when sent (the old ones stay otherwise), and no other key changes |
| DashboardLayout.HandoffExpiry | app/dashboard/layout.tsx:43-44 | the stored expiry reads back as `now + expires_in*1000` |
| DashboardLayout.HandoffIsSave | app/dashboard/layout.tsx:32-44 | with a refresh token and a lifetime, the hand-off stores what `saveAuthCredentials` with the user would |
| DashboardLayout.MalformedUserPartialWrite | app/dashboard/layout.tsx:30-51 | a user parameter that fails to decode leaves the new token stored beside the old user, refresh token and expiry |
| DashboardLayout.UnparsableLifetime | app/dashboard/layout.tsx:42-44 | a non-numeric lifetime stores "NaN": the token always counts as expiring and the scheduler does nothing |
| Accounts.Updated | app/dashboard/accounts/page.tsx:184-188 | `map` with a condition changes exactly the matching elements, keeping length and order |
| Accounts.Filter | app/dashboard/accounts/page.tsx:210 | `filter` keeps exactly the elements that pass |
| Accounts.FilterAppend | app/dashboard/accounts/page.tsx:210 | filtering keeps relative order |
| Accounts.FilterKeepsAll | app/dashboard/accounts/page.tsx:232 | a list whose every element passes comes back unchanged |
| Accounts.NextStatus | app/dashboard/accounts/page.tsx:181 | the new status is 0 or 1, flips a 0/1 status, and turns any other status into 1 |
| Accounts.SetAccountStatus | app/dashboard/accounts/page.tsx:184-188 | the list keeps its length; the entries with the id get the new status and nothing else of theirs changes; every other entry is unchanged |
| Accounts.SetKiroStatus | app/dashboard/accounts/page.tsx:253-257 | the same for Kiro accounts |
| Accounts.ToggleTwice | app/dashboard/accounts/page.tsx:179-188 | toggling twice restores the list |
| Accounts.ToggleKiroTwice | app/dashboard/accounts/page.tsx:249-257 | toggling a Kiro account twice restores the list |
| Accounts.SetQuotaStatus | app/dashboard/accounts/page.tsx:416-420 | only the quotas of the model change, and only their status |
| Accounts.DeleteAccount | app/dashboard/accounts/page.tsx:210 | the kept entries are exactly the entries without the id |
| Accounts.DeleteKiro | app/dashboard/accounts/page.tsx:232 | the same for Kiro accounts |
| Accounts.DeleteRemovesOnly | app/dashboard/accounts/page.tsx:210 | deleting keeps the order of the remaining entries and is idempotent |
| Accounts.DeleteKiroRemovesOnly | app/dashboard/accounts/page.tsx:232 | the same for Kiro accounts |
| Accounts.NameToSend | app/dashboard/accounts/page.tsx:289-301 | a rename is refused exactly for an all-whitespace input; an accepted name is non-empty and starts and ends with a non-whitespace character |
| Accounts.RenameAccount | app/dashboard/accounts/page.tsx:302-306 | renaming sets the name of the entries with the id and changes nothing else |
| Accounts.RenameKiro | app/dashboard/accounts/page.tsx:342-346 | the same for Kiro accounts |
| Accounts.NormalizeAccounts | app/dashboard/accounts/page.tsx:104-110 | an array is kept, an object gives its `accounts` or [], anything else [] |
| Accounts.BalanceOf | app/dashboard/accounts/page.tsx:125-131 | a balance is the reported amount, or 0 when missing or when the lookup threw |
| Accounts.BalanceMap | app/dashboard/accounts/page.tsx:122-134 | every Kiro account gets an entry and no other id does |
| Accounts.BalanceValue | app/dashboard/accounts/page.tsx:122-134 | an account whose id no later account shares gets its own lookup's balance |
| Accounts.ModelDisplayName | app/dashboard/accounts/page.tsx:437-455 | a known id shows its mapped name, and the name differs from the id exactly for the 14 known ids |
| Accounts.IconIgnoresCase | app/dashboard/accounts/page.tsx:458 | the icon does not depend on letter case |
| Accounts.ModelIcon | app/dashboard/accounts/page.tsx:457-468 | gemini beats claude beats gpt; the logo exactly when none is mentioned |
| AccountsPage.LoadBalances | app/dashboard/accounts/page.tsx:122-134 | the balance loop builds exactly `BalanceMap` |
| AccountsPage.Loaded | app/dashboard/accounts/page.tsx:100-153 | `loadAccounts` always lowers both loading flags, shows a toast exactly when the account list failed, and leaves the dialogs' state alone |
| AccountsPage.KiroLoaded | app/dashboard/accounts/page.tsx:112-139 | the nested load keeps the account list and the flags; a beta answer sets `hasBeta` exactly for beta 1; the balances change only with beta 1 and a Kiro list |
| AccountsPage.LoadFailure | app/dashboard/accounts/page.tsx:140-152 | a failed account list empties both lists, shows the error, and lowers the loading flags |
| AccountsPage.NoBetaKeepsKiro | app/dashboard/accounts/page.tsx:113-117 | without beta access the Kiro accounts and balances stay as they were |
| AccountsPage.LoadedBalances | app/dashboard/accounts/page.tsx:113-134 | a full load lists the Kiro accounts and gives each its own balance |
| AccountsPage.AccountsPageState.constructor | app/dashboard/accounts/page.tsx:65-98 | the page starts with empty lists, loading |
| AccountsPage.AccountsPageState.LoadAccounts | app/dashboard/accounts/page.tsx:100-153 | `loadAccounts` leaves the page and toast that `Loaded` describes |
| AccountsPage.AccountsPageState.LoadFailed | app/dashboard/accounts/page.tsx:140-152 | the `catch` and `finally` empty both lists and lower the flags |
| AccountsPage.AccountsPageState.LoadSucceeded | app/dashboard/accounts/page.tsx:103-139 | the normalised list, then the nested load, then the flags down |
| AccountsPage.AccountsPageState.LoadKiro | app/dashboard/accounts/page.tsx:113-139 | the nested `try` leaves what `KiroLoaded` describes |
| AccountsPage.AccountsPageState.ToggleStatus | app/dashboard/accounts/page.tsx:179-203 | sends the flipped status; on success only the matching accounts change; on failure nothing changes and the error shows |
| AccountsPage.AccountsPageState.ToggleKiroStatus | app/dashboard/accounts/page.tsx:249-272 | the same for Kiro accounts |
| AccountsPage.AccountsPageState.Delete | app/dashboard/accounts/page.tsx:205-225 | nothing without confirmation; on success the entries with the id are removed |
| AccountsPage.AccountsPageState.DeleteKiroAccount | app/dashboard/accounts/page.tsx:227-247 | the same for Kiro accounts |
| AccountsPage.AccountsPageState.OpenRename | app/dashboard/accounts/page.tsx:280-284 | the dialog opens on the account's name or "" |
| AccountsPage.AccountsPageState.OpenKiroRename | app/dashboard/accounts/page.tsx:274-278 | the dialog opens on the name, else the e-mail, else "" |
| AccountsPage.AccountsPageState.TypeName | app/dashboard/accounts/page.tsx:282 | typing changes only the input |
| AccountsPage.AccountsPageState.TypeKiroName | app/dashboard/accounts/page.tsx:276 | typing changes only the Kiro input |
| AccountsPage.AccountsPageState.SubmitRename | app/dashboard/accounts/page.tsx:286-324 | an all-whitespace name warns with no call; otherwise the trimmed name is sent and, on success, stored on the matching entries and the dialog closes |
| AccountsPage.AccountsPageState.SubmitKiroRename | app/dashboard/accounts/page.tsx:326-364 | the same for Kiro accounts |
| AccountsPage.AccountsPageState.ViewQuotas | app/dashboard/accounts/page.tsx:387-406 | the dialog opens and shows the quotas, or none and the error |
| AccountsPage.AccountsPageState.ToggleQuotaStatus | app/dashboard/accounts/page.tsx:408-435 | nothing without a current account; otherwise sends the flipped status and on success changes only that model's quotas, naming the model in the toast |

## Left out

- Network I/O, `response.json()`, `JSON.parse`/`JSON.stringify`, `TextDecoder`, `NextRequest`/`NextResponse`: their results are inputs (a status with a parsed or unparsable body, a thrown error, the user as its JSON text).
- Promises and the event loop: the refresh coordinator is a sequential state machine whose events are the points where a call resumes. Interleavings are sequences of events, not real concurrency.
- `setTimeout`/`clearTimeout`: timers are ids handed out in order, and a firing is an event.
- `Date.now()`: a parameter `now`.
- Floating point: numbers are whole numbers plus `NaN`. Kiro balances are reals without NaN, and `toFixed`/`toLocaleDateString` formatting is not modelled. `String(n)` for huge numbers (exponent notation) is not modelled.
- Case mapping covers ASCII letters only; `toLowerCase` of other scripts is not modelled.
- JavaScript strings are UTF-16 code units; the model uses Unicode scalar values, so lone surrogates (which make `encodeURIComponent` throw) cannot occur.
- `typeof window`/`typeof document` guards: the model is the browser side.
- `localStorage` quota errors: `setItem` never throws, so a `saveAuthCredentials` that throws inside the refresh is not modelled.
- The cookie writes in `clearAuthCredentials` (lib/api.ts:143-149): they expire cookies in the browser and do not touch `localStorage`.
- Console logging everywhere.
- `Headers` instances and header arrays passed as `options.headers`: only plain header records are modelled.
- Object keys inherited from the prototype (`modelNames['constructor']`): `getModelDisplayName` sees only the 14 listed keys.
- The stream's own error-message formatting (lib/api.ts:1033-1043), the missing-reader check (1045-1048) and the JSON parsing and `content` extraction of each payload (1072-1076): the model stops at the payload text.
- SseStream.OpenStream: "未登录，请先登录" is thrown to the caller in the source and not passed to `onError`. The model reports it as a refusal like the other failures. A non-ok answer that is not 401/403 (or a non-ok retry) goes on to the error formatting, which is not modelled: the model records only that the stream was opened.
- Stale closures and overlapping handlers on the accounts page: each handler runs against the state it reads.
- AccountsPage.AccountsPageState.ToggleQuotaStatus: when `quotas` is `null` the source's updater throws inside React; the model leaves `quotas` unset instead.
- Accounts.NormalizeAccounts: a truthy `accounts` field that is not an array is not modelled.
- Accounts.BalanceValue: for duplicate Kiro ids the entry holds the balance whose lookup settled last. The model uses list order and states the value only for ids no later account shares.
- The quota list is assumed to be an array.
- Backend answers missing `access_token` or `user` (which the route would write as "undefined") are not modelled; `LoginData` always has them.
- `FRONTEND_URL` and `API_BASE_URL`: URLs are paths with queries, and the base is not modelled.
- `handleViewKiroDetail` (app/dashboard/accounts/page.tsx:366-385) and the JSX, dialogs, tables and toasts' positions.
- The transient `isRenaming` flags of the rename dialogs.
- `new Date(expiresAt).toISOString()` throwing for an out-of-range expiry after the write (app/dashboard/layout.tsx:45): the write before it is modelled, and the log line is not.
- The thin endpoint wrappers in lib/api.ts that only call `fetchWithAuth` with a fixed URL.
- RefreshScheduler.DecisionCases: `setTimeout` converts its delay to a 32-bit integer, so a delay above 2147483647 ms wraps around and fires at once or soon; the model keeps the unbounded delay `expiresAt - now - 300000`.
- QueryString.Parse: `URLSearchParams` is lenient about malformed escapes (it keeps a '%' that starts no escape and puts U+FFFD for invalid UTF-8); the model gives `None` for such a query instead, so it agrees with `URLSearchParams` only on well-formed queries.
- SseStream.Payloads: the list of payloads of a run of lines carries no contract of its own; `PayloadsAppend`, `Framed` and `EmitLines` state what it gives.
- RequestHeaders.StoredTokenWins: header names are compared case-sensitively, as object keys are. A caller's `authorization` therefore stays beside the stored `Authorization`, while `fetch` merges such names case-insensitively on the wire; the model states the override only for the exact-case key.
