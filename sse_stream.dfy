/** `sendChatCompletionStream`: opening the stream (with its own refresh on
    401/403, outside the single-flight gate) and the server-sent-events
    framing of the body: each decoded chunk is appended to a buffer, the
    buffer is split on "\n", the last piece is kept as the new buffer and
    every complete line that is a `data: ` line other than `data: [DONE]`
    hands its payload to `JSON.parse`. */
module SseStream {
  import opened Common
  import opened Strings
  import opened CredentialStore
  import opened Decimal

  const NewLine := '\n'
  const DataPrefix := "data: "
  const DoneLine := "data: [DONE]"
  const NotLoggedInMessage := "未登录，请先登录"
  const SessionExpired := "Session expired, please login again"

  /** The payload a line hands to `JSON.parse`, if any. */
  function Payload(line: string): (r: Option<string>)
    ensures r.Some? <==> Trim(line) != DoneLine && StartsWith(Trim(line), DataPrefix)
    ensures r.Some? ==> DataPrefix + r.value == Trim(line)
  {
    var t := Trim(line);
    if t == [] || t == DoneLine then None
    else if StartsWith(t, DataPrefix) then
      assert t == t[..|DataPrefix|] + t[|DataPrefix|..];
      Some(t[|DataPrefix|..])
    else None
  }

  /** What one complete line contributes. */
  function Emitted(line: string): seq<string> {
    if Payload(line).Some? then [Payload(line).value] else []
  }

  /** The payloads of some complete lines, in order. */
  function Payloads(lines: seq<string>): seq<string> {
    if lines == [] then [] else Emitted(lines[0]) + Payloads(lines[1..])
  }

  lemma {:induction false} PayloadsAppend(a: seq<string>, b: seq<string>)
    ensures Payloads(a + b) == Payloads(a) + Payloads(b)
    decreases |a|
  {
    if a != [] {
      assert (a + b)[0] == a[0];
      assert (a + b)[1..] == a[1..] + b;
      PayloadsAppend(a[1..], b);
    } else {
      assert a + b == b;
    }
  }

  /** All chunks received so far, decoded and concatenated. */
  function Concat(chunks: seq<string>): string {
    if chunks == [] then [] else Concat(AllButLast(chunks)) + Last(chunks)
  }

  /** What the reader has produced after `text` arrived: the payloads of the
      complete lines, and the buffer holding the unfinished last line. The
      buffer never holds a line break, and text without one is all
      buffered. */
  function Framed(text: string): (r: (seq<string>, string))
    ensures NewLine !in r.1
    ensures NewLine !in text ==> r == ([], text)
  {
    var lines := Split(text, [NewLine]);
    SplitPartsFree(text, NewLine);
    assert NewLine !in text ==> lines == [text] by {
      if NewLine !in text { SplitNoSeparator(text, NewLine); }
    }
    (Payloads(AllButLast(lines)), Last(lines))
  }

  /** The inner `for (const line of lines)` loop. */
  method EmitLines(lines: seq<string>) returns (payloads: seq<string>)
    ensures payloads == Payloads(lines)
  {
    payloads := [];
    var j := 0;
    while j < |lines|
      invariant 0 <= j <= |lines|
      invariant payloads == Payloads(lines[..j])
    {
      PayloadsAppend(lines[..j], [lines[j]]);
      assert lines[..j + 1] == lines[..j] + [lines[j]];
      assert Payloads([lines[j]]) == Emitted(lines[j]);
      var trimmed := Trim(lines[j]);
      if trimmed != [] && trimmed != DoneLine && StartsWith(trimmed, DataPrefix) {
        payloads := payloads + [trimmed[|DataPrefix|..]];
      }
      j := j + 1;
    }
    assert lines[..j] == lines;
  }

  /** One more chunk only adds the lines it completes: the buffer plus the
      chunk is split, and its complete lines follow the earlier ones. */
  lemma FrameStep(text: string, chunk: string)
    ensures var lines := Split(Framed(text).1 + chunk, [NewLine]);
      Framed(text + chunk) == (Framed(text).0 + Payloads(AllButLast(lines)), Last(lines))
  {
    var before := Split(text, [NewLine]);
    var lines := Split(Last(before) + chunk, [NewLine]);
    SplitAppend(text, chunk, NewLine);
    var after := AllButLast(before) + lines;
    assert AllButLast(after) == AllButLast(before) + AllButLast(lines);
    assert Last(after) == Last(lines);
    PayloadsAppend(AllButLast(before), AllButLast(lines));
  }

  /** The reader loop: append each chunk to the buffer, split, keep the last
      piece, emit the payloads of the complete lines. What it emits depends
      only on the concatenated text, not on where the chunks were cut. */
  method ConsumeStream(chunks: seq<string>) returns (payloads: seq<string>, buffer: string)
    ensures (payloads, buffer) == Framed(Concat(chunks))
  {
    payloads := [];
    buffer := [];
    var i := 0;
    while i < |chunks|
      invariant 0 <= i <= |chunks|
      invariant (payloads, buffer) == Framed(Concat(chunks[..i]))
    {
      FrameStep(Concat(chunks[..i]), chunks[i]);
      assert AllButLast(chunks[..i + 1]) == chunks[..i];
      buffer := buffer + chunks[i];
      var lines := Split(buffer, [NewLine]);
      buffer := lines[|lines| - 1];
      var emitted := EmitLines(lines[..|lines| - 1]);
      payloads := payloads + emitted;
      i := i + 1;
    }
    assert chunks[..i] == chunks;
  }

  /** Text whose lines all end in "\n" is delivered completely and leaves an
      empty buffer. */
  lemma CompleteLines(lines: seq<string>)
    requires forall i :: 0 <= i < |lines| ==> NewLine !in lines[i]
    ensures Framed(Join(lines + [[]], [NewLine])) == (Payloads(lines), [])
  {
    UnterminatedLineDropped(lines, []);
  }

  /** A last line the server does not end with "\n" stays in the buffer and
      is never parsed: when the stream ends it is dropped. */
  lemma UnterminatedLineDropped(lines: seq<string>, last: string)
    requires forall i :: 0 <= i < |lines| ==> NewLine !in lines[i]
    requires NewLine !in last
    ensures Framed(Join(lines + [last], [NewLine])) == (Payloads(lines), last)
  {
    var all := lines + [last];
    forall i | 0 <= i < |all| ensures NewLine !in all[i] {
      if i < |lines| { assert all[i] == lines[i]; }
    }
    var text := Join(all, [NewLine]);
    SplitJoin(all, NewLine);
    FramedParts(text, all);
    assert AllButLast(all) == lines;
  }

  lemma FramedParts(text: string, parts: seq<string>)
    requires Split(text, [NewLine]) == parts
    ensures parts != [] && Framed(text) == (Payloads(AllButLast(parts)), Last(parts))
  {
  }

  /** Only `data: ` lines other than `data: [DONE]` give payloads; other
      lines (comments, `event:` lines, blank lines) give none. */
  lemma PayloadLines(p: string)
    requires "data: " + p != DoneLine
    requires p != [] && !IsJsSpace(p[|p| - 1])
    ensures Payload("data: " + p) == Some(p)
  {
    var line := "data: " + p;
    assert line[0] == 'd' && line[|line| - 1] == p[|p| - 1];
    TrimUntouched(line);
  }

  // ---------------------------------------------------------------------------
  // Opening the stream

  /** How a `fetch` of the stream settles: with a status, or by throwing. */
  datatype Attempt = Answered(status: int) | Threw(message: string)

  /** How the stream opens: not at all, with the message `onError` (or, for
      a missing token, the caller) receives; or answered for `token`, the
      stored one or the one a 401/403 refresh brought, after which the
      `response.ok` check and the reader take over. */
  datatype Opening =
    | Refused(message: string)
    | Streaming(token: string, refreshed: bool)

  /** The stream's own refresh: a first answer of 401/403 calls
      `refreshToken()` once, saves, and retries with the new token; when the
      refresh or the retry throws, the credentials are cleared and the
      session has expired. A first fetch that throws reaches `onError` with
      its own message. No flag or queue is consulted. The stream runs with
      the token that is stored when it starts, and only a refresh writes the
      store. */
  function OpenStream(items: Items, first: Attempt, refresh: Result<TokenPair>, retry: Attempt, now: int): (r: (Opening, Items))
    ensures r.0.Streaming? ==> GetItem(r.1, AccessTokenKey) == Some(r.0.token)
    ensures r.1 != items ==> first.Answered? && (first.status == 401 || first.status == 403)
    ensures r.0 == Refused(SessionExpired) && first.Answered? ==> !IsAuthenticated(r.1)
  {
    var token := GetItem(items, AccessTokenKey);
    if !Present(token) then (Refused(NotLoggedInMessage), items)
    else match first
      case Threw(message) => (Refused(message), items)
      case Answered(status) =>
        if status != 401 && status != 403 then (Streaming(token.value, false), items)
        else match refresh
          case Err(_) => (Refused(SessionExpired), ClearedItems(items))
          case Ok(pair) =>
            var saved := SavedItems(items, pair, None, now);
            match retry
              case Threw(_) => (Refused(SessionExpired), ClearedItems(saved))
              case Answered(_) => (Streaming(pair.accessToken, true), saved)
  }
  /** The stream refreshes exactly as the gated leader does — new tokens
      saved without a user, or the credentials cleared and the session
      expired — but on its own: a second stream, or a `fetchWithAuth` call,
      answered 401/403 at the same time refreshes again. A retry that throws
      after a successful refresh also clears the credentials just saved. */
  lemma StreamRefresh(items: Items, status: int, refresh: Result<TokenPair>, retry: Attempt, now: int)
    requires Present(GetItem(items, AccessTokenKey)) && (status == 401 || status == 403)
    ensures var (opening, after) := OpenStream(items, Answered(status), refresh, retry, now);
      && (refresh.Ok? && retry.Answered? ==>
            && opening == Streaming(refresh.value.accessToken, true)
            && GetItem(after, RefreshTokenKey) == Some(refresh.value.refreshToken)
            && GetTokenExpiresAt(after) == Some(Finite(now + refresh.value.expiresIn * 1000))
            && GetStoredUser(after) == GetStoredUser(items))
      && (refresh.Err? || retry.Threw? ==>
            && opening == Refused(SessionExpired)
            && (forall k :: k in CredentialKeys ==> GetItem(after, k).None?)
            && (forall k :: k !in CredentialKeys ==> GetItem(after, k) == GetItem(items, k)))
  {
    if refresh.Ok? {
      var saved := SavedItems(items, refresh.value, None, now);
      SavedReadBack(items, refresh.value, None, now);
      RefreshKeepsUser(items, refresh.value, now);
      if retry.Threw? {
        ClearRemovesCredentials(saved);
      }
    } else {
      ClearRemovesCredentials(items);
    }
  }

  /** Without a stored token nothing is sent and nothing is refreshed; a
      first fetch that throws reaches `onError` with its own message and
      leaves the store alone; an answer other than 401/403 streams with the
      stored token. */
  lemma StreamWithoutRefresh(items: Items, first: Attempt, refresh: Result<TokenPair>, retry: Attempt, now: int)
    ensures !Present(GetItem(items, AccessTokenKey)) ==>
      OpenStream(items, first, refresh, retry, now) == (Refused(NotLoggedInMessage), items)
    ensures Present(GetItem(items, AccessTokenKey)) && first.Threw? ==>
      OpenStream(items, first, refresh, retry, now) == (Refused(first.message), items)
    ensures Present(GetItem(items, AccessTokenKey)) && first.Answered? && first.status != 401 && first.status != 403 ==>
      OpenStream(items, first, refresh, retry, now) == (Streaming(items[AccessTokenKey], false), items)
  {
  }
}
