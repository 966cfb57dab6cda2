/** `handleResponse`: what the API client makes of an HTTP response — the
    parsed body of a 2xx response, or an `Error` whose message is flattened
    out of the backend's `detail` field. */
module HttpResponse {
  import opened Common
  import opened Strings
  import opened Decimal

  /** A parsed JSON value (numbers restricted to whole ones). */
  datatype Json =
    | JNull
    | JBool(b: bool)
    | JNumber(n: int)
    | JString(s: string)
    | JArray(elems: seq<Json>)
    | JObject(fields: seq<(string, Json)>)

  /** Property access `v[key]` on a value that is not `null`: the field with
      that key of an object, `None` (JavaScript `undefined`) otherwise. The
      objects here come from `JSON.parse`, which keeps only the last of
      duplicate keys, so their field names are distinct and the first match
      is the only one. */
  function Field(v: Json, key: string): (r: Option<Json>)
    requires !v.JNull?
    ensures r.Some? ==> v.JObject? && exists i :: 0 <= i < |v.fields| && v.fields[i] == (key, r.value)
  {
    if v.JObject? then FieldOf(v.fields, key) else None
  }

  function FieldOf(fields: seq<(string, Json)>, key: string): (r: Option<Json>)
    ensures r.Some? ==> exists i :: 0 <= i < |fields| && fields[i] == (key, r.value)
    ensures r.None? ==> forall i :: 0 <= i < |fields| ==> fields[i].0 != key
  {
    if fields == [] then None
    else if fields[0].0 == key then Some(fields[0].1)
    else
      var r := FieldOf(fields[1..], key);
      assert forall i :: 1 <= i < |fields| ==> fields[i] == fields[1..][i - 1];
      r
  }

  /** What the HTTP layer hands over: the status line and the body, which
      either parses as JSON or does not. */
  datatype Response = Response(status: int, statusText: string, body: Option<Json>)

  /** `response.ok`. */
  predicate Ok(r: Response) {
    200 <= r.status <= 299
  }

  /** What a rejected promise carries. */
  datatype Thrown =
    | Message(text: string)   // an `Error` with this message
    | SyntaxError             // `response.json()` on a body that is not JSON
    | TypeError               // a property read on `null`/`undefined`, or `.map` on a non-array

  datatype Outcome = Value(json: Json) | Fails(thrown: Thrown)

  /** How `Array.prototype.join` writes one element: `null` as the empty
      string, arrays joined with ",", objects as "[object Object]". */
  function JoinText(v: Json): string {
    match v
    case JNull => ""
    case JBool(b) => if b then "true" else "false"
    case JNumber(n) => IntToString(n)
    case JString(s) => s
    case JArray(elems) => Join(seq(|elems|, i requires 0 <= i < |elems| => JoinText(elems[i])), ",")
    case JObject(_) => "[object Object]"
  }

  /** `undefined` is written like `null`. */
  function ElementText(v: Option<Json>): string {
    if v.Some? then JoinText(v.value) else ""
  }

  function ElementTexts(vs: seq<Option<Json>>): (texts: seq<string>)
    ensures |texts| == |vs|
    ensures forall i :: 0 <= i < |vs| ==> texts[i] == ElementText(vs[i])
  {
    if vs == [] then [] else [ElementText(vs[0])] + ElementTexts(vs[1..])
  }

  /** `detail.map(e => e.msg)`: fails on a `null` entry. */
  function Messages(detail: seq<Json>): (r: Option<seq<Option<Json>>>)
    ensures r.Some? ==> |r.value| == |detail|
    ensures r.Some? <==> forall i :: 0 <= i < |detail| ==> !detail[i].JNull?
  {
    if detail == [] then Some([])
    else if detail[0].JNull? then None
    else match Messages(detail[1..])
      case None =>
        assert exists i :: 1 <= i < |detail| && detail[i].JNull? by {
          var j :| 0 <= j < |detail[1..]| && detail[1..][j].JNull?;
          assert detail[j + 1] == detail[1..][j];
        }
        None
      case Some(rest) =>
        assert forall i :: 1 <= i < |detail| ==> detail[i] == detail[1..][i - 1];
        Some([Field(detail[0], "msg")] + rest)
  }

  /** The message `handleResponse` throws for a `detail` value. */
  function DetailMessage(detail: Option<Json>): Thrown {
    match detail
    case Some(JString(s)) => Message(s)
    case Some(JArray(elems)) =>
      (match Messages(elems)
       case Some(msgs) => Message(Join(ElementTexts(msgs), ", "))
       case None => TypeError)
    case _ => TypeError
  }

  /** The text `handleResponse` substitutes for a body that is not JSON. */
  function StatusText(r: Response): string {
    "HTTP " + IntToString(r.status) + ": " + r.statusText
  }

  /** `handleResponse(response)`. */
  function HandleResponse(r: Response): (o: Outcome)
    ensures Ok(r) <==> o.Value? || o == Fails(SyntaxError)
    ensures Ok(r) && r.body.Some? ==> o == Value(r.body.value)
    ensures Ok(r) && r.body.None? ==> o == Fails(SyntaxError)
  {
    if Ok(r) then
      if r.body.Some? then Value(r.body.value) else Fails(SyntaxError)
    else match r.body
      case None => Fails(Message(StatusText(r)))
      case Some(JNull) => Fails(TypeError)
      case Some(error) => Fails(DetailMessage(Field(error, "detail")))
  }

  // ---------------------------------------------------------------------------
  // The backend's error bodies, built, and the messages read back

  /** A FastAPI validation entry `{"loc": [...], "msg": m, "type": t}`. */
  function ValidationEntry(loc: seq<Json>, msg: string, kind: string): Json {
    JObject([("loc", JArray(loc)), ("msg", JString(msg)), ("type", JString(kind))])
  }

  function ValidationEntries(msgs: seq<string>): (r: seq<Json>)
    ensures |r| == |msgs|
    ensures forall i :: 0 <= i < |msgs| ==> r[i] == ValidationEntry([], msgs[i], "value_error")
  {
    if msgs == [] then [] else [ValidationEntry([], msgs[0], "value_error")] + ValidationEntries(msgs[1..])
  }

  /** A response that is not ok and has a JSON body. */
  predicate Rejected(r: Response) {
    !Ok(r) && r.body.Some?
  }

  /** A `detail` string reaches the caller verbatim. */
  lemma StringDetail(status: int, statusText: string, detail: string)
    requires !(200 <= status <= 299)
    ensures HandleResponse(Response(status, statusText, Some(JObject([("detail", JString(detail))]))))
         == Fails(Message(detail))
  {
  }

  lemma {:induction false} EntryMessages(msgs: seq<string>)
    ensures Messages(ValidationEntries(msgs)).Some?
    ensures ElementTexts(Messages(ValidationEntries(msgs)).value) == msgs
    decreases |msgs|
  {
    var es := ValidationEntries(msgs);
    if msgs != [] {
      EntryMessages(msgs[1..]);
      assert es[1..] == ValidationEntries(msgs[1..]);
      var fields := es[0].fields;
      assert fields[0].0 == "loc" != "msg";
      assert fields[1..][0].0 == "msg";
      assert Field(es[0], "msg") == FieldOf(fields[1..], "msg") == Some(JString(msgs[0]));
      assert [msgs[0]] + msgs[1..] == msgs;
    }
  }

  /** A list of validation errors reaches the caller as its messages joined
      by ", ", in order. */
  lemma ListDetail(status: int, statusText: string, msgs: seq<string>)
    requires !(200 <= status <= 299)
    ensures HandleResponse(Response(status, statusText, Some(JObject([("detail", JArray(ValidationEntries(msgs)))]))))
         == Fails(Message(Join(msgs, ", ")))
  {
    EntryMessages(msgs);
  }

  /** A body that is not JSON gives "HTTP <status>: <statusText>". */
  lemma UnparsableBody(status: int, statusText: string)
    requires !(200 <= status <= 299)
    ensures HandleResponse(Response(status, statusText, None))
         == Fails(Message("HTTP " + IntToString(status) + ": " + statusText))
  {
  }

  /** A `detail` that is neither a string nor a list, or is missing, makes
      `handleResponse` throw a TypeError instead of an `Error` with a message. */
  lemma OtherDetail(status: int, statusText: string, fields: seq<(string, Json)>)
    requires !(200 <= status <= 299)
    requires var d := FieldOf(fields, "detail"); d.None? || !(d.value.JString? || d.value.JArray?)
    ensures HandleResponse(Response(status, statusText, Some(JObject(fields)))) == Fails(TypeError)
  {
  }

  /** A `null` entry in the list makes `e.msg` throw; an entry without `msg`
      contributes the empty string. */
  lemma OddEntries(status: int, statusText: string, msg: string)
    requires !(200 <= status <= 299)
    ensures HandleResponse(Response(status, statusText, Some(JObject([("detail", JArray([JNull]))]))))
         == Fails(TypeError)
    ensures HandleResponse(Response(status, statusText,
              Some(JObject([("detail", JArray([JObject([]), ValidationEntry([], msg, "value_error")]))]))))
         == Fails(Message(", " + msg))
  {
    var entry := ValidationEntry([], msg, "value_error");
    assert [entry] == ValidationEntries([msg]);
    EntryMessages([msg]);
    var rest := Messages([entry]).value;
    assert [JObject([]), entry][1..] == [entry];
    assert Messages([JObject([]), entry]) == Some([None] + rest);
    assert ElementTexts([None] + rest) == [""] + ElementTexts(rest) == ["", msg];
    assert Join(["", msg], ", ") == "" + ", " + Join([msg], ", ") == ", " + msg;
    var body := JObject([("detail", JArray([JObject([]), entry]))]);
    assert Field(body, "detail") == Some(JArray([JObject([]), entry]));
  }
}
