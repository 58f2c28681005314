/** How the chat client turns whatever the `/ask` endpoint returns into the
    one string it shows as the assistant's reply: the body is parsed as JSON
    (falling back to the raw text), and the parsed value goes through an
    ordered chain of accepted shapes -- a bare string, `{answer}`, `{text}`,
    a completion-style `{choices: [...]}` -- ending in a serialisation of the
    whole payload. */
module AnswerNormalizer {
  import opened Common

  /** A value produced by `JSON.parse`. An object is a map from keys to
      values: property access sees one value per key (the parser keeps the
      last of duplicated keys). Numbers are reals; JSON has no NaN. */
  datatype Json =
    | JNull
    | JBool(b: bool)
    | JNumber(n: real)
    | JString(s: string)
    | JArray(items: seq<Json>)
    | JObject(fields: map<string, Json>)

  /** JavaScript truthiness of a parsed value. Objects and arrays, even
      empty ones, are truthy. */
  predicate Truthy(j: Json)
    ensures Truthy(j) <==> j != JNull && j != JBool(false) && j != JNumber(0.0) && j != JString("")
  {
    match j
    case JNull => false
    case JBool(b) => b
    case JNumber(n) => n != 0.0
    case JString(s) => s != ""
    case JArray(_) => true
    case JObject(_) => true
  }

  /** `j?.key`: only an object has named properties; on any other value
      (including null) the access yields undefined, modelled as None. */
  function Get(j: Json, key: string): (r: Option<Json>)
    ensures r.Some? <==> j.JObject? && key in j.fields
    ensures r.Some? ==> r.value == j.fields[key]
  {
    if j.JObject? && key in j.fields then Some(j.fields[key]) else None
  }

  /** The property exists and its value is truthy: the test `if (data?.key)`. */
  predicate HasTruthy(j: Json, key: string)
    ensures HasTruthy(j, key) <==> j.JObject? && key in j.fields && Truthy(j.fields[key])
  {
    var v := Get(j, key);
    v.Some? && Truthy(v.value)
  }

  /** `c.message?.content`, when it is truthy. */
  function MessageContent(c: Json): (r: Option<Json>)
    ensures r.Some? ==> Truthy(r.value)
    ensures r.Some? <==> Get(c, "message").Some? && HasTruthy(c.fields["message"], "content")
    ensures r.Some? ==> r.value == c.fields["message"].fields["content"]
  {
    match Get(c, "message")
    case None => None
    case Some(m) => if HasTruthy(m, "content") then Get(m, "content") else None
  }

  /** The first element of `data.choices`, when `data.choices` is an array
      whose first element is truthy. */
  function FirstChoice(data: Json): (r: Option<Json>)
    ensures r.Some? ==> Truthy(r.value)
    ensures r.Some? <==> (Get(data, "choices").Some? && data.fields["choices"].JArray?
                          && |data.fields["choices"].items| > 0 && Truthy(data.fields["choices"].items[0]))
    ensures r.Some? ==> r.value == data.fields["choices"].items[0]
  {
    match Get(data, "choices")
    case None => None
    case Some(cs) =>
      if cs.JArray? && |cs.items| > 0 && Truthy(cs.items[0]) then Some(cs.items[0]) else None
  }

  /** The canonicalisation chain. `stringify` stands for `JSON.stringify`,
      whose exact text is not modelled. The first applicable rule wins:
      a string payload verbatim; a truthy `answer`; a truthy `text`; for a
      truthy first choice, its truthy `message.content`, its truthy `text`,
      or its serialisation; otherwise the serialisation of the payload. */
  function Normalize(data: Json, stringify: Json -> string): (r: Json)
    ensures data.JString? ==> r == data
    ensures !data.JString? && HasTruthy(data, "answer") ==> r == data.fields["answer"]
    ensures !data.JString? && !HasTruthy(data, "answer") && HasTruthy(data, "text")
            ==> r == data.fields["text"]
    ensures !data.JString? && !HasTruthy(data, "answer") && !HasTruthy(data, "text")
            && FirstChoice(data).None?
            ==> r == JString(stringify(data))
    ensures !data.JString? && !HasTruthy(data, "answer") && !HasTruthy(data, "text")
            && FirstChoice(data).Some?
            ==> var c := FirstChoice(data).value;
                r == (if MessageContent(c).Some? then MessageContent(c).value
                      else if HasTruthy(c, "text") then c.fields["text"]
                      else JString(stringify(c)))
  {
    if data.JString? then data
    else if HasTruthy(data, "answer") then data.fields["answer"]
    else if HasTruthy(data, "text") then data.fields["text"]
    else match FirstChoice(data)
      case Some(c) =>
        (match MessageContent(c)
         case Some(content) => content
         case None => if HasTruthy(c, "text") then c.fields["text"] else JString(stringify(c)))
      case None => JString(stringify(data))
  }

  /** The outcome of the chain is a string payload taken verbatim, a truthy
      value found in the payload, or a serialisation (of the payload or of
      its first choice): it never yields a falsy field such as an empty
      `answer`. */
  lemma NormalizeOutcomes(data: Json, stringify: Json -> string)
    ensures var r := Normalize(data, stringify);
            (data.JString? && r == data)
            || (!data.JString? && Truthy(r))
            || r == JString(stringify(data))
            || (FirstChoice(data).Some? && r == JString(stringify(FirstChoice(data).value)))
  {
  }

  /** A truthy `answer` decides the result alone: whatever `text` and
      `choices` hold, they are never consulted. */
  lemma AnswerOutranksTheRest(fields: map<string, Json>, other: map<string, Json>, stringify: Json -> string)
    requires "answer" in fields && Truthy(fields["answer"])
    ensures Normalize(JObject(fields + (other - {"answer"})), stringify) == fields["answer"]
  {
    var merged := fields + (other - {"answer"});
    assert merged["answer"] == fields["answer"];
    assert HasTruthy(JObject(merged), "answer");
  }

  /** A falsy `answer` (empty string, 0, false, null) is skipped as if it
      were absent, whenever a later rule than the last one applies (the
      last one serialises the payload, `answer` field included). */
  lemma FalsyAnswerIsSkipped(fields: map<string, Json>, stringify: Json -> string)
    requires "answer" in fields && !Truthy(fields["answer"])
    requires HasTruthy(JObject(fields), "text") || FirstChoice(JObject(fields)).Some?
    ensures Normalize(JObject(fields), stringify) == Normalize(JObject(fields - {"answer"}), stringify)
  {
    var f2 := fields - {"answer"};
    assert !HasTruthy(JObject(fields), "answer");
    assert !HasTruthy(JObject(f2), "answer");
    assert Get(JObject(fields), "text") == Get(JObject(f2), "text");
    assert Get(JObject(fields), "choices") == Get(JObject(f2), "choices");
  }

  /** The shapes the back end is known to send. */
  lemma KnownShapes(s: string, stringify: Json -> string)
    requires s != ""
    ensures Normalize(JString(s), stringify) == JString(s)
    ensures Normalize(JObject(map["answer" := JString(s)]), stringify) == JString(s)
    ensures Normalize(JObject(map["text" := JString(s)]), stringify) == JString(s)
    ensures Normalize(JObject(map["choices" := JArray([JObject(map["message" := JObject(map["content" := JString(s)])])])]), stringify)
            == JString(s)
    ensures Normalize(JObject(map["choices" := JArray([JObject(map["text" := JString(s)])])]), stringify) == JString(s)
  {
    var m := JObject(map["content" := JString(s)]);
    var c1 := JObject(map["message" := m]);
    assert HasTruthy(m, "content");
    assert MessageContent(c1) == Some(JString(s));
    var c2 := JObject(map["text" := JString(s)]);
    assert Get(c2, "message").None?;
    assert MessageContent(c2).None?;
    assert HasTruthy(c2, "text");
  }

  /** A payload with none of the recognised fields, and JSON `null`, are
      shown as their serialisation. */
  lemma UnrecognisedIsSerialised(fields: map<string, Json>, stringify: Json -> string)
    requires "answer" !in fields && "text" !in fields && "choices" !in fields
    ensures Normalize(JObject(fields), stringify) == JString(stringify(JObject(fields)))
    ensures Normalize(JNull, stringify) == JString(stringify(JNull))
  {
  }

  /** An empty `choices` array, or a falsy first choice, falls through to
      the serialisation of the whole payload. */
  lemma EmptyChoicesFallThrough(first: seq<Json>, stringify: Json -> string)
    requires first == [] || !Truthy(first[0])
    ensures var data := JObject(map["choices" := JArray(first)]);
            Normalize(data, stringify) == JString(stringify(data))
  {
  }

  /** A first choice with neither a truthy `message.content` nor a truthy
      `text` is shown as the serialisation of that choice. */
  lemma BareChoiceIsSerialised(c: Json, rest: seq<Json>, stringify: Json -> string)
    requires Truthy(c) && MessageContent(c).None? && !HasTruthy(c, "text")
    ensures Normalize(JObject(map["choices" := JArray([c] + rest)]), stringify) == JString(stringify(c))
  {
    var data := JObject(map["choices" := JArray([c] + rest)]);
    assert FirstChoice(data) == Some(c);
  }

  /** What the client makes of a finished exchange with the back end.
      `Body` is an HTTP response carrying a body, whatever its status (the
      status is never inspected); `NoBody` is a response without one (a
      204 or 205, say); `NetworkFailure` is a rejected `fetch`. */
  datatype Exchange = NetworkFailure | NoBody | Body(raw: string)

  /** What `fetchAnswer` resolves to: an answer value, or the
      "Backend unreachable" rejection. */
  datatype Reply = Answer(text: string) | Unreachable

  /** The text a chain result is shown as. A string is itself; a truthy
      non-string field (a number, say) is shown through its serialisation. */
  function AsText(j: Json, stringify: Json -> string): (t: string)
    ensures j.JString? ==> t == j.s
  {
    if j.JString? then j.s else stringify(j)
  }

  /** `fetchAnswer` as written (App.jsx, lines 178-190). `parse` stands for
      `JSON.parse`/`res.json()`, None being a syntax error. When `res.json()`
      fails, it has already read the body stream, so the following
      `res.text()` rejects (the Fetch standard's "consume body" refuses a
      disturbed body) and the outer `catch` turns the exchange into the
      "Backend unreachable" error: the `{answer: txt}` fallback is never
      reached. A response without a body is never disturbed: `res.json()`
      parses the empty text, and when that fails `res.text()` yields "" and
      the fallback does run. */
  function FetchAnswerAsWritten(ex: Exchange, parse: string -> Option<Json>, stringify: Json -> string): (r: Reply)
    ensures ex.NetworkFailure? ==> r == Unreachable
    ensures ex.NoBody? ==> r == Answer(AsText(Normalize(Payload("", parse), stringify), stringify))
    ensures ex.Body? && parse(ex.raw).None? ==> r == Unreachable
    ensures ex.Body? && parse(ex.raw).Some? ==> r == Answer(AsText(Normalize(parse(ex.raw).value, stringify), stringify))
  {
    match ex
    case NetworkFailure => Unreachable
    case NoBody =>
      var data := match parse("")
        case Some(d) => d
        case None => match parse("")
          case Some(d) => d
          case None => JObject(map["answer" := JString("")]);
      Answer(AsText(Normalize(data, stringify), stringify))
    case Body(raw) =>
      match parse(raw)
      case Some(data) => Answer(AsText(Normalize(data, stringify), stringify))
      case None => Unreachable
  }

  /** The payload the intended fallback builds from a body: the parsed JSON,
      or `{answer: txt}` when the text is not JSON. Parsing the same text a
      second time cannot succeed where the first attempt failed, so a single
      parse decides. */
  function Payload(raw: string, parse: string -> Option<Json>): (data: Json)
    ensures parse(raw).Some? ==> data == parse(raw).value
    ensures parse(raw).None? ==> data == JObject(map["answer" := JString(raw)])
  {
    match parse(raw)
    case Some(d) => d
    case None => JObject(map["answer" := JString(raw)])
  }

  /** `fetchAnswer` as evidently intended: the body text is read once, and a
      text that is not JSON becomes `{answer: txt}`. The replies the session
      model (`ChatApp`) receives are meant to come from this version. */
  function FetchAnswer(ex: Exchange, parse: string -> Option<Json>, stringify: Json -> string): (r: Reply)
    ensures ex.NetworkFailure? <==> r == Unreachable
    ensures ex.NoBody? ==> r == Answer(AsText(Normalize(Payload("", parse), stringify), stringify))
    ensures ex.Body? ==> r == Answer(AsText(Normalize(Payload(ex.raw, parse), stringify), stringify))
  {
    match ex
    case NetworkFailure => Unreachable
    case NoBody => Answer(AsText(Normalize(Payload("", parse), stringify), stringify))
    case Body(raw) => Answer(AsText(Normalize(Payload(raw, parse), stringify), stringify))
  }

  /** With the intended fallback, a non-empty body that is not JSON is shown
      as the answer, verbatim. */
  lemma PlainTextBodyIsTheAnswer(raw: string, parse: string -> Option<Json>, stringify: Json -> string)
    requires raw != "" && parse(raw).None?
    ensures FetchAnswer(Body(raw), parse, stringify) == Answer(raw)
  {
    assert HasTruthy(Payload(raw, parse), "answer");
  }

  /** An empty body that is not JSON has a falsy `answer` and is shown as
      the serialisation of `{answer: ""}`. */
  lemma EmptyBodyIsSerialised(parse: string -> Option<Json>, stringify: Json -> string)
    requires parse("").None?
    ensures FetchAnswer(Body(""), parse, stringify) == Answer(stringify(JObject(map["answer" := JString("")])))
  {
    var data := Payload("", parse);
    assert !HasTruthy(data, "answer");
    assert Get(data, "text").None? && Get(data, "choices").None?;
  }

  /** The two versions agree on every network failure, every response
      without a body and every JSON body. */
  lemma VersionsAgreeOnJson(ex: Exchange, parse: string -> Option<Json>, stringify: Json -> string)
    requires ex.NetworkFailure? || ex.NoBody? || parse(ex.raw).Some?
    ensures FetchAnswerAsWritten(ex, parse, stringify) == FetchAnswer(ex, parse, stringify)
  {
  }

  /** A response without a body reaches the fallback even as written, and,
      the empty text not being JSON, is shown as the serialisation of
      `{answer: ""}`. */
  lemma NoBodyIsSerialised(parse: string -> Option<Json>, stringify: Json -> string)
    requires parse("").None?
    ensures FetchAnswerAsWritten(NoBody, parse, stringify) == Answer(stringify(JObject(map["answer" := JString("")])))
  {
    EmptyBodyIsSerialised(parse, stringify);
  }

  /** The discrepancy: the plain-text body "hello", which the code is
      written to show as the answer, reaches the user as the
      cannot-reach-backend error. */
  lemma PlainTextBodyAsWrittenIsUnreachable(parse: string -> Option<Json>, stringify: Json -> string)
    requires parse("hello").None?
    ensures FetchAnswerAsWritten(Body("hello"), parse, stringify) == Unreachable
    ensures FetchAnswer(Body("hello"), parse, stringify) == Answer("hello")
  {
    PlainTextBodyIsTheAnswer("hello", parse, stringify);
  }
}
