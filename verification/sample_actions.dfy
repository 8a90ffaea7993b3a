/** The action-group callback: the agent platform calls it with an API path,
    an HTTP method and an optional JSON request body; it answers the current
    time or runs one of four text operations, and folds every outcome, error
    or not, into one response envelope that echoes the request's routing
    fields. */
module SampleActions {
  import opened TextOps

  datatype Option<+T> = None | Some(value: T)

  datatype Result<+T, +E> = Success(value: T) | Failure(error: E)

  const GetCurrentTimePath: string := "/get-current-time"
  const ProcessTextPath: string := "/process-text"
  const JsonContentType: string := "application/json"

  // ---------------------------------------------------------------------------
  // Operations
  // ---------------------------------------------------------------------------

  datatype Operation = CountWords | CountCharacters | ToUppercase | ToLowercase

  /** The `enum` of the `operation` property in the action group's API schema. */
  const OperationEnum: seq<string> := ["count_words", "count_characters", "to_uppercase", "to_lowercase"]

  function OperationName(op: Operation): string
  {
    match op
    case CountWords => "count_words"
    case CountCharacters => "count_characters"
    case ToUppercase => "to_uppercase"
    case ToLowercase => "to_lowercase"
  }

  /** The cases of the handler's inner `switch (operation)`. */
  function ParseOperation(s: string): (r: Option<Operation>)
    ensures r.Some? <==> s in OperationEnum
    ensures r.Some? ==> OperationName(r.value) == s
  {
    if s == "count_words" then Some(CountWords)
    else if s == "count_characters" then Some(CountCharacters)
    else if s == "to_uppercase" then Some(ToUppercase)
    else if s == "to_lowercase" then Some(ToLowercase)
    else None
  }

  lemma ParseOperationName(op: Operation)
    ensures OperationName(op) in OperationEnum
    ensures ParseOperation(OperationName(op)) == Some(op)
  {
  }

  /** The result string the handler computes for `op` applied to `text`:
      the word count is the number of maximal non-whitespace runs, the
      character count is the UTF-16 length, and a case conversion keeps the
      length of the text. */
  function RunOperation(op: Operation, text: string): (r: string)
    ensures op == CountWords ==> r == "Word count: " + NatToString(MaximalRuns(text))
    ensures op == CountCharacters ==> r == "Character count: " + NatToString(|text| + |AstralPositions(text)|)
    ensures op == ToUppercase || op == ToLowercase ==> |r| == |text|
  {
    match op
    case CountWords =>
      WordCountIsMaximalRuns(text);
      "Word count: " + NatToString(WordCount(text))
    case CountCharacters =>
      Utf16LengthExact(text);
      "Character count: " + NatToString(Utf16Length(text))
    case ToUppercase => ToUpperCase(text)
    case ToLowercase => ToLowerCase(text)
  }

  /** `count_words` reports, in decimal, the number of maximal
      non-whitespace runs of the text. */
  lemma CountWordsResult(text: string)
    ensures var r := RunOperation(CountWords, text);
      r == "Word count: " + NatToString(MaximalRuns(text))
      && |r| > 12 && (forall i :: 12 <= i < |r| ==> IsDigit(r[i]))
      && ParseDecimal(r[12..]) == MaximalRuns(text)
  {
    WordCountIsMaximalRuns(text);
    var r := RunOperation(CountWords, text);
    assert r[12..] == NatToString(MaximalRuns(text));
    NatToStringRoundTrip(MaximalRuns(text));
  }

  /** `count_characters` reports, in decimal, the UTF-16 length of the text
      untrimmed: one per code point plus one per code point beyond U+FFFF,
      so the number of characters exactly when none lies beyond U+FFFF. */
  lemma CountCharactersResult(text: string)
    ensures var r := RunOperation(CountCharacters, text);
      |r| > 17 && (forall i :: 17 <= i < |r| ==> IsDigit(r[i]))
      && ParseDecimal(r[17..]) == |text| + |AstralPositions(text)|
      && |text| <= ParseDecimal(r[17..]) <= 2 * |text|
      && ((forall i :: 0 <= i < |text| ==> !IsAstral(text[i])) ==> r == "Character count: " + NatToString(|text|))
  {
    var r := RunOperation(CountCharacters, text);
    assert r[17..] == NatToString(Utf16Length(text));
    NatToStringRoundTrip(Utf16Length(text));
    Utf16LengthExact(text);
    Utf16LengthBounds(text);
  }

  /** Running a case conversion on its own result changes nothing, and the
      result keeps the length of the text. */
  lemma CaseConversionStable(op: Operation, text: string)
    requires op == ToUppercase || op == ToLowercase
    ensures |RunOperation(op, text)| == |text|
    ensures RunOperation(op, RunOperation(op, text)) == RunOperation(op, text)
  {
    if op == ToUppercase {
      UpperCaseIdempotent(text);
    } else {
      LowerCaseIdempotent(text);
    }
  }

  // ---------------------------------------------------------------------------
  // Requests, errors and responses
  // ---------------------------------------------------------------------------

  /** The fields of the JSON request body that the handler reads. */
  datatype JsonFields = JsonFields(text: Option<string>, operation: Option<string>)

  /** The event fields the handler uses; `requestBody` is the body's
      `content`, keyed by content type. */
  datatype Event = Event(
    messageVersion: string,
    actionGroup: string,
    apiPath: string,
    httpMethod: string,
    requestBody: Option<map<string, JsonFields>>)

  /** `requestBody?.content?.['application/json'] || {}`. */
  function JsonFieldsOf(e: Event): JsonFields
  {
    match e.requestBody
    case None => JsonFields(None, None)
    case Some(content) =>
      if JsonContentType in content then content[JsonContentType] else JsonFields(None, None)
  }

  /** JavaScript truthiness of an optional string: present and non-empty. */
  predicate Truthy(o: Option<string>)
  {
    o.Some? && o.value != ""
  }

  /** The four errors the handler throws and catches. */
  datatype HandlerError =
    | UnsupportedMethod(httpMethod: string, path: string)
    | MissingParameters
    | UnsupportedOperation(operation: string)
    | UnsupportedPath(path: string)

  function ErrorMessage(e: HandlerError): string
  {
    match e
    case UnsupportedMethod(m, p) => "Unsupported method " + m + " for " + p
    case MissingParameters => "Missing required parameters: text and operation"
    case UnsupportedOperation(op) => "Unsupported operation: " + op
    case UnsupportedPath(p) => "Unsupported API path: " + p
  }

  /** The error message tells which check failed; for an unknown path or
      an unknown operation it also gives back the offending value. */
  lemma ErrorMessageIdentifiesError(e1: HandlerError, e2: HandlerError)
    requires ErrorMessage(e1) == ErrorMessage(e2)
    ensures e1.UnsupportedMethod? <==> e2.UnsupportedMethod?
    ensures e1.MissingParameters? <==> e2.MissingParameters?
    ensures e1.UnsupportedOperation? ==> e1 == e2
    ensures e1.UnsupportedPath? ==> e1 == e2
  {
    var m := ErrorMessage(e1);
    assert |m| > 12;
    assert m[0] == ErrorMessage(e1)[0] == ErrorMessage(e2)[0];
    assert m[12] == ErrorMessage(e1)[12] == ErrorMessage(e2)[12];
    if e1.UnsupportedOperation? && e2.UnsupportedOperation? {
      assert e1.operation == m[23..] == e2.operation;
    }
    if e1.UnsupportedPath? && e2.UnsupportedPath? {
      assert e1.path == m[22..] == e2.path;
    }
  }

  /** The body of the response, before JSON serialisation. */
  datatype Body =
    | TimeBody(currentTime: string)
    | TextBody(result: string, originalText: string, operation: string)
    | ErrorBody(error: string)

  datatype Response = Response(
    messageVersion: string,
    actionGroup: string,
    apiPath: string,
    httpMethod: string,
    httpStatusCode: int,
    responseBody: map<string, Body>)

  // ---------------------------------------------------------------------------
  // The handler
  // ---------------------------------------------------------------------------

  /** The `/process-text` POST branch: field validation, then the operation. */
  function ProcessText(fields: JsonFields): (r: Result<Body, HandlerError>)
    ensures r.Success? <==>
      Truthy(fields.text) && Truthy(fields.operation) && fields.operation.value in OperationEnum
    ensures r.Failure? ==>
      (r.error == MissingParameters <==> !Truthy(fields.text) || !Truthy(fields.operation))
    ensures r.Failure? && r.error != MissingParameters ==>
      r.error == UnsupportedOperation(fields.operation.value)
    ensures r.Success? ==>
      r.value.TextBody? && r.value.originalText == fields.text.value
      && r.value.operation == fields.operation.value
  {
    if !Truthy(fields.text) || !Truthy(fields.operation) then Failure(MissingParameters)
    else
      var text, name := fields.text.value, fields.operation.value;
      match ParseOperation(name)
      case None => Failure(UnsupportedOperation(name))
      case Some(op) => Success(TextBody(RunOperation(op, text), text, name))
  }

  /** The `try` block: route on the path, then the method. `now` stands for
      the clock reading the time query reports. */
  function Dispatch(e: Event, now: string): (r: Result<Body, HandlerError>)
    ensures r.Success? <==> Accepted(e)
    ensures r.Success? && e.apiPath == GetCurrentTimePath ==> r.value == TimeBody(now)
    ensures r.Failure? ==>
      (r.error.UnsupportedPath? <==> e.apiPath != GetCurrentTimePath && e.apiPath != ProcessTextPath)
    ensures r.Failure? && r.error.UnsupportedPath? ==> r.error.path == e.apiPath
    ensures r.Failure? && r.error.UnsupportedMethod? ==>
      r.error == UnsupportedMethod(e.httpMethod, e.apiPath)
      && ((e.apiPath == GetCurrentTimePath && e.httpMethod != "GET")
          || (e.apiPath == ProcessTextPath && e.httpMethod != "POST"))
  {
    if e.apiPath == GetCurrentTimePath then
      if e.httpMethod == "GET" then Success(TimeBody(now))
      else Failure(UnsupportedMethod(e.httpMethod, e.apiPath))
    else if e.apiPath == ProcessTextPath then
      if e.httpMethod == "POST" then ProcessText(JsonFieldsOf(e))
      else Failure(UnsupportedMethod(e.httpMethod, e.apiPath))
    else Failure(UnsupportedPath(e.apiPath))
  }

  /** The requests the action group serves successfully. */
  predicate Accepted(e: Event)
  {
    (e.apiPath == GetCurrentTimePath && e.httpMethod == "GET")
    || (e.apiPath == ProcessTextPath && e.httpMethod == "POST"
        && var f := JsonFieldsOf(e);
        f.text.Some? && f.text.value != ""
        && f.operation.Some? && f.operation.value in OperationEnum)
  }

  /** The handler: the `catch` turns an error into status 400 and an error
      body; the envelope echoes the routing fields of the event. */
  function Handle(e: Event, now: string): (r: Response)
    ensures r.messageVersion == e.messageVersion && r.actionGroup == e.actionGroup
    ensures r.apiPath == e.apiPath && r.httpMethod == e.httpMethod
    ensures r.httpStatusCode == 200 || r.httpStatusCode == 400
    ensures r.httpStatusCode == 200 <==> Accepted(e)
    ensures r.responseBody.Keys == {JsonContentType}
    ensures r.responseBody[JsonContentType].ErrorBody? <==> r.httpStatusCode == 400
  {
    var (status, body) :=
      match Dispatch(e, now)
      case Success(b) => (200, b)
      case Failure(err) => (400, ErrorBody(ErrorMessage(err)));
    Response(e.messageVersion, e.actionGroup, e.apiPath, e.httpMethod, status,
             map[JsonContentType := body])
  }

  function BodyOf(r: Response): Body
    requires JsonContentType in r.responseBody
  {
    r.responseBody[JsonContentType]
  }

  // ---------------------------------------------------------------------------
  // The handler, case by case
  // ---------------------------------------------------------------------------

  lemma CurrentTimeServed(e: Event, now: string)
    requires e.apiPath == GetCurrentTimePath && e.httpMethod == "GET"
    ensures Handle(e, now).httpStatusCode == 200
    ensures BodyOf(Handle(e, now)) == TimeBody(now)
  {
  }

  lemma UnknownPathRejected(e: Event, now: string)
    requires e.apiPath != GetCurrentTimePath && e.apiPath != ProcessTextPath
    ensures Handle(e, now).httpStatusCode == 400
    ensures BodyOf(Handle(e, now)) == ErrorBody("Unsupported API path: " + e.apiPath)
  {
  }

  lemma WrongMethodRejected(e: Event, now: string)
    requires (e.apiPath == GetCurrentTimePath && e.httpMethod != "GET")
          || (e.apiPath == ProcessTextPath && e.httpMethod != "POST")
    ensures Handle(e, now).httpStatusCode == 400
    ensures BodyOf(Handle(e, now)) == ErrorBody("Unsupported method " + e.httpMethod + " for " + e.apiPath)
  {
  }

  lemma MissingParametersRejected(e: Event, now: string)
    requires e.apiPath == ProcessTextPath && e.httpMethod == "POST"
    requires !Truthy(JsonFieldsOf(e).text) || !Truthy(JsonFieldsOf(e).operation)
    ensures Handle(e, now).httpStatusCode == 400
    ensures BodyOf(Handle(e, now)) == ErrorBody("Missing required parameters: text and operation")
  {
  }

  /** A text request without a JSON body (or without its `application/json`
      entry) is treated as an empty object and fails validation. */
  lemma MissingBodyRejected(e: Event, now: string)
    requires e.apiPath == ProcessTextPath && e.httpMethod == "POST"
    requires e.requestBody.None? || JsonContentType !in e.requestBody.value
    ensures Handle(e, now).httpStatusCode == 400
    ensures BodyOf(Handle(e, now)) == ErrorBody("Missing required parameters: text and operation")
  {
  }

  /** An empty `text` or `operation` is falsy: the request is rejected before
      any operation runs, so `count_words` never sees the empty text. */
  lemma EmptyFieldRejected(e: Event, now: string)
    requires e.apiPath == ProcessTextPath && e.httpMethod == "POST"
    requires JsonFieldsOf(e).text == Some("") || JsonFieldsOf(e).operation == Some("")
    ensures Handle(e, now).httpStatusCode == 400
    ensures BodyOf(Handle(e, now)) == ErrorBody("Missing required parameters: text and operation")
  {
  }

  lemma UnsupportedOperationRejected(e: Event, now: string)
    requires e.apiPath == ProcessTextPath && e.httpMethod == "POST"
    requires Truthy(JsonFieldsOf(e).text) && Truthy(JsonFieldsOf(e).operation)
    requires JsonFieldsOf(e).operation.value !in OperationEnum
    ensures Handle(e, now).httpStatusCode == 400
    ensures BodyOf(Handle(e, now)) == ErrorBody("Unsupported operation: " + JsonFieldsOf(e).operation.value)
  {
  }

  /** A served text request reports the operation's result together with the
      text and the operation name exactly as received. */
  lemma ProcessTextServed(e: Event, now: string)
    requires e.apiPath == ProcessTextPath && e.httpMethod == "POST"
    requires Truthy(JsonFieldsOf(e).text) && Truthy(JsonFieldsOf(e).operation)
    requires JsonFieldsOf(e).operation.value in OperationEnum
    ensures var f := JsonFieldsOf(e);
      var op := ParseOperation(f.operation.value).value;
      Handle(e, now).httpStatusCode == 200
      && OperationName(op) == f.operation.value
      && BodyOf(Handle(e, now)) == TextBody(RunOperation(op, f.text.value), f.text.value, f.operation.value)
  {
  }
}
