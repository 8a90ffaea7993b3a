/** The handler's test scenarios, each stated as a lemma about the model:
    the events the handler's unit tests send and what they expect back. */
module SampleActionsTest {
  import opened TextOps
  import opened SampleActions

  /** A `/process-text` POST event carrying `text` and `operation`. */
  function TextEvent(text: string, operation: string): Event
  {
    Event("1.0", "sample-actions", ProcessTextPath, "POST",
          Some(map[JsonContentType := JsonFields(Some(text), Some(operation))]))
  }

  lemma TextEventServed(text: string, name: string, op: Operation, now: string)
    requires text != [] && name == OperationName(op)
    ensures var r := Handle(TextEvent(text, name), now);
      r.httpStatusCode == 200
      && BodyOf(r) == TextBody(RunOperation(op, text), text, name)
  {
    var e := TextEvent(text, name);
    assert JsonFieldsOf(e) == JsonFields(Some(text), Some(name));
    ParseOperationName(op);
    ProcessTextServed(e, now);
  }

  lemma CurrentTimeScenario(now: string)
    ensures var r := Handle(Event("1.0", "sample-actions", GetCurrentTimePath, "GET", None), now);
      r.messageVersion == "1.0" && r.actionGroup == "sample-actions" && r.apiPath == GetCurrentTimePath
      && r.httpStatusCode == 200 && BodyOf(r) == TimeBody(now)
  {
    CurrentTimeServed(Event("1.0", "sample-actions", GetCurrentTimePath, "GET", None), now);
  }

  // The report string is stated once for a symbolic count, so that the
  // solver never unfolds `WordCount` on a literal text.
  lemma CountWordsReports(text: string, n: nat)
    requires WordCount(text) == n
    ensures RunOperation(CountWords, text) == "Word count: " + NatToString(n)
  {
  }

  // Rendering the count 4 on its own, apart from any text.
  lemma FourReads()
    ensures "Word count: " + NatToString(4) == "Word count: 4"
  {
  }

  /** Four words separated by single spaces count as four. */
  lemma CountWordsOfFourWords(a: string, b: string, c: string, d: string)
    requires IsWord(a) && IsWord(b) && IsWord(c) && IsWord(d)
    ensures RunOperation(CountWords, a + [' '] + b + [' '] + c + [' '] + d) == "Word count: 4"
  {
    WordCountFourWords(a, b, c, d);
    CountWordsReports(a + [' '] + b + [' '] + c + [' '] + d, 4);
    FourReads();
  }

  /** The word-count test's text, "Hello world test message", is four
      words separated by single spaces. */
  lemma TestTextIsFourWords()
    ensures "Hello world test message" == "Hello" + [' '] + "world" + [' '] + "test" + [' '] + "message"
    ensures IsWord("Hello") && IsWord("world") && IsWord("test") && IsWord("message")
  {
  }

  /** A `count_words` request on four space-separated words, such as the
      test's text, reports "Word count: 4" and echoes text and operation. */
  lemma WordCountScenario(a: string, b: string, c: string, d: string, now: string)
    requires IsWord(a) && IsWord(b) && IsWord(c) && IsWord(d)
    ensures var text := a + [' '] + b + [' '] + c + [' '] + d;
      var r := Handle(TextEvent(text, "count_words"), now);
      r.httpStatusCode == 200
      && BodyOf(r) == TextBody("Word count: 4", text, "count_words")
  {
    var text := a + [' '] + b + [' '] + c + [' '] + d;
    CountWordsOfFourWords(a, b, c, d);
    TextEventServed(text, "count_words", CountWords, now);
  }

  /** The word-count test itself: "Hello world test message" counts four. */
  lemma HelloWorldScenario(now: string)
    ensures var r := Handle(TextEvent("Hello world test message", "count_words"), now);
      r.httpStatusCode == 200
      && BodyOf(r) == TextBody("Word count: 4", "Hello world test message", "count_words")
  {
    TestTextIsFourWords();
    WordCountScenario("Hello", "world", "test", "message", now);
  }

  // In this and the next two scenarios the test's literal values arrive as
  // parameters fixed by `requires`, which keeps the solver from unfolding
  // the handler over the literals before the case lemmas apply.
  lemma UppercaseScenario(text: string, now: string)
    requires text == "hello world"
    ensures var r := Handle(TextEvent(text, "to_uppercase"), now);
      r.httpStatusCode == 200
      && BodyOf(r) == TextBody("HELLO WORLD", text, "to_uppercase")
  {
    var u := ToUpperCase(text);
    assert u[0] == 'H' && u[1] == 'E' && u[2] == 'L' && u[3] == 'L' && u[4] == 'O' && u[5] == ' ';
    assert u[6] == 'W' && u[7] == 'O' && u[8] == 'R' && u[9] == 'L' && u[10] == 'D';
    TextEventServed(text, "to_uppercase", ToUppercase, now);
  }

  lemma InvalidOperationScenario(text: string, name: string, now: string)
    requires text == "test text" && name == "invalid_operation"
    ensures var r := Handle(TextEvent(text, name), now);
      r.httpStatusCode == 400
      && BodyOf(r) == ErrorBody("Unsupported operation: invalid_operation")
  {
    assert "Unsupported operation: " + name == "Unsupported operation: invalid_operation";
    var e := TextEvent(text, name);
    assert JsonFieldsOf(e) == JsonFields(Some(text), Some(name));
    assert name !in OperationEnum;
    UnsupportedOperationRejected(e, now);
  }

  lemma UnsupportedPathScenario(path: string, now: string)
    requires path == "/unsupported-path"
    ensures var r := Handle(Event("1.0", "sample-actions", path, "GET", None), now);
      r.httpStatusCode == 400
      && BodyOf(r) == ErrorBody("Unsupported API path: /unsupported-path")
  {
    assert "Unsupported API path: " + path == "Unsupported API path: /unsupported-path";
    UnknownPathRejected(Event("1.0", "sample-actions", path, "GET", None), now);
  }
}
