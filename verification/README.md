# Action-group callback dispatcher, modelled in Dafny

This project models the callback handler of a sample conversational-agent
integration. The agent platform calls the handler when the agent decides to
use one of its registered capabilities. Each request names an API path and
an HTTP method and may carry a JSON request body. The handler serves two
paths:

- `/get-current-time` with GET answers the current time.
- `/process-text` with POST reads `text` and `operation` from the JSON body
  and runs one of four text operations: `count_words`, `count_characters`,
  `to_uppercase` or `to_lowercase`.

Every outcome is folded into one response envelope. Success has status 200
and the operation's body. Every validation failure is caught and becomes
status 400 with an error body. Both kinds of envelope echo the request's
`messageVersion`, `actionGroup`, `apiPath` and `httpMethod`.

Files:

- `text_ops.dfy` (module `TextOps`) holds the string operations the handler
  relies on, each written the way JavaScript defines it:
  - the whitespace class `\s` and what `trim` removes (the same set of code points);
  - `trim`, `split(/\s+/)` and the `filter` that drops empty pieces;
  - decimal rendering of a count in a template literal;
  - `.length` in UTF-16 code units;
  - case conversion, restricted to ASCII letters.

  The word count is proved equal to an independent definition: the number of
  positions where a maximal non-whitespace run starts.
- `sample_actions.dfy` (module `SampleActions`) holds the handler:
  - the request, body, error and response datatypes;
  - `Dispatch`, the routing and validation done inside the `try` block, as a
    `Result`;
  - `Handle`, the `catch` and the envelope construction;
  - one lemma per outcome of the error taxonomy and per success path.
- `sample_actions_test.dfy` (module `SampleActionsTest`) states the handler's
  unit-test scenarios as lemmas.

The clock is a parameter: `Handle(event, now)` reports `now` as the current
time.

Two consequences of the code are worth stating, because a reader might
expect otherwise:

- Empty `text` never reaches `count_words`. The `!text` check at
  `sample-actions.ts:76` rejects it with "Missing required parameters"
  (`SampleActions.EmptyFieldRejected`). The text that does reach the count
  has at least one character, and it counts 0 exactly when it is all
  whitespace (`TextOps.NoWordsIffAllWhitespace`).
- `count_characters` reports `.length`, which counts UTF-16 code units: a
  character above U+FFFF counts twice (`TextOps.Utf16LengthExact`,
  `SampleActions.CountCharactersResult`).

## Model

| member | source | states |
|---|---|---|
| `TextOps.TrimStart` | src/lambda/action-groups/sample-actions.ts:84 | the result is a suffix of the text; everything removed is whitespace; the result does not start with whitespace |
| `TextOps.TrimEnd` | src/lambda/action-groups/sample-actions.ts:84 | the result is a prefix of the text; everything removed is whitespace; the result does not end with whitespace |
| `TextOps.AsciiWhitespace` | src/lambda/action-groups/sample-actions.ts:84 | among ASCII characters, the `\s` class used by `trim` and `split` (`IsWhitespace`) is exactly space, tab, line feed, vertical tab, form feed and carriage return |
| `TextOps.Trim` | src/lambda/action-groups/sample-actions.ts:84 | `trim()` is a slice of the text with only whitespace before and after it, and the slice neither starts nor ends with whitespace: exactly the outer whitespace runs are removed |
| `TextOps.SplitWhitespace` | src/lambda/action-groups/sample-actions.ts:84 | `split(/\s+/)` yields at least one piece; no piece holds whitespace; the first piece is empty exactly when the text is empty or starts with whitespace |
| `TextOps.SplitOneWord` | src/lambda/action-groups/sample-actions.ts:84 | a text without whitespace (the empty text included) splits into itself alone |
| `TextOps.SplitWordThenSeparator` | src/lambda/action-groups/sample-actions.ts:84 | a whitespace-free piece followed by a maximal whitespace run splits off as the first piece and the rest splits on its own; with an empty piece this is the empty first piece of a leading run. With `SplitOneWord` this fixes `split(/\s+/)` on every text |
| `TextOps.NonEmpty` | src/lambda/action-groups/sample-actions.ts:84 | the `filter(word => word.length > 0)` keeps exactly the non-empty pieces: a string is in the result if and only if it is a non-empty piece of the input, and each non-empty piece occurs in the result as often as in the input |
| `TextOps.NonEmptyAppend` | src/lambda/action-groups/sample-actions.ts:84 | filtering a concatenation is the concatenation of the filtered parts, so the kept pieces stay in their original order |
| `TextOps.SplitCountsRuns` | src/lambda/action-groups/sample-actions.ts:84 | after splitting on whitespace and dropping empty pieces, there is one piece per maximal non-whitespace run |
| `TextOps.WordCountIsMaximalRuns` | src/lambda/action-groups/sample-actions.ts:84 | `WordCount`, the `trim().split(/\s+/).filter(...).length` chain, equals the number of positions where a maximal non-whitespace run starts |
| `TextOps.NoWordsIffAllWhitespace` | src/lambda/action-groups/sample-actions.ts:84 | the word count is 0 exactly when the text is all whitespace |
| `TextOps.WordCountSeparated` | src/lambda/action-groups/sample-actions.ts:84 | a whitespace character separates words: the count of `a + c + b` is the count of `a` plus the count of `b` |
| `TextOps.WordCountSingleWord` | src/lambda/action-groups/sample-actions.ts:84 | a non-empty text without whitespace counts as one word |
| `TextOps.WordsOfJoinWords` | src/lambda/action-groups/sample-actions.ts:84 | splitting words joined by single spaces gives back exactly those words, so their count is the number of words |
| `TextOps.WordCountFourWords` | src/lambda/action-groups/sample-actions.ts:84 | four words separated by single spaces count as 4 |
| `TextOps.ToUpperCase` | src/lambda/action-groups/sample-actions.ts:93 | `toUpperCase()` keeps the length and maps each character on its own (ASCII letters only) |
| `TextOps.ToLowerCase` | src/lambda/action-groups/sample-actions.ts:97 | `toLowerCase()` keeps the length and maps each character on its own (ASCII letters only) |
| `TextOps.UpperCaseHasNoLower` | src/lambda/action-groups/sample-actions.ts:93 | an upper-cased text contains no lower-case ASCII letter |
| `TextOps.UpperCaseIdempotent` | src/lambda/action-groups/sample-actions.ts:93 | upper-casing twice is the same as upper-casing once |
| `TextOps.LowerCaseIdempotent` | src/lambda/action-groups/sample-actions.ts:97 | lower-casing twice is the same as lower-casing once |
| `TextOps.CaseConversionAbsorbs` | src/lambda/action-groups/sample-actions.ts:92-98 | for the ASCII mapping only: upper-casing undoes a preceding lower-casing, and lower-casing undoes a preceding upper-casing |
| `TextOps.DigitChar` | src/lambda/action-groups/sample-actions.ts:85 | each digit value renders as a decimal digit character that reads back as that value |
| `TextOps.NatToString` | src/lambda/action-groups/sample-actions.ts:85 | `${n}` is a non-empty string of decimal digits without leading zeros; it starts with '0' exactly when n is 0 |
| `TextOps.NatToStringRoundTrip` | src/lambda/action-groups/sample-actions.ts:85-89 | reading back the decimal rendering of a count gives the count |
| `TextOps.NatToStringInjective` | src/lambda/action-groups/sample-actions.ts:85 | different counts render differently |
| `TextOps.Utf16LengthExact` | src/lambda/action-groups/sample-actions.ts:89 | `.length` (`Utf16Length`) is the number of characters plus the number of positions holding a character above U+FFFF |
| `TextOps.Utf16LengthBounds` | src/lambda/action-groups/sample-actions.ts:89 | `.length` is between the number of characters and twice it, and equals the number of characters exactly when none is above U+FFFF |
| `SampleActions.ParseOperation` | src/lambda/action-groups/sample-actions.ts:82-101 | an operation name is accepted exactly when it is one of the four enum values, and the operation chosen carries that name |
| `SampleActions.ParseOperationName` | src/infrastructure/stacks/bedrock-agent-stack.ts:141 | every operation's name is in the schema's enum and selects that operation again |
| `SampleActions.RunOperation` | src/lambda/action-groups/sample-actions.ts:82-98 | `count_words` reports the decimal number of maximal non-whitespace runs; `count_characters` reports the decimal count of characters plus characters above U+FFFF; the case conversions keep the length |
| `SampleActions.CountWordsResult` | src/lambda/action-groups/sample-actions.ts:83-85 | `count_words` returns "Word count: " followed by the decimal number of maximal non-whitespace runs, which reads back as that number |
| `SampleActions.CountCharactersResult` | src/lambda/action-groups/sample-actions.ts:88-90 | `count_characters` returns "Character count: " followed by a decimal number that reads back as the number of characters of the untrimmed text plus the number of characters above U+FFFF; so it lies between the number of characters and twice it, and equals the number of characters when none is above U+FFFF |
| `SampleActions.CaseConversionStable` | src/lambda/action-groups/sample-actions.ts:92-98 | a case conversion keeps the length, and applying it to its own result changes nothing |
| `SampleActions.ErrorMessageIdentifiesError` | src/lambda/action-groups/sample-actions.ts:68-115 | the texts `ErrorMessage` gives the four thrown errors (lines 68, 77, 101, 110, 115) tell them apart: equal error messages come from the same kind of failure; for an unknown path or an unknown operation, also from the same offending value |
| `SampleActions.ProcessText` | src/lambda/action-groups/sample-actions.ts:74-108 | a text request succeeds exactly when `text` and `operation` are both truthy (`Truthy`: present and non-empty) and the operation is in the enum; it fails with the missing-parameters error exactly when one of them is not truthy, and otherwise with the unsupported-operation error naming the operation; a success echoes the text and the operation name |
| `SampleActions.Dispatch` | src/lambda/action-groups/sample-actions.ts:60-116 | the `try` block succeeds exactly for the requests `Accepted` describes (GET `/get-current-time`, or POST `/process-text` with non-empty `text` and an enum `operation`); the time query returns the clock reading; it fails with the unsupported-path error exactly for the other paths, naming the path, and with the unsupported-method error naming method and path only for a known path with the wrong method |
| `SampleActions.Handle` | src/lambda/action-groups/sample-actions.ts:49-142 | the envelope echoes `messageVersion`, `actionGroup`, `apiPath` and `httpMethod`; the body sits under `application/json`; the status is 200 exactly when the request is `Accepted` and 400 otherwise; the body is an error body exactly when the status is 400 |
| `SampleActions.CurrentTimeServed` | src/lambda/action-groups/sample-actions.ts:62-66 | GET `/get-current-time` gives 200 and reports the clock reading |
| `SampleActions.UnknownPathRejected` | src/lambda/action-groups/sample-actions.ts:114-115 | any other path gives 400 with "Unsupported API path: <path>" |
| `SampleActions.WrongMethodRejected` | src/lambda/action-groups/sample-actions.ts:67-68 | a known path with the wrong method gives 400 with "Unsupported method <method> for <path>", for either path (also lines 109-110) |
| `SampleActions.MissingParametersRejected` | src/lambda/action-groups/sample-actions.ts:74-77 | a POST to `/process-text` with `text` or `operation` absent or empty gives 400 with "Missing required parameters: text and operation" |
| `SampleActions.MissingBodyRejected` | src/lambda/action-groups/sample-actions.ts:74-77 | a POST to `/process-text` with no body, or no `application/json` entry, reads as `{}` (`JsonFieldsOf`) and gives 400 with "Missing required parameters: text and operation" |
| `SampleActions.EmptyFieldRejected` | src/lambda/action-groups/sample-actions.ts:76-77 | an empty `text` or `operation` is falsy and gives 400 with "Missing required parameters: text and operation", so no operation runs on the empty text |
| `SampleActions.UnsupportedOperationRejected` | src/lambda/action-groups/sample-actions.ts:100-101 | a POST to `/process-text` with both fields present and an operation outside the enum gives 400 with "Unsupported operation: <operation>" |
| `SampleActions.ProcessTextServed` | src/lambda/action-groups/sample-actions.ts:104-108 | a valid text request gives 200 with the operation's result, the original text unchanged and the operation name as received, and that name is the operation that ran |
| `SampleActionsTest.TextEventServed` | test/lambda/sample-actions.test.ts:52-84 | a test-shaped text event with a valid operation is served with the operation's result and echoes the text and the operation name |
| `SampleActionsTest.CurrentTimeScenario` | test/lambda/sample-actions.test.ts:21-48 | the current-time test event gets 200, the echoed message version, action group and path, and the clock reading |
| `SampleActionsTest.CountWordsOfFourWords` | test/lambda/sample-actions.test.ts:81 | `count_words` on four words separated by single spaces returns "Word count: 4" |
| `SampleActionsTest.TestTextIsFourWords` | test/lambda/sample-actions.test.ts:69 | the test's "Hello world test message" is four words separated by single spaces |
| `SampleActionsTest.WordCountScenario` | test/lambda/sample-actions.test.ts:52-84 | such a text sent with `count_words` gets 200 with "Word count: 4" and echoes the text and `count_words` |
| `SampleActionsTest.HelloWorldScenario` | test/lambda/sample-actions.test.ts:52-84 | "Hello world test message" with `count_words` gets 200 with "Word count: 4" and echoes the text and `count_words` |
| `SampleActionsTest.UppercaseScenario` | test/lambda/sample-actions.test.ts:86-118 | "hello world" with `to_uppercase` gets 200 with "HELLO WORLD" and echoes the text and operation |
| `SampleActionsTest.InvalidOperationScenario` | test/lambda/sample-actions.test.ts:120-150 | `invalid_operation` gets 400 with "Unsupported operation: invalid_operation" |
| `SampleActionsTest.UnsupportedPathScenario` | test/lambda/sample-actions.test.ts:154-176 | `/unsupported-path` gets 400 with "Unsupported API path: /unsupported-path" |

## Left out

- The clock read `new Date().toISOString()` is left out. `Handle` takes the time as an opaque string `now` and reports it unchanged. The ISO-8601 format is not modelled.
- Logging of the received event and of the response (`console.log` and `console.error`) is left out. It does not affect the result.
- The `JSON.stringify` serialisation of the body is left out. The body is the datatype `Body`, kept under the `application/json` key of `responseBody`.
- `async` and the `Promise` result are left out. The handler awaits nothing, so the model is a plain function. The unused `context` argument is dropped too.
- The event fields `agent`, `inputText`, `sessionId` and `parameters` are not modelled, because the handler never reads them. The optional `sessionAttributes` and `promptSessionAttributes` are not modelled, because the handler never sets them.
- `requestBody` is modelled as its `content` map. A body without `content` reads no fields, so it behaves exactly like a missing body.
- `text` and `operation` are modelled as optional strings. JSON values of other types are not modelled: a number, or an object whose `.trim()` throws a TypeError. For the same reason the `'Unknown error occurred'` fallback cannot be reached in the model, because every error the modelled code throws is an `Error`.
- JavaScript strings may hold lone surrogates. Dafny characters are Unicode scalar values, so such strings are not modelled.
- `TextOps.ToUpperCase`: only ASCII letters are mapped. JavaScript's full Unicode case mapping is not modelled. That mapping changes characters such as 'é', and some characters change length ('ß' becomes "SS").
- `TextOps.ToLowerCase`: only ASCII letters are mapped. JavaScript's full Unicode lower-case mapping is not modelled, including its context-sensitive final sigma.
- `TextOps.UpperCaseIdempotent`, `TextOps.LowerCaseIdempotent` and `SampleActions.CaseConversionStable` are proved for the ASCII mapping only. Length preservation is not claimed for full Unicode case mapping.
- `TextOps.CaseConversionAbsorbs` is proved for the ASCII mapping only, and it does not hold for full Unicode case mapping: "ß" upper-cases to "SS", which lower-cases to "ss".
- `SampleActions.RunOperation`: the case-conversion branches are stated through the ASCII mapping and the length they keep, so they inherit the ASCII limitation above.
- `src/agent/agent-handler.ts` is not part of this model. It is a network client: it makes the streaming agent invocation, decodes the completion chunks, and builds session ids from the clock and a random number. Its convenience wrappers are fixed prompt templates.
- `src/infrastructure/stacks/bedrock-agent-stack.ts` and `src/infrastructure/app.ts` are not part of this model. They hold declarative resource and permission definitions. Only the operation enum of their API schema is reflected, as `SampleActions.OperationEnum`.
