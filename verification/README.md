# A Dafny model of the Website A chat relay

`serverA.js` is an Express relay. It sits between a learning-session web
page and a hosted completion API. For each `POST /chat` it does five things:

1. It builds the user's message from the `text` field.
2. It appends the OCR text of an uploaded image, when there is any.
3. It refuses any message that contains one of six Section Two question
   openings, and returns a fixed reply instead.
4. It forwards every other message upstream and reduces either of the two
   response shapes (`choices` or `candidates`) to one non-empty answer.
5. It appends one CSV line per interaction to a log.

Any exception inside the handler's `try` becomes HTTP 500 with the error
`proxy_error`.

This project models that core as pure functions and proves what it promises.

| module | file | models |
|---|---|---|
| `Results` | `results.dfy` | `Option`/`Result`, and JavaScript's `a \|\| b` on strings (`OrElse`) |
| `Text` | `text.dfy` | `String.prototype.includes`, `replace(/c/g, …)`, `Array.prototype.join` and `trim` with the ECMAScript white-space and line-terminator set; also a character count and a splitter, which are proof tools (below) |
| `Logger` | `logger.dfy` | `logInteraction`: field escaping and the line layout; also a reader for the line, which is a proof tool (below) |
| `Denylist` | `denylist.dfy` | `bannedPhrases` and the `.some(p => message.includes(p))` filter |
| `Message` | `message.dfy` | the user's text with the OCR text appended under its label |
| `Normalizer` | `normalizer.dfy` | reduction of the parsed upstream body to an answer |
| `Handler` | `handler.dfy` | the `/chat` decision flow: reply, logged record, and forwarded prompt |

The parts of the handler that do I/O are parameters of `Handler.HandleChat`:

- `timestamp` is the log time.
- `ip` is the caller's address.
- `ocr` is what Tesseract returned: no image, recognised text, or failure.
- `upstream` is the completion API, written as a function from the prompt to
  "unreachable", or to an HTTP status with a parsed JSON body.
- `appendOk` says whether the log append returned normally.

The result is an `Exchange`. It holds the client reply, the `LogRecord`
the handler tried to append (its line is `Logger.LogLine(record)`; it is
recorded even when the append throws), and the prompt the handler tried to
send upstream.

A JSON `null` where the code reads a property throws a `TypeError`. In the
model this is the `Null…` variant of the corresponding datatype, and
`Normalizer.Normalize` returns `Err(TypeError)` for it. The handler turns
that error into `proxy_error`, as the `catch` does.

Some members have no counterpart in `serverA.js`: `Text.Count`,
`Text.Span`, `Text.Split` and `Logger.ParseRecord`, with their lemmas. The
server only appends to its log (serverA.js:25); it never reads a line back
and never splits an answer. These members are proof tools. They let the
model state that a log line holds exactly ten quotes, that it reads back
as its five fields, and that the newline join of the part texts loses
nothing when no part text holds a newline. Their rows cite the source line whose property they help to
state.

## Model

| member | source | states |
|---|---|---|
| Results.OrElse | serverA.js:40 | `a \|\| b` on an optional string: the string itself when it is present and non-empty, otherwise the fallback; the result is empty only when both are |
| Text.IncludesFrom | serverA.js:54 | the scan from position `i` succeeds exactly when the phrase occurs at some position at or after `i` |
| Text.Includes | serverA.js:54 | `includes` is true exactly when the phrase occurs somewhere in the message as a contiguous substring |
| Text.OccursInContext | serverA.js:54 | an occurrence survives any text added before or after it |
| Text.AbsentCharBlocksOccurrence | serverA.js:54 | a phrase holding a character the message lacks cannot occur in it |
| Text.ReplaceChar | serverA.js:24 | the global replace keeps the length, maps every occurrence of the character to the substitute, and leaves every other position alone |
| Text.ReplaceCharRemoves | serverA.js:24 | after the replace, the replaced character no longer occurs |
| Text.ReplaceCharIdempotent | serverA.js:24 | replacing a second time changes nothing |
| Text.Count | serverA.js:24 | proof tool: the number of occurrences of a character is bounded by the length, and is zero exactly when the character is absent |
| Text.CountConcat | serverA.js:24 | proof tool: counting is additive over concatenation |
| Text.Join | serverA.js:85 | joining no strings gives `""` and joining one gives that string; a join of one or more strings is exactly as long as all its parts plus one separator between each two, and starts with the first part |
| Text.JoinCons | serverA.js:88 | a join of several strings is the first, the separator, and the join of the rest |
| Text.Span | serverA.js:24 | proof tool: the length of the prefix before the first occurrence of a character: that prefix is free of it, and the character stands right after it |
| Text.SpanAfterFreePrefix | serverA.js:24 | proof tool: for a prefix free of the character, the span stops exactly at the character that follows it |
| Text.Split | serverA.js:88 | proof tool: splitting on a character gives at least one piece, and no piece holds that character |
| Text.SplitAfterFreePrefix | serverA.js:88 | proof tool: splitting a free prefix, the character and a tail gives the prefix, followed by the split of the tail |
| Text.SplitJoin | serverA.js:85-88 | part texts without newlines are recovered exactly by splitting their newline join, so the join loses nothing |
| Text.JoinSplit | serverA.js:85-88 | joining the pieces of a split gives back the original string |
| Text.TrimStart | serverA.js:48 | the result is a suffix of the input; everything dropped is white space, and a non-empty result starts with a non-space |
| Text.TrimEnd | serverA.js:48 | the result is a prefix of the input; everything dropped is white space, and a non-empty result ends with a non-space |
| Text.TrimBothEmptyIffBlank | serverA.js:48 | trimming both ends leaves nothing exactly when every character is white space |
| Text.Trim | serverA.js:48 | `trim()` is falsy exactly when the text is blank |
| Logger.EscapeField | serverA.js:24 | an escaped field keeps its length, holds no `"`, has `'` wherever the input had `"`, and is otherwise unchanged |
| Logger.EscapeFieldIdempotent | serverA.js:24 | escaping an escaped field changes nothing |
| Logger.EscapeFieldIsLossy | serverA.js:24 | the escaping cannot be undone: `"a"` and `'a'` are logged alike |
| Logger.Record | serverA.js:24 | a record of fields starts with a quote and ends with a newline |
| Logger.ParseRecord | serverA.js:24 | proof tool: whatever the reader accepts has at least one field, and no field holds a quote |
| Logger.ParseFirstField | serverA.js:24 | proof tool: reading a line takes off a quote-free first field at the first closing quote, then expects a newline or a comma |
| Logger.RecordFirstField | serverA.js:24 | a record is its first quoted field followed by the newline, or by `,` and the record of the remaining fields |
| Logger.ParseRecordOfRecord | serverA.js:24 | reading a record of quote-free fields back gives exactly those fields |
| Logger.LogFieldsRecord | serverA.js:24 | the line written is the five fields in order (timestamp, site, escaped ip, escaped input, escaped output), each in double quotes, separated by commas, ended by a newline |
| Logger.LogFields | serverA.js:24 | the five fields in the order they are written: timestamp and site as given, then ip, input and output escaped; the escaped three never hold a quote, and all five are quote-free when timestamp and site are |
| Logger.LogLine | serverA.js:23-26 | a log line is the five fields plus exactly fifteen characters of framing, and it starts with a quote and ends with a quote and a newline |
| Logger.LogLineRoundTrip | serverA.js:23-26 | with a quote-free timestamp and site, the line reads back as its five fields, the last three escaped |
| Logger.RecordQuoteCount | serverA.js:24 | a record of quote-free fields holds exactly two quotes per field |
| Logger.LogLineQuoteCount | serverA.js:23-26 | with a quote-free timestamp and site, a log line holds exactly ten quotes, so no field can break out of its quotes |
| Denylist.SomeIncluded | serverA.js:54 | `phrases.some(p => message.includes(p))` is true exactly when some phrase of the list occurs in the message |
| Denylist.IsBanned | serverA.js:29-36 | a message is refused exactly when one of the six phrases occurs in it |
| Denylist.BannedInContext | serverA.js:54 | text added before or after a refused message cannot get it through |
| Denylist.EachPhraseIsBanned | serverA.js:29-36 | each of the six phrases on its own is refused |
| Denylist.QuotedQuestionIsBanned | serverA.js:29-36 | example: the first phrase followed by `" ..."` is refused |
| Denylist.PhrasesStartCapitalised | serverA.js:29-36 | every phrase is non-empty and starts with a capital letter |
| Denylist.LowerCaseIsAllowed | serverA.js:54 | the match is case-sensitive: a message without capital letters is never refused |
| Denylist.ShortMessageIsAllowed | serverA.js:29-36 | a message shorter than the shortest phrase (44 characters) is never refused |
| Message.HasOcrText | serverA.js:48 | `ocrText && ocrText.trim()` holds exactly when there is recognised text that is not blank |
| Message.Merge | serverA.js:40-51 | without an image, or with a blank OCR text, the message is the user's text (`""` when missing or empty); otherwise it is that text, the label, and the OCR text |
| Message.MergeKeepsTextBan | serverA.js:49-54 | appending OCR text cannot unblock a refused text |
| Message.MergeKeepsOcrBan | serverA.js:48-54 | OCR text holding a banned phrase gets the whole message refused, whatever the user typed |
| Message.BannedHasNonBlank | serverA.js:48 | a refused text is never blank, so the `trim` guard never drops a refused OCR text |
| Normalizer.PartTexts | serverA.js:85-88 | mapping part texts throws exactly when some part is `null`; otherwise it gives one text per part, in order, with a missing text read as `""` |
| Normalizer.JoinParts | serverA.js:85-88 | the newline join of the part texts throws a `TypeError` exactly when some part is `null`, and otherwise joins the texts in order |
| Normalizer.ChoiceAnswer | serverA.js:85 | the `\|\|` chain of the first choice: a `null` choice throws; a truthy `message.content` wins; otherwise a truthy `text`; otherwise, when the message has `parts`, their newline-joined texts (throwing on a `null` part); otherwise `""` |
| Normalizer.CandidateParts | serverA.js:87 | `content?.parts \|\| []`: the parts, or none when `content` or `parts` is missing |
| Normalizer.CandidateAnswer | serverA.js:87-88 | a `null` candidate throws; otherwise the newline-joined texts of its parts, throwing exactly when a part is `null`, and `""` when `content` or `parts` is missing |
| Normalizer.Classify | serverA.js:83-89 | a non-empty `choices` is read first, then a non-empty `candidates`, otherwise neither; reading a `null` body throws |
| Normalizer.Normalize | serverA.js:82-90 | the answer is never empty, and normalising fails with a `TypeError` exactly when a read of the body dereferences `null` |
| Normalizer.SameShapeSameAnswer | serverA.js:83-89 | only the first element of the array that was chosen matters for the answer |
| Normalizer.ChoicesWin | serverA.js:83-86 | a non-empty `choices` hides whatever `candidates` holds |
| Normalizer.ContentFirst | serverA.js:85 | a non-empty `message.content` of the first choice is the answer |
| Normalizer.TextSecond | serverA.js:85 | otherwise a non-empty `text` of the first choice is the answer |
| Normalizer.PartsThird | serverA.js:85-90 | otherwise the answer is the newline join of the message part texts, or the placeholder when that join is empty |
| Normalizer.NoFallThrough | serverA.js:83-90 | a first choice that yields nothing gives the placeholder, and never falls through to `candidates` |
| Normalizer.CandidatesJoined | serverA.js:86-90 | without choices, the answer is the newline join of the first candidate's part texts (no parts when `content` or `parts` is missing), or the placeholder |
| Normalizer.TwoEmptyPartsGiveNewline | serverA.js:88-90 | two parts without text give `"\n"`, which is truthy and so is not replaced by the placeholder |
| Normalizer.UnrecognizedGivesPlaceholder | serverA.js:82-90 | a body with neither a non-empty `choices` nor a non-empty `candidates` gives the placeholder |
| Handler.Status | serverA.js:93-97 | an answer goes out as 200 and a failure as 500 |
| Handler.UserMessage | serverA.js:40-50 | without an image, or with blank recognised text, the message is the user's text (`""` when missing or empty); otherwise that text, the label, and the recognised text |
| Handler.Refuse | serverA.js:54-58 | a refused message is logged with the refusal as output and is never sent upstream; the refusal is returned unless the log append throws, in which case the client gets `proxy_error` |
| Handler.Relay | serverA.js:70-97 | an allowed message is sent upstream as it is; an unreachable upstream or a body that throws gives `proxy_error` with nothing logged; otherwise the normalised answer is logged and returned unless the append throws |
| Handler.HandleChat | serverA.js:38-98 | every failure is the same `proxy_error`; an OCR failure ends the request with nothing logged or sent; every answer is non-empty and was logged with the exact message and answer; refused messages are never forwarded; allowed ones are forwarded unchanged and answered with the normalised body |
| Handler.RefusalIgnoresUpstream | serverA.js:44-58 | the filter short-circuits: whenever nothing was forwarded (a refused message or a failed OCR), any other upstream gives the same exchange, so the upstream was never consulted |
| Handler.ForwardedIffAllowed | serverA.js:44-77 | a prompt goes upstream exactly when OCR succeeded and the filter let the message through |
| Handler.LoggedLineIsWellFormed | serverA.js:23-92 | with a quote-free timestamp (an ISO 8601 time always is one), every logged line holds exactly ten quotes and reads back as timestamp, `A`, escaped ip, escaped message and escaped output |
| Handler.SectionTwoQuestionIsRefused | serverA.js:54-97 | example: the first Section Two question followed by `" ..."` is never sent upstream, for any upstream; the client gets the refusal when the log append succeeds and `proxy_error` when it throws |
| Handler.ChoicesContentIsReturned | serverA.js:83-97 | example: "What is 2+2?" answered through `choices[0].message.content = "4"` is logged with output "4"; the client gets "4" when the log append succeeds and `proxy_error` when it throws |
| Handler.NetworkFailureIsProxyError | serverA.js:95-97 | a network failure upstream gives a 500 with `proxy_error`, and nothing is logged |
| Handler.ErrorStatusIsAnswered | serverA.js:70-93 | as written, for "What is 2+2?" answered with any non-2xx status and a body with neither array: the placeholder is logged as the output, and when the log append succeeds the client gets 200 with the placeholder |
| Handler.CheckStatus | serverA.js:70-79 | seen through the status check, only a 2xx reply stays a reply, unchanged; an error status or an unreachable upstream is a failed call |
| Handler.HandleChatChecked | serverA.js:38-98 | with the status check, an allowed message whose reply carries an error status ends in `proxy_error` with nothing logged, and every answer came from a 2xx reply |
| Handler.CheckedAgreesOnSuccess | serverA.js:70-93 | when every reply is a 2xx, the handler with the status check behaves exactly as the handler as written |
| Handler.CheckedErrorStatusIsProxyError | serverA.js:95-97 | with the status check, the error reply of `ErrorStatusIsAnswered` gives a 500 with `proxy_error` and nothing is logged, whether or not the log append would succeed |

## Left out

- Express, CORS, static files, body parsing, multer storage and `listen` (serverA.js:3-16, 38, 101-103) are framework wiring with no logic of their own.
- Tesseract (serverA.js:44-47) is represented by its result only, the `Ocr` parameter: no image, recognised text, or a thrown failure.
- The request payload, `fetch`, headers, the API key and `r.json()` (serverA.js:18-20, 60-79) are represented by the `upstream` parameter. A network error and a body that is not JSON are the same `Unreachable` case, because both reach the same `catch`. A reply with an error status and a JSON body is `Replied(status, body)`, not `Unreachable`: the code never reads `r.ok` (see Findings).
- A stalled upstream is not modelled. `fetch` is called without a timeout (serverA.js:70), so a reply that never comes stalls the request for good; a total `upstream` function cannot express that.
- Errors raised before the handler runs are not modelled: `express.json` answers malformed JSON with 400 and a body over 8 MB with 413 (serverA.js:12), and a multer error (serverA.js:38) gets Express's default error response. None of these is `proxy_error`.
- `new Date().toISOString()`, `process.env` and the `x-forwarded-for` / `remoteAddress` fallback (serverA.js:19, 24, 41) are represented by the `timestamp` and `ip` parameters.
- `console.log` and `console.error` (serverA.js:45, 47, 80, 96) produce no observable result for the client or the log.
- `fs.appendFileSync` (serverA.js:25) is represented by the `appendOk` flag. Partial writes and concurrent requests interleaving their appends are not modelled.
- JSON values of unexpected types are not modelled: a number or string where the code expects an object, or a non-string `content`, `text` or request `text`. Every text field is either a string or missing. `null` is modelled only where the code dereferences it: the body, the first choice or candidate, and a part.
- JavaScript strings are sequences of UTF-16 code units, while Dafny's `char` is a Unicode scalar value. Lengths and the 44-character bound are counted in characters here.
- Text.Trim: white space is the ECMAScript WhiteSpace and LineTerminator set, with the `Zs` category written out as its code points at Unicode 15.

## Findings

| source | as written | input that shows it | evidently intended | confidence | as-written member | corrected member |
|---|---|---|---|---|---|---|
| serverA.js:70-79 | the handler reads `r.json()` without checking `r.ok`, so an upstream error status with a JSON body is normalised like a success | an allowed message such as "What is 2+2?" whose upstream replies with status 500 and body `{"error": {...}}` (neither `choices` nor `candidates`): the client gets 200 `{ok: true, text: "[Empty response]"}` and the exchange is logged | a non-2xx upstream reply is a failed call, answered with 500 `proxy_error` and not logged | medium, not executed | Handler.ErrorStatusIsAnswered | Handler.HandleChatChecked |

`Handler.HandleChatChecked` is `Handler.HandleChat` with its upstream seen
through `Handler.CheckStatus`. Every property proved about `HandleChat`
for an arbitrary upstream therefore holds for it as well, and
`Handler.CheckedAgreesOnSuccess` shows that the two agree whenever every
reply is a 2xx. `Handler.CheckedErrorStatusIsProxyError` is the corrected
outcome for the input above.
