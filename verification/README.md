# TgLogger in Dafny

A model of `TgLogger`, a PHP logger that posts each log event as a chat
message through the Telegram Bot API. For one event, the logger does this:

1. It drops the event when its level is more verbose than the logger's
   threshold. The `Level` class is not part of this model. The model gives
   its levels the values 0 (`Panic`) to 6 (`Trace`).
2. It renders the event as Markdown:
   - an optional italic `_prefix:_ ` label;
   - the level's emoji glyph, a space and the text;
   - for a non-empty field array, a fenced block of `name: value` lines.
3. It keeps the rendered text as its last message.
4. It delivers the text under a size policy:
   - up to 1100 code points go in one `sendMessage` request;
   - a longer text becomes a `sendMessage` with its first 1024 code points and
     `…`, followed by a `sendDocument` that attaches the whole text as
     `<timestamp>_full.log`.
5. Each request is a hand-built `multipart/form-data` body. Each reply is
   read as success when the decoded `ok` member is truthy in PHP's sense
   (so `1` and the string `"false"` also succeed), and as an error text
   otherwise.

The Dafny modules follow that structure:

| module | contents |
|---|---|
| `Levels` | level constants, glyph lookup, the threshold test |
| `Formatter` | the rendering of one event |
| `Multipart` | the request body builder and a reader for the body (the partner of the builder) |
| `Delivery` | the two payloads, the size policy, and what the service reads from them |
| `Response` | the classification of a reply body |
| `Logger` | the logger record, setters and getters, `send`, `sendRaw` and the dispatch that stops at the first error |
| `Decimal` | PHP's integer-to-string conversion and a parser that reads it back |
| `Search` | first-occurrence search |
| `Seqs` | generic concatenation facts |
| `Wrappers` | `Option`, `Result` and `Outcome` |

Exceptions are modelled as `Failure`/`Fail` values. The HTTP exchange is a
`Transport` parameter: a function from a request to either a reply body or
the error it raised (cURL error or non-200 status). JSON decoding is a
`Decoder` parameter: a function from a body to the members of the decoded
object that the logger reads.

Strings are sequences of code points, so `mb_strlen` and `mb_substr` are
`|s|` and `s[..n]`.

Points of the code's behaviour that the model keeps as written:

- **A refused excerpt stops the send.** For an oversized message,
  `sendMessage` throws at src/TgLogger.php:141 when the excerpt is refused.
  Line 142 never runs, so no document is sent
  (`Logger.FailedExcerptSkipsDocument`). When the excerpt is accepted and the
  document refused, the error is thrown after the excerpt was delivered.
- **More severe means a smaller level.** The filter at src/TgLogger.php:134
  drops an event only when `$level > $this->level`. With the model's values,
  an `Error` event (2) is sent under a `Warn` threshold (3) and dropped
  under `Fatal` (1) (`Logger.DiskFullThresholds`).
- **The body `"0"` is treated as missing.** `!$resp` at
  src/TgLogger.php:209 is true for a body of `"0"` as well as for an empty
  one, so both give `Response is nil.`.
- **`disable_web_page_preview` is sent as `1`.** The value `true` at
  src/TgLogger.php:178 becomes the string `1` when the body is concatenated
  at line 280.

## Model

| member | source | states |
|---|---|---|
| Levels.Glyph | src/TgLogger.php:287-307 | each level has a one-code-point glyph; a glyph differs from the fallback `⁉` exactly when the level is one of the seven |
| Levels.GlyphRoundTrip | src/TgLogger.php:287-307 | the glyph of a level names it back: reading a glyph gives the level for the seven levels, and nothing for any other integer |
| Levels.GlyphsDistinct | src/TgLogger.php:289-303 | the seven levels have seven different glyphs |
| Levels.Emits | src/TgLogger.php:134-136 | the threshold test: an event passes when its level is not above the threshold; its properties are stated by `Levels.EmitsMonotone`, `Logger.New` and `Logger.Send` |
| Levels.EmitsMonotone | src/TgLogger.php:134-136 | the threshold test is monotone: when a level passes a threshold, every more severe level passes it too |
| Formatter.Format | src/TgLogger.php:151-167 | the rendering of one event, built in the order of the source; what it yields is stated by `Formatter.FormatShape` and `Formatter.FormatLayout` |
| Formatter.FormatShape | src/TgLogger.php:151-167 | the three shapes of a message: glyph, space and text; the italic label only for a non-empty prefix; the fenced block only for a non-empty field array, with null and empty treated alike |
| Formatter.FormatLayout | src/TgLogger.php:151-167 | in order, a reader finds the label, a glyph that reads back as the level, a space, the text verbatim, and the block or nothing |
| Formatter.FieldLinesInOrder | src/TgLogger.php:159-165 | each field appears as its own `name: value` line, after the lines of the fields before it |
| Formatter.RenderFieldsAppend | src/TgLogger.php:160-163 | rendering a run of fields is rendering its parts one after another |
| Multipart.EncodePart | src/TgLogger.php:272-280 | each part starts with `--` and the boundary, and ends with its value and a line break |
| Multipart.Encode | src/TgLogger.php:270-284 | the body ends with the closing line `--<boundary>--` and a line break |
| Multipart.BuildMultiPartRequest | src/TgLogger.php:266-285 | the loop that appends part after part yields the whole body: every part in order, then the closing boundary |
| Multipart.RoundTrip | src/TgLogger.php:266-285 | for a boundary made only of dashes, digits and `a`–`f`, a body built from fields reads back as exactly those fields, including file names and contents. The fields' names and file names must hold no quote, and their values must not contain a line break followed by `--` and the boundary |
| Delivery.MessagePayload | src/TgLogger.php:172-182 | the fields of a text request; what the service reads from them is stated by `Delivery.MessagePayloadFields` |
| Delivery.MessagePayloadFields | src/TgLogger.php:172-182 | a text request carries the chat id, the text, the `Markdown` parse mode and the preview flag `1` |
| Delivery.DocumentPayload | src/TgLogger.php:187-201 | the fields of a document request; what the service reads from them is stated by `Delivery.DocumentPayloadFields` |
| Delivery.DocumentPayloadFields | src/TgLogger.php:187-201 | a document request carries the chat id, the caption `full log`, the file name `<timestamp>_full.log`, and the whole text as a file of that name |
| Delivery.ChatIdReadsBack | src/TgLogger.php:174-175 | the chat id is sent as text that reads back as the same integer, and both kinds of request send the same text |
| Delivery.Plan | src/TgLogger.php:140-146 | one request up to 1100 code points and two beyond; the first is always `sendMessage`, and the second, when there is one, is `sendDocument` |
| Delivery.PlanShort | src/TgLogger.php:144-146 | up to 1100 code points: exactly one text request, carrying the whole message |
| Delivery.PlanLong | src/TgLogger.php:140-143 | beyond 1100 code points: a text request with the first 1024 code points and `…`, then a document holding the whole message |
| Delivery.PlanPolicy | src/TgLogger.php:140-146 | the first request is always text; no inline text exceeds 1100 code points; an excerpt starts with a prefix of the message; and the full message always reaches the chat |
| Delivery.PlanBoundary | src/TgLogger.php:140 | 1100 code points still go inline and 1101 are split |
| Delivery.PlanRoundTrip | src/TgLogger.php:228-229 | for any boundary of the logger's kind (dashes and a lower-case hex digest), every request of the plan reads back field for field from its body, provided the message does not contain a line break followed by `--` and the boundary, and the timestamp holds no quote and no carriage return |
| Response.Classify | src/TgLogger.php:206-221 | an empty or `0` body fails with `Response is nil.`; otherwise the reply is a success exactly when the decoded `ok` is truthy in PHP's sense, and a failure carries the service's error text |
| Response.ApiError | src/TgLogger.php:218-220 | the error text is `telegram: `, the description, ` (`, the code and `)`. A missing or null description gives `unknown description`, and a missing or null code gives `???` |
| Response.RejectionCarriesDescriptionAndCode | src/TgLogger.php:218-220 | a rejection quotes the service's description verbatim, and its numeric code reads back from the parentheses |
| Response.UndecodableIsFailure | src/TgLogger.php:213-220 | a body that is neither empty nor `0` and does not decode to a JSON object fails with `telegram: unknown description (???)`; the bodies `""` and `0` give `Response is nil.` instead (`Response.Classify`) |
| Response.NilIsNotApiError | src/TgLogger.php:209-220 | the two kinds of failure are told apart by their text |
| Response.TooManyRequests | src/TgLogger.php:213-220 | a rate-limit reply `ok: false`, `Too Many Requests`, `429` fails with `telegram: Too Many Requests (429)` |
| Decimal.IntToString | src/TgLogger.php:175 | PHP's text of an integer is never empty, and it starts with `-` exactly when the integer is negative |
| Decimal.IntRoundTrip | src/TgLogger.php:175 | PHP's decimal text of an integer, such as the chat id, parses back to that integer |
| Decimal.IntToStringInjective | src/TgLogger.php:175 | different chat ids are sent as different texts |
| Logger.New | src/TgLogger.php:17-25 | a new logger keeps its token, chat id and prefix; it has the default endpoint, a 30-second timeout, no message and the threshold `Trace`, so every level passes |
| Logger.SetApiUrl | src/TgLogger.php:27-31 | as declared, the endpoint becomes the decimal text of the integer argument, and nothing else changes |
| Logger.SetApiUrlHasNoScheme | src/TgLogger.php:27-31 | so stored, the endpoint never contains `:` and is never the default endpoint |
| Logger.SetApiUrlIntended | src/TgLogger.php:27-31 | with a nullable string, the endpoint becomes the given address, or the default for null, and nothing else changes |
| Logger.SetTimeout | src/TgLogger.php:33-37 | the timeout becomes the argument, and every other field is kept |
| Logger.SetPrefix | src/TgLogger.php:39-43 | the prefix becomes the argument, as `GetPrefix` reports, and every other field is kept |
| Logger.GetPrefix | src/TgLogger.php:45-48 | the stored prefix; stated with the setter by `Logger.SettersAndGetters` |
| Logger.SetLevel | src/TgLogger.php:50-54 | the threshold becomes the argument, as `GetLevel` reports, and every other field is kept |
| Logger.GetLevel | src/TgLogger.php:56-59 | the stored threshold; stated with the setter by `Logger.SettersAndGetters` |
| Logger.GetMessage | src/TgLogger.php:124-127 | the last rendered message; stated by `Logger.Send` and `Logger.LastMessageIsReturned` |
| Logger.SettersAndGetters | src/TgLogger.php:33-59 | each setter is seen by its getter and leaves every other field, the last message included, as it was. Setters of different fields commute, and setting a field back to what its getter reported restores the logger |
| Logger.SendRaw | src/TgLogger.php:206-221 | a request succeeds exactly when the transport returns a body that is neither empty nor `0` and whose decoded `ok` is truthy in PHP's sense. A failure carries one of three texts: the transport's error, `Response is nil.`, or the service's error text |
| Logger.Dispatch | src/TgLogger.php:140-146 | requests are made in order until one fails: the calls made are a prefix of the plan; the outcome is success exactly when every request succeeded, and otherwise it is the error of the last request made |
| Logger.Send | src/TgLogger.php:132-149 | a suppressed event returns the empty string, makes no request and changes nothing; an emitted one stores the rendered message, makes a non-empty prefix of the planned requests, succeeds exactly when all of them succeed, and then returns the stored message |
| Logger.Log | src/TgLogger.php:103-106 | `Log` is `send` at the `Info` level: it is suppressed exactly when the threshold is below `Info`; otherwise it stores the message rendered at `Info` and makes a non-empty prefix of the planned requests, succeeding exactly when all of them succeed |
| Logger.SendFilterMonotone | src/TgLogger.php:134-136 | if an event reaches the service, an event of any more severe level would too |
| Logger.LastMessageIsReturned | src/TgLogger.php:124-127 | after a successful send, the last message is what the send returned; a suppressed send leaves it alone; prefix and threshold never change |
| Logger.SendSizePolicy | src/TgLogger.php:140-146 | a short message is one request carrying it whole; a long one is first an excerpt, and if that succeeds, a document with the whole message |
| Logger.FailedExcerptSkipsDocument | src/TgLogger.php:141-142 | when the excerpt is refused, exactly one request is made and its error is the result |
| Logger.DiskFullIsSent | src/TgLogger.php:132-167 | worked example: an `Error` event `disk full` with prefix `svc` and field `path: /var`, under threshold `Info`, is sent as one text request with the rendered text `_svc:_ ❗ disk full` followed by the fenced block |
| Logger.DiskFullThresholds | src/TgLogger.php:134-136 | the same event is suppressed under `Fatal` and sent under `Warn` |

## Left out

- Level constants: the `Level` class is not part of this model. The levels are the integers 0 (`Panic`) to 6 (`Trace`); only their order matters.
- `requestPOST`: the cURL exchange, the HTTP headers (including `Content-Length`), the endpoint address and the timeout are I/O. They are the `Transport` parameter. Its `Failure` stands for both the cURL error and the `Status code …` error.
- The boundary: the random boundary (thirteen dashes and the MD5 digest of a random number and the clock) is a parameter. `Multipart.ValidDelimiter` admits every string of that alphabet.
- `date('Y-m-d H:i:s')`: the timestamp of the document name is a parameter.
- `json_decode`: it is the `Decoder` parameter. Envelope members are JSON `null`, booleans, integers and strings. Floats, arrays and objects in `ok`, `description` or `error_code` are not modelled.
- The per-level wrappers `Panic`, `Fatal`, `Error`, `Warn`, `Info`, `Debug` and `Trace`: each is `Logger.Send` with its fixed level. `Logger.Log` is modelled as their representative.
- Field values: they are strings. PHP's conversion of non-string values, and its casting of numeric string keys to integers, are not modelled.
- The constructor's default argument `$prefix = ''`: Dafny functions have no default arguments, so the default prefix is `New(token, chatId, "")`.
- The constructor's `$config['base_uri']`: it reads an undefined variable, which is null. The endpoint is therefore always the default, and that is what `Logger.New` states.

## Findings

| source | as written | input that shows it | evidently intended | confidence | as-written member | corrected member |
|---|---|---|---|---|---|---|
| src/TgLogger.php:27-31 | `setApiUrl(int $url)` takes an integer, and `$url ?? default` can never apply to it | any address such as `https://example.org` cannot be passed at all; `setApiUrl(5)` sets the endpoint to `5` | a nullable string address, where null restores `https://api.telegram.org` | high, not executed | Logger.SetApiUrlHasNoScheme | Logger.SetApiUrlIntended |
