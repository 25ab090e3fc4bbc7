# Kind Affirmations — a Dafny model of the affirmation relay

Kind Affirmations is a small web application. A user describes how they
feel, and a language model streams back a short affirmation. The request
crosses three layers:

- **The page** (`src/pages/Index.tsx`) checks the input, shows a toast when
  it is refused, and otherwise calls the hook's `generate`. It can also send
  one of four suggestion prompts, reset itself, and print a caption under the
  answer.
- **The hook** (`src/hooks/use-affirmation.ts`) keeps `affirmation`,
  `isLoading` and `error`. It hands three callbacks (`onDelta`, `onDone`,
  `onError`) to the stream consumer and accumulates the deltas in `soFar`.
- **The stream consumer** (`src/lib/affirmation-stream.ts`) posts the
  message. It maps a non-ok status to a user-facing text. Otherwise it reads
  the server-sent-event body. Every `data: ` line carries a JSON payload
  whose `choices[0].delta.content` becomes one `onDelta`. `data: [DONE]`
  stops the reading. A line whose JSON does not parse is pushed back to wait
  for more text. A final flush handles what is left in the buffer.
- **Two relays** sit between the browser and the language model:
  - the Express handler `POST /api/generate-affirmation`
    (`backend/server.js`). It validates the trimmed message, maps upstream
    failures to JSON errors with codes, and copies the upstream stream chunk
    by chunk;
  - the Deno edge function `generate-affirmation`
    (`supabase/functions/generate-affirmation/index.ts`). It validates the
    untrimmed message and passes the upstream body on unchanged.

## How the model is built

- **The network becomes data.**
  - A body (`Http.Body`) is the sequence of decoded text chunks its reader
    yields, followed by how the last read ends: normally, or by throwing.
  - An upstream call (`Http.UpstreamResult`) either throws or answers with a
    status and a body.
  - The browser's `fetch` (`AffirmationStream.FetchOutcome`) either throws or
    gives a status, what `resp.json()` makes of the error body, and the body
    stream.
- **Callbacks become a trace.** The consumer returns the `Event`s it would
  fire, in order.
- **JSON parsing is a parameter.** `JSON.parse` followed by the extraction of
  `choices[0].delta.content` is `parse: string -> ParseResult`. It can fail,
  or yield an optional string.
- **The consumer is a method proved against a function.**
  `AffirmationStream.StreamAffirmation` keeps the source's two nested loops,
  its buffer and its `streamDone` flag. It is proved to compute
  `StreamEvents`, a recursive function over the chunks.
- **The line rules are a value.** Both loops share the same rules for a
  line, `Classify`. The loop functions take these rules as a parameter of
  type `LineRules`, and the client's own rules are `Rules(parse)`.
  - The chunking results need only two facts about the rules (`Sane`),
    proved once for the client's rules by `StreamChunking.RulesSane`.
- **The handlers are functions.** `Server.Handle` and `Gateway.Serve` are
  the chains of early returns. Both are written as functions.
  - The Express handler's copying loop is also a method, proved against
    `Server.Relay`.
- **The hook and the page are classes.** Their methods update the state
  fields. Each method states its new state in terms of the pure transition
  functions.
- **Strings are sequences of characters.**
  - `trim` removes the ECMAScript white-space and line-terminator characters
    from both ends.
  - `indexOf`, `split`, `startsWith`, `endsWith` and `slice` are written out
    in `JsString`.
  - A Dafny `char` is a Unicode scalar value, but JavaScript's `.length`
    counts UTF-16 code units. Every length check is therefore stated with
    `Utf16Length`, which counts two units for a character outside the Basic
    Multilingual Plane. The caption's `slice(0, 60)` is `Utf16Prefix`: the
    longest prefix that fits in 60 code units.
  - `trim` gives the same result on characters as on code units, because
    every white-space character lies in the Basic Multilingual Plane.

### Where the code behaves differently from a natural reading

The model follows the code. These points are stated as lemmas:

- **Express handler:**
  - An empty string is falsy, so it is reported as `MISSING_MESSAGE`, not
    `EMPTY_MESSAGE`.
  - An upstream 403 falls through to `API_ERROR`.
  - A read that throws after the first chunk was written still ends the
    response normally. The browser then sees `onDone`.
- **Edge function:** it checks the 1000-character limit on the untrimmed
  message. So a padded message can be accepted by the Express handler and
  refused by the edge function.
- **Stream consumer:**
  - It calls `onDone` when the body ends without `[DONE]`.
  - A line that does not parse stalls all further deltas until the final
    flush.
  - Text after `[DONE]` still reaches `onDelta` when it arrived in the same
    read, and is dropped when it arrived in a later read. Chunk boundaries
    can therefore matter once a complete `[DONE]` line is followed by more
    data lines. Without a complete `[DONE]` line they never matter.
- **Hook:** `reset` clears the text and the error but leaves `isLoading`
  alone.

## Model

| member | source | states |
|---|---|---|
| `AffirmationStream.StripCR` | src/lib/affirmation-stream.ts:71 | Drops exactly one trailing "\r" when the line ends with one, and otherwise returns the line unchanged. |
| `AffirmationStream.ClassifyLine` | src/lib/affirmation-stream.ts:72-88 | Runs the line tests in the source's order and returns the line's action, as `Classify` defines it: comment, blank and non-`data: ` lines are skipped; a `[DONE]` payload stops; a payload that does not parse is malformed; non-empty content is emitted. |
| `AffirmationStream.DrainStep` | src/lib/affirmation-stream.ts:67-88 | One inner-loop iteration removes the first line and its "\n". A skipped line leaves the drain of the rest; emitted content is prepended to it; `[DONE]` stops with the rest as the buffer; a malformed line is put back in front of the rest. |
| `AffirmationStream.DrainLines` | src/lib/affirmation-stream.ts:66-89 | The inner `while (indexOf("\n") !== -1)` loop returns exactly the deltas, the buffer left and the done flag of `Drain` on its input buffer. |
| `AffirmationStream.FinalFlush` | src/lib/affirmation-stream.ts:92-107 | The flush loop over `textBuffer.split("\n")` emits exactly `Flush` of the buffer. |
| `AffirmationStream.ReadLoopStep` | src/lib/affirmation-stream.ts:61-65 | One read appends the chunk to the buffer and drains it; reading stops when that drain met `[DONE]`, and otherwise continues from the buffer it left. |
| `AffirmationStream.StreamAffirmation` | src/lib/affirmation-stream.ts:15-113 | The whole consumer fires exactly the callbacks of `StreamEvents`, in order. |
| `StreamProperties.DrainAllDeltas` | src/lib/affirmation-stream.ts:66-89 | The inner loop only ever calls `onDelta`. |
| `StreamProperties.ReadLoopAllDeltas` | src/lib/affirmation-stream.ts:61-90 | The read loop only ever calls `onDelta`. |
| `StreamProperties.FlushLinesAllDeltas` | src/lib/affirmation-stream.ts:94-106 | The flush loop only ever calls `onDelta`. |
| `StreamProperties.LineEventsAllDeltas` | src/lib/affirmation-stream.ts:95-105 | Each piece of the flushed buffer yields at most one `onDelta` and nothing else. |
| `StreamProperties.FlushAllDeltas` | src/lib/affirmation-stream.ts:92-107 | The final flush, guard included, only ever calls `onDelta`. |
| `StreamProperties.ExactlyOneTerminal` | src/lib/affirmation-stream.ts:15-113 | Every call ends in exactly one `onDone` or `onError`, which is the last callback; all earlier callbacks are `onDelta`. |
| `StreamProperties.ErrorBeforeStreaming` | src/lib/affirmation-stream.ts:24-54 | A thrown `fetch`, a non-ok status or a missing body gives one `onError` and nothing else; a thrown `fetch` gives the connection message, and a missing body "No response received.". |
| `AffirmationStream.StatusMessage` | src/lib/affirmation-stream.ts:25-45 | The message for a non-ok status is never empty. For 429 and every status from 500 up, it is one of the client's own four texts, never the error body's. |
| `StreamProperties.StatusMessageProperties` | src/lib/affirmation-stream.ts:25-45 | Every text of the table. For 429 and every status from 500 up, the message does not depend on the error body. 429 says "Too many requests", 502 and 503 say "temporarily unavailable", 504 says "Request timed out", and the other statuses from 500 up say "Server error". For the remaining statuses, a non-empty `error` field is shown as it is. A missing or empty one gives "Please check your input" for 400 and "Something went wrong" otherwise. An unparseable body gives "Unable to connect to the service.". |
| `StreamProperties.PushbackSameUpToCR` | src/lib/affirmation-stream.ts:85-88 | A pushed-back line differs from the consumed text by at most the "\r" just before the first "\n", which ends that line. |
| `StreamProperties.DrainKeepsUnreadText` | src/lib/affirmation-stream.ts:66-89 | The buffer the inner loop leaves is the input's unconsumed text, from a line boundary on, and never longer than the input. After `[DONE]` it is that text exactly. Otherwise that text either holds no complete line and is kept exactly, or its first line does not parse and is kept with at most the "\r" before its first "\n" removed. No text after a failing line is lost, and no later line loses its "\r". |
| `StreamProperties.DoneStopsReading` | src/lib/affirmation-stream.ts:76-79 | After a read that meets `[DONE]`, later chunks and how the body ends make no difference. The loop finishes with the text after the `[DONE]` line as its buffer. |
| `StreamProperties.ReadFailureEndsInError` | src/lib/affirmation-stream.ts:61-63 | When no read meets `[DONE]` and the body's last read throws, the read loop fails, which ends the call in `onError`. |
| `StreamProperties.ReadFailureReported` | src/lib/affirmation-stream.ts:109-112 | For an ok response whose body throws on a read before any `[DONE]`, the callbacks are exactly the deltas the read loop fired, then one `onError` with the connection message. `onDone` is never called. |
| `StreamProperties.EndOfStreamFinishes` | src/lib/affirmation-stream.ts:61-63 | A body that ends normally always leaves the read loop finished, with a buffer for the final flush. |
| `StreamProperties.NormalEndIsDone` | src/lib/affirmation-stream.ts:92-109 | An ok status and a body that ends normally end in `onDone`, whether or not `[DONE]` was sent, and no `onError` is fired. |
| `StreamChunking.FlushLinesOfSplit` | src/lib/affirmation-stream.ts:94-106 | Flushing the pieces of `split("\n")` yields the deltas of the text cut at each "\n" in turn. |
| `StreamChunking.RulesSane` | src/lib/affirmation-stream.ts:71-88 | The client's line rules meet the two conditions the chunking argument needs. A malformed line stays malformed once one more "\r" is stripped. A whitespace-only line never emits. |
| `StreamChunking.DataLineEvents` | src/lib/affirmation-stream.ts:95-105 | A well-formed `data: ` line flushes to its content, or to nothing when the content is empty, and never asks to stop. |
| `StreamChunking.IgnoredLines` | src/lib/affirmation-stream.ts:72-73 | Lines starting with ":", whitespace-only lines and lines without the `data: ` prefix are skipped. |
| `StreamChunking.EmptyContentIgnored` | src/lib/affirmation-stream.ts:81-84 | A payload that parses to missing or empty content is skipped. |
| `StreamChunking.SkippedLineConsumed` | src/lib/affirmation-stream.ts:67-73 | A skipped line is consumed whole, with its "\n", and emits nothing. |
| `StreamChunking.DoneLine` | src/lib/affirmation-stream.ts:75-79 | The line `data: [DONE]` asks to stop. |
| `StreamChunking.DrainOfDoneFirst` | src/lib/affirmation-stream.ts:76-79 | A buffer whose first line is `[DONE]` drains to no events, with `streamDone` set and the text after that line left in the buffer. |
| `StreamChunking.StallPersists` | src/lib/affirmation-stream.ts:85-88 | Once the first line of the buffer fails to parse, a further chunk is only appended. The same line fails again and nothing is emitted. |
| `StreamChunking.StalledReadLoop` | src/lib/affirmation-stream.ts:61-90 | After a read leaves the buffer stalled, the read loop emits nothing more. It fails exactly when the body's last read throws. |
| `StreamChunking.StalledStream` | src/lib/affirmation-stream.ts:61-113 | When the first chunk's first line does not parse, a throwing body gives only `onError`. A normal end gives only the final flush's deltas, then `onDone`. |
| `StreamChunking.ReadLoopAgainstWhole` | src/lib/affirmation-stream.ts:61-90 | With no `[DONE]` line, the read loop finishes normally. Its deltas, followed by those of the text it leaves, are the deltas of the whole text. |
| `StreamChunking.FlushIsWholeText` | src/lib/affirmation-stream.ts:92-107 | The final flush, guard included, yields the deltas of its buffer cut into lines. |
| `StreamChunking.EventsOfWholeText` | src/lib/affirmation-stream.ts:61-109 | With an ok status, a normal end and no `[DONE]` line, the callbacks are the deltas of the whole concatenated text, then `onDone`. This holds even when a line fails to parse. |
| `StreamChunking.ChunkingIrrelevant` | src/lib/affirmation-stream.ts:61-109 | Two chunkings of the same body text without a `[DONE]` line give the same callbacks. |
| `StreamChunking.DataLinesInAnyChunking` | src/lib/affirmation-stream.ts:61-109 | A body made of well-formed `data: ` lines, however it is chunked, delivers every non-empty content in order, then `onDone`. |
| `StreamChunking.DoneTailSameRead` | src/lib/affirmation-stream.ts:76-107 | A data line that arrives in the same read as `[DONE]` still reaches `onDelta`, through the final flush. |
| `StreamChunking.DoneTailLaterRead` | src/lib/affirmation-stream.ts:61-90 | The same data line arriving in the read after `[DONE]` is never read, and only `onDone` is fired. |
| `Server.ValidateMessage` | backend/server.js:38-77 | A message is accepted exactly when it is a string whose trimmed `.length` is from 3 to 1000 UTF-16 code units. The accepted value is the trimmed text, and every refusal is a 400. |
| `Server.ClassifyFetchError` | backend/server.js:124-138 | A thrown upstream `fetch` becomes `TIMEOUT` exactly when its name is `AbortError`, and `NETWORK_ERROR` otherwise. |
| `Server.MapUpstreamStatus` | backend/server.js:140-191 | A non-ok upstream status is answered with 429 exactly when it was 429, and with 502 otherwise. |
| `Server.PassThrough` | backend/server.js:199-228 | The copying loop writes every chunk in order and counts them. A read that throws before anything was written gives `STREAM_ERROR`. |
| `Server.HandleGenerateAffirmation` | backend/server.js:31-228 | The handler, step by step, produces the outcome of `Handle`: the reply, the message sent upstream and the chunk count. |
| `ServerProperties.ValidationOrder` | backend/server.js:38-77 | Each validation code is returned exactly when its check is the first to fail. |
| `ServerProperties.EmptyStringIsMissing` | backend/server.js:38-61 | `""` is reported as `MISSING_MESSAGE`, and a non-empty whitespace-only string as `EMPTY_MESSAGE`. |
| `ServerProperties.EarlyReturnsSkipUpstream` | backend/server.js:38-86 | No upstream call is made exactly when validation fails or the key is missing. Validation errors take precedence over `CONFIG_ERROR`. |
| `ServerProperties.ForwardsTrimmedMessage` | backend/server.js:54-116 | Only a validated message is sent upstream, and it is the trimmed text, of 3 to 1000 code units. |
| `ServerProperties.UpstreamStatusTable` | backend/server.js:155-190 | The status table: 401 gives `AUTH_ERROR`, 429 `RATE_LIMITED`, 402 `SERVICE_UNAVAILABLE`, 500 and up `UPSTREAM_ERROR`, and everything else, 403 included, `API_ERROR`. |
| `ServerProperties.StreamOnlyAfterChecks` | backend/server.js:193-228 | The event stream is sent exactly when every check passed, the upstream answered ok, and the body was not a throwing read with no chunks. Its text is the chunks in order, and `chunkCount` is the number of chunks. |
| `ServerProperties.ReplyStatuses` | backend/server.js:38-228 | Every JSON error reply has status 400, 429, 500, 502 or 504. |
| `Gateway.Serve` | supabase/functions/generate-affirmation/index.ts:23-97 | The upstream is called exactly when the request is not `OPTIONS`, its body reads, the message is a non-blank string of at most 1000 code units, and a key is set. Every error reply is a 400, 402, 429 or 500. The body is passed on only after an ok upstream answer. |
| `Gateway.UpstreamFailure` | supabase/functions/generate-affirmation/index.ts:66-85 | 429 and 402 are passed on with their own status, and every other non-ok status becomes 500. |
| `GatewayProperties.PreflightFirst` | supabase/functions/generate-affirmation/index.ts:24-25 | `OPTIONS` is answered before the body is read or anything is called. |
| `GatewayProperties.UnreadableBody` | supabase/functions/generate-affirmation/index.ts:27-95 | A body that cannot be read is caught and answered with a 500 carrying the error's message, and nothing is sent upstream. |
| `GatewayProperties.EarlyReturns` | supabase/functions/generate-affirmation/index.ts:30-45 | The checks run in order, and none of them calls upstream. A blank message gives the 400 "share" text. An untrimmed `.length` over 1000 code units gives the 400 "too long" text. A missing key gives a 500 with the thrown message. |
| `GatewayProperties.BlankIff` | supabase/functions/generate-affirmation/index.ts:30 | A message is blank exactly when it is not a string or is whitespace only, the empty string included. |
| `GatewayProperties.GatewayStatusTable` | supabase/functions/generate-affirmation/index.ts:66-85 | 429 and 402 get their own texts and statuses, and every other non-ok status gets the 500 "Something went wrong" text. |
| `GatewayProperties.PassthroughOnlyAfterChecks` | supabase/functions/generate-affirmation/index.ts:24-89 | The upstream body is passed on exactly when the request is not `OPTIONS`, its body reads, the message is a non-blank string of at most 1000 code units, a key is set, and the upstream answered ok. |
| `GatewayProperties.PassthroughUnchanged` | supabase/functions/generate-affirmation/index.ts:47-89 | The body passed on is the upstream body itself. The message sent upstream is the request's own, untrimmed. |
| `GatewayProperties.PaddingSplitsTheRelays` | supabase/functions/generate-affirmation/index.ts:30-42 | A message whose trimmed text is within the limits but whose padding takes it over 1000 code units is accepted by the Express handler and refused by the edge function. |
| `AffirmationHook.Started` | src/hooks/use-affirmation.ts:10-14 | `generate` starts with no text, no error, loading set and an empty accumulator. |
| `AffirmationHook.SoFarAccumulates` | src/hooks/use-affirmation.ts:14-21 | The accumulator is the concatenation of every delta delivered so far. |
| `AffirmationHook.DeltasAccumulate` | src/hooks/use-affirmation.ts:18-21 | After deltas alone, the text shown is the accumulated text, and the loading state and the error are unchanged. |
| `AffirmationHook.DoneOnlyStopsLoading` | src/hooks/use-affirmation.ts:22 | `onDone` clears the loading state and changes nothing else. |
| `AffirmationHook.ErrorKeepsPartialText` | src/hooks/use-affirmation.ts:23-26 | `onError` records its message and clears the loading state; text already shown stays. |
| `AffirmationHook.GenerateOutcome` | src/hooks/use-affirmation.ts:9-28 | After a whole `generate`, the hook is not loading, shows the concatenated deltas, and holds an error exactly when the call ended in `onError`, with that message. |
| `AffirmationHook.NormalEndLeavesNoError` | src/hooks/use-affirmation.ts:9-28 | With an ok status and a body that ends normally, `generate` leaves no error and stops loading. |
| `AffirmationHook.ResetLeavesLoading` | src/hooks/use-affirmation.ts:30-33 | `reset` clears the text and the error and leaves `isLoading` as it was. |
| `AffirmationHook.Hook.constructor` | src/hooks/use-affirmation.ts:5-7 | The hook starts with no text, not loading and no error. |
| `AffirmationHook.Hook.OnDelta` | src/hooks/use-affirmation.ts:18-21 | Appends the chunk to the accumulator and shows the accumulator. |
| `AffirmationHook.Hook.OnDone` | src/hooks/use-affirmation.ts:22 | Clears the loading state. |
| `AffirmationHook.Hook.OnError` | src/hooks/use-affirmation.ts:23-26 | Records the error and clears the loading state. |
| `AffirmationHook.Hook.DeliverAll` | src/hooks/use-affirmation.ts:16-27 | Delivering a trace applies its callbacks one by one, in order. |
| `AffirmationHook.Hook.Generate` | src/hooks/use-affirmation.ts:9-28 | Records the message sent and leaves the state of the start of `generate` followed by every callback of `streamAffirmation`. |
| `AffirmationHook.Hook.Reset` | src/hooks/use-affirmation.ts:30-33 | Clears the text and the error only. |
| `IndexPage.SubmitCheck` | src/pages/Index.tsx:22-38 | The input is accepted exactly when its trimmed `.length` is from 5 to 500 code units, and the accepted value is the trimmed text. |
| `IndexPage.SubmitOrder` | src/pages/Index.tsx:25-38 | Each toast is shown exactly when its check is the first to fail: whitespace only, under 5 code units, over 500 code units. |
| `IndexPage.AcceptedByServer` | src/pages/Index.tsx:22-41 | What the page accepts, the Express handler accepts with the same text. |
| `IndexPage.AcceptedByGateway` | src/pages/Index.tsx:22-41 | What the page accepts, the edge function sends upstream as it is, once a key is set. |
| `IndexPage.PromptsPass` | src/pages/Index.tsx:8-13 | Every suggestion passes the submit checks unchanged. |
| `IndexPage.Caption` | src/pages/Index.tsx:185 | Input whose `.length` is at most 60 code units is shown whole. |
| `IndexPage.CaptionTruncates` | src/pages/Index.tsx:185 | Longer input shows a proper prefix of itself followed by the ellipsis. The prefix is 60 code units long, or 59 when the next character is a surrogate pair. |
| `IndexPage.Page.constructor` | src/pages/Index.tsx:15-18 | The page starts with an empty input, no generated answer, and a fresh hook. |
| `IndexPage.Page.ChangeInput` | src/pages/Index.tsx:111 | The textarea's change replaces the input and nothing else. |
| `IndexPage.Page.HandleSubmit` | src/pages/Index.tsx:20-42 | A refused input gives its toast and changes nothing. An accepted one sets `hasGenerated` and runs `generate` on the trimmed text. |
| `IndexPage.Page.HandlePromptClick` | src/pages/Index.tsx:44-48 | The suggestion becomes the input and is sent without any check. |
| `IndexPage.Page.HandleReset` | src/pages/Index.tsx:50-54 | Clears the input, `hasGenerated`, and the hook's text and error; a call in flight keeps loading. |
| `ClientServer.ErrorTextsNonEmpty` | backend/server.js:38-191 | Every error text the Express handler sends is non-empty, so it is never replaced by the client's fallback. |
| `ClientServer.ErrorRepliesReachUser` | src/lib/affirmation-stream.ts:24-49 | Each JSON error of the Express handler ends the client's call in one `onError`. A 400 shows the handler's own text. 429, 500, 502 and 504 show the client's fixed texts for those statuses. |
| `ClientServer.StreamReplyEndsInDone` | backend/server.js:205-228 | The handler's event stream always ends in `onDone` at the client, even when the upstream read threw after the first chunk. |
| `ClientServer.RelayIsTransparent` | backend/server.js:206-217 | With no `[DONE]` line, however the browser's reads cut the relayed text, the client fires the callbacks it would fire reading the upstream chunks itself to a normal end. A late upstream throw still becomes `onDone`, because the relay ends its reply normally (`StreamReplyEndsInDone`). |

## Left out

- The network, the byte stream and `TextDecoder` are not modelled. A body is the sequence of already decoded text chunks, since decoding is outside the code under study.
- `JSON.parse` and the optional-chaining extraction of `choices[0].delta.content` are the parameter `parse`, since JSON is not part of this model. Content that is present but not a string is not distinguished from a string. Likewise, a truthy `error` field of a non-ok reply that is not a string (a number, an object) is passed to `onError` as it is at `src/lib/affirmation-stream.ts:33-36`; `ErrorBody` holds only strings, so such a field is not modelled.
- The Express handler's 30-second timer, `AbortController` and `clearTimeout` are not modelled. The timer's effect is an upstream error named `AbortError`, because clocks are outside the model.
- Logging, the CORS headers' contents, the `/health` route, the system prompt, the model names and the request headers sent upstream are not modelled, because they do not affect any reply's status, text or stream.
- The Express handler's outer `catch` (`INTERNAL_ERROR`) is not modelled. An ok upstream reply is assumed to have a body. With a null body (a 204, say), `response.body.getReader()` at `backend/server.js:202` throws outside the inner `try`, before any header is sent, and the source answers 500 `INTERNAL_ERROR`. `Http.Body` cannot be null, so the model has no such path.
- `IndexPage.Caption`: where `slice(0, 60)` cuts a surrogate pair in half, the source keeps the lone high surrogate and the model drops it, because a Dafny string cannot hold half a pair. The two agree whenever the 60th code unit ends a character.
- Non-`Error` throwables in the edge function ("Unknown error") are not modelled, because every thrown value in the model is an `Error`.
- A rejection of `response.text()` at `supabase/functions/generate-affirmation/index.ts:79` is not modelled; it would be caught as a 500 with its own message. In the Express handler, the same rejection only changes a logged text.
- `res.headersSent` is taken to become true with the first `res.write`. This is why a read that throws after one chunk ends the response instead of sending `STREAM_ERROR`.
- The relays' concurrency and the asynchronous interleaving of callbacks with React renders are not modelled. Each `generate` call runs to completion, and its callbacks are applied in order.
- React's batching of state updates and the rendering of toasts and components are not modelled. A toast is returned as its message.
- The `disabled` condition of the submit button and the textarea's `maxLength` are not modelled, because they are browser behaviour rather than handler logic. `HandleSubmit` can therefore be called with any input.
- JavaScript numbers in the request's `message` field are modelled as integers. Only their truthiness matters, and NaN is not modelled.
- `RelayIsTransparent` and `ChunkingIrrelevant` require that no complete line is `[DONE]`, because the text after `[DONE]` is handled by chunk position (`DoneTailSameRead`, `DoneTailLaterRead`).
