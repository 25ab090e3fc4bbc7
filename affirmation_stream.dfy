/**
 * The browser-side consumer of the relay's event stream (`streamAffirmation`).
 *
 * The network is replaced by a `FetchOutcome`: either `fetch` threw, or a
 * response with its status, what `resp.json()` gives for an error body, and
 * the decoded chunks its body reader yields. `JSON.parse` followed by the
 * extraction of `choices[0].delta.content` is the parameter `parse`. The three
 * callbacks become the trace of `Event`s returned, in call order.
 */
module AffirmationStream {
  import opened Wrappers
  import opened JsString
  import opened Http

  /** One callback invocation: `onDelta(text)`, `onDone()` or `onError(message)`. */
  datatype Event = Delta(text: string) | Done | Error(message: string)

  /** `JSON.parse(jsonStr)` then `parsed.choices?.[0]?.delta?.content`:
      the parse (or the extraction) throws, or it yields an optional string. */
  datatype ParseResult = ParseFailed | Parsed(content: Option<string>)

  type Parser = string -> ParseResult

  /** What `await resp.json()` yields for a non-ok response: it throws, it is
      `null` (so reading `.error` throws), or it has an optional `error` string. */
  datatype ErrorBody = Unparseable | NullBody | ErrorField(error: Option<string>)

  /** A received response: its status, its error body, and its body stream
      (`None` when `resp.body` is null). */
  datatype ClientResponse = ClientResponse(status: int, errorBody: ErrorBody, body: Option<Body>)

  datatype FetchOutcome = FetchFailed | Received(resp: ClientResponse)

  const ConnectionError := "Connection error. Please try again."
  const NoResponse := "No response received."
  const UnableToConnect := "Unable to connect to the service."
  const GenericError := "Something went wrong. Please try again."
  const CheckInput := "Please check your input and try again."
  const TooManyRequests := "Too many requests. Please wait a moment and try again."
  const Unavailable := "Service temporarily unavailable. Please try again in a moment."
  const TimedOut := "Request timed out. Please try again."
  const ServerError := "Server error. Please try again later."

  predicate AllDeltas(es: seq<Event>) {
    forall e :: e in es ==> e.Delta?
  }

  // ---------------------------------------------------------------------------
  // Error responses

  /** `errorData.error` as a string, where a failed `resp.json()` stands for
      `{ error: "Unable to connect to the service." }`. */
  function BodyError(body: ErrorBody): Option<string>
    requires !body.NullBody?
  {
    match body
    case Unparseable => Some(UnableToConnect)
    case ErrorField(e) => e
  }

  /** `errorData.error || fallback`: an empty or missing string is falsy. */
  function BodyErrorOr(body: ErrorBody, fallback: string): string
    requires !body.NullBody?
  {
    var e := BodyError(body);
    if e.Some? && e.value != "" then e.value else fallback
  }

  /** The user-facing message for a non-ok status: never empty, and for 429
      and every status from 500 up one of the client's own texts. */
  function StatusMessage(status: int, body: ErrorBody): (m: string)
    requires !body.NullBody?
    ensures m != ""
    ensures status == 429 || status >= 500 ==> m in {TooManyRequests, Unavailable, TimedOut, ServerError}
  {
    if status == 400 then BodyErrorOr(body, CheckInput)
    else if status == 429 then TooManyRequests
    else if status == 502 || status == 503 then Unavailable
    else if status == 504 then TimedOut
    else if status >= 500 then ServerError
    else BodyErrorOr(body, GenericError)
  }

  // ---------------------------------------------------------------------------
  // The line rules

  /** Drops one trailing "\r" (`if (line.endsWith("\r")) line = line.slice(0, -1)`). */
  function StripCR(line: string): (r: string)
    ensures if EndsWith(line, '\r') then line == r + "\r" else r == line
  {
    if EndsWith(line, '\r') then line[..|line| - 1] else line
  }

  /** What a line asks for once its "\r" is stripped: nothing, a delta, the end
      of the stream, or a retry because its JSON did not parse. */
  datatype LineAction = Skip | Emit(content: string) | Stop | Malformed

  function Classify(line: string, parse: Parser): LineAction {
    if StartsWith(line, ":") || Trim(line) == "" then Skip
    else if !StartsWith(line, "data: ") then Skip
    else PayloadAction(Trim(line[6..]), parse)
  }

  /** What the trimmed text after "data: " asks for. */
  function PayloadAction(jsonStr: string, parse: Parser): LineAction {
    if jsonStr == "[DONE]" then Stop
    else match parse(jsonStr)
      case ParseFailed => Malformed
      case Parsed(content) =>
        if content.Some? && content.value != "" then Emit(content.value) else Skip
  }

  /** The line rules as a value: what each "\r"-stripped line asks for. The
      loops below are stated for any rules; the client's own are
      `Rules(parse)`. */
  type LineRules = string -> LineAction

  function Rules(parse: Parser): LineRules {
    line => Classify(line, parse)
  }

  // ---------------------------------------------------------------------------
  // The read loop, as functions of the buffer and the remaining chunks

  /** The result of the inner loop: the deltas it emitted, the buffer it left,
      and whether it saw `[DONE]`. */
  datatype Drained = Drained(events: seq<Event>, rest: string, done: bool)

  /** The inner `while (indexOf("\n") !== -1)` loop over one buffer. */
  function Drain(buf: string, rules: LineRules): (d: Drained)
    decreases |buf|
  {
    var i := IndexOf(buf, '\n');
    if i == -1 then Drained([], buf, false)
    else
      var line := StripCR(buf[..i]);
      var rest := buf[i + 1..];
      match rules(line)
      case Skip => Drain(rest, rules)
      case Emit(c) =>
        var d := Drain(rest, rules);
        Drained([Delta(c)] + d.events, d.rest, d.done)
      case Stop => Drained([], rest, true)
      case Malformed => Drained([], line + "\n" + rest, false)
  }

  /** The first complete line of `b` does not parse, so the inner loop puts
      it back and stops. */
  predicate Stalled(b: string, rules: LineRules) {
    IndexOf(b, '\n') != -1 && rules(StripCR(b[..IndexOf(b, '\n')])).Malformed?
  }

  /** How the outer loop ends: it stopped with a buffer left, or a read threw. */
  datatype LoopEnd = Finished(rest: string) | Failed

  datatype ReadOutcome = ReadOutcome(events: seq<Event>, end: LoopEnd)

  /** The outer `while (!streamDone)` loop, from buffer `buf` over the chunks
      not yet read. */
  function ReadLoop(buf: string, chunks: seq<string>, end: ReadEnd, rules: LineRules): (r: ReadOutcome)
    decreases |chunks|
  {
    if chunks == [] then
      ReadOutcome([], if end == EndOfStream then Finished(buf) else Failed)
    else
      var d := Drain(buf + chunks[0], rules);
      if d.done then ReadOutcome(d.events, Finished(d.rest))
      else
        var r := ReadLoop(d.rest, chunks[1..], end, rules);
        ReadOutcome(d.events + r.events, r.end)
  }

  // ---------------------------------------------------------------------------
  // The final flush

  /** What the final flush does with one piece of the buffer: the same rules,
      except that `[DONE]` and unparseable lines are skipped. */
  function LineEvents(raw: string, rules: LineRules): (es: seq<Event>)
  {
    if raw == "" then []
    else match rules(StripCR(raw))
      case Emit(c) => [Delta(c)]
      case _ => []
  }

  function FlushLines(lines: seq<string>, rules: LineRules): (es: seq<Event>)
  {
    if lines == [] then []
    else FlushLines(lines[..|lines| - 1], rules) + LineEvents(lines[|lines| - 1], rules)
  }

  /** `if (textBuffer.trim()) for (raw of textBuffer.split("\n")) ...` */
  function Flush(buf: string, rules: LineRules): (es: seq<Event>)
  {
    if Trim(buf) == "" then [] else FlushLines(Split(buf, '\n'), rules)
  }

  // ---------------------------------------------------------------------------
  // The whole call

  /** The callbacks `streamAffirmation` fires, in order. */
  function StreamEvents(fetched: FetchOutcome, parse: Parser): seq<Event> {
    match fetched
    case FetchFailed => [Error(ConnectionError)]
    case Received(resp) =>
      if !IsOk(resp.status) then
        if resp.errorBody.NullBody? then [Error(ConnectionError)]
        else [Error(StatusMessage(resp.status, resp.errorBody))]
      else if resp.body.None? then [Error(NoResponse)]
      else
        var r := ReadLoop("", resp.body.value.chunks, resp.body.value.end, Rules(parse));
        match r.end
        case Failed => r.events + [Error(ConnectionError)]
        case Finished(rest) => r.events + Flush(rest, Rules(parse)) + [Done]
  }

  lemma AppendAssoc(a: seq<Event>, b: seq<Event>, c: seq<Event>)
    ensures a + (b + c) == (a + b) + c
  {
  }

  /** One iteration of the inner loop, as `Drain` sees it: what happens to
      the buffer `tb` whose first line, "\r" stripped, is `line`. */
  lemma DrainStep(tb: string, rules: LineRules, i: int, line: string, rest: string)
    requires i == IndexOf(tb, '\n') && i != -1
    requires line == StripCR(tb[..i]) && rest == tb[i + 1..]
    ensures rules(line).Skip? ==> Drain(tb, rules) == Drain(rest, rules)
    ensures rules(line).Emit? ==>
      var d := Drain(rest, rules);
      Drain(tb, rules) == Drained([Delta(rules(line).content)] + d.events, d.rest, d.done)
    ensures rules(line).Stop? ==> Drain(tb, rules) == Drained([], rest, true)
    ensures rules(line).Malformed? ==> Drain(tb, rules) == Drained([], line + "\n" + rest, false)
  {
  }

  /** The tests both loops run on a "\r"-stripped line: a comment or blank
      line, a line without the "data: " prefix, `[DONE]`, a payload that
      does not parse, and the content it carries. */
  method ClassifyLine(line: string, parse: Parser) returns (action: LineAction)
    ensures action == Classify(line, parse)
  {
    if StartsWith(line, ":") || Trim(line) == "" {
      return Skip;
    }
    if !StartsWith(line, "data: ") {
      return Skip;
    }
    var jsonStr := Trim(line[6..]);
    if jsonStr == "[DONE]" {
      return Stop;
    }
    match parse(jsonStr)
    case ParseFailed =>
      return Malformed;
    case Parsed(content) =>
      if content.Some? && content.value != "" {
        return Emit(content.value);
      }
      return Skip;
  }

  /** The inner loop of one read: take every "\n"-terminated line off the
      front of the buffer until none is left, `[DONE]` is seen, or a line
      does not parse and is pushed back. */
  method DrainLines(buf: string, parse: Parser) returns (events: seq<Event>, textBuffer: string, streamDone: bool)
    ensures Drained(events, textBuffer, streamDone) == Drain(buf, Rules(parse))
  {
    events, textBuffer, streamDone := [], buf, false;
    var newlineIndex := IndexOf(textBuffer, '\n');
    while newlineIndex != -1
      invariant newlineIndex == IndexOf(textBuffer, '\n')
      invariant !streamDone
      invariant
        var d := Drain(textBuffer, Rules(parse));
        Drain(buf, Rules(parse)) == Drained(events + d.events, d.rest, d.done)
      decreases |textBuffer|
    {
      ghost var before, index := textBuffer, newlineIndex;
      var line := textBuffer[..newlineIndex];
      textBuffer := textBuffer[newlineIndex + 1..];
      if EndsWith(line, '\r') {
        line := line[..|line| - 1];
      }
      DrainStep(before, Rules(parse), index, line, textBuffer);
      var action := ClassifyLine(line, parse);
      match action {
        case Stop =>
          assert events + [] == events;
          streamDone := true;
          break;
        case Malformed =>
          assert events + [] == events;
          textBuffer := line + "\n" + textBuffer;
          break;
        case Emit(content) =>
          ghost var d := Drain(textBuffer, Rules(parse));
          AppendAssoc(events, [Delta(content)], d.events);
          events := events + [Delta(content)];
        case Skip =>
      }
      newlineIndex := IndexOf(textBuffer, '\n');
    }
    if !streamDone && newlineIndex == -1 {
      assert Drain(textBuffer, Rules(parse)) == Drained([], textBuffer, false);
      assert events + [] == events;
    }
  }

  lemma FlushLinesPrefix(lines: seq<string>, i: nat, rules: LineRules)
    requires i < |lines|
    ensures FlushLines(lines[..i + 1], rules) == FlushLines(lines[..i], rules) + LineEvents(lines[i], rules)
  {
    assert lines[..i + 1][..i] == lines[..i];
  }

  /** The final flush: every piece of the buffer split on "\n" goes through the
      line rules, with `[DONE]` and unparseable lines skipped. */
  method FinalFlush(textBuffer: string, parse: Parser) returns (events: seq<Event>)
    ensures events == Flush(textBuffer, Rules(parse))
  {
    events := [];
    if Trim(textBuffer) != "" {
      var lines := Split(textBuffer, '\n');
      for i := 0 to |lines|
        invariant events == FlushLines(lines[..i], Rules(parse))
      {
        FlushLinesPrefix(lines, i, Rules(parse));
        ghost var expected := LineEvents(lines[i], Rules(parse));
        var raw := lines[i];
        if raw != "" {
          if EndsWith(raw, '\r') {
            raw := raw[..|raw| - 1];
          }
          var action := ClassifyLine(raw, parse);
          if action.Emit? {
            events := events + [Delta(action.content)];
          }
        }
        assert events == FlushLines(lines[..i], Rules(parse)) + expected;
      }
      assert lines[..|lines|] == lines;
    }
  }

  /** One read of the outer loop, as `ReadLoop` sees it. */
  lemma ReadLoopStep(buf: string, chunks: seq<string>, k: nat, end: ReadEnd, rules: LineRules)
    requires k < |chunks|
    ensures var d := Drain(buf + chunks[k], rules);
      ReadLoop(buf, chunks[k..], end, rules) ==
        if d.done then ReadOutcome(d.events, Finished(d.rest))
        else
          var r := ReadLoop(d.rest, chunks[k + 1..], end, rules);
          ReadOutcome(d.events + r.events, r.end)
  {
    assert chunks[k..][0] == chunks[k] && chunks[k..][1..] == chunks[k + 1..];
  }

  /** `streamAffirmation`: the status checks, then the read loop (each read
      appends a chunk to the buffer and drains its lines), the final flush and
      `onDone`; a thrown `fetch` or read ends in `onError`. */
  method StreamAffirmation(fetched: FetchOutcome, parse: Parser) returns (events: seq<Event>)
    ensures events == StreamEvents(fetched, parse)
  {
    if fetched.FetchFailed? {
      return [Error(ConnectionError)];
    }
    var resp := fetched.resp;
    if !IsOk(resp.status) {
      if resp.errorBody.NullBody? {
        return [Error(ConnectionError)];
      }
      return [Error(StatusMessage(resp.status, resp.errorBody))];
    }
    if resp.body.None? {
      return [Error(NoResponse)];
    }
    var chunks, end := resp.body.value.chunks, resp.body.value.end;
    ghost var total := ReadLoop("", chunks, end, Rules(parse));

    events := [];
    var textBuffer := "";
    var streamDone := false;
    var k := 0;
    while !streamDone
      invariant 0 <= k <= |chunks|
      invariant !streamDone ==>
        var r := ReadLoop(textBuffer, chunks[k..], end, Rules(parse));
        total == ReadOutcome(events + r.events, r.end)
      invariant streamDone ==> total == ReadOutcome(events, Finished(textBuffer))
      decreases |chunks| - k
    {
      if k == |chunks| {
        assert chunks[k..] == [];
        if end == ReadThrows {
          assert total == ReadOutcome(events, Failed);
          return events + [Error(ConnectionError)];
        }
        break;
      }
      ReadLoopStep(textBuffer, chunks, k, end, Rules(parse));
      textBuffer := textBuffer + chunks[k];
      k := k + 1;
      var deltas;
      deltas, textBuffer, streamDone := DrainLines(textBuffer, parse);
      if !streamDone {
        AppendAssoc(events, deltas, ReadLoop(textBuffer, chunks[k..], end, Rules(parse)).events);
      }
      events := events + deltas;
    }

    assert total == ReadOutcome(events, Finished(textBuffer));
    var flushed := FinalFlush(textBuffer, parse);
    events := events + flushed + [Done];
  }
}
