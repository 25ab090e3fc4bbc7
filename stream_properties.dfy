/**
 * What the client's stream consumer guarantees, proved about the functions
 * that `StreamAffirmation` is shown to compute.
 */
module StreamProperties {
  import opened Wrappers
  import opened JsString
  import opened Http
  import opened AffirmationStream

  // ---------------------------------------------------------------------------
  // The callbacks: deltas, then exactly one of onDone / onError

  lemma {:induction false} DrainAllDeltas(buf: string, rules: LineRules)
    ensures AllDeltas(Drain(buf, rules).events)
    decreases |buf|
  {
    var i := IndexOf(buf, '\n');
    if i != -1 {
      DrainStep(buf, rules, i, StripCR(buf[..i]), buf[i + 1..]);
      DrainAllDeltas(buf[i + 1..], rules);
    }
  }

  lemma {:induction false} ReadLoopAllDeltas(buf: string, chunks: seq<string>, end: ReadEnd, rules: LineRules)
    ensures AllDeltas(ReadLoop(buf, chunks, end, rules).events)
    decreases |chunks|
  {
    if chunks != [] {
      var d := Drain(buf + chunks[0], rules);
      DrainAllDeltas(buf + chunks[0], rules);
      if !d.done {
        ReadLoopAllDeltas(d.rest, chunks[1..], end, rules);
      }
    }
  }

  lemma {:induction false} FlushLinesAllDeltas(lines: seq<string>, rules: LineRules)
    ensures AllDeltas(FlushLines(lines, rules))
    decreases |lines|
  {
    if lines != [] {
      FlushLinesAllDeltas(lines[..|lines| - 1], rules);
      LineEventsAllDeltas(lines[|lines| - 1], rules);
    }
  }

  /** One piece of the flushed buffer gives at most one delta. */
  lemma LineEventsAllDeltas(raw: string, rules: LineRules)
    ensures |LineEvents(raw, rules)| <= 1 && AllDeltas(LineEvents(raw, rules))
  {
  }

  /** Every callback but the last is `onDelta`, and the last is `onDone` or
      `onError`: each of those two is called at most once, never both, and
      nothing follows them. */
  lemma ExactlyOneTerminal(fetched: FetchOutcome, parse: Parser)
    ensures var es := StreamEvents(fetched, parse);
      |es| >= 1 && !es[|es| - 1].Delta? &&
      forall i :: 0 <= i < |es| - 1 ==> es[i].Delta?
  {
    if fetched.Received? && IsOk(fetched.resp.status) && fetched.resp.body.Some? {
      var b := fetched.resp.body.value;
      var r := ReadLoop("", b.chunks, b.end, Rules(parse));
      ReadLoopAllDeltas("", b.chunks, b.end, Rules(parse));
      if r.end.Finished? {
        FlushLinesAllDeltas(Split(r.end.rest, '\n'), Rules(parse));
      }
    }
  }

  /** A thrown `fetch`, a non-ok status or a missing body: one `onError`
      and nothing else. */
  lemma ErrorBeforeStreaming(fetched: FetchOutcome, parse: Parser)
    requires fetched.FetchFailed? || !IsOk(fetched.resp.status) || fetched.resp.body.None?
    ensures |StreamEvents(fetched, parse)| == 1 && StreamEvents(fetched, parse)[0].Error?
    ensures fetched.FetchFailed? ==> StreamEvents(fetched, parse) == [Error(ConnectionError)]
    ensures fetched.Received? && IsOk(fetched.resp.status) ==> StreamEvents(fetched, parse) == [Error(NoResponse)]
  {
  }

  // ---------------------------------------------------------------------------
  // The status messages

  /** For 429 and every status from 500 on, the message is fixed and nothing
      of the error body reaches the user; 502 and 503 get the "temporarily
      unavailable" text although they are also >= 500. For the remaining
      statuses a non-empty `error` field is shown; a missing or empty one
      gives the fallback (one for 400, one for the rest), and an unparseable
      body the "unable to connect" text. */
  lemma StatusMessageProperties(status: int, b1: ErrorBody, b2: ErrorBody)
    requires !b1.NullBody? && !b2.NullBody?
    ensures status == 429 || status >= 500 ==> StatusMessage(status, b1) == StatusMessage(status, b2)
    ensures status == 429 ==> StatusMessage(status, b1) == TooManyRequests
    ensures status == 504 ==> StatusMessage(status, b1) == TimedOut
    ensures status == 502 || status == 503 ==> StatusMessage(status, b1) == Unavailable
    ensures status >= 500 && status != 502 && status != 503 && status != 504 ==>
      StatusMessage(status, b1) == ServerError
    ensures status != 429 && status < 500 ==> StatusMessage(status, Unparseable) == UnableToConnect
    ensures status != 429 && status < 500 && b1.ErrorField? && b1.error.Some? && b1.error.value != "" ==>
      StatusMessage(status, b1) == b1.error.value
    ensures b1 == ErrorField(None) || b1 == ErrorField(Some("")) ==>
      StatusMessage(400, b1) == CheckInput
    ensures status != 400 && status != 429 && status < 500 && (b1 == ErrorField(None) || b1 == ErrorField(Some(""))) ==>
      StatusMessage(status, b1) == GenericError
  {
  }

  // ---------------------------------------------------------------------------
  // The pushback keeps the text

  /** `r` is `s`, or `s` without the "\r" just before its first "\n". */
  predicate SameUpToCR(r: string, s: string) {
    r == s ||
    exists m :: 0 <= m < |s| - 1 && '\n' !in s[..m] && s[m] == '\r' && s[m + 1] == '\n' && r == s[..m] + s[m + 1..]
  }

  lemma CutAtNewline(s: string, i: int)
    requires 0 <= i < |s| && s[i] == '\n'
    ensures s == s[..i] + "\n" + s[i + 1..]
  {
  }

  /** A pushed-back line loses at most its "\r". */
  lemma PushbackSameUpToCR(raw: string, rest: string)
    requires '\n' !in raw
    ensures SameUpToCR(StripCR(raw) + "\n" + rest, raw + "\n" + rest)
  {
    var line, buf := StripCR(raw), raw + "\n" + rest;
    if line != raw {
      var m := |raw| - 1;
      assert buf[m] == '\r' && buf[m + 1] == '\n';
      assert line + "\n" + rest == buf[..m] + buf[m + 1..];
    }
  }

  /** What the inner loop leaves, `d`, against the text `u` it has not yet
      consumed, starting at a line boundary `j` of the input: after `[DONE]`
      it is `u` itself; otherwise either `u` holds no complete line and is
      kept as it is, or its first line does not parse and is kept with at
      most its "\r" removed. */
  predicate KeepsUnread(buf: string, d: Drained, j: nat, rules: LineRules) {
    j <= |buf| && (j == 0 || buf[j - 1] == '\n') &&
    SameUpToCR(d.rest, buf[j..]) &&
    (d.done ==> j > 0 && d.rest == buf[j..]) &&
    (!d.done ==> ('\n' !in buf[j..] && d.rest == buf[j..]) || Stalled(buf[j..], rules))
  }

  /** After the inner loop, the buffer is the text not yet consumed: no text
      after a failing line is discarded, and the buffer never grows. */
  lemma {:induction false} DrainKeepsUnreadText(buf: string, rules: LineRules) returns (j: nat)
    ensures KeepsUnread(buf, Drain(buf, rules), j, rules)
    ensures |Drain(buf, rules).rest| <= |buf|
    decreases |buf|
  {
    var i := IndexOf(buf, '\n');
    IndexOfFirst(buf, '\n');
    if i == -1 {
      j := NoLineKeepsText(buf, rules);
      return;
    }
    var raw, rest := buf[..i], buf[i + 1..];
    var line := StripCR(raw);
    if rules(line).Skip? || rules(line).Emit? {
      var k := DrainKeepsUnreadText(rest, rules);
      j := i + 1 + k;
      DrainPastLine(buf, rules, i, line, rest);
      ShiftKeepsUnread(buf, i, rest, Drain(rest, rules), Drain(buf, rules), k, j, rules);
    } else if rules(line).Stop? {
      j := i + 1;
      DrainStep(buf, rules, i, line, rest);
      DoneKeepsText(buf, Drain(buf, rules), i, rules);
    } else {
      j := 0;
      DrainStep(buf, rules, i, line, rest);
      MalformedKeepsText(buf, Drain(buf, rules), i, raw, rest, rules);
    }
  }

  /** A line that is skipped or emitted leaves what comes after it to decide the
      buffer and whether `[DONE]` was seen. */
  lemma DrainPastLine(buf: string, rules: LineRules, i: int, line: string, rest: string)
    requires i == IndexOf(buf, '\n') && i != -1
    requires line == StripCR(buf[..i]) && rest == buf[i + 1..]
    requires rules(line).Skip? || rules(line).Emit?
    ensures Drain(buf, rules).rest == Drain(rest, rules).rest
    ensures Drain(buf, rules).done == Drain(rest, rules).done
  {
    DrainStep(buf, rules, i, line, rest);
  }

  lemma NoLineKeepsText(buf: string, rules: LineRules) returns (j: nat)
    requires IndexOf(buf, '\n') == -1 && '\n' !in buf
    ensures KeepsUnread(buf, Drain(buf, rules), j, rules) && j == 0
  {
    j := 0;
    assert buf[0..] == buf;
  }

  lemma DoneKeepsText(buf: string, d: Drained, i: int, rules: LineRules)
    requires 0 <= i < |buf| && buf[i] == '\n' && d == Drained(d.events, buf[i + 1..], true)
    ensures KeepsUnread(buf, d, i + 1, rules)
  {
  }

  lemma MalformedKeepsText(buf: string, d: Drained, i: int, raw: string, rest: string, rules: LineRules)
    requires i == IndexOf(buf, '\n') && i != -1 && raw == buf[..i] && rest == buf[i + 1..]
    requires rules(StripCR(raw)).Malformed? && d == Drained([], StripCR(raw) + "\n" + rest, false)
    ensures KeepsUnread(buf, d, 0, rules)
  {
    assert buf[0..] == buf;
    CutAtNewline(buf, i);
    IndexOfFirst(buf, '\n');
    assert '\n' !in raw;
    PushbackSameUpToCR(raw, rest);
  }

  /** A line that the loop consumes and goes past moves the boundary found in
      the text after it by the length of that line. */
  lemma ShiftKeepsUnread(buf: string, i: int, rest: string, dr: Drained, d: Drained, k: nat, j: nat, rules: LineRules)
    requires 0 <= i < |buf| && buf[i] == '\n' && rest == buf[i + 1..] && j == i + 1 + k
    requires KeepsUnread(rest, dr, k, rules) && |dr.rest| <= |rest|
    requires d.rest == dr.rest && d.done == dr.done
    ensures KeepsUnread(buf, d, j, rules) && |d.rest| <= |buf|
  {
    assert rest[k..] == buf[j..];
    if k > 0 {
      assert buf[j - 1] == rest[k - 1];
    }
  }


  // ---------------------------------------------------------------------------
  // `[DONE]` and a failing read

  /** After a read that meets `[DONE]`, nothing more is read: later chunks and
      how the body ends do not matter. */
  lemma DoneStopsReading(buf: string, chunks: seq<string>, end: ReadEnd, rules: LineRules)
    requires chunks != [] && Drain(buf + chunks[0], rules).done
    ensures ReadLoop(buf, chunks, end, rules) == ReadLoop(buf, chunks[..1], EndOfStream, rules)
    ensures ReadLoop(buf, chunks, end, rules).end == Finished(Drain(buf + chunks[0], rules).rest)
  {
    assert chunks[..1][0] == chunks[0];
  }

  /** A read that throws before any `[DONE]` makes the read loop fail. */
  lemma {:induction false} ReadFailureEndsInError(buf: string, chunks: seq<string>, rules: LineRules)
    requires forall k :: 0 <= k < |chunks| ==> !Drain(DrainInput(buf, chunks, k, rules), rules).done
    ensures ReadLoop(buf, chunks, ReadThrows, rules).end == Failed
    decreases |chunks|
  {
    if chunks != [] {
      assert !Drain(buf + chunks[0], rules).done by {
        assert DrainInput(buf, chunks, 0, rules) == buf + chunks[0];
      }
      var rest := Drain(buf + chunks[0], rules).rest;
      forall k | 0 <= k < |chunks[1..]|
        ensures !Drain(DrainInput(rest, chunks[1..], k, rules), rules).done
      {
        DrainInputShift(buf, chunks, k, rules);
      }
      ReadFailureEndsInError(rest, chunks[1..], rules);
    }
  }

  /** An ok response whose body throws on a read before any `[DONE]`: the
      deltas read so far, then `onError` with the connection message, and no
      `onDone`. */
  lemma ReadFailureReported(fetched: FetchOutcome, parse: Parser)
    requires fetched.Received? && IsOk(fetched.resp.status) && fetched.resp.body.Some?
    requires fetched.resp.body.value.end == ReadThrows
    requires var chunks := fetched.resp.body.value.chunks;
      forall k :: 0 <= k < |chunks| ==> !Drain(DrainInput("", chunks, k, Rules(parse)), Rules(parse)).done
    ensures var es := StreamEvents(fetched, parse);
      es == ReadLoop("", fetched.resp.body.value.chunks, ReadThrows, Rules(parse)).events + [Error(ConnectionError)] &&
      Done !in es
  {
    var chunks := fetched.resp.body.value.chunks;
    ReadFailureEndsInError("", chunks, Rules(parse));
    ReadLoopAllDeltas("", chunks, ReadThrows, Rules(parse));
  }

  /** The buffer the `k`-th inner loop starts from, when no earlier read met
      `[DONE]`. */
  function DrainInput(buf: string, chunks: seq<string>, k: nat, rules: LineRules): string
    requires k < |chunks|
    decreases k
  {
    if k == 0 then buf + chunks[0]
    else DrainInput(Drain(buf + chunks[0], rules).rest, chunks[1..], k - 1, rules)
  }

  lemma DrainInputShift(buf: string, chunks: seq<string>, k: nat, rules: LineRules)
    requires k + 1 < |chunks|
    ensures DrainInput(buf, chunks, k + 1, rules) ==
      DrainInput(Drain(buf + chunks[0], rules).rest, chunks[1..], k, rules)
  {
  }

  /** A stream that ends normally never fails the outer loop. */
  lemma {:induction false} EndOfStreamFinishes(buf: string, chunks: seq<string>, rules: LineRules)
    ensures ReadLoop(buf, chunks, EndOfStream, rules).end.Finished?
    decreases |chunks|
  {
    if chunks != [] {
      var d := Drain(buf + chunks[0], rules);
      if !d.done {
        EndOfStreamFinishes(d.rest, chunks[1..], rules);
      }
    }
  }

  /** With an ok status and a body that ends normally, the last callback is
      `onDone` (whether or not `[DONE]` was sent) and no `onError` is fired. */
  lemma NormalEndIsDone(status: int, errorBody: ErrorBody, chunks: seq<string>, parse: Parser)
    requires IsOk(status)
    ensures var es := StreamEvents(Received(ClientResponse(status, errorBody, Some(Body(chunks, EndOfStream)))), parse);
      |es| >= 1 && es[|es| - 1] == Done && forall e :: e in es ==> !e.Error?
  {
    var fetched := Received(ClientResponse(status, errorBody, Some(Body(chunks, EndOfStream))));
    var r := ReadLoop("", chunks, EndOfStream, Rules(parse));
    EndOfStreamFinishes("", chunks, Rules(parse));
    ReadLoopAllDeltas("", chunks, EndOfStream, Rules(parse));
    var f := Flush(r.end.rest, Rules(parse));
    assert AllDeltas(f) by { FlushAllDeltas(r.end.rest, Rules(parse)); }
    assert StreamEvents(fetched, parse) == r.events + f + [Done];
    DeltasThenDone(r.events, f);
  }

  lemma FlushAllDeltas(buf: string, rules: LineRules)
    ensures AllDeltas(Flush(buf, rules))
  {
    if Trim(buf) != "" {
      FlushLinesAllDeltas(Split(buf, '\n'), rules);
    }
  }

  lemma DeltasThenDone(a: seq<Event>, b: seq<Event>)
    requires AllDeltas(a) && AllDeltas(b)
    ensures var es := a + b + [Done];
      |es| >= 1 && es[|es| - 1] == Done && forall e :: e in es ==> !e.Error?
  {
  }
}
