/**
 * Chunk boundaries do not change what the client shows: as long as no
 * complete line is `data: [DONE]`, the callbacks are those of the whole
 * response text cut into lines at once, whatever the chunking, and even when
 * an unparseable line holds processing back until the final flush.
 */
module StreamChunking {
  import opened Wrappers
  import opened JsString
  import opened Http
  import opened AffirmationStream

  /** The deltas of a whole text cut at every "\n", by the line rules of the
      final flush. */
  function WholeText(s: string, rules: LineRules): seq<Event>
    decreases |s|
  {
    var i := IndexOf(s, '\n');
    if i == -1 then LineEvents(s, rules)
    else LineEvents(s[..i], rules) + WholeText(s[i + 1..], rules)
  }

  /** The final flush's pass over the split text is `WholeText`. */
  lemma {:induction false} FlushLinesOfSplit(s: string, rules: LineRules)
    ensures FlushLines(Split(s, '\n'), rules) == WholeText(s, rules)
    decreases |s|
  {
    var i := IndexOf(s, '\n');
    SplitStep(s, '\n', i);
    if i == -1 {
      FlushLinesOfOne(s, rules);
      WholeTextOfLine(s, rules);
    } else {
      FlushLinesCons(s[..i], Split(s[i + 1..], '\n'), rules);
      FlushLinesOfSplit(s[i + 1..], rules);
      WholeTextAt(s, i, s[..i], s[i + 1..], rules);
    }
  }

  /** `Split` cuts at the first separator. */
  lemma SplitStep(s: string, sep: char, i: int)
    requires i == IndexOf(s, sep)
    ensures i == -1 ==> Split(s, sep) == [s]
    ensures i != -1 ==> Split(s, sep) == [s[..i]] + Split(s[i + 1..], sep)
  {
  }

  lemma FlushLinesOfOne(x: string, rules: LineRules)
    ensures FlushLines([x], rules) == LineEvents(x, rules)
  {
    assert [x][..0] == [];
  }

  /** No complete ("\n"-terminated) line of `s` asks to stop. */
  predicate NoDoneLine(s: string, rules: LineRules)
    decreases |s|
  {
    var i := IndexOf(s, '\n');
    i == -1 || (!rules(StripCR(s[..i])).Stop? && NoDoneLine(s[i + 1..], rules))
  }

  // ---------------------------------------------------------------------------
  // Cutting text at its first newline

  lemma {:induction false} FlushLinesCons(x: string, ls: seq<string>, rules: LineRules)
    ensures FlushLines([x] + ls, rules) == LineEvents(x, rules) + FlushLines(ls, rules)
    decreases |ls|
  {
    if ls == [] {
      assert ([x] + ls)[..0] == [];
    } else {
      var n := |ls|;
      assert ([x] + ls)[..n] == [x] + ls[..n - 1];
      FlushLinesCons(x, ls[..n - 1], rules);
      AppendAssoc(LineEvents(x, rules), FlushLines(ls[..n - 1], rules), LineEvents(ls[n - 1], rules));
    }
  }

  /** `WholeText` cut at the first newline `i` of `s`, into `head` and
      `tail`. */
  lemma WholeTextAt(s: string, i: int, head: string, tail: string, rules: LineRules)
    requires i == IndexOf(s, '\n') && i != -1 && head == s[..i] && tail == s[i + 1..]
    ensures WholeText(s, rules) == LineEvents(head, rules) + WholeText(tail, rules)
  {
  }

  lemma WholeTextStep(s: string, rules: LineRules)
    requires IndexOf(s, '\n') != -1
    ensures var i := IndexOf(s, '\n');
      WholeText(s, rules) == LineEvents(s[..i], rules) + WholeText(s[i + 1..], rules)
  {
  }

  lemma WholeTextOfLine(s: string, rules: LineRules)
    requires IndexOf(s, '\n') == -1
    ensures WholeText(s, rules) == LineEvents(s, rules)
  {
  }

  /** Appending text does not move the first newline. */
  lemma IndexOfAppend(b: string, y: string)
    requires IndexOf(b, '\n') != -1
    ensures IndexOf(b + y, '\n') == IndexOf(b, '\n')
  {
    var i, j := IndexOf(b, '\n'), IndexOf(b + y, '\n');
    IndexOfFirst(b, '\n');
    IndexOfFirst(b + y, '\n');
    assert (b + y)[..i] == b[..i];
    assert (b + y)[i] == '\n';
  }

  lemma SliceAppend(b: string, y: string, i: int)
    requires 0 <= i < |b|
    ensures (b + y)[..i] == b[..i] && (b + y)[i + 1..] == b[i + 1..] + y
  {
  }

  lemma IndexOfLine(line: string, r: string)
    requires '\n' !in line
    ensures IndexOf(line + "\n" + r, '\n') == |line|
  {
    var t := line + "\n" + r;
    var j := IndexOf(t, '\n');
    IndexOfFirst(t, '\n');
    assert t[|line|] == '\n';
    assert t[..|line|] == line;
  }

  /** What the chunking argument needs of the line rules: a line that does
      not parse still does not parse once a further "\r" is stripped, and a
      line of whitespace emits nothing. */
  ghost predicate Sane(rules: LineRules) {
    (forall l {:trigger rules(StripCR(l))} :: rules(l).Malformed? ==> rules(StripCR(l)).Malformed?) &&
    (forall l {:trigger AllSpace(l)} :: AllSpace(l) ==> !rules(l).Emit?)
  }

  /** The client's rules are sane. */
  lemma RulesSane(parse: Parser)
    ensures Sane(Rules(parse))
  {
    forall l | Classify(l, parse).Malformed?
      ensures Classify(StripCR(l), parse).Malformed?
    {
      IgnoredLines(l, parse);
      StripCRKeepsDataLine(l, parse);
    }
    forall l | AllSpace(l)
      ensures !Classify(l, parse).Emit?
    {
      IgnoredLines(l, parse);
    }
  }

  /** A "data: " line is judged by its payload alone. */
  lemma DataLineClassify(x: string, parse: Parser)
    requires StartsWith(x, "data: ")
    ensures Classify(x, parse) == PayloadAction(Trim(x[6..]), parse)
  {
    assert x[0] == 'd';
    TrimNonEmpty(x);
  }

  lemma StripCRDataLine(x: string)
    requires StartsWith(x, "data: ")
    ensures StartsWith(StripCR(x), "data: ") && Trim(StripCR(x)[6..]) == Trim(x[6..])
  {
    var y := StripCR(x);
    if y != x {
      assert x[5] == ' ';
      assert |y| >= 6 && y[..6] == x[..6];
      assert x[6..] == y[6..] + ['\r'];
      TrimAppendSpace(y[6..], '\r');
    }
  }

  /** A "data: " line means the same with or without its trailing "\r". */
  lemma StripCRKeepsDataLine(x: string, parse: Parser)
    requires StartsWith(x, "data: ")
    ensures Classify(StripCR(x), parse) == Classify(x, parse)
  {
    StripCRDataLine(x);
    DataLineClassify(x, parse);
    DataLineClassify(StripCR(x), parse);
  }

  lemma LineEventsOfMalformed(line: string, rules: LineRules)
    requires Sane(rules) && rules(line).Malformed?
    ensures LineEvents(line, rules) == []
    ensures rules(StripCR(line)).Malformed?
  {
  }

  lemma NoNewlineInStripped(raw: string)
    requires '\n' !in raw
    ensures '\n' !in StripCR(raw)
  {
    var line := StripCR(raw);
    assert forall k :: 0 <= k < |line| ==> line[k] == raw[k];
  }

  // ---------------------------------------------------------------------------
  // The read loop against the whole text

  /** The first line of `b` is the first line of `b + y`. */
  lemma FirstLineOfAppend(b: string, y: string, rules: LineRules)
    requires IndexOf(b, '\n') != -1
    ensures var i := IndexOf(b, '\n');
      WholeText(b + y, rules) == LineEvents(b[..i], rules) + WholeText(b[i + 1..] + y, rules)
  {
    var i := IndexOf(b, '\n');
    AppendAtNewline(b, y, i);
    WholeTextCons(b[..i], b[i + 1..] + y, rules);
  }

  lemma NoDoneLineOfAppend(b: string, y: string, rules: LineRules)
    requires IndexOf(b, '\n') != -1
    ensures var i := IndexOf(b, '\n');
      NoDoneLine(b + y, rules) <==>
        !rules(StripCR(b[..i])).Stop? && NoDoneLine(b[i + 1..] + y, rules)
  {
    var i := IndexOf(b, '\n');
    AppendAtNewline(b, y, i);
    NoDoneLineCons(b[..i], b[i + 1..] + y, rules);
  }

  /** `b + y` is the first line of `b`, a newline, and the rest of `b`
      followed by `y`. */
  lemma AppendAtNewline(b: string, y: string, i: int)
    requires i == IndexOf(b, '\n') && i != -1
    ensures '\n' !in b[..i] && b + y == b[..i] + "\n" + (b[i + 1..] + y)
  {
    IndexOfFirst(b, '\n');
    assert b == b[..i] + [b[i]] + b[i + 1..];
  }

  /** Cutting `l + "\n" + r` at its first newline gives `l` and `r`. */
  lemma WholeTextCons(l: string, r: string, rules: LineRules)
    requires '\n' !in l
    ensures WholeText(l + "\n" + r, rules) == LineEvents(l, rules) + WholeText(r, rules)
  {
    var t := l + "\n" + r;
    IndexOfLine(l, r);
    assert t[..|l|] == l;
    assert t[|l| + 1..] == r;
    WholeTextStep(t, rules);
  }

  lemma NoDoneLineCons(l: string, r: string, rules: LineRules)
    requires '\n' !in l
    ensures NoDoneLine(l + "\n" + r, rules) == (!rules(StripCR(l)).Stop? && NoDoneLine(r, rules))
  {
    var t := l + "\n" + r;
    IndexOfLine(l, r);
    assert t[..|l|] == l;
    assert t[|l| + 1..] == r;
  }

  /** One inner loop over `b`, with `y` still to come, emits exactly the
      deltas of the lines it consumed or holds back. */
  lemma {:induction false} DrainAgainstWhole(b: string, y: string, rules: LineRules)
    requires Sane(rules) && NoDoneLine(b + y, rules)
    ensures DrainMatchesWhole(b, y, rules)
    decreases |b|, 1
  {
    var i := IndexOf(b, '\n');
    if i == -1 {
      assert [] + WholeText(b + y, rules) == WholeText(b + y, rules);
    } else if rules(StripCR(b[..i])).Malformed? {
      PushbackAgainstWholeText(b, y, rules);
    } else {
      ConsumedAgainstWholeText(b, y, rules);
    }
  }

  /** What `DrainAgainstWhole` states of one inner loop. */
  predicate DrainMatchesWhole(b: string, y: string, rules: LineRules) {
    var d := Drain(b, rules);
    !d.done && NoDoneLine(d.rest + y, rules) &&
    d.events + WholeText(d.rest + y, rules) == WholeText(b + y, rules)
  }

  /** The first line is skipped or emitted, and the loop goes on. */
  lemma {:induction false} ConsumedAgainstWholeText(b: string, y: string, rules: LineRules)
    requires Sane(rules) && NoDoneLine(b + y, rules)
    requires IndexOf(b, '\n') != -1 && !rules(StripCR(b[..IndexOf(b, '\n')])).Malformed?
    ensures DrainMatchesWhole(b, y, rules)
    decreases |b|, 0
  {
    var i := IndexOf(b, '\n');
    var raw, rest := b[..i], b[i + 1..];
    var line := StripCR(raw);
    FirstLineOfAppend(b, y, rules);
    NoDoneLineOfAppend(b, y, rules);
    DrainStep(b, rules, i, line, rest);
    DrainAgainstWhole(rest, y, rules);
    match rules(line) {
      case Skip =>
        assert LineEvents(raw, rules) == [];
        SkipMatches(b, y, rest, rules);
      case Emit(c) =>
        assert AllSpace("");
        assert raw != "";
        assert LineEvents(raw, rules) == [Delta(c)];
        EmitMatches(b, y, rest, c, rules);
    }
  }

  lemma SkipMatches(b: string, y: string, rest: string, rules: LineRules)
    requires Drain(b, rules) == Drain(rest, rules) && DrainMatchesWhole(rest, y, rules)
    requires WholeText(b + y, rules) == [] + WholeText(rest + y, rules)
    ensures DrainMatchesWhole(b, y, rules)
  {
    assert [] + WholeText(rest + y, rules) == WholeText(rest + y, rules);
  }

  lemma EmitMatches(b: string, y: string, rest: string, c: string, rules: LineRules)
    requires DrainMatchesWhole(rest, y, rules)
    requires var d := Drain(rest, rules); Drain(b, rules) == Drained([Delta(c)] + d.events, d.rest, d.done)
    requires WholeText(b + y, rules) == [Delta(c)] + WholeText(rest + y, rules)
    ensures DrainMatchesWhole(b, y, rules)
  {
    var d := Drain(rest, rules);
    AppendAssoc([Delta(c)], d.events, WholeText(d.rest + y, rules));
  }

  /** `b` with its first line put back "\r"-stripped, as the pushback leaves
      it. */
  function PushedBack(b: string): string
    requires IndexOf(b, '\n') != -1
  {
    var i := IndexOf(b, '\n');
    StripCR(b[..i]) + "\n" + b[i + 1..]
  }

  /** The first line does not parse and is put back: nothing is emitted and
      the inner loop stops. */
  lemma PushbackAgainstWholeText(b: string, y: string, rules: LineRules)
    requires Sane(rules) && NoDoneLine(b + y, rules)
    requires IndexOf(b, '\n') != -1 && rules(StripCR(b[..IndexOf(b, '\n')])).Malformed?
    ensures DrainMatchesWhole(b, y, rules)
  {
    PushbackDrain(b, rules);
    PushbackWholeText(b, y, rules);
    MatchesWithoutEvents(b, y, PushedBack(b), rules);
  }

  lemma MatchesWithoutEvents(b: string, y: string, p: string, rules: LineRules)
    requires Drain(b, rules) == Drained([], p, false)
    requires NoDoneLine(p + y, rules) && WholeText(p + y, rules) == WholeText(b + y, rules)
    ensures DrainMatchesWhole(b, y, rules)
  {
    assert [] + WholeText(p + y, rules) == WholeText(p + y, rules);
  }

  lemma PushbackDrain(b: string, rules: LineRules)
    requires IndexOf(b, '\n') != -1 && rules(StripCR(b[..IndexOf(b, '\n')])).Malformed?
    ensures Drain(b, rules) == Drained([], PushedBack(b), false)
  {
    var i := IndexOf(b, '\n');
    DrainStep(b, rules, i, StripCR(b[..i]), b[i + 1..]);
  }

  lemma PushbackWholeText(b: string, y: string, rules: LineRules)
    requires Sane(rules) && NoDoneLine(b + y, rules)
    requires IndexOf(b, '\n') != -1 && rules(StripCR(b[..IndexOf(b, '\n')])).Malformed?
    ensures WholeText(PushedBack(b) + y, rules) == WholeText(b + y, rules)
    ensures NoDoneLine(PushedBack(b) + y, rules)
  {
    var i := IndexOf(b, '\n');
    var raw, rest := b[..i], b[i + 1..];
    var line := StripCR(raw);
    assert PushedBack(b) + y == line + "\n" + (rest + y);
    LineEventsOfMalformed(line, rules);
    IndexOfFirst(b, '\n');
    NoNewlineInStripped(raw);
    FirstLineOfAppend(b, y, rules);
    WholeTextCons(line, rest + y, rules);
    NoDoneLineOfAppend(b, y, rules);
    NoDoneLineCons(line, rest + y, rules);
  }

  /** The outer loop over every chunk of a response that ends normally. */
  lemma {:induction false} ReadLoopAgainstWhole(b: string, chunks: seq<string>, rules: LineRules)
    requires Sane(rules) && NoDoneLine(b + Concat(chunks), rules)
    ensures var r := ReadLoop(b, chunks, EndOfStream, rules);
      r.end.Finished? &&
      r.events + WholeText(r.end.rest, rules) == WholeText(b + Concat(chunks), rules)
    decreases |chunks|
  {
    if chunks == [] {
      assert b + Concat(chunks) == b;
      assert [] + WholeText(b, rules) == WholeText(b, rules);
    } else {
      var c, cs := chunks[0], chunks[1..];
      assert b + Concat(chunks) == (b + c) + Concat(cs);
      DrainAgainstWhole(b + c, Concat(cs), rules);
      assert DrainMatchesWhole(b + c, Concat(cs), rules);
      var d := Drain(b + c, rules);
      ReadLoopAgainstWhole(d.rest, cs, rules);
      var r := ReadLoop(d.rest, cs, EndOfStream, rules);
      AppendAssoc(d.events, r.events, WholeText(r.end.rest, rules));
    }
  }

  /** Text that is only whitespace emits nothing, so the flush's
      `textBuffer.trim()` guard changes nothing. */
  lemma LineEventsOfSpace(raw: string, rules: LineRules)
    requires Sane(rules) && AllSpace(raw)
    ensures LineEvents(raw, rules) == []
  {
    var line := StripCR(raw);
    assert forall k :: 0 <= k < |line| ==> line[k] == raw[k];
    assert AllSpace(line);
  }

  lemma {:induction false} WholeTextOfSpace(s: string, rules: LineRules)
    requires Sane(rules) && AllSpace(s)
    ensures WholeText(s, rules) == []
    decreases |s|
  {
    var i := IndexOf(s, '\n');
    if i == -1 {
      WholeTextOfLine(s, rules);
      LineEventsOfSpace(s, rules);
    } else {
      AllSpaceSlices(s, i);
      LineEventsOfSpace(s[..i], rules);
      WholeTextOfSpace(s[i + 1..], rules);
      WholeTextAt(s, i, s[..i], s[i + 1..], rules);
    }
  }

  lemma AllSpaceSlices(s: string, i: int)
    requires AllSpace(s) && 0 <= i < |s|
    ensures AllSpace(s[..i]) && AllSpace(s[i + 1..])
  {
  }

  lemma FlushIsWholeText(s: string, rules: LineRules)
    requires Sane(rules)
    ensures Flush(s, rules) == WholeText(s, rules)
  {
    FlushLinesOfSplit(s, rules);
    if Trim(s) == "" {
      TrimEmptyIff(s);
      WholeTextOfSpace(s, rules);
    }
  }

  /** Main theorem: with no `[DONE]` line and a body read to its end, the
      callbacks are the deltas of the whole text, then `onDone`. */
  lemma EventsOfWholeText(status: int, errorBody: ErrorBody, chunks: seq<string>, parse: Parser)
    requires IsOk(status) && NoDoneLine(Concat(chunks), Rules(parse))
    ensures StreamEvents(Received(ClientResponse(status, errorBody, Some(Body(chunks, EndOfStream)))), parse)
      == WholeText(Concat(chunks), Rules(parse)) + [Done]
  {
    var rules := Rules(parse);
    RulesSane(parse);
    assert "" + Concat(chunks) == Concat(chunks);
    ReadLoopAgainstWhole("", chunks, rules);
    var r := ReadLoop("", chunks, EndOfStream, rules);
    FlushIsWholeText(r.end.rest, rules);
  }

  /** Any two chunkings of the same text give the same callbacks. */
  lemma ChunkingIrrelevant(status: int, errorBody: ErrorBody, c1: seq<string>, c2: seq<string>, parse: Parser)
    requires IsOk(status) && Concat(c1) == Concat(c2) && NoDoneLine(Concat(c1), Rules(parse))
    ensures StreamEvents(Received(ClientResponse(status, errorBody, Some(Body(c1, EndOfStream)))), parse)
      == StreamEvents(Received(ClientResponse(status, errorBody, Some(Body(c2, EndOfStream)))), parse)
  {
    EventsOfWholeText(status, errorBody, c1, parse);
    EventsOfWholeText(status, errorBody, c2, parse);
  }

  // ---------------------------------------------------------------------------
  // A response made of well-formed data lines

  /** A complete "data: " line whose payload parses and is not `[DONE]`. */
  predicate IsDataLine(l: string, parse: Parser) {
    '\n' !in l && StartsWith(l, "data: ") &&
    Trim(l[6..]) != "[DONE]" && parse(Trim(l[6..])).Parsed?
  }

  /** The delta a data line carries, if its content is a non-empty string. */
  function DataDelta(l: string, parse: Parser): seq<Event>
    requires IsDataLine(l, parse)
  {
    var c := parse(Trim(l[6..])).content;
    if c.Some? && c.value != "" then [Delta(c.value)] else []
  }

  /** The deltas those lines carry: each non-empty content, in order. */
  function Contents(ls: seq<string>, parse: Parser): seq<Event>
    requires forall k :: 0 <= k < |ls| ==> IsDataLine(ls[k], parse)
  {
    if ls == [] then [] else DataDelta(ls[0], parse) + Contents(ls[1..], parse)
  }

  lemma DataLineEvents(l: string, parse: Parser)
    requires IsDataLine(l, parse)
    ensures LineEvents(l, Rules(parse)) == DataDelta(l, parse) && !Classify(StripCR(l), parse).Stop?
  {
    StripCRKeepsDataLine(l, parse);
    DataLineClassify(l, parse);
  }

  lemma JoinTerminated(ls: seq<string>)
    requires ls != []
    ensures Join(ls + [""], '\n') == ls[0] + "\n" + Join(ls[1..] + [""], '\n')
  {
    assert (ls + [""])[1..] == ls[1..] + [""];
  }

  lemma {:induction false} DataLinesNoDoneLine(ls: seq<string>, parse: Parser)
    requires forall k :: 0 <= k < |ls| ==> IsDataLine(ls[k], parse)
    ensures NoDoneLine(Join(ls + [""], '\n'), Rules(parse))
    decreases |ls|
  {
    if ls == [] {
      assert [] + [""] == [""];
    } else {
      JoinTerminated(ls);
      NoDoneLineCons(ls[0], Join(ls[1..] + [""], '\n'), Rules(parse));
      DataLineEvents(ls[0], parse);
      DataLinesNoDoneLine(ls[1..], parse);
    }
  }

  lemma {:induction false} WholeTextOfDataLines(ls: seq<string>, parse: Parser)
    requires forall k :: 0 <= k < |ls| ==> IsDataLine(ls[k], parse)
    ensures WholeText(Join(ls + [""], '\n'), Rules(parse)) == Contents(ls, parse)
    decreases |ls|
  {
    if ls == [] {
      assert [] + [""] == [""];
      WholeTextOfLine("", Rules(parse));
    } else {
      JoinTerminated(ls);
      WholeTextCons(ls[0], Join(ls[1..] + [""], '\n'), Rules(parse));
      DataLineEvents(ls[0], parse);
      WholeTextOfDataLines(ls[1..], parse);
    }
  }

  /** A body that is a run of well-formed "data: " lines, each ended by "\n",
      delivers every non-empty content in order and then `onDone`, however
      it is cut into chunks. */
  lemma DataLinesInAnyChunking(status: int, errorBody: ErrorBody, chunks: seq<string>,
                               ls: seq<string>, parse: Parser)
    requires IsOk(status) && Concat(chunks) == Join(ls + [""], '\n')
    requires forall k :: 0 <= k < |ls| ==> IsDataLine(ls[k], parse)
    ensures StreamEvents(Received(ClientResponse(status, errorBody, Some(Body(chunks, EndOfStream)))), parse)
      == Contents(ls, parse) + [Done]
  {
    DataLinesNoDoneLine(ls, parse);
    WholeTextOfDataLines(ls, parse);
    EventsOfWholeText(status, errorBody, chunks, parse);
  }

  // ---------------------------------------------------------------------------
  // An unparseable line stalls the read loop

  /** Once stalled, every later read appends its chunk and emits nothing:
      the same line fails again. */
  lemma StallPersists(b: string, c: string, rules: LineRules)
    requires Sane(rules) && Stalled(b, rules)
    ensures Drain(b + c, rules) == Drained([], PushedBack(b) + c, false)
    ensures Stalled(PushedBack(b) + c, rules)
  {
    var i := IndexOf(b, '\n');
    var raw, rest := b[..i], b[i + 1..];
    var line := StripCR(raw);
    IndexOfAppend(b, c);
    SliceAppend(b, c, i);
    DrainStep(b + c, rules, i, line, rest + c);
    assert PushedBack(b) + c == line + "\n" + (rest + c);
    IndexOfFirst(b, '\n');
    NoNewlineInStripped(raw);
    IndexOfLine(line, rest + c);
    assert (line + "\n" + (rest + c))[..|line|] == line;
    LineEventsOfMalformed(line, rules);
  }

  /** A read that leaves the buffer stalled, and every read after it, emits
      nothing. */
  lemma {:induction false} StalledReadLoop(b: string, chunks: seq<string>, end: ReadEnd, rules: LineRules)
    requires Sane(rules) && chunks != [] && Stalled(b + chunks[0], rules)
    ensures ReadLoop(b, chunks, end, rules).events == []
    ensures ReadLoop(b, chunks, end, rules).end.Failed? <==> end == ReadThrows
    decreases |chunks|
  {
    var c := b + chunks[0];
    PushbackDrain(c, rules);
    if |chunks| > 1 {
      StallPersists(c, chunks[1], rules);
      assert chunks[1..][0] == chunks[1];
      StalledReadLoop(PushedBack(c), chunks[1..], end, rules);
    }
  }

  /** A first chunk whose first line does not parse: nothing reaches
      `onDelta` until the final flush, or at all if a read throws. */
  lemma StalledStream(status: int, errorBody: ErrorBody, chunks: seq<string>, end: ReadEnd, parse: Parser)
    requires IsOk(status) && chunks != [] && Stalled(chunks[0], Rules(parse))
    ensures var es := StreamEvents(Received(ClientResponse(status, errorBody, Some(Body(chunks, end)))), parse);
      var r := ReadLoop("", chunks, end, Rules(parse));
      (end == ReadThrows ==> es == [Error(ConnectionError)]) &&
      (end == EndOfStream ==> r.end.Finished? && es == Flush(r.end.rest, Rules(parse)) + [Done])
  {
    var rules := Rules(parse);
    RulesSane(parse);
    assert "" + chunks[0] == chunks[0];
    StalledReadLoop("", chunks, end, rules);
    var r := ReadLoop("", chunks, end, rules);
    if r.end.Finished? {
      assert [] + Flush(r.end.rest, rules) == Flush(r.end.rest, rules);
    }
  }

  // ---------------------------------------------------------------------------
  // Text after `[DONE]`

  /** The line `data: [DONE]` asks to stop. */
  lemma DoneLine(parse: Parser)
    ensures Classify(StripCR("data: [DONE]"), parse) == Stop
  {
    var done := "data: [DONE]";
    DoneLineText();
    DoneTrimmed();
    PayloadLineStops(done, parse);
  }

  lemma DoneLineText()
    ensures StripCR("data: [DONE]") == "data: [DONE]"
    ensures StartsWith("data: [DONE]", "data: ") && "data: [DONE]"[6..] == "[DONE]"
  {
  }

  lemma DoneTrimmed()
    ensures Trim("[DONE]") == "[DONE]"
  {
    TrimOfUnpadded("[DONE]");
  }

  lemma PayloadLineStops(x: string, parse: Parser)
    requires StartsWith(x, "data: ") && Trim(x[6..]) == "[DONE]"
    ensures Classify(x, parse) == Stop
  {
    DataLineClassify(x, parse);
  }

  /** The first line of `b` is a `[DONE]` line. */
  lemma DrainOfDoneFirst(b: string, rules: LineRules)
    requires IndexOf(b, '\n') != -1 && rules(StripCR(b[..IndexOf(b, '\n')])).Stop?
    ensures Drain(b, rules) == Drained([], b[IndexOf(b, '\n') + 1..], true)
  {
    var i := IndexOf(b, '\n');
    DrainStep(b, rules, i, StripCR(b[..i]), b[i + 1..]);
  }

  lemma CutLine(l: string, r: string)
    requires '\n' !in l
    ensures var t := l + "\n" + r;
      IndexOf(t, '\n') == |l| && t[..|l|] == l && t[|l| + 1..] == r
  {
    IndexOfLine(l, r);
    var t := l + "\n" + r;
    assert t[..|l|] == l;
  }

  lemma FlushOfDataLine(l: string, parse: Parser)
    requires IsDataLine(l, parse)
    ensures Flush(l + "\n", Rules(parse)) == DataDelta(l, parse)
  {
    var rules := Rules(parse);
    RulesSane(parse);
    FlushIsWholeText(l + "\n", rules);
    assert l + "\n" == l + "\n" + "";
    WholeTextCons(l, "", rules);
    WholeTextOfLine("", rules);
    DataLineEvents(l, parse);
  }

  /** Text after a `[DONE]` line that arrives in the same read as `[DONE]`
      reaches `onDelta` through the final flush ... */
  lemma DoneTailSameRead(status: int, errorBody: ErrorBody, d: string, l: string, parse: Parser)
    requires IsOk(status) && '\n' !in d && Classify(StripCR(d), parse).Stop? && IsDataLine(l, parse)
    ensures StreamEvents(Received(ClientResponse(status, errorBody,
      Some(Body([d + "\n" + (l + "\n")], EndOfStream)))), parse) == DataDelta(l, parse) + [Done]
  {
    DoneThenRest(status, errorBody, d, l + "\n", parse);
    FlushOfDataLine(l, parse);
  }

  /** A single read of a `[DONE]` line and then `r`: only the flush of `r`. */
  lemma DoneThenRest(status: int, errorBody: ErrorBody, d: string, r: string, parse: Parser)
    requires IsOk(status) && '\n' !in d && Classify(StripCR(d), parse).Stop?
    ensures StreamEvents(Received(ClientResponse(status, errorBody,
      Some(Body([d + "\n" + r], EndOfStream)))), parse) == Flush(r, Rules(parse)) + [Done]
  {
    var s1 := d + "\n" + r;
    assert ReadLoop("", [s1], EndOfStream, Rules(parse)) == ReadOutcome([], Finished(r)) by {
      assert "" + s1 == s1;
      CutLine(d, r);
      DrainOfDoneFirst(s1, Rules(parse));
    }
    SilentReadLoop(status, errorBody, [s1], r, parse);
  }

  /** ... and is dropped when it arrives in a later read. */
  lemma DoneTailLaterRead(status: int, errorBody: ErrorBody, d: string, l: string, parse: Parser)
    requires IsOk(status) && '\n' !in d && Classify(StripCR(d), parse).Stop?
    ensures StreamEvents(Received(ClientResponse(status, errorBody,
      Some(Body([d + "\n", l + "\n"], EndOfStream)))), parse) == [Done]
  {
    var c1, c2 := d + "\n", l + "\n";
    assert ReadLoop("", [c1, c2], EndOfStream, Rules(parse)) == ReadOutcome([], Finished("")) by {
      assert "" + c1 == c1 && c1 == d + "\n" + "";
      CutLine(d, "");
      DrainOfDoneFirst(c1, Rules(parse));
    }
    SilentReadLoop(status, errorBody, [c1, c2], "", parse);
    assert Flush("", Rules(parse)) == [];
  }

  /** A read loop that emits nothing leaves everything to the final flush. */
  lemma SilentReadLoop(status: int, errorBody: ErrorBody, chunks: seq<string>, rest: string, parse: Parser)
    requires IsOk(status) && ReadLoop("", chunks, EndOfStream, Rules(parse)) == ReadOutcome([], Finished(rest))
    ensures StreamEvents(Received(ClientResponse(status, errorBody, Some(Body(chunks, EndOfStream)))), parse)
      == Flush(rest, Rules(parse)) + [Done]
  {
    assert [] + Flush(rest, Rules(parse)) == Flush(rest, Rules(parse));
  }

  /** Comment lines, blank lines and lines without the "data: " prefix are
      skipped. */
  lemma IgnoredLines(line: string, parse: Parser)
    ensures StartsWith(line, ":") ==> Classify(line, parse) == Skip
    ensures AllSpace(line) ==> Classify(line, parse) == Skip
    ensures !StartsWith(line, "data: ") ==> Classify(line, parse) == Skip
  {
    TrimEmptyIff(line);
  }

  /** A payload whose content is missing or empty is skipped. */
  lemma EmptyContentIgnored(payload: string, parse: Parser)
    requires payload != "[DONE]" && parse(payload).Parsed?
    requires parse(payload).content.None? || parse(payload).content.value == ""
    ensures PayloadAction(payload, parse) == Skip
  {
  }

  /** A skipped line is consumed whole and emits nothing. */
  lemma SkippedLineConsumed(l: string, r: string, rules: LineRules)
    requires '\n' !in l && rules(StripCR(l)) == Skip
    ensures Drain(l + "\n" + r, rules) == Drain(r, rules)
  {
    CutLine(l, r);
    var t := l + "\n" + r;
    DrainStep(t, rules, |l|, StripCR(l), r);
  }
}
