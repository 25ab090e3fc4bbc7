/**
 * The `useAffirmation` hook: three pieces of React state and the callbacks
 * `generate` hands to `streamAffirmation`.
 *
 * `soFar`, a local of each `generate` call captured by its `onDelta`, is kept
 * here as a field of the hook: it is created (as `""`) when `generate` starts
 * and only that call's callbacks touch it. The callbacks are delivered in the
 * order of the trace `StreamAffirmation` returns.
 */
module AffirmationHook {
  import opened Wrappers
  import opened AffirmationStream
  import Http
  import StreamProperties

  /** The hook's state, with the current call's accumulator. */
  datatype HookState = HookState(affirmation: string, isLoading: bool, error: Option<string>, soFar: string)

  /** `useState("")`, `useState(false)`, `useState(null)`. */
  const Initial := HookState("", false, None, "")

  /** The start of `generate`: `setAffirmation("")`, `setError(null)`,
      `setIsLoading(true)` and `let soFar = ""`. */
  function Started(s: HookState): (t: HookState)
    ensures t.affirmation == "" && t.error == None && t.isLoading && t.soFar == ""
  {
    HookState("", true, None, "")
  }

  /** One callback: `onDelta` appends to `soFar` and shows it, `onDone` stops
      the loading state, `onError` records the message and stops it. */
  function Apply(s: HookState, e: Event): HookState {
    match e
    case Delta(chunk) => s.(soFar := s.soFar + chunk, affirmation := s.soFar + chunk)
    case Done => s.(isLoading := false)
    case Error(message) => s.(error := Some(message), isLoading := false)
  }

  /** The callbacks of a trace, in order. */
  function ApplyAll(s: HookState, es: seq<Event>): HookState {
    if es == [] then s else Apply(ApplyAll(s, es[..|es| - 1]), es[|es| - 1])
  }

  /** `reset`: clears the text and the error, and leaves `isLoading` alone. */
  function ResetState(s: HookState): HookState {
    s.(affirmation := "", error := None)
  }

  /** The texts of the deltas of a trace, concatenated. */
  function Texts(es: seq<Event>): string {
    if es == [] then ""
    else Texts(es[..|es| - 1]) + (if es[|es| - 1].Delta? then es[|es| - 1].text else "")
  }

  /** The accumulator is everything delivered so far, whatever else the trace
      holds. */
  lemma {:induction false} SoFarAccumulates(s: HookState, es: seq<Event>)
    ensures ApplyAll(s, es).soFar == s.soFar + Texts(es)
  {
    if es != [] {
      SoFarAccumulates(s, es[..|es| - 1]);
    }
  }

  /** After deltas `c1 ... cn` (and nothing else), `affirmation` is
      `c1 + ... + cn` on top of the accumulator, and the loading state and
      the error are untouched; with no delta the text is untouched too. */
  lemma {:induction false} DeltasAccumulate(s: HookState, es: seq<Event>)
    requires AllDeltas(es)
    ensures var t := ApplyAll(s, es);
      t.soFar == s.soFar + Texts(es) && t.isLoading == s.isLoading && t.error == s.error &&
      t.affirmation == if es == [] then s.affirmation else s.soFar + Texts(es)
  {
    SoFarAccumulates(s, es);
    if es != [] {
      var init := es[..|es| - 1];
      assert AllDeltas(init) by {
        forall e | e in init ensures e.Delta? {
          assert e in es;
        }
      }
      DeltasAccumulate(s, init);
      SoFarAccumulates(s, init);
      assert es[|es| - 1] in es;
    }
  }

  /** `onDone` stops the loading state and leaves the text and the error as
      they are. */
  lemma DoneOnlyStopsLoading(s: HookState)
    ensures var t := Apply(s, Done);
      !t.isLoading && t.affirmation == s.affirmation && t.error == s.error && t.soFar == s.soFar
  {
  }

  /** `onError` records its message and stops the loading state; whatever
      text was already shown stays. */
  lemma ErrorKeepsPartialText(s: HookState, message: string)
    ensures var t := Apply(s, Error(message));
      !t.isLoading && t.error == Some(message) && t.affirmation == s.affirmation && t.soFar == s.soFar
  {
  }

  /** The state a whole `generate` call leaves, whatever the state before:
      not loading, the concatenated deltas shown, and an error exactly when
      the stream ended in `onError`, with that message. */
  lemma GenerateOutcome(s: HookState, fetched: FetchOutcome, parse: Parser)
    ensures var es := StreamEvents(fetched, parse);
      var t := ApplyAll(Started(s), es);
      !t.isLoading && t.affirmation == Texts(es) && t.soFar == Texts(es) &&
      (t.error == None <==> es[|es| - 1] == Done) &&
      (es[|es| - 1].Error? ==> t.error == Some(es[|es| - 1].message))
  {
    var es := StreamEvents(fetched, parse);
    StreamProperties.ExactlyOneTerminal(fetched, parse);
    TerminatedTrace(Started(s), es);
  }

  /** The same, for any trace of deltas and one final `Done` or `Error`. */
  lemma TerminatedTrace(s: HookState, es: seq<Event>)
    requires s.affirmation == "" && s.soFar == "" && s.error == None
    requires |es| >= 1 && !es[|es| - 1].Delta?
    requires forall i :: 0 <= i < |es| - 1 ==> es[i].Delta?
    ensures var t := ApplyAll(s, es);
      !t.isLoading && t.affirmation == Texts(es) && t.soFar == Texts(es) &&
      (t.error == None <==> es[|es| - 1] == Done) &&
      (es[|es| - 1].Error? ==> t.error == Some(es[|es| - 1].message))
  {
    var init := es[..|es| - 1];
    assert AllDeltas(init) by {
      forall e | e in init ensures e.Delta? {
        var i :| 0 <= i < |init| && init[i] == e;
      }
    }
    DeltasAccumulate(s, init);
    assert Texts(es) == Texts(init);
  }

  /** With an ok status and a body that ends normally, `generate` leaves no
      error, whether or not `[DONE]` was sent. */
  lemma NormalEndLeavesNoError(s: HookState, status: int, errorBody: ErrorBody, chunks: seq<string>, parse: Parser)
    requires Http.IsOk(status)
    ensures var es := StreamEvents(Received(ClientResponse(status, errorBody, Some(Http.Body(chunks, Http.EndOfStream)))), parse);
      ApplyAll(Started(s), es).error == None && !ApplyAll(Started(s), es).isLoading
  {
    var fetched := Received(ClientResponse(status, errorBody, Some(Http.Body(chunks, Http.EndOfStream))));
    StreamProperties.NormalEndIsDone(status, errorBody, chunks, parse);
    GenerateOutcome(s, fetched, parse);
  }

  /** `reset` clears the text and the error but does not stop a call in
      flight: `isLoading` is left as it was. */
  lemma ResetLeavesLoading(s: HookState)
    ensures var t := ResetState(s);
      t.affirmation == "" && t.error == None && t.isLoading == s.isLoading && t.soFar == s.soFar
  {
  }

  /** The hook as an object whose setters update its fields. `requests` holds
      the messages passed to `streamAffirmation`, in order. */
  class Hook {
    var affirmation: string
    var isLoading: bool
    var error: Option<string>
    var soFar: string
    var requests: seq<string>

    function State(): HookState
      reads this
    {
      HookState(affirmation, isLoading, error, soFar)
    }

    constructor()
      ensures State() == Initial && requests == []
    {
      affirmation, isLoading, error, soFar := "", false, None, "";
      requests := [];
    }

    /** `soFar += chunk; setAffirmation(soFar)`. */
    method OnDelta(chunk: string)
      modifies this
      ensures State() == Apply(old(State()), Delta(chunk)) && requests == old(requests)
    {
      soFar := soFar + chunk;
      affirmation := soFar;
    }

    /** `setIsLoading(false)`. */
    method OnDone()
      modifies this
      ensures State() == Apply(old(State()), Done) && requests == old(requests)
    {
      isLoading := false;
    }

    /** `setError(err); setIsLoading(false)`. */
    method OnError(err: string)
      modifies this
      ensures State() == Apply(old(State()), Error(err)) && requests == old(requests)
    {
      error := Some(err);
      isLoading := false;
    }

    /** `generate(message)`: reset the state, then deliver the callbacks
        `streamAffirmation` fires for what `fetch` produces. */
    method Generate(message: string, fetched: FetchOutcome, parse: Parser)
      modifies this
      ensures State() == ApplyAll(Started(old(State())), StreamEvents(fetched, parse))
      ensures requests == old(requests) + [message]
    {
      affirmation := "";
      error := None;
      isLoading := true;
      soFar := "";
      requests := requests + [message];
      var events := StreamAffirmation(fetched, parse);
      DeliverAll(events);
    }

    /** Fires the callbacks of a trace, in order. */
    method DeliverAll(events: seq<Event>)
      modifies this
      ensures State() == ApplyAll(old(State()), events) && requests == old(requests)
    {
      var i := 0;
      while i < |events|
        invariant 0 <= i <= |events|
        invariant State() == ApplyAll(old(State()), events[..i])
        invariant requests == old(requests)
      {
        assert events[..i + 1][..i] == events[..i];
        match events[i] {
          case Delta(chunk) => OnDelta(chunk);
          case Done => OnDone();
          case Error(err) => OnError(err);
        }
        i := i + 1;
      }
      assert events[..i] == events;
    }

    /** `reset`: `setAffirmation("")`, `setError(null)`. */
    method Reset()
      modifies this
      ensures State() == ResetState(old(State())) && requests == old(requests)
    {
      affirmation := "";
      error := None;
    }
  }
}
