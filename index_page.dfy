/**
 * The page's handlers (`handleSubmit`, `handlePromptClick`, `handleReset`,
 * the textarea's `onChange`) over the component state `input` and
 * `hasGenerated`, driving the hook; and the caption under the affirmation.
 * A toast is returned as the message it would show.
 */
module IndexPage {
  import opened Wrappers
  import opened JsString
  import opened Http
  import opened AffirmationStream
  import opened AffirmationHook
  import Server
  import Gateway

  /** The four suggestion buttons. */
  const Prompts: seq<string> := [
    "I'm feeling overwhelmed at work",
    "I'm struggling with self-doubt",
    "I feel lonely today",
    "I'm anxious about the future"
  ]

  const ShareFeeling := "Please share how you're feeling."
  const ShareMore := "Please share a bit more (at least 5 characters)."
  const KeepShort := "Please keep your message under 500 characters for best results."

  /** The bounds on the trimmed input's `.length`. */
  const MinLength := 5
  const MaxLength := 500

  /** The checks of `handleSubmit` on the trimmed input, in order: the first
      that fails names the toast; otherwise the trimmed text is what goes to
      `generate`. */
  function SubmitCheck(input: string): (r: Result<string, string>)
    ensures r.Success? <==> MinLength <= Utf16Length(Trim(input)) <= MaxLength
    ensures r.Success? ==> r.value == Trim(input)
  {
    var text := Trim(input);
    if text == "" then Failure(ShareFeeling)
    else if Utf16Length(text) < MinLength then Failure(ShareMore)
    else if Utf16Length(text) > MaxLength then Failure(KeepShort)
    else Success(text)
  }

  /** The caption's limit, in code units. */
  const CaptionLength := 60

  /** `input.slice(0, 60)` followed by an ellipsis when `input.length > 60`. */
  function Caption(input: string): (c: string)
    ensures Utf16Length(input) <= CaptionLength ==> c == input
  {
    if Utf16Length(input) > CaptionLength then Utf16Prefix(input, CaptionLength) + "\U{2026}" else input
  }

  /** A caption shows the input whole when it fits in 60 code units. Otherwise
      it shows a prefix of the input of 59 or 60 code units (59 only when the
      next character is a surrogate pair) and then the ellipsis. */
  lemma CaptionTruncates(input: string)
    ensures var c := Caption(input);
      Utf16Length(input) > CaptionLength ==>
        |c| >= 1 && c[|c| - 1] == '\U{2026}' &&
        var shown := c[..|c| - 1];
        |shown| < |input| && shown == input[..|shown|] &&
        CaptionLength - 1 <= Utf16Length(shown) <= CaptionLength &&
        (Utf16Length(shown) == CaptionLength - 1 ==> CodeUnits(input[|shown|]) == 2)
  {
    var c := Caption(input);
    if Utf16Length(input) > CaptionLength {
      var p := Utf16Prefix(input, CaptionLength);
      Utf16PrefixFacts(input, CaptionLength);
      assert c[..|c| - 1] == p;
      assert input[..|input|] == input;
    }
  }

  /** Each toast is shown exactly when its check is the first to fail. */
  lemma SubmitOrder(input: string)
    ensures SubmitCheck(input) == Failure(ShareFeeling) <==> AllSpace(input)
    ensures SubmitCheck(input) == Failure(ShareMore) <==> 0 < Utf16Length(Trim(input)) < MinLength
    ensures SubmitCheck(input) == Failure(KeepShort) <==> Utf16Length(Trim(input)) > MaxLength
  {
    TrimEmptyIff(input);
  }

  /** What the page accepts the Express handler accepts, with the same text. */
  lemma AcceptedByServer(input: string)
    requires SubmitCheck(input).Success?
    ensures Server.ValidateMessage(Text(SubmitCheck(input).value)) == Success(SubmitCheck(input).value)
  {
    TrimmedPassesServer(input);
  }

  lemma TrimmedPassesServer(input: string)
    requires MinLength <= Utf16Length(Trim(input)) <= MaxLength
    ensures Server.ValidateMessage(Text(Trim(input))) == Success(Trim(input))
  {
    TrimmedIsUnpadded(input);
    UnpaddedPassesServer(Trim(input));
  }

  /** A trimmed string that is not empty starts and ends with a non-space. */
  lemma TrimmedIsUnpadded(input: string)
    requires Trim(input) != []
    ensures Unpadded(Trim(input))
  {
    var a, b := TrimFacts(input);
  }

  predicate Unpadded(t: string) {
    t != [] && !IsSpace(t[0]) && !IsSpace(t[|t| - 1])
  }

  lemma UnpaddedPassesServer(t: string)
    requires Unpadded(t) && MinLength <= Utf16Length(t) <= MaxLength
    ensures Server.ValidateMessage(Text(t)) == Success(t)
  {
    TrimOfUnpadded(t);
    ServerValid(t, t);
  }

  lemma ServerValid(s: string, text: string)
    requires Trim(s) == text && MinLength <= Utf16Length(text) <= MaxLength
    ensures Server.ValidateMessage(Text(s)) == Success(text)
  {
  }

  /** What the page accepts passes the edge function's checks too: with a
      key configured, it is sent upstream as it is. */
  lemma AcceptedByGateway(input: string, apiKey: string, upstream: UpstreamResult)
    requires SubmitCheck(input).Success? && apiKey != ""
    ensures Gateway.Serve(Gateway.Request("POST", Gateway.JsonBody(Text(SubmitCheck(input).value))), Some(apiKey), upstream).forwarded ==
      Some(SubmitCheck(input).value)
  {
    TrimmedPassesGateway(input, apiKey, upstream);
  }

  lemma TrimmedPassesGateway(input: string, apiKey: string, upstream: UpstreamResult)
    requires MinLength <= Utf16Length(Trim(input)) <= MaxLength && apiKey != ""
    ensures Gateway.Serve(Gateway.Request("POST", Gateway.JsonBody(Text(Trim(input)))), Some(apiKey), upstream).forwarded ==
      Some(Trim(input))
  {
    TrimmedIsUnpadded(input);
    UnpaddedPassesGateway(Trim(input), apiKey, upstream);
  }

  lemma UnpaddedPassesGateway(t: string, apiKey: string, upstream: UpstreamResult)
    requires Unpadded(t) && Utf16Length(t) <= MaxLength && apiKey != ""
    ensures Gateway.Serve(Gateway.Request("POST", Gateway.JsonBody(Text(t))), Some(apiKey), upstream).forwarded == Some(t)
  {
    TrimOfUnpadded(t);
    NotBlank(t, t);
    GatewayForwards(t, apiKey, upstream);
  }

  lemma NotBlank(s: string, text: string)
    requires Trim(s) == text && text != ""
    ensures !Gateway.Blank(Text(s))
  {
  }

  lemma GatewayForwards(text: string, apiKey: string, upstream: UpstreamResult)
    requires !Gateway.Blank(Text(text)) && Utf16Length(text) <= Gateway.MaxLength && apiKey != ""
    ensures Gateway.Serve(Gateway.Request("POST", Gateway.JsonBody(Text(text))), Some(apiKey), upstream).forwarded == Some(text)
  {
  }

  /** Every suggestion passes the submit checks unchanged, so sending one
      without checking it sends only text `handleSubmit` would accept. */
  lemma PromptsPass()
    ensures forall i :: 0 <= i < |Prompts| ==> SubmitCheck(Prompts[i]) == Success(Prompts[i])
  {
    UnpaddedPasses(Prompts[0]);
    UnpaddedPasses(Prompts[1]);
    UnpaddedPasses(Prompts[2]);
    UnpaddedPasses(Prompts[3]);
  }

  lemma UnpaddedPasses(p: string)
    requires MinLength <= |p| && 2 * |p| <= MaxLength && Unpadded(p)
    ensures SubmitCheck(p) == Success(p)
  {
    TrimOfUnpadded(p);
  }

  /** The page's state, owning its hook. */
  class Page {
    var input: string
    var hasGenerated: bool
    const hook: Hook

    constructor()
      ensures input == "" && !hasGenerated
      ensures fresh(hook) && hook.State() == Initial && hook.requests == []
    {
      input := "";
      hasGenerated := false;
      hook := new Hook();
    }

    /** The textarea's `onChange`: `setInput(e.target.value)`. */
    method ChangeInput(value: string)
      modifies this
      ensures input == value && hasGenerated == old(hasGenerated)
    {
      input := value;
    }

    /** `handleSubmit`: a failed check returns its toast and changes nothing;
        otherwise `hasGenerated` is set and `generate` gets the trimmed text. */
    method HandleSubmit(fetched: FetchOutcome, parse: Parser) returns (toast: Option<string>)
      modifies this, hook
      ensures input == old(input)
      ensures SubmitCheck(input).Failure? ==>
        toast == Some(SubmitCheck(input).error) && hasGenerated == old(hasGenerated) &&
        hook.State() == old(hook.State()) && hook.requests == old(hook.requests)
      ensures SubmitCheck(input).Success? ==>
        toast == None && hasGenerated &&
        hook.requests == old(hook.requests) + [SubmitCheck(input).value] &&
        hook.State() == ApplyAll(Started(old(hook.State())), StreamEvents(fetched, parse))
    {
      var text := Trim(input);
      if text == "" {
        return Some(ShareFeeling);
      }
      if Utf16Length(text) < MinLength {
        return Some(ShareMore);
      }
      if Utf16Length(text) > MaxLength {
        return Some(KeepShort);
      }
      hasGenerated := true;
      hook.Generate(text, fetched, parse);
      toast := None;
    }

    /** `handlePromptClick`: the suggestion becomes the input and is sent
        without the submit checks. */
    method HandlePromptClick(prompt: string, fetched: FetchOutcome, parse: Parser)
      modifies this, hook
      ensures input == prompt && hasGenerated
      ensures hook.requests == old(hook.requests) + [prompt]
      ensures hook.State() == ApplyAll(Started(old(hook.State())), StreamEvents(fetched, parse))
    {
      input := prompt;
      hasGenerated := true;
      hook.Generate(prompt, fetched, parse);
    }

    /** `handleReset`: clears the input, the hook's text and error, and
        `hasGenerated`; a call in flight keeps loading. */
    method HandleReset()
      modifies this, hook
      ensures input == "" && !hasGenerated
      ensures hook.State() == ResetState(old(hook.State())) && hook.requests == old(hook.requests)
    {
      input := "";
      hook.Reset();
      hasGenerated := false;
    }
  }
}
