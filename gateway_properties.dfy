/** What the edge function guarantees, and how it differs from the Express
    handler. */
module GatewayProperties {
  import opened Wrappers
  import opened JsString
  import opened Http
  import opened Gateway
  import Server

  /** `OPTIONS` is answered before the body is read or anything is checked. */
  lemma PreflightFirst(req: Request, apiKey: Option<string>, upstream: UpstreamResult)
    requires req.verb == "OPTIONS"
    ensures Serve(req, apiKey, upstream) == GatewayOutcome(Preflight, None)
  {
  }

  /** A body that cannot be read is a 500 with the error's own message. */
  lemma UnreadableBody(verb: string, e: JsError, apiKey: Option<string>, upstream: UpstreamResult)
    requires verb != "OPTIONS"
    ensures Serve(Request(verb, Unreadable(e)), apiKey, upstream) == GatewayOutcome(JsonError(500, e.message), None)
  {
  }

  /** Falsy, non-string and whitespace-only messages share one 400 text;
      then the untrimmed length is checked; then the key, whose absence is
      thrown and caught as a 500 with the thrown message. None of these calls
      upstream. */
  lemma EarlyReturns(verb: string, message: JsValue, apiKey: Option<string>, upstream: UpstreamResult)
    requires verb != "OPTIONS"
    ensures var o := Serve(Request(verb, JsonBody(message)), apiKey, upstream);
      (Blank(message) ==> o == GatewayOutcome(JsonError(400, ShareFeeling), None)) &&
      (!Blank(message) && Utf16Length(message.s) > MaxLength ==> o == GatewayOutcome(JsonError(400, MessageTooLong), None)) &&
      (!Blank(message) && Utf16Length(message.s) <= MaxLength && (apiKey.None? || apiKey.value == "") ==>
        o == GatewayOutcome(JsonError(500, KeyNotConfigured), None))
  {
  }

  /** `Blank` holds exactly for non-strings and strings that trim to nothing
      (an empty string among them). */
  lemma BlankIff(message: JsValue)
    ensures Blank(message) <==> !message.Text? || AllSpace(message.s)
  {
    if message.Text? {
      TrimEmptyIff(message.s);
      if message.s == "" {
        assert AllSpace(message.s);
      }
    }
  }

  /** The upstream status table. */
  lemma GatewayStatusTable(status: int)
    requires !IsOk(status)
    ensures status == 429 ==> UpstreamFailure(status) == JsonError(429, RateLimitedText)
    ensures status == 402 ==> UpstreamFailure(status) == JsonError(402, PaymentText)
    ensures status != 429 && status != 402 ==> UpstreamFailure(status) == JsonError(500, GatewayFailure)
  {
  }

  /** What it takes to pass the stream on. */
  predicate AllChecksPass(req: Request, apiKey: Option<string>, upstream: UpstreamResult) {
    req.verb != "OPTIONS" && req.body.JsonBody? && !Blank(req.body.message) &&
    Utf16Length(req.body.message.s) <= MaxLength && apiKey.Some? && apiKey.value != "" &&
    upstream.Answered? && IsOk(upstream.status)
  }

  /** The stream is passed on exactly when every check passed and the
      upstream answered ok ... */
  lemma PassthroughOnlyAfterChecks(req: Request, apiKey: Option<string>, upstream: UpstreamResult)
    ensures Serve(req, apiKey, upstream).reply.EventStream? <==> AllChecksPass(req, apiKey, upstream)
  {
    if AllChecksPass(req, apiKey, upstream) {
      PassthroughWhenChecksPass(req, apiKey, upstream);
    } else {
      NoPassthroughOtherwise(req, apiKey, upstream);
    }
  }

  lemma PassthroughWhenChecksPass(req: Request, apiKey: Option<string>, upstream: UpstreamResult)
    requires AllChecksPass(req, apiKey, upstream)
    ensures Serve(req, apiKey, upstream).reply == EventStream(upstream.body)
  {
  }

  lemma NoPassthroughOtherwise(req: Request, apiKey: Option<string>, upstream: UpstreamResult)
    requires !AllChecksPass(req, apiKey, upstream)
    ensures !Serve(req, apiKey, upstream).reply.EventStream?
  {
    if req.verb == "OPTIONS" || req.body.Unreadable? {
    } else {
      var m := req.body.message;
      if Blank(m) {
        assert Serve(req, apiKey, upstream).reply == JsonError(400, ShareFeeling);
      } else if Utf16Length(m.s) > MaxLength {
        assert Serve(req, apiKey, upstream).reply == JsonError(400, MessageTooLong);
      } else if apiKey.None? || apiKey.value == "" {
        assert Serve(req, apiKey, upstream).reply == JsonError(500, KeyNotConfigured);
      } else if upstream.Threw? {
      } else {
        assert !IsOk(upstream.status);
        assert Serve(req, apiKey, upstream).reply == UpstreamFailure(upstream.status);
      }
    }
  }

  /** ... unchanged, and the message sent upstream is the untrimmed one. */
  lemma PassthroughUnchanged(req: Request, apiKey: Option<string>, upstream: UpstreamResult)
    ensures var o := Serve(req, apiKey, upstream);
      o.reply.EventStream? ==> o.reply.body == upstream.body
    ensures var o := Serve(req, apiKey, upstream);
      o.forwarded.Some? ==> req.body.JsonBody? && o.forwarded == Some(req.body.message.s)
  {
  }

  /** `n` spaces. */
  function Spaces(n: nat): (s: string)
    ensures |s| == n
  {
    if n == 0 then "" else Spaces(n - 1) + " "
  }

  /** Each space is one code unit. */
  lemma {:induction false} SpacesLength(n: nat)
    ensures Utf16Length(Spaces(n)) == n
  {
    if n > 0 {
      assert Spaces(n)[..n - 1] == Spaces(n - 1);
      SpacesLength(n - 1);
    }
  }

  lemma {:induction false} TrimPadded(t: string, n: nat)
    ensures Trim(t + Spaces(n)) == Trim(t)
  {
    if n > 0 {
      var u := t + Spaces(n - 1);
      assert Spaces(n) == Spaces(n - 1) + [' '];
      assert t + Spaces(n) == u + [' '];
      TrimAppendSpace(u, ' ');
      TrimPadded(t, n - 1);
    } else {
      assert t + Spaces(n) == t;
    }
  }

  /** The two relays disagree on padded text: a message whose trimmed text
      is within the limits but whose padding takes it past 1000 characters
      is accepted by the Express handler and refused by the edge function. */
  lemma PaddingSplitsTheRelays(t: string, n: nat, apiKey: Option<string>, upstream: UpstreamResult)
    requires Server.MinLength <= Utf16Length(Trim(t)) <= Server.MaxLength < Utf16Length(t) + n
    ensures Server.ValidateMessage(Text(t + Spaces(n))) == Success(Trim(t))
    ensures Serve(Request("POST", JsonBody(Text(t + Spaces(n)))), apiKey, upstream) ==
      GatewayOutcome(JsonError(400, MessageTooLong), None)
  {
    var p := t + Spaces(n);
    assert Trim(p) == Trim(t) by { TrimPadded(t, n); }
    assert Utf16Length(p) == Utf16Length(t) + n by {
      Utf16LengthAppend(t, Spaces(n));
      SpacesLength(n);
    }
    ServerAcceptsTrimmed(p, Trim(t));
    NotBlankText(p);
    GatewayRefusesLong(p, apiKey, upstream);
  }

  lemma ServerAcceptsTrimmed(p: string, q: string)
    requires Trim(p) == q && Server.MinLength <= Utf16Length(q) <= Server.MaxLength
    ensures Server.ValidateMessage(Text(p)) == Success(q)
  {
  }

  lemma NotBlankText(p: string)
    requires Trim(p) != []
    ensures !Blank(Text(p))
  {
  }

  lemma GatewayRefusesLong(p: string, apiKey: Option<string>, upstream: UpstreamResult)
    requires !Blank(Text(p)) && Utf16Length(p) > MaxLength
    ensures Serve(Request("POST", JsonBody(Text(p))), apiKey, upstream) ==
      GatewayOutcome(JsonError(400, MessageTooLong), None)
  {
  }
}
