/** What the Express handler guarantees, proved about `Server.Handle`. */
module ServerProperties {
  import opened Wrappers
  import opened JsString
  import opened Http
  import opened Server

  /** Each validation error is reported exactly when its check is the first
      to fail. */
  lemma ValidationOrder(message: JsValue)
    ensures ValidateMessage(message) == Failure(MissingMessage) <==> !Truthy(message)
    ensures ValidateMessage(message) == Failure(InvalidType) <==> Truthy(message) && !message.Text?
    ensures ValidateMessage(message) == Failure(EmptyMessage) <==>
      message.Text? && message.s != "" && Trim(message.s) == ""
    ensures ValidateMessage(message) == Failure(TooShort) <==>
      message.Text? && 0 < Utf16Length(Trim(message.s)) < MinLength
    ensures ValidateMessage(message) == Failure(TooLong) <==>
      message.Text? && Utf16Length(Trim(message.s)) > MaxLength
  {
    if message.Text? && Trim(message.s) != "" {
      assert message.s != "";
    }
  }

  /** `""` is falsy, so it is reported as missing, while a non-empty
      whitespace-only string is reported as empty. */
  lemma EmptyStringIsMissing(s: string)
    ensures ValidateMessage(Text("")) == Failure(MissingMessage)
    ensures s != "" && AllSpace(s) ==> ValidateMessage(Text(s)) == Failure(EmptyMessage)
  {
    if s != "" && AllSpace(s) {
      TrimEmptyIff(s);
    }
  }

  /** Validation errors win over the missing key, and the key check over
      the upstream call; neither early return calls upstream. */
  lemma EarlyReturnsSkipUpstream(message: JsValue, apiKey: Option<string>, upstream: UpstreamResult)
    ensures var o := Handle(message, apiKey, upstream);
      (o.forwarded.None? <==> ValidateMessage(message).Failure? || KeyMissing(apiKey)) &&
      (ValidateMessage(message).Failure? ==> o.reply == JsonReply(ValidateMessage(message).error)) &&
      (ValidateMessage(message).Success? && KeyMissing(apiKey) ==> o.reply == JsonReply(ConfigError))
  {
  }

  /** What goes upstream is the trimmed message, and only one that passed
      validation. */
  lemma ForwardsTrimmedMessage(message: JsValue, apiKey: Option<string>, upstream: UpstreamResult)
    ensures var o := Handle(message, apiKey, upstream);
      o.forwarded.Some? ==>
        message.Text? && o.forwarded.value == Trim(message.s) &&
        MinLength <= Utf16Length(o.forwarded.value) <= MaxLength
  {
  }

  /** The upstream status table; 403, like every status not listed, falls
      through to `API_ERROR`. */
  lemma UpstreamStatusTable(status: int)
    requires !IsOk(status)
    ensures status == 401 ==> MapUpstreamStatus(status) == AuthError
    ensures status == 429 ==> MapUpstreamStatus(status) == RateLimited
    ensures status == 402 ==> MapUpstreamStatus(status) == ServiceUnavailable
    ensures status >= 500 ==> MapUpstreamStatus(status) == UpstreamError
    ensures status !in {401, 402, 429} && status < 500 ==> MapUpstreamStatus(status) == ApiFailure
    ensures MapUpstreamStatus(403) == ApiFailure
  {
  }

  /** The event-stream reply happens only once every check has passed and
      `response.ok` holds; its text is the chunks in order, and `chunkCount`
      is the number of chunks read. */
  lemma StreamOnlyAfterChecks(message: JsValue, apiKey: Option<string>, upstream: UpstreamResult)
    ensures var o := Handle(message, apiKey, upstream);
      o.reply.StreamReply? <==>
        ValidateMessage(message).Success? && !KeyMissing(apiKey) && upstream.Answered? &&
        IsOk(upstream.status) && !(upstream.body.end == ReadThrows && upstream.body.chunks == [])
    ensures var o := Handle(message, apiKey, upstream);
      o.reply.StreamReply? ==>
        o.reply.text == Concat(upstream.body.chunks) && o.chunkCount == |upstream.body.chunks|
  {
  }

  /** The statuses the handler can answer with. */
  lemma ReplyStatuses(message: JsValue, apiKey: Option<string>, upstream: UpstreamResult)
    ensures var o := Handle(message, apiKey, upstream);
      o.reply.JsonReply? ==> o.reply.err.status in {400, 429, 500, 502, 504}
  {
  }
}
