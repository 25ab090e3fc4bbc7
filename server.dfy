/**
 * The Express handler `POST /api/generate-affirmation`: an ordered chain of
 * early returns (validation, configuration, the upstream call, the upstream
 * status) and then a loop that relays the upstream stream to the client.
 */
module Server {
  import opened Wrappers
  import opened JsString
  import opened Http

  /** `res.status(status).json({ error, code })`. */
  datatype ApiError = ApiError(status: int, error: string, code: string)

  const MissingMessage := ApiError(400, "Please share how you are feeling.", "MISSING_MESSAGE")
  const InvalidType := ApiError(400, "Invalid message format.", "INVALID_TYPE")
  const EmptyMessage := ApiError(400, "Please share how you are feeling.", "EMPTY_MESSAGE")
  const TooShort := ApiError(400, "Please share a bit more about how you are feeling.", "MESSAGE_TOO_SHORT")
  const TooLong := ApiError(400, "Please keep your message under 1000 characters.", "MESSAGE_TOO_LONG")
  const ConfigError := ApiError(500, "Service configuration error. Please contact support.", "CONFIG_ERROR")
  const Timeout := ApiError(504, "The request took too long. Please try again.", "TIMEOUT")
  const NetworkError := ApiError(502, "Unable to connect to AI service. Please try again.", "NETWORK_ERROR")
  const AuthError := ApiError(502, "Service authentication failed. Please contact support.", "AUTH_ERROR")
  const RateLimited := ApiError(429, "Too many requests. Please wait a moment and try again.", "RATE_LIMITED")
  const ServiceUnavailable :=
    ApiError(502, "Service temporarily unavailable. Please try again later.", "SERVICE_UNAVAILABLE")
  const UpstreamError :=
    ApiError(502, "AI service is experiencing issues. Please try again in a moment.", "UPSTREAM_ERROR")
  const ApiFailure := ApiError(502, "Unable to generate affirmation. Please try again.", "API_ERROR")
  const StreamError := ApiError(500, "Stream interrupted. Please try again.", "STREAM_ERROR")

  /** The bounds on the trimmed message's `.length`. */
  const MinLength := 3
  const MaxLength := 1000

  /** The validation chain: the first failing check decides the error. On
      success the result is the trimmed message. */
  function ValidateMessage(message: JsValue): (r: Result<string, ApiError>)
    ensures r.Success? <==> message.Text? && MinLength <= Utf16Length(Trim(message.s)) <= MaxLength
    ensures r.Success? ==> r.value == Trim(message.s)
    ensures r.Failure? ==> r.error.status == 400
  {
    if !Truthy(message) then Failure(MissingMessage)
    else if !message.Text? then Failure(InvalidType)
    else
      var trimmedMessage := Trim(message.s);
      if Utf16Length(trimmedMessage) == 0 then Failure(EmptyMessage)
      else if Utf16Length(trimmedMessage) < MinLength then Failure(TooShort)
      else if Utf16Length(trimmedMessage) > MaxLength then Failure(TooLong)
      else Success(trimmedMessage)
  }

  /** `if (!OPENROUTER_API_KEY)`: an unset or empty key. */
  predicate KeyMissing(apiKey: Option<string>) {
    apiKey.None? || apiKey.value == ""
  }

  /** A thrown `fetch`: the abort of the 30-second timer, or anything else. */
  function ClassifyFetchError(e: JsError): (r: ApiError)
    ensures r == Timeout || r == NetworkError
    ensures r == Timeout <==> e.name == "AbortError"
  {
    if e.name == "AbortError" then Timeout else NetworkError
  }

  /** The reply to a non-ok upstream status. */
  function MapUpstreamStatus(status: int): (r: ApiError)
    requires !IsOk(status)
    ensures r.status == 429 || r.status == 502
    ensures r.status == 429 <==> status == 429
  {
    if status == 401 then AuthError
    else if status == 429 then RateLimited
    else if status == 402 then ServiceUnavailable
    else if status >= 500 then UpstreamError
    else ApiFailure
  }

  /** What the client receives: a JSON error, or the event-stream headers
      followed by the text written with `res.write` and `res.end()`. */
  datatype Reply = JsonReply(err: ApiError) | StreamReply(text: string)

  /** The reply, the user message sent upstream (`None` when no upstream call
      is made), and the final `chunkCount`. */
  datatype Outcome = Outcome(reply: Reply, forwarded: Option<string>, chunkCount: nat)

  /** The streaming part: every chunk is written; a read that throws before
      anything was written (headers not yet sent) becomes `STREAM_ERROR`,
      one that throws later just ends the response. */
  function Relay(body: Body): Reply {
    if body.end == ReadThrows && body.chunks == [] then JsonReply(StreamError)
    else StreamReply(Concat(body.chunks))
  }

  /** The whole handler, given the request's `message`, the configured key
      and what the upstream `fetch` produces. */
  function Handle(message: JsValue, apiKey: Option<string>, upstream: UpstreamResult): Outcome {
    match ValidateMessage(message)
    case Failure(e) => Outcome(JsonReply(e), None, 0)
    case Success(trimmedMessage) =>
      if KeyMissing(apiKey) then Outcome(JsonReply(ConfigError), None, 0)
      else match upstream
        case Threw(e) => Outcome(JsonReply(ClassifyFetchError(e)), Some(trimmedMessage), 0)
        case Answered(status, body) =>
          if !IsOk(status) then Outcome(JsonReply(MapUpstreamStatus(status)), Some(trimmedMessage), 0)
          else Outcome(Relay(body), Some(trimmedMessage), |body.chunks|)
  }

  /** The `while (true)` loop: `res.write(chunk); chunkCount++` per read. */
  method PassThrough(body: Body) returns (reply: Reply, chunkCount: nat)
    ensures reply == Relay(body) && chunkCount == |body.chunks|
  {
    var written := "";
    chunkCount := 0;
    while chunkCount < |body.chunks|
      invariant chunkCount <= |body.chunks|
      invariant written == Concat(body.chunks[..chunkCount])
    {
      ConcatAppend(body.chunks[..chunkCount], body.chunks[chunkCount]);
      assert body.chunks[..chunkCount + 1] == body.chunks[..chunkCount] + [body.chunks[chunkCount]];
      written := written + body.chunks[chunkCount];
      chunkCount := chunkCount + 1;
    }
    assert body.chunks[..chunkCount] == body.chunks;
    if body.end == ReadThrows && chunkCount == 0 {
      reply := JsonReply(StreamError);
    } else {
      reply := StreamReply(written);
    }
  }

  /** The handler, step by step. */
  method HandleGenerateAffirmation(message: JsValue, apiKey: Option<string>, upstream: UpstreamResult)
    returns (outcome: Outcome)
    ensures outcome == Handle(message, apiKey, upstream)
  {
    var validated := ValidateMessage(message);
    if validated.Failure? {
      return Outcome(JsonReply(validated.error), None, 0);
    }
    var trimmedMessage := validated.value;
    if KeyMissing(apiKey) {
      return Outcome(JsonReply(ConfigError), None, 0);
    }
    if upstream.Threw? {
      return Outcome(JsonReply(ClassifyFetchError(upstream.error)), Some(trimmedMessage), 0);
    }
    if !IsOk(upstream.status) {
      return Outcome(JsonReply(MapUpstreamStatus(upstream.status)), Some(trimmedMessage), 0);
    }
    var reply, chunkCount := PassThrough(upstream.body);
    outcome := Outcome(reply, Some(trimmedMessage), chunkCount);
  }
}
