/**
 * The edge function `generate-affirmation`: a single chain of early returns
 * from the request to a `Response`, whose error path is the `catch` that
 * turns any thrown `Error` into a 500 carrying its message.
 */
module Gateway {
  import opened Wrappers
  import opened JsString
  import opened Http

  /** The request body as `await req.json()` sees it: it throws, or yields an
      object whose `message` field is the given value. */
  datatype RequestBody = Unreadable(error: JsError) | JsonBody(message: JsValue)

  datatype Request = Request(verb: string, body: RequestBody)

  /** The `Response`s the function builds (all carry the CORS headers). */
  datatype GatewayReply =
    | Preflight                               // `new Response(null, { headers: corsHeaders })`
    | JsonError(status: int, error: string)   // `JSON.stringify({ error })` with that status
    | EventStream(body: Body)                 // the upstream body, as `text/event-stream`

  /** The reply and the user message sent upstream, if a call was made. */
  datatype GatewayOutcome = GatewayOutcome(reply: GatewayReply, forwarded: Option<string>)

  const ShareFeeling := "Please share how you're feeling."
  const MessageTooLong := "Message is too long. Please keep it under 1000 characters."
  const KeyNotConfigured := "LOVABLE_API_KEY is not configured"
  const RateLimitedText := "Too many requests. Please wait a moment and try again."
  const PaymentText := "Service temporarily unavailable. Please try again later."
  const GatewayFailure := "Something went wrong. Please try again."

  /** The limit, checked on the untrimmed message's `.length`. */
  const MaxLength := 1000

  /** `!message || typeof message !== "string" || message.trim().length === 0` */
  predicate Blank(message: JsValue) {
    !Truthy(message) || !message.Text? || Utf16Length(Trim(message.s)) == 0
  }

  /** The reply to a non-ok upstream status: 429 and 402 are passed on,
      everything else is a 500. */
  function UpstreamFailure(status: int): (r: GatewayReply)
    requires !IsOk(status)
    ensures r.JsonError? && (r.status == 500 || r.status == status)
    ensures r.status == 429 <==> status == 429
    ensures r.status == 402 <==> status == 402
  {
    if status == 429 then JsonError(429, RateLimitedText)
    else if status == 402 then JsonError(402, PaymentText)
    else JsonError(500, GatewayFailure)
  }

  /** The handler passed to `serve`, given the configured key and what the
      upstream `fetch` produces. The upstream is called exactly when the
      request gets past the preflight, the body and message checks and the
      key check, and every error reply is a 400, 402, 429 or 500. */
  function Serve(req: Request, apiKey: Option<string>, upstream: UpstreamResult): (o: GatewayOutcome)
    ensures o.forwarded.Some? <==>
      req.verb != "OPTIONS" && req.body.JsonBody? && !Blank(req.body.message) &&
      Utf16Length(req.body.message.s) <= MaxLength && apiKey.Some? && apiKey.value != ""
    ensures o.reply.JsonError? ==> o.reply.status in {400, 402, 429, 500}
    ensures o.reply.EventStream? ==> upstream.Answered? && IsOk(upstream.status)
  {
    if req.verb == "OPTIONS" then GatewayOutcome(Preflight, None)
    else match req.body
      case Unreadable(e) => GatewayOutcome(JsonError(500, e.message), None)
      case JsonBody(message) =>
        if Blank(message) then GatewayOutcome(JsonError(400, ShareFeeling), None)
        else if Utf16Length(message.s) > MaxLength then GatewayOutcome(JsonError(400, MessageTooLong), None)
        else if apiKey.None? || apiKey.value == "" then GatewayOutcome(JsonError(500, KeyNotConfigured), None)
        else match upstream
          case Threw(e) => GatewayOutcome(JsonError(500, e.message), Some(message.s))
          case Answered(status, body) =>
            if !IsOk(status) then GatewayOutcome(UpstreamFailure(status), Some(message.s))
            else GatewayOutcome(EventStream(body), Some(message.s))
  }
}
