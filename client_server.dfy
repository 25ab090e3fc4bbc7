/**
 * The browser consumer reading what the Express handler sends: the JSON
 * error replies reach the user as `streamAffirmation`'s messages, and an
 * event-stream reply reaches it as the upstream text, however the browser's
 * reads cut it.
 */
module ClientServer {
  import opened Wrappers
  import opened JsString
  import opened Http
  import opened AffirmationStream
  import Server
  import ServerProperties
  import StreamProperties
  import StreamChunking

  /** The response the browser gets for a reply: a JSON error carries its
      status and `{ error, code }`; the event stream has status 200 and is
      read in the browser's own `chunks`, and it always ends normally, since
      the handler ends the response even when its upstream read threw. */
  function Delivered(reply: Server.Reply, chunks: seq<string>): FetchOutcome {
    match reply
    case JsonReply(err) => Received(ClientResponse(err.status, ErrorField(Some(err.error)), None))
    case StreamReply(_) => Received(ClientResponse(200, ErrorField(None), Some(Body(chunks, EndOfStream))))
  }

  /** Every error text the handler can send is non-empty. */
  lemma ErrorTextsNonEmpty(message: JsValue, apiKey: Option<string>, upstream: UpstreamResult)
    ensures var o := Server.Handle(message, apiKey, upstream);
      o.reply.JsonReply? ==> o.reply.err.error != ""
  {
    var o := Server.Handle(message, apiKey, upstream);
    if o.reply.JsonReply? {
      LiteralsNonEmpty();
    }
  }

  lemma LiteralsNonEmpty()
    ensures Server.MissingMessage.error != "" && Server.InvalidType.error != ""
    ensures Server.EmptyMessage.error != "" && Server.TooShort.error != "" && Server.TooLong.error != ""
    ensures Server.ConfigError.error != "" && Server.Timeout.error != "" && Server.NetworkError.error != ""
    ensures Server.AuthError.error != "" && Server.RateLimited.error != ""
    ensures Server.ServiceUnavailable.error != "" && Server.UpstreamError.error != ""
    ensures Server.ApiFailure.error != "" && Server.StreamError.error != ""
  {
  }

  /** A JSON error from the handler ends the call with one `onError`: a
      validation error shows the handler's own text, and the others the
      client's text for their status (so `CONFIG_ERROR` and
      `STREAM_ERROR` read as a server error, and every 502 as the service
      being unavailable). */
  lemma ErrorRepliesReachUser(message: JsValue, apiKey: Option<string>, upstream: UpstreamResult,
                              chunks: seq<string>, parse: Parser)
    ensures var o := Server.Handle(message, apiKey, upstream);
      var es := StreamEvents(Delivered(o.reply, chunks), parse);
      o.reply.JsonReply? ==>
        (o.reply.err.status == 400 ==> es == [Error(o.reply.err.error)]) &&
        (o.reply.err.status == 429 ==> es == [Error(TooManyRequests)]) &&
        (o.reply.err.status == 500 ==> es == [Error(ServerError)]) &&
        (o.reply.err.status == 502 ==> es == [Error(Unavailable)]) &&
        (o.reply.err.status == 504 ==> es == [Error(TimedOut)])
  {
    var o := Server.Handle(message, apiKey, upstream);
    if o.reply.JsonReply? {
      ServerProperties.ReplyStatuses(message, apiKey, upstream);
      ErrorTextsNonEmpty(message, apiKey, upstream);
      ErrorReplyEvents(o.reply.err, chunks, parse);
    }
  }

  lemma ErrorReplyEvents(err: Server.ApiError, chunks: seq<string>, parse: Parser)
    requires err.error != "" && !IsOk(err.status)
    ensures var es := StreamEvents(Delivered(Server.JsonReply(err), chunks), parse);
      (err.status == 400 ==> es == [Error(err.error)]) &&
      (err.status == 429 ==> es == [Error(TooManyRequests)]) &&
      (err.status == 500 ==> es == [Error(ServerError)]) &&
      (err.status == 502 ==> es == [Error(Unavailable)]) &&
      (err.status == 504 ==> es == [Error(TimedOut)])
  {
  }

  /** The event stream always ends in `onDone` and never in `onError`, even
      when the upstream read threw after the first chunk. */
  lemma StreamReplyEndsInDone(message: JsValue, apiKey: Option<string>, upstream: UpstreamResult,
                              chunks: seq<string>, parse: Parser)
    ensures var o := Server.Handle(message, apiKey, upstream);
      var es := StreamEvents(Delivered(o.reply, chunks), parse);
      o.reply.StreamReply? ==>
        |es| >= 1 && es[|es| - 1] == Done && forall e :: e in es ==> !e.Error?
  {
    StreamProperties.NormalEndIsDone(200, ErrorField(None), chunks, parse);
  }

  /** The relay is transparent up to how the upstream ends: when the upstream
      text has no `[DONE]` line, the browser sees the callbacks it would see
      reading the upstream chunks itself to a normal end, however its own
      reads cut the relayed text. A late upstream throw still reaches the
      browser as `onDone` (`StreamReplyEndsInDone`). */
  lemma RelayIsTransparent(body: Body, chunks: seq<string>, parse: Parser)
    requires Server.Relay(body).StreamReply? && Concat(chunks) == Server.Relay(body).text
    requires StreamChunking.NoDoneLine(Concat(chunks), Rules(parse))
    ensures StreamEvents(Delivered(Server.Relay(body), chunks), parse) ==
      StreamEvents(Received(ClientResponse(200, ErrorField(None), Some(Body(body.chunks, EndOfStream)))), parse)
  {
    StreamChunking.ChunkingIrrelevant(200, ErrorField(None), chunks, body.chunks, parse);
  }
}
