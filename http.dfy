/**
 * The HTTP and JavaScript values the handlers and the client see, with the
 * network replaced by data: a response body is the sequence of decoded text
 * chunks that `reader.read()` would yield, followed by how the last read ends.
 */
module Http {

  /** A JavaScript value as found in the `message` field of a request body. */
  datatype JsValue =
    | Undefined
    | Null
    | Boolean(b: bool)
    | Number(n: int)
    | Text(s: string)
    | Object

  /** JavaScript truthiness (`!value` is false exactly for these). */
  predicate Truthy(v: JsValue) {
    match v
    case Undefined => false
    case Null => false
    case Boolean(b) => b
    case Number(n) => n != 0
    case Text(s) => s != ""
    case Object => true
  }

  /** `Response.ok`: the status is in the range 200-299. */
  predicate IsOk(status: int) {
    200 <= status <= 299
  }

  /** How the read after the last chunk ends: `{ done: true }`, or a thrown error. */
  datatype ReadEnd = EndOfStream | ReadThrows

  /** A streamed body: the decoded chunks in read order, then the end of the stream. */
  datatype Body = Body(chunks: seq<string>, end: ReadEnd)

  /** A thrown JavaScript `Error` (from `fetch` or `req.json()`), with its
      `name` and `message`. */
  datatype JsError = JsError(name: string, message: string)

  /** What an upstream `fetch` produced: a thrown error, or a response. */
  datatype UpstreamResult =
    | Threw(error: JsError)
    | Answered(status: int, body: Body)
}
