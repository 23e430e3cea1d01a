/**
  What the two handlers see of an HTTP request and what they give back:
  the `x-ms-client-principal` header, the decoding of its value, and a
  response made of a status code and a JSON body.
 */
module Http {
  import opened Js

  /** `request.headers.get('x-ms-client-principal')`: `null` when absent, otherwise the raw value. */
  datatype Header = NoHeader | HeaderValue(raw: JsString)

  /** `!header` is false exactly when the header is there and is not the empty string. */
  predicate HeaderPresent(h: Header) {
    h.HeaderValue? && h.raw != []
  }

  /** What `JSON.parse(Buffer.from(raw, 'base64').toString('utf-8'))` did: threw, or returned a value. */
  datatype Parse = Throws | Parsed(value: Json)

  /**
    The decoding chain Base64 -> UTF-8 -> JSON, done by the Node runtime.
    It is left abstract: every handler is stated for every decoder.
   */
  type Decoder = JsString -> Parse

  /** A JSON body: the handler's own payload, or an `{error, message}` object. */
  datatype Body<T> = Payload(value: T) | Error(error: JsString, message: JsString)

  datatype Response<T> = Response(status: int, body: Body<T>)

  /** "Internal server error", the `error` text of both handlers' catch blocks. */
  const InternalServerError: JsString := [73, 110, 116, 101, 114, 110, 97, 108, 32, 115, 101, 114, 118, 101, 114, 32, 101, 114, 114, 111, 114]
  /** "Application Crash", the `message` text of both handlers' catch blocks. */
  const ApplicationCrash: JsString := [65, 112, 112, 108, 105, 99, 97, 116, 105, 111, 110, 32, 67, 114, 97, 115, 104]

  /** The 500 response both handlers build in their catch blocks. */
  function Crash<T>(): (r: Response<T>)
    ensures r.status == 500 && r.body == Error(InternalServerError, ApplicationCrash)
  {
    Response(500, Error(InternalServerError, ApplicationCrash))
  }
}
