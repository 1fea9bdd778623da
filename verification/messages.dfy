/** Requests, responses and request framing
    (sections 4, 4.1 and 5 of the JSON-RPC 2.0 specification). */
module Messages {
  import opened Wrappers
  import opened Json
  import opened Errors

  /** The only protocol version the dispatcher accepts. */
  const Version: string := "2.0"

  /** The rune that opens a JSON array (code point 91). */
  const ArrayOpen: char := 91 as char

  /** A cancellation/deadline context. `Caller` is a context supplied from
      outside; `WithDeadline` is a child of `parent` that expires `timeout`
      nanoseconds after it was started. Each call of a batch starts its own
      deadline; `call`, the call's position in the batch, tells those
      deadlines apart and stands for the moment each one was started. */
  datatype Context =
    | Background
    | Caller(id: nat)
    | WithDeadline(parent: Context, timeout: int, call: nat)

  /** One call. An absent `id` marks a notification; `ctx` is not part of
      the wire form and is absent until the dispatcher attaches one. */
  datatype Request = Request(
    version: string,
    methodName: string,
    id: Option<Value>,
    params: Option<Value>,
    ctx: Option<Context>)

  predicate IsNotification(r: Request) {
    r.id.None?
  }

  /** One reply: the echoed version and identifier plus a result or an error. */
  datatype Response = Response(
    version: string,
    id: Option<Value>,
    result: Option<Value>,
    error: Option<Error>)

  /** A context that may be nil, with nil read as the background context. */
  function BaseContext(ctx: Option<Context>): (c: Context)
    ensures ctx.None? ==> c == Background
    ensures ctx.Some? ==> c == ctx.value
  {
    match ctx
    case Some(c) => c
    case None => Background
  }

  /** The request's context; a request without one runs under the background context. */
  function ContextOf(r: Request): (c: Context)
    ensures r.ctx.None? ==> c == Background
    ensures r.ctx.Some? ==> c == r.ctx.value
  {
    BaseContext(r.ctx)
  }

  /** A shallow copy of `r` whose context is `ctx`. A nil context is a panic,
      modelled as an error carrying the panic text. */
  function WithContext(r: Request, ctx: Option<Context>): (res: Result<Request, string>)
    ensures res.Ok? <==> ctx.Some?
    ensures res.Ok? ==> res.value.version == r.version && res.value.methodName == r.methodName
                        && res.value.id == r.id && res.value.params == r.params
    ensures res.Ok? ==> ContextOf(res.value) == ctx.value
  {
    match ctx
    case None => Err("nil context")
    case Some(c) => Ok(r.(ctx := Some(c)))
  }

  /** Replacing the context twice is the same as replacing it once with the
      second context: the copy keeps no trace of the first one. */
  lemma WithContextOverrides(r: Request, c1: Context, c2: Context)
    ensures WithContext(WithContext(r, Some(c1)).value, Some(c2)) == WithContext(r, Some(c2))
  {
  }

  /** A copy differs from its original in the context alone. */
  lemma WithContextOnlyChangesContext(r: Request, c: Context)
    ensures WithContext(r, Some(c)).value.(ctx := r.ctx) == r
  {
  }

  /** The empty reply to a request: version and identifier echoed, neither
      result nor error set yet. */
  function NewResponse(r: Request): (res: Response)
    ensures res.version == r.version && res.id == r.id
    ensures res.result.None? && res.error.None?
  {
    Response(r.version, r.id, None, None)
  }

  /** The type a handler asks its parameters to be decoded into. */
  type Target = nat

  /** Decodes a request's parameters into `target` through `unmarshal`,
      which returns the decoded value or the decoder's error. The checks run
      in order: nil target, absent parameters, unmarshal failure; each fails
      with InvalidParams. */
  function ParseParams(r: Request, target: Option<Target>, unmarshal: (Value, Target) -> Result<Value, Value>)
    : (res: Result<Value, Error>)
    ensures res.Ok? <==> target.Some? && r.params.Some? && unmarshal(r.params.value, target.value).Ok?
    ensures res.Ok? ==> res.value == unmarshal(r.params.value, target.value).value
    ensures res.Err? ==> res.error.code == InvalidParams && res.error.message == "Invalid method parameter(s)"
    ensures target.None? ==> res.Err? && res.error.data == Some(Text("v can't be nil to parse request parameters"))
    ensures target.Some? && r.params.None? ==> res.Err? && res.error.data == Some(Text("request doesn't have params"))
    ensures target.Some? && r.params.Some? && unmarshal(r.params.value, target.value).Err? ==>
              res.Err? && res.error.data == Some(unmarshal(r.params.value, target.value).error)
  {
    if target.None? then
      Err(Catalogued(InvalidParams, Some(Text("v can't be nil to parse request parameters"))))
    else if r.params.None? then
      Err(Catalogued(InvalidParams, Some(Text("request doesn't have params"))))
    else
      match unmarshal(r.params.value, target.value)
      case Err(cause) => Err(Catalogued(InvalidParams, Some(cause)))
      case Ok(v) => Ok(v)
  }

  /** A byte source: the runes it holds and the error it reports once it has
      nothing more to give (normally "EOF"). */
  datatype Source = Source(content: seq<char>, endError: string)

  /** The JSON decoder, taken as given: one function for a single request
      object, one for an array of them. Each sees the whole input and returns
      the decoded value or the decoder's error. */
  datatype Decoder = Decoder(
    single: seq<char> -> Result<Request, Value>,
    batch: seq<char> -> Result<seq<Request>, Value>)

  /** True when the input's first rune opens a JSON array. No whitespace is
      skipped: a leading blank selects the single-object path. */
  predicate StartsBatch(content: seq<char>) {
    |content| > 0 && content[0] == ArrayOpen
  }

  /** Reads the requests from a source: an empty source is a ParseError; the
      first rune, pushed back afterwards, chooses between decoding one object
      and decoding an array; a decode failure is an InvalidRequest carrying
      the decoder's error. */
  function ParseMethodRequest(src: Source, dec: Decoder): (res: Result<seq<Request>, Error>)
    ensures res.Err? ==> res.error.code == ParseError || res.error.code == InvalidRequest
    ensures res.Err? && res.error.code == ParseError <==> |src.content| == 0
    ensures |src.content| == 0 ==> res.error.data == Some(Text("fail to read the request text: " + src.endError))
    ensures |src.content| > 0 && !StartsBatch(src.content) ==>
              (res.Ok? <==> dec.single(src.content).Ok?)
              && (res.Ok? ==> res.value == [dec.single(src.content).value])
              && (res.Err? ==> res.error.data == Some(dec.single(src.content).error))
    ensures StartsBatch(src.content) ==>
              (res.Ok? <==> dec.batch(src.content).Ok?)
              && (res.Ok? ==> res.value == dec.batch(src.content).value)
              && (res.Err? ==> res.error.data == Some(dec.batch(src.content).error))
  {
    if |src.content| == 0 then
      Err(Catalogued(ParseError, Some(Text("fail to read the request text: " + src.endError))))
    else if src.content[0] != ArrayOpen then
      match dec.single(src.content)
      case Err(cause) => Err(Catalogued(InvalidRequest, Some(cause)))
      case Ok(req) => Ok([req])
    else
      match dec.batch(src.content)
      case Err(cause) => Err(Catalogued(InvalidRequest, Some(cause)))
      case Ok(reqs) => Ok(reqs)
  }

  /** A successful single-object decode yields exactly one request, and a
      successful read yields more than one request only on the batch path. */
  lemma SingleObjectYieldsOne(src: Source, dec: Decoder)
    requires ParseMethodRequest(src, dec).Ok?
    ensures !StartsBatch(src.content) ==> |ParseMethodRequest(src, dec).value| == 1
    ensures |ParseMethodRequest(src, dec).value| != 1 ==> StartsBatch(src.content)
  {
  }

  /** An empty array is a successful read with no requests: rejecting it is
      the dispatcher's job, not the reader's. */
  lemma EmptyArrayIsDecodeSuccess(src: Source, dec: Decoder)
    requires StartsBatch(src.content) && dec.batch(src.content) == Ok([])
    ensures ParseMethodRequest(src, dec) == Ok([])
  {
  }

  /** Setting a request's context and reading it back returns that context. */
  lemma ContextRoundTrip(r: Request, c: Context)
    ensures ContextOf(WithContext(r, Some(c)).value) == c
  {
  }
}
