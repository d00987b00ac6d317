/**
 * The handler compiler of `createHandler`: for one contract procedure at a
 * structural path it picks the interception runtime's request-handler factory,
 * derives and translates the URL pattern, and builds the callback that decodes
 * the input, evaluates the mock and coerces its result into a response.
 *
 * The interception runtime, the query and body codecs, the JSON encoder and the
 * URL joiner are foreign code: they appear as the `Verb` tags and as the
 * function-valued fields of `Codecs`.
 */
module HandlerCompiler {
  import opened Wrappers
  import Text
  import PathTranslator

  // ---------------------------------------------------------------------------
  // Method resolution
  // ---------------------------------------------------------------------------

  /** The runtime's request-handler factories `http.get`, `http.post`, ... */
  datatype Verb = HttpGet | HttpPost | HttpHead | HttpDelete | HttpPatch | HttpPut

  /** The HTTP method each factory registers a handler for. */
  function VerbName(v: Verb): string {
    match v
    case HttpGet => "GET"
    case HttpPost => "POST"
    case HttpHead => "HEAD"
    case HttpDelete => "DELETE"
    case HttpPatch => "PATCH"
    case HttpPut => "PUT"
  }

  /** The `mswMethods` table. */
  function MswMethods(): (m: map<string, Verb>)
    ensures forall name :: name in m ==> VerbName(m[name]) == name
  {
    map["GET" := HttpGet, "POST" := HttpPost, "HEAD" := HttpHead,
        "DELETE" := HttpDelete, "PATCH" := HttpPatch, "PUT" := HttpPut]
  }

  /** `getMSWMethods`: the factory for the declared method, or `http.post`. */
  function GetMswMethods(declared: Option<string>): (v: Verb)
    ensures declared.Some? && declared.value in MswMethods() ==> VerbName(v) == declared.value
    ensures declared.None? || declared.value !in MswMethods() ==> v == HttpPost
  {
    if declared.Some? && declared.value in MswMethods() then MswMethods()[declared.value] else HttpPost
  }

  /**
   * The table holds exactly the six method names, and looking up the name of a
   * factory gives that factory back: resolution is the inverse of `VerbName`.
   */
  lemma MethodTableInverse(v: Verb)
    ensures MswMethods().Keys == {"GET", "POST", "HEAD", "DELETE", "PATCH", "PUT"}
    ensures VerbName(v) in MswMethods() && GetMswMethods(Some(VerbName(v))) == v
  {
  }

  // ---------------------------------------------------------------------------
  // Route derivation and input source
  // ---------------------------------------------------------------------------

  /** The `route` part of a procedure's `~orpc` metadata that the compiler reads. */
  datatype Route = Route(httpMethod: Option<string>, path: Option<string>)

  /** A contract procedure; its input and output schemas are never inspected. */
  datatype Procedure = ContractProcedure(route: Route)

  /** `route.path ?? "/" + path.join("/")`. */
  function RoutePath(route: Route, path: seq<string>): string {
    match route.path
    case Some(p) => p
    case None => "/" + Text.Join(path, '/')
  }

  /**
   * The declared path wins; otherwise the derived path starts with `/` and splits
   * back into the structural path, so an empty path gives `/`.
   */
  lemma RoutePathDerivation(route: Route, path: seq<string>)
    ensures route.path.Some? ==> RoutePath(route, path) == route.path.value
    ensures route.path.None? && path == [] ==> RoutePath(route, path) == "/"
    ensures route.path.None? && path != [] && Text.SeparatorFree(path, '/') ==>
              Text.Split(RoutePath(route, path), '/') == [""] + path
  {
    if route.path.None? && path != [] && Text.SeparatorFree(path, '/') {
      var j := Text.Join(path, '/');
      var s := "/" + j;
      assert s[0] == '/' && s[1..] == j;
      Text.SplitJoin(path, '/');
    }
  }

  /** A derived path built from keys without `{` holds no parameter syntax and is not rewritten. */
  lemma DerivedPathUntranslated(route: Route, path: seq<string>)
    requires route.path.None?
    requires forall i :: 0 <= i < |path| ==> '{' !in path[i]
    ensures PathTranslator.ConvertOrpcPathToMsw(RoutePath(route, path))
            == "/" + Text.Join(path, '/')
  {
    Text.JoinAvoids(path, '/', '{');
    PathTranslator.BraceFreeUnchanged("/" + Text.Join(path, '/'));
  }

  /** Where the procedure input is read from. */
  datatype InputSource = FromQuery | FromBody

  /** `route.httpMethod === "GET"` selects the query string; every other case the body. */
  function InputSourceOf(route: Route): InputSource {
    if route.httpMethod == Some("GET") then FromQuery else FromBody
  }

  /**
   * The input comes from the query exactly when the handler is registered with
   * `http.get`; an absent method registers `http.post` and reads the body.
   */
  lemma InputSourceMatchesVerb(route: Route)
    ensures InputSourceOf(route) == FromQuery <==> GetMswMethods(route.httpMethod) == HttpGet
    ensures route.httpMethod.None? ==> InputSourceOf(route) == FromBody && GetMswMethods(route.httpMethod) == HttpPost
  {
    if GetMswMethods(route.httpMethod) == HttpGet {
      assert route.httpMethod.Some? && route.httpMethod.value in MswMethods();
      assert VerbName(HttpGet) == route.httpMethod.value;
    }
  }

  // ---------------------------------------------------------------------------
  // Requests, mocks and responses
  // ---------------------------------------------------------------------------

  /** The inbound request: its method, URL, query string and body text. */
  datatype Request = Request(httpMethod: string, url: string, search: string, body: string)

  /** A route parameter as the runtime extracts it: one segment, or the segments of a catch-all. */
  datatype ParamValue = Single(value: string) | Many(values: seq<string>)

  /** A rejected promise or a thrown exception, propagated to the runtime. */
  datatype Failure = Rejected(reason: string)

  /** What a mock function receives: `{ request, input, path, params }`. */
  datatype ProcedureInput<I> = ProcedureInput(
    request: Request, input: I, path: seq<string>, params: map<string, ParamValue>)

  /** A protocol-level response. */
  datatype Response = Response(status: int, contentType: string, body: string)

  /** A mock's result: a `Response`/`HttpResponse` object, or an output value. */
  datatype MockResult<O> = RawResponse(response: Response) | Output(value: O)

  /**
   * The mock response specification: a value used as is, or a function of the
   * invocation context (whose promise, if it returns one, is already resolved).
   */
  datatype MockSpec<!I, O> =
    | Static(result: MockResult<O>)
    | Dynamic(fn: ProcedureInput<I> -> Result<MockResult<O>, Failure>)

  /** The foreign collaborators the callback and the registration use. */
  datatype Codecs<I, !O> = Codecs(
    decodeQuery: string -> Result<I, Failure>,  // bracket-notation query deserializer
    decodeBody: string -> Result<I, Failure>,   // reading the body text, then `destr`
    encodeJson: O -> Result<string, Failure>,  // `JSON.stringify` inside `HttpResponse.json`; it throws on
                                                // values it cannot encode (a BigInt, a cycle)
    joinUrl: (string, string) -> string)        // `joinURL` of the URL library

  /** The input, decoded from the query for a GET route and from the body otherwise. */
  function DecodeInput<I, O>(route: Route, request: Request, codecs: Codecs<I, O>): Result<I, Failure> {
    match InputSourceOf(route)
    case FromQuery => codecs.decodeQuery(request.search)
    case FromBody => codecs.decodeBody(request.body)
  }

  /** A static mock is used directly; a function is called once with the context. */
  function EvaluateMock<I, O>(mock: MockSpec<I, O>, context: ProcedureInput<I>): Result<MockResult<O>, Failure> {
    match mock
    case Static(r) => Ok(r)
    case Dynamic(f) => f(context)
  }

  /**
   * `HttpResponse.json(value)`: status 200 with the JSON encoding of the value, or
   * the exception of an encoding that fails, which rejects the callback.
   */
  function JsonResponse<O>(value: O, encodeJson: O -> Result<string, Failure>): Result<Response, Failure> {
    match encodeJson(value)
    case Ok(body) => Ok(Response(200, "application/json", body))
    case Err(e) => Err(e)
  }

  /** A response object is returned unchanged; any other result is wrapped as JSON. */
  function Coerce<O>(result: MockResult<O>, encodeJson: O -> Result<string, Failure>): (r: Result<Response, Failure>)
    ensures result.RawResponse? ==> r == Ok(result.response)
    ensures result.Output? ==> (r.Ok? <==> encodeJson(result.value).Ok?)
    ensures result.Output? && r.Ok? ==> r.value.status == 200 && r.value.body == encodeJson(result.value).value
    ensures result.Output? && r.Err? ==> r.error == encodeJson(result.value).error
  {
    match result
    case RawResponse(response) => Ok(response)
    case Output(value) => JsonResponse(value, encodeJson)
  }

  /** The callback registered for the procedure at `path`, on one matched request. */
  function Respond<I, O>(route: Route, path: seq<string>, mock: MockSpec<I, O>, codecs: Codecs<I, O>,
                         request: Request, params: map<string, ParamValue>): Result<Response, Failure>
  {
    match DecodeInput(route, request, codecs)
    case Err(e) => Err(e)
    case Ok(input) =>
      match EvaluateMock(mock, ProcedureInput(request, input, path, params))
      case Err(e) => Err(e)
      case Ok(result) => Coerce(result, codecs.encodeJson)
  }

  /** A registered handler: the factory used, the URL pattern, and the callback. */
  datatype HttpHandler = HttpHandler(
    verb: Verb, url: string,
    resolver: (Request, map<string, ParamValue>) -> Result<Response, Failure>)

  /** `createHandler(proc, path, mockResponse)`. */
  function CreateHandler<I, O>(proc: Procedure, path: seq<string>, mock: MockSpec<I, O>,
                               baseUrl: string, codecs: Codecs<I, O>): HttpHandler
  {
    var route := proc.route;
    var mswPath := PathTranslator.ConvertOrpcPathToMsw(RoutePath(route, path));
    HttpHandler(GetMswMethods(route.httpMethod), codecs.joinUrl(baseUrl, mswPath),
                (request, params) => Respond(route, path, mock, codecs, request, params))
  }

  // ---------------------------------------------------------------------------
  // Properties of the compiled handler
  // ---------------------------------------------------------------------------

  /**
   * The factory and the URL pattern depend only on the procedure's metadata and
   * its structural path, never on the mock; a declared path is translated, a
   * missing one derived from the structural path.
   */
  lemma HandlerRouting<I, O>(proc: Procedure, path: seq<string>, m1: MockSpec<I, O>, m2: MockSpec<I, O>,
                             baseUrl: string, codecs: Codecs<I, O>)
    ensures CreateHandler(proc, path, m1, baseUrl, codecs).verb == CreateHandler(proc, path, m2, baseUrl, codecs).verb
    ensures CreateHandler(proc, path, m1, baseUrl, codecs).url == CreateHandler(proc, path, m2, baseUrl, codecs).url
    ensures proc.route.httpMethod.Some? && proc.route.httpMethod.value in MswMethods() ==>
              VerbName(CreateHandler(proc, path, m1, baseUrl, codecs).verb) == proc.route.httpMethod.value
  {
  }

  /** A declared path without `{` holds no parameter syntax and is registered verbatim. */
  lemma DeclaredPathVerbatim<I, O>(proc: Procedure, path: seq<string>, mock: MockSpec<I, O>,
                                   baseUrl: string, codecs: Codecs<I, O>)
    requires proc.route.path.Some? && '{' !in proc.route.path.value
    ensures CreateHandler(proc, path, mock, baseUrl, codecs).url == codecs.joinUrl(baseUrl, proc.route.path.value)
  {
    PathTranslator.BraceFreeUnchanged(proc.route.path.value);
  }

  /**
   * A failure to decode the input rejects the request before the mock is looked
   * at, whatever the mock is; a rejection of the mock function propagates as well,
   * and so does a failure to encode the output value the mock produced.
   */
  lemma FailuresPropagate<I, O>(proc: Procedure, path: seq<string>, mock: MockSpec<I, O>, baseUrl: string,
                                codecs: Codecs<I, O>, request: Request, params: map<string, ParamValue>)
    ensures DecodeInput(proc.route, request, codecs).Err? ==>
              CreateHandler(proc, path, mock, baseUrl, codecs).resolver(request, params)
              == Err(DecodeInput(proc.route, request, codecs).error)
    ensures DecodeInput(proc.route, request, codecs).Ok? && mock.Dynamic? ==>
              var context := ProcedureInput(request, DecodeInput(proc.route, request, codecs).value, path, params);
              mock.fn(context).Err? ==>
                CreateHandler(proc, path, mock, baseUrl, codecs).resolver(request, params) == Err(mock.fn(context).error)
    ensures DecodeInput(proc.route, request, codecs).Ok? ==>
              var context := ProcedureInput(request, DecodeInput(proc.route, request, codecs).value, path, params);
              var evaluated := EvaluateMock(mock, context);
              evaluated.Ok? && evaluated.value.Output? && codecs.encodeJson(evaluated.value.value).Err? ==>
                CreateHandler(proc, path, mock, baseUrl, codecs).resolver(request, params)
                == Err(codecs.encodeJson(evaluated.value.value).error)
  {
  }

  /**
   * A static output value that encodes answers every request whose input decodes
   * with the same JSON response of status 200, whatever the request carries.
   */
  lemma StaticValueAnswersJson<I, O>(proc: Procedure, path: seq<string>, value: O, body: string, baseUrl: string,
                                     codecs: Codecs<I, O>, request: Request, params: map<string, ParamValue>)
    requires DecodeInput(proc.route, request, codecs).Ok?
    requires codecs.encodeJson(value) == Ok(body)
    ensures CreateHandler(proc, path, Static(Output(value)), baseUrl, codecs).resolver(request, params)
            == Ok(Response(200, "application/json", body))
  {
  }

  /**
   * A mock function is called with the request, the input decoded from the query
   * exactly for a GET route (from the body otherwise), the structural path and the
   * route parameters; a response object it returns is passed through unchanged,
   * status and body included.
   */
  lemma DynamicMockContext<I, O>(proc: Procedure, path: seq<string>, fn: ProcedureInput<I> -> Result<MockResult<O>, Failure>,
                                 baseUrl: string, codecs: Codecs<I, O>, request: Request, params: map<string, ParamValue>,
                                 input: I, response: Response)
    requires if proc.route.httpMethod == Some("GET") then codecs.decodeQuery(request.search) == Ok(input)
             else codecs.decodeBody(request.body) == Ok(input)
    requires fn(ProcedureInput(request, input, path, params)) == Ok(RawResponse(response))
    ensures CreateHandler(proc, path, Dynamic(fn), baseUrl, codecs).resolver(request, params) == Ok(response)
  {
  }

  /**
   * A mock function's output value is answered through `HttpResponse.json`: status
   * 200 with its encoding when it encodes, the encoder's failure otherwise.
   */
  lemma DynamicValueAnswersJson<I, O>(proc: Procedure, path: seq<string>, fn: ProcedureInput<I> -> Result<MockResult<O>, Failure>,
                                      baseUrl: string, codecs: Codecs<I, O>, request: Request, params: map<string, ParamValue>,
                                      input: I, value: O)
    requires DecodeInput(proc.route, request, codecs) == Ok(input)
    requires fn(ProcedureInput(request, input, path, params)) == Ok(Output(value))
    ensures CreateHandler(proc, path, Dynamic(fn), baseUrl, codecs).resolver(request, params)
            == JsonResponse(value, codecs.encodeJson)
    ensures codecs.encodeJson(value).Ok? ==>
              JsonResponse(value, codecs.encodeJson) == Ok(Response(200, "application/json", codecs.encodeJson(value).value))
  {
  }
}
