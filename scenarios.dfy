/**
 * The router of the end-to-end tests and the behaviour those tests expect of the
 * handlers compiled from it, stated over the model.
 */
module Scenarios {
  import opened Wrappers
  import opened HandlerCompiler
  import opened ContractTree
  import Text

  /** A procedure with the given route. */
  function ProcNode(httpMethod: Option<string>, path: Option<string>): Node {
    ContractTree.Proc(ContractProcedure(Route(httpMethod, path)))
  }

  /** The test router: `greet`, `user.get` and the four `methods.*` procedures. */
  function TestRouter(): Node {
    Group(map[
      "greet" := ProcNode(None, Some("/greet")),
      "user" := Group(map["get" := ProcNode(None, Some("/user"))]),
      "methods" := Group(map[
        "get" := ProcNode(Some("GET"), Some("/methods")),
        "post" := ProcNode(Some("POST"), Some("/methods")),
        "put" := ProcNode(Some("PUT"), Some("/methods")),
        "delete" := ProcNode(Some("DELETE"), Some("/methods"))])])
  }

  /** The procedures of the test router and where they sit. */
  lemma TestRouterProcedures()
    ensures NodeAt(TestRouter(), ["greet"]) == Some(ProcNode(None, Some("/greet")))
    ensures NodeAt(TestRouter(), ["user", "get"]) == Some(ProcNode(None, Some("/user")))
    ensures NodeAt(TestRouter(), ["methods", "get"]) == Some(ProcNode(Some("GET"), Some("/methods")))
    ensures NodeAt(TestRouter(), ["methods", "delete"]) == Some(ProcNode(Some("DELETE"), Some("/methods")))
  {
    assert ["user", "get"][1..] == ["get"];
    assert ["methods", "get"][1..] == ["get"];
    assert ["methods", "delete"][1..] == ["delete"];
  }

  /**
   * The mock `({ input }) => input.query` of the GET tests. On an input without a
   * `query` field the model rejects, where JavaScript would answer `undefined`.
   */
  function EchoQuery(context: ProcedureInput<map<string, string>>): Result<MockResult<string>, Failure> {
    if "query" in context.input then Ok(Output(context.input["query"])) else Err(Rejected("no query"))
  }

  /** The mock `() => HttpResponse.json({ message: "Forbidden" }, { status: 403 })`. */
  function Forbidden(context: ProcedureInput<map<string, string>>): Result<MockResult<string>, Failure> {
    Ok(RawResponse(Response(403, "application/json", "{\"message\":\"Forbidden\"}")))
  }

  /** The mock `() => HttpResponse.text("custom http response", { status: 202 })`. */
  function Accepted(context: ProcedureInput<map<string, string>>): Result<MockResult<string>, Failure> {
    Ok(RawResponse(Response(202, "text/plain", "custom http response")))
  }

  /**
   * `greet` declares no method: it is registered with `http.post`, reads its
   * input from the body, and a response object its mock returns (status 202)
   * reaches the client unchanged.
   */
  lemma GreetPassesResponseThrough(baseUrl: string, codecs: Codecs<map<string, string>, string>,
                                   request: Request, input: map<string, string>)
    requires codecs.decodeBody(request.body) == Ok(input)
    ensures var h := Handler(Walk(TestRouter(), ["greet"]), Dynamic(Accepted), baseUrl, codecs);
            && h.Some? && h.value.verb == HttpPost
            && h.value.resolver(request, map[]) == Ok(Response(202, "text/plain", "custom http response"))
  {
    var p := ContractProcedure(Route(None, Some("/greet")));
    var h := CreateHandler(p, ["greet"], Dynamic(Accepted), baseUrl, codecs);
    assert Handler(Walk(TestRouter(), ["greet"]), Dynamic(Accepted), baseUrl, codecs) == Some(h) by {
      TestRouterProcedures();
      HandlerAtKeys(TestRouter(), ["greet"], p, Dynamic(Accepted), baseUrl, codecs);
    }
    DynamicMockContext(p, ["greet"], Accepted, baseUrl, codecs, request, map[], input,
                       Response(202, "text/plain", "custom http response"));
  }

  /**
   * On a GET route the echoing mock answers the `query` field of the input decoded
   * from the query string, as JSON with status 200 when it encodes.
   */
  lemma EchoQueryAnswersJson(p: Procedure, path: seq<string>, baseUrl: string,
                             codecs: Codecs<map<string, string>, string>, request: Request,
                             input: map<string, string>, body: string)
    requires p.route.httpMethod == Some("GET")
    requires codecs.decodeQuery(request.search) == Ok(input) && "query" in input
    requires codecs.encodeJson(input["query"]) == Ok(body)
    ensures CreateHandler(p, path, Dynamic(EchoQuery), baseUrl, codecs).resolver(request, map[])
            == Ok(Response(200, "application/json", body))
  {
    DynamicValueAnswersJson(p, path, EchoQuery, baseUrl, codecs, request, map[], input, input["query"]);
  }

  /**
   * `methods.get` is registered with `http.get`; the query
   * `query=foo` decodes to `{ query: "foo" }` and the echoing mock answers the
   * JSON encoding of `"foo"` with status 200.
   */
  lemma MethodsGetEchoesQuery(baseUrl: string, codecs: Codecs<map<string, string>, string>, request: Request,
                              body: string)
    requires request.search == "query=foo"
    requires codecs.decodeQuery("query=foo") == Ok(map["query" := "foo"])
    requires codecs.encodeJson("foo") == Ok(body)
    ensures var h := Handler(Walk(TestRouter(), ["methods", "get"]), Dynamic(EchoQuery), baseUrl, codecs);
            && h.Some? && h.value.verb == HttpGet
            && h.value.resolver(request, map[]) == Ok(Response(200, "application/json", body))
  {
    var p := ContractProcedure(Route(Some("GET"), Some("/methods")));
    var h := CreateHandler(p, ["methods", "get"], Dynamic(EchoQuery), baseUrl, codecs);
    assert Handler(Walk(TestRouter(), ["methods", "get"]), Dynamic(EchoQuery), baseUrl, codecs) == Some(h) by {
      TestRouterProcedures();
      HandlerAtKeys(TestRouter(), ["methods", "get"], p, Dynamic(EchoQuery), baseUrl, codecs);
    }
    EchoQueryAnswersJson(p, ["methods", "get"], baseUrl, codecs, request, map["query" := "foo"], body);
  }

  /**
   * `methods.delete` is registered with `http.delete` and reads its body; the
   * mock's error response (status 403, message `Forbidden`) is passed through whole.
   */
  lemma MethodsDeleteForbidden(baseUrl: string, codecs: Codecs<map<string, string>, string>,
                               request: Request, input: map<string, string>)
    requires codecs.decodeBody(request.body) == Ok(input)
    ensures var h := Handler(Walk(TestRouter(), ["methods", "delete"]), Dynamic(Forbidden), baseUrl, codecs);
            && h.Some? && h.value.verb == HttpDelete
            && h.value.resolver(request, map[]) == Ok(Response(403, "application/json", "{\"message\":\"Forbidden\"}"))
  {
    var p := ContractProcedure(Route(Some("DELETE"), Some("/methods")));
    var h := CreateHandler(p, ["methods", "delete"], Dynamic(Forbidden), baseUrl, codecs);
    assert Handler(Walk(TestRouter(), ["methods", "delete"]), Dynamic(Forbidden), baseUrl, codecs) == Some(h) by {
      TestRouterProcedures();
      HandlerAtKeys(TestRouter(), ["methods", "delete"], p, Dynamic(Forbidden), baseUrl, codecs);
    }
    DynamicMockContext(p, ["methods", "delete"], Forbidden, baseUrl, codecs, request, map[], input,
                       Response(403, "application/json", "{\"message\":\"Forbidden\"}"));
  }

  /**
   * A key the router does not have, or a key other than `handler` on a procedure's
   * leaf, yields nothing; a group key yields the sub-router at its path.
   */
  lemma UnknownKeysYieldNothing()
    ensures Walk(TestRouter(), ["missing"]) == Undefined
    ensures Walk(TestRouter(), ["greet", "extra"]) == Undefined
    ensures Walk(TestRouter(), ["user"]) == Sub(Group(map["get" := ProcNode(None, Some("/user"))]), ["user"])
  {
    assert Walk(TestRouter(), ["missing"]) == Undefined by {
      assert ["missing"][..0] == [];
    }
    assert Walk(TestRouter(), ["greet", "extra"]) == Undefined by {
      assert ["greet", "extra"][..1] == ["greet"] && ["greet"][..0] == [];
      assert Walk(TestRouter(), ["greet"]).Leaf?;
    }
    assert ["user"][..0] == [];
  }

  /** A router whose one GET procedure declares no path and sits at `group.leaf`. */
  function DerivedRouter(): Node {
    Group(map["group" := Group(map["leaf" := ProcNode(Some("GET"), None)])])
  }

  /**
   * The procedure at `group.leaf` of `DerivedRouter` is registered with `http.get`
   * on `<base>/group/leaf`, whatever its mock.
   */
  lemma DerivedGetRoute<I, O>(baseUrl: string, mock: MockSpec<I, O>, codecs: Codecs<I, O>)
    ensures var h := Handler(Walk(DerivedRouter(), ["group", "leaf"]), mock, baseUrl, codecs);
            && h.Some? && h.value.verb == HttpGet
            && h.value.url == codecs.joinUrl(baseUrl, "/group/leaf")
  {
    var p := ContractProcedure(Route(Some("GET"), None));
    var path := ["group", "leaf"];
    assert NodeAt(DerivedRouter(), path) == Some(ContractTree.Proc(p));
    HandlerAtKeys(DerivedRouter(), path, p, mock, baseUrl, codecs);
    assert Text.Join(path, '/') == "group/leaf" by {
      assert path[1..] == ["leaf"];
    }
    HandlerCompiler.DerivedPathUntranslated(p.route, path);
    assert "/" + "group/leaf" == "/group/leaf";
  }

  /**
   * The handler at `group.leaf` of `DerivedRouter` calls its mock function with the
   * input decoded from the query string and answers the output through
   * `HttpResponse.json`.
   */
  lemma DerivedGetReadsQuery<I, O>(baseUrl: string, fn: ProcedureInput<I> -> Result<MockResult<O>, Failure>,
                                   codecs: Codecs<I, O>, request: Request, input: I, v: O)
    requires codecs.decodeQuery(request.search) == Ok(input)
    requires fn(ProcedureInput(request, input, ["group", "leaf"], map[])) == Ok(Output(v))
    ensures var h := Handler(Walk(DerivedRouter(), ["group", "leaf"]), Dynamic(fn), baseUrl, codecs);
            && h.Some?
            && h.value.resolver(request, map[]) == JsonResponse(v, codecs.encodeJson)
  {
    var p := ContractProcedure(Route(Some("GET"), None));
    var path := ["group", "leaf"];
    assert Handler(Walk(DerivedRouter(), path), Dynamic(fn), baseUrl, codecs)
           == Some(CreateHandler(p, path, Dynamic(fn), baseUrl, codecs)) by {
      assert NodeAt(DerivedRouter(), path) == Some(ContractTree.Proc(p));
      HandlerAtKeys(DerivedRouter(), path, p, Dynamic(fn), baseUrl, codecs);
    }
    DynamicValueAnswersJson(p, path, fn, baseUrl, codecs, request, map[], input, v);
  }
}
