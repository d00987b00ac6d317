# orpc-msw core, modelled in Dafny

orpc-msw turns an oRPC contract router into Mock Service Worker (MSW) request
handlers. `createMSWUtilities({ router, baseUrl })` returns an object that mirrors
the router. Reading `utils.a.b` walks the router one key at a time. At a contract
procedure, `.handler(mock)` compiles an MSW `HttpHandler`:

- the HTTP method factory (`http.get`, `http.post`, ...) comes from the route's
  declared method;
- the URL pattern is the declared route path, or `/` plus the structural path
  joined by `/`, with oRPC parameter syntax (`{id}`, `{+rest}`) rewritten to MSW
  syntax (`:id`, `:rest*`);
- the callback decodes the input from the query string (GET) or the body (all
  other methods), evaluates the mock, and returns a response object as is or
  wraps any other value as JSON (an encoding failure is thrown).

The model is written as pure functions and lemmas, module by module:

- `Wrappers`: `Option` and `Result`.
- `Text`: JavaScript `join` and `split` on one separator.
- `PathTranslator`: `convertOrpcPathToMsw`. Each global regular-expression
  `replace` is a left-to-right scanner (`ReplaceAll`) over an anchored matcher
  (`Match`). A reference syntax of route templates (`Segment`) describes what the
  translation should do.
- `HandlerCompiler`: `mswMethods` and `getMSWMethods`, route-path derivation,
  input-source selection, mock evaluation, response coercion and
  `createHandler`.
- `ContractTree`: the `get` trap of `createRecursiveProxy` and the root case of
  `createMSWUtilities`, as an explicit accessor (`Walk`). Traversal is checked
  against a reference lookup (`NodeAt`).
- `Scenarios`: the router of the end-to-end tests and what those tests expect
  of it.

Foreign code appears as function-valued parameters (`Codecs`):

- the bracket-notation query deserializer;
- reading the body text followed by `destr`;
- the JSON encoding done by `HttpResponse.json`, which can fail (`JSON.stringify`
  throws on a BigInt or a cycle);
- `joinURL`.

## Model

| member | source | states |
|---|---|---|
| PathTranslator.ConvertOrpcPathToMsw | src/msw.ts:189-195 | `convertOrpcPathToMsw`: the catch-all pass, then the plain pass. Its contract states the output is never longer than the input. ConvertTemplate, ConvertIdentityIff and ConvertLeavesNoParameterSyntax state what it computes. |
| PathTranslator.ReplaceAll | src/msw.ts:192-194 | One global `replace`: scanning left to right, each match is replaced and scanning resumes after it; other characters are copied. Its contract bounds the output length by the input's. ReplaceAllIdentityIff and MatchIdentifier state its behaviour. |
| PathTranslator.Match | src/msw.ts:192-194 | A match at the front of the text consumes the opener (`{+` or `{`), a non-empty identifier (letter or `_`, then letters, digits, `_`) and `}`, and captures exactly that identifier. |
| PathTranslator.MatchIdentifier | src/msw.ts:192-194 | Every opener followed by a well-formed identifier and `}` is matched, whatever follows, capturing the identifier. |
| PathTranslator.BraceFreeUnchanged | src/msw.ts:189-195 | A path without `{` is returned unchanged. |
| PathTranslator.ReplaceAllIdentityIff | src/msw.ts:192-194 | One replacement pass returns its input unchanged if and only if its pattern occurs nowhere in it. |
| PathTranslator.ConvertIdentityIff | src/msw.ts:189-195 | The translator returns its input unchanged if and only if the input holds no well-formed `{+name}` and no well-formed `{name}`. |
| PathTranslator.ConvertLeavesNoParameterSyntax | src/msw.ts:189-195 | No well-formed `{+name}` or `{name}` is left anywhere in a translated path. The catch-all pass consumes every catch-all before the plain pass runs, and no pass creates a match. |
| PathTranslator.ConvertPlainParam | src/msw.ts:190-194 | `{name}` followed by any text becomes `:name` followed by the translation of that text. The catch-all pass leaves it alone. |
| PathTranslator.ConvertCatchAllParam | src/msw.ts:190-194 | `{+name}` followed by any text becomes `:name*` followed by the translation of that text. The plain pass does not touch the result. |
| PathTranslator.ConvertStaticText | src/msw.ts:189-195 | Text without `{` is copied and translation continues after it. |
| PathTranslator.ConvertKeepsStrayBrace | src/msw.ts:190-194 | A `{` that opens neither a well-formed `{+name}` nor a well-formed `{name}` is copied verbatim, and translation continues with the next character. |
| PathTranslator.ConvertSegment | src/msw.ts:182-195 | Each well-formed template segment is translated independently of what follows it. |
| PathTranslator.ConvertTemplate | src/msw.ts:182-195 | A well-formed template in oRPC syntax translates to the same template in MSW syntax: `{+name}` to `:name*`, `{name}` to `:name`, static text kept. |
| PathTranslator.ConvertExample | src/msw.ts:183-195 | `/a/{id}/b/{+rest}` becomes `/a/:id/b/:rest*`. |
| PathTranslator.ConvertMalformedExample | src/msw.ts:189-195 | `{}/{1a}/{a-b}/{+}` is returned unchanged: empty names, names starting with a digit, and names containing `-` are not parameters. |
| Text.Join | src/msw.ts:104 | `path.join("/")`: `[]` gives `""`, one part gives itself, otherwise one separator between neighbours. SplitJoin and JoinSplit tie it to its inverse `Split`. |
| Text.SplitJoin | src/msw.ts:104 | Splitting a `/`-join of separator-free parts gives the parts back. |
| Text.JoinSplit | src/msw.ts:104 | Joining the pieces of a split gives the text back. |
| Text.JoinAvoids | src/msw.ts:104 | A character that is in none of the parts and differs from the separator is not in the joined text. |
| HandlerCompiler.MswMethods | src/msw.ts:169-176 | The `mswMethods` table: every method name in it maps to the factory registering that method. MethodTableInverse states its keys. |
| HandlerCompiler.GetMswMethods | src/msw.ts:178-180 | A declared method in the table selects the factory of that method. No method, or one not in the table, selects `http.post`. |
| HandlerCompiler.MethodTableInverse | src/msw.ts:169-176 | The table holds exactly GET, POST, HEAD, DELETE, PATCH and PUT, and resolving a factory's method name gives that factory back. |
| HandlerCompiler.RoutePath | src/msw.ts:104 | `route.path ?? "/" + path.join("/")`. RoutePathDerivation, DerivedPathUntranslated and DeclaredPathVerbatim state its properties. |
| HandlerCompiler.RoutePathDerivation | src/msw.ts:104 | A declared path wins. Otherwise an empty structural path gives `/`, and, when no key contains `/`, the derived path splits on `/` into `""` followed by the structural path. |
| HandlerCompiler.DerivedPathUntranslated | src/msw.ts:104-105 | A derived path whose keys contain no `{` is registered as `/` plus the keys joined by `/`, untranslated. |
| HandlerCompiler.DeclaredPathVerbatim | src/msw.ts:104-107 | A declared path without `{` is joined to the base URL verbatim. |
| HandlerCompiler.InputSourceOf | src/msw.ts:108-111 | The query string for a route whose method is `GET`, the body otherwise. InputSourceMatchesVerb relates it to the registered factory. |
| HandlerCompiler.DecodeInput | src/msw.ts:108-111 | The input decoded by the query deserializer or the body decoder, as InputSourceOf selects; a decoding failure is an `Err`. FailuresPropagate and DynamicMockContext state how the handler uses it. |
| HandlerCompiler.EvaluateMock | src/msw.ts:113-126 | A static mock is its own result; a mock function is called once with the context. DynamicMockContext and StaticValueAnswersJson state its effect on the response. |
| HandlerCompiler.InputSourceMatchesVerb | src/msw.ts:106-111 | The input is read from the query exactly when the handler is registered with `http.get`. An absent method reads the body and registers `http.post`. |
| HandlerCompiler.Coerce | src/msw.ts:128-132 | A response object is returned unchanged. Any other result becomes status 200 with the JSON encoding of the value exactly when it encodes; otherwise the encoder's failure is returned. |
| HandlerCompiler.Respond | src/msw.ts:107-133 | The registered callback: decode, evaluate the mock, coerce; a failure at either step is returned. FailuresPropagate, StaticValueAnswersJson, DynamicMockContext and DynamicValueAnswersJson state its results. |
| HandlerCompiler.CreateHandler | src/msw.ts:98-134 | `createHandler`: the factory from the declared method, the base URL joined with the translated route path, and the callback. HandlerRouting, DeclaredPathVerbatim and the response lemmas state its properties. |
| HandlerCompiler.HandlerRouting | src/msw.ts:103-107 | The factory and the URL depend only on the route and the structural path, never on the mock. A declared method in the table selects its own factory. |
| HandlerCompiler.FailuresPropagate | src/msw.ts:107-123 | A failure to decode the input rejects the request whatever the mock is. A rejection of the mock function propagates. A failure to encode the mock's output value propagates. |
| HandlerCompiler.StaticValueAnswersJson | src/msw.ts:124-132 | A static output value that encodes answers every request whose input decodes with status 200 and that value's JSON encoding. |
| HandlerCompiler.DynamicMockContext | src/msw.ts:108-130 | A mock function receives the request, the input decoded from the query for GET (from the body otherwise), the structural path and the route parameters. A response object it returns is passed through unchanged. |
| HandlerCompiler.DynamicValueAnswersJson | src/msw.ts:115-132 | The response to a mock function's output value is that of `HttpResponse.json` on it: status 200 and its JSON encoding when it encodes. |
| ContractTree.Get | src/msw.ts:140-154 | A key yields a leaf exactly when it names a contract procedure, and a sub-router exactly when it names a non-null object. Either carries the current path extended by the key. |
| ContractTree.Root | src/msw.ts:159-166 | A procedure router is a leaf, anything else a sub-router; either way at path `[]`, never `undefined`. |
| ContractTree.Step | src/msw.ts:136-157 | A further property read: on a sub-router it is the `get` trap, on anything else it yields `undefined`. WalkAgreesSnoc states its effect. |
| ContractTree.Walk | src/msw.ts:136-166 | The accessor reached from the root by reading the keys in order. WalkPath and WalkFinds state what it reaches. |
| ContractTree.Handler | src/msw.ts:144-148 | A leaf, and only a leaf, has a `handler`. HandlerAtKeys states which handler it compiles. |
| ContractTree.WalkPath | src/msw.ts:136-166 | Every leaf or sub-router reached from the root carries the exact keys used to reach it. A procedure at the root is a leaf with path `[]`. |
| ContractTree.WalkAgreesSnoc | src/msw.ts:140-154 | One further key access keeps traversal and tree in agreement. |
| ContractTree.WalkFinds | src/msw.ts:136-166 | Traversal agrees with the tree. Keys reach a leaf holding `p` exactly when they name procedure `p`. Below the root, keys reach a sub-router exactly when they name a non-null object, and that object is the sub-router. |
| ContractTree.HandlerAtKeys | src/msw.ts:144-148 | The handler reached by keys naming a procedure is compiled for that procedure at exactly those keys. |
| Scenarios.TestRouterProcedures | src/__tests__/openapi.spec.ts:10-77 | The test router places `greet`, `user.get`, `methods.get` and `methods.delete` with their declared routes. |
| Scenarios.GreetPassesResponseThrough | src/__tests__/openapi.spec.ts:141-153 | `greet` (no method) is registered with `http.post`, and its mock's 202 text response reaches the client unchanged. |
| Scenarios.MethodsGetEchoesQuery | src/__tests__/openapi.spec.ts:157-162 | `methods.get` is registered with `http.get`, decodes `query=foo` from the query string, and answers the JSON encoding of `"foo"` with status 200 when it encodes. |
| Scenarios.EchoQueryAnswersJson | src/__tests__/openapi.spec.ts:157-162 | On any GET route, for any decoded query input with a `query` field, the mock echoing `input.query` answers that field's JSON encoding with status 200 when it encodes. |
| Scenarios.MethodsDeleteForbidden | src/__tests__/openapi.spec.ts:204-208 | `methods.delete` is registered with `http.delete`, and its mock's response (status 403, JSON body with message `Forbidden`) is returned whole. |
| Scenarios.UnknownKeysYieldNothing | src/msw.ts:140-154 | An unknown key, or a key other than `handler` on a leaf, yields nothing. A group key yields its sub-router at its path. |
| Scenarios.DerivedGetRoute | src/msw.ts:104-107 | A GET procedure without a declared path at `group.leaf` is registered with `http.get` on `<base>/group/leaf`, whatever its mock. |
| Scenarios.DerivedGetReadsQuery | src/msw.ts:107-132 | The handler of that procedure calls its mock function with the input decoded from the query string and answers the output through `HttpResponse.json`. |

## Left out

- Registering handlers with MSW, URL-pattern matching and extracting `params` are done by the MSW runtime. The handler is modelled as its factory tag, its URL pattern and its callback, which receives the params as an argument.
- The query deserializer, `destr`, the JSON encoder and `joinURL` are foreign code and appear as function parameters. The encoder returns a `Failure` where `JSON.stringify` throws; which values it cannot encode is not modelled. Query-string extraction from `new URL(request.url)` is folded into the request's `search` field. A failure of `request.text()` is folded into the body decoder's failure.
- `async` and `Promise.resolve` are collapsed: a mock function returns its resolved result or a rejection (`Failure`).
- `HttpResponse` and `Response` instances are one `Response` datatype. The `instanceof` check is the `RawResponse` constructor.
- The `Proxy` object itself and the TypeScript types (`MSWUtilities`, `MSWMockInput`) are not modelled. The accessor datatype stands for what each property read yields.
- ContractTree.Get: JavaScript property lookup also finds inherited prototype keys such as `toString`. The model looks up own keys only. The same holds for the method table in HandlerCompiler.GetMswMethods.
- ContractTree.Walk: in JavaScript, reading a property of `undefined` throws. The model yields `Undefined` for every further key instead. On a leaf, the model yields `Undefined` for every key, and `handler` is reached through `ContractTree.Handler`.
- Input and output schemas of procedures are never read by the core and are not modelled.
- Scenarios.GreetPassesResponseThrough and Scenarios.MethodsGetEchoesQuery do not state the registered URL. For declared paths without `{`, HandlerCompiler.DeclaredPathVerbatim states it for every procedure.
- Scenarios.EchoQuery: on an input without a `query` field the model's mock rejects, where the test's mock returns `undefined` and the handler answers it as JSON with status 200. The tests only send inputs with a `query` field.
