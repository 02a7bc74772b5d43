/** src/fakers/http_server/server.rs: the HTTP mock server. Routes are matched
    on their path and verb; a matching route answers with its configured
    status and result and records the result in an in-memory store keyed by the
    matched path, which is written out to an optional file after every change.
    The JSON parser (`serde_json::from_str`) is a parameter. */
module HttpServer {
  import opened Wrappers
  import Yaml
  import opened SerdeYaml
  import opened Json
  import Faker

  /** One configured route; `body` and `result` are JSON texts. The source's
      `method` field is `verb` here, `method` being a keyword. */
  datatype Route = Route(path: string, verb: string, status: nat, body: Option<string>, result: Option<string>)

  /** The faker's parameters. */
  datatype Params = Params(hostAddr: string, routes: seq<Route>, outputFile: Option<string>)

  // ---------------------------------------------------------------------------
  // Deserialization and validation of the parameters
  // ---------------------------------------------------------------------------

  /** The fields of `Route`; `body` and `result` are `Option`s. */
  const RouteFields := ["path", "method", "status", "body", "result"]
  const RouteRequired := ["path", "method", "status"]

  function RouteFieldError(name: string, v: Yaml.Value): Option<DecodeError> {
    match name
    case "status" => ErrorOf(AsU16(name, v))
    case "path" => ErrorOf(AsString(name, v))
    case "method" => ErrorOf(AsString(name, v))
    case _ => OptionalError(v, x => AsString(name, x))
  }

  /** An optional text field of a route once the pass is through. */
  function OptionalText(m: seq<Yaml.Entry>, name: string): (t: Option<string>)
    requires FirstValueError(m, RouteFields, RouteFieldError).None?
    requires name == "body" || name == "result"
    ensures t.None? <==> Field(m, name).None? || Field(m, name) == Some(Yaml.Null)
    ensures t.Some? ==> Field(m, name) == Some(Yaml.String(t.value))
  {
    if Field(m, name).None? || Field(m, name) == Some(Yaml.Null) then None
    else
      assert RouteFields[3] == "body" && RouteFields[4] == "result";
      FieldChecked(m, RouteFields, RouteFieldError, name);
      Some(Field(m, name).value.s)
  }

  /** One `Route`: the pass over its entries, then `path`, `method` and
      `status` if missing. The route holds the document's own values. */
  function DecodeRoute(v: Yaml.Value): (r: Result<Route, DecodeError>)
    ensures !v.Mapping? ==> r == Err(InvalidType("routes"))
    ensures v.Mapping? ==> (r.Err? <==> StructError(v.entries, RouteFields, RouteRequired, RouteFieldError).Some?)
    ensures v.Mapping? && r.Err? ==> r.error == StructError(v.entries, RouteFields, RouteRequired, RouteFieldError).value
    ensures r.Ok? ==> v.Mapping? &&
                      Field(v.entries, "path") == Some(Yaml.String(r.value.path)) &&
                      Field(v.entries, "method") == Some(Yaml.String(r.value.verb)) &&
                      Field(v.entries, "status") == Some(Yaml.Number(r.value.status)) && r.value.status < 0x1_0000
    ensures r.Ok? ==> (r.value.body.None? <==> Field(v.entries, "body").None? || Field(v.entries, "body") == Some(Yaml.Null))
    ensures r.Ok? && r.value.body.Some? ==> Field(v.entries, "body") == Some(Yaml.String(r.value.body.value))
    ensures r.Ok? ==> (r.value.result.None? <==> Field(v.entries, "result").None? || Field(v.entries, "result") == Some(Yaml.Null))
    ensures r.Ok? && r.value.result.Some? ==> Field(v.entries, "result") == Some(Yaml.String(r.value.result.value))
  {
    if !v.Mapping? then Err(InvalidType("routes"))
    else
      var m := v.entries;
      var error := StructError(m, RouteFields, RouteRequired, RouteFieldError);
      if error.Some? then Err(error.value)
      else
        assert RouteRequired[0] == "path" && RouteRequired[1] == "method" && RouteRequired[2] == "status";
        assert RouteFields[0] == "path" && RouteFields[1] == "method" && RouteFields[2] == "status";
        FieldChecked(m, RouteFields, RouteFieldError, "path");
        FieldChecked(m, RouteFields, RouteFieldError, "method");
        FieldChecked(m, RouteFields, RouteFieldError, "status");
        Ok(Route(Field(m, "path").value.s, Field(m, "method").value.s, Field(m, "status").value.n,
                 OptionalText(m, "body"), OptionalText(m, "result")))
  }

  /** The route list: one route per item, in document order; the first item
      that does not decode gives the error. */
  function DecodeRoutes(items: seq<Yaml.Value>): (r: Result<seq<Route>, DecodeError>)
    ensures r.Ok? <==> forall i | 0 <= i < |items| :: DecodeRoute(items[i]).Ok?
    ensures r.Ok? ==> |r.value| == |items| && forall i | 0 <= i < |items| :: DecodeRoute(items[i]) == Ok(r.value[i])
    ensures r.Err? ==> exists i | 0 <= i < |items| :: DecodeRoute(items[i]) == Err(r.error) &&
                          forall j | 0 <= j < i :: DecodeRoute(items[j]).Ok?
  {
    DecodeItems(items, DecodeRoute)
  }

  /** The `routes` field: a sequence of routes. */
  function AsRoutes(v: Yaml.Value): Result<seq<Route>, DecodeError> {
    if v.Sequence? then DecodeRoutes(v.items) else Err(InvalidType("routes"))
  }

  /** The fields of `HttpServer`; `output_file` is an `Option`. */
  const Fields := ["host_addr", "routes", "output_file"]
  const RequiredFields := ["host_addr", "routes"]

  function FieldError(name: string, v: Yaml.Value): Option<DecodeError> {
    match name
    case "host_addr" => ErrorOf(AsString(name, v))
    case "routes" => ErrorOf(AsRoutes(v))
    case _ => OptionalError(v, x => AsString("output_file", x))
  }

  /** `serde_yaml::from_value::<HttpServer>`: the first value, in document
      order, of the wrong type (inside a route included), else `host_addr`,
      then `routes`, if missing; a missing or null `output_file` is None. */
  function Decode(params: seq<Yaml.Entry>): (r: Result<Params, DecodeError>)
    ensures r.Err? <==> StructError(params, Fields, RequiredFields, FieldError).Some?
    ensures r.Err? ==> r.error == StructError(params, Fields, RequiredFields, FieldError).value
    ensures r.Ok? ==> Field(params, "host_addr") == Some(Yaml.String(r.value.hostAddr))
    ensures r.Ok? ==> Field(params, "routes").Some? && Field(params, "routes").value.Sequence? &&
                      DecodeRoutes(Field(params, "routes").value.items) == Ok(r.value.routes)
    ensures r.Ok? ==> (r.value.outputFile.None? <==> Field(params, "output_file").None? || Field(params, "output_file") == Some(Yaml.Null))
    ensures r.Ok? && r.value.outputFile.Some? ==> Field(params, "output_file") == Some(Yaml.String(r.value.outputFile.value))
  {
    var error := StructError(params, Fields, RequiredFields, FieldError);
    if error.Some? then Err(error.value)
    else
      assert RequiredFields[0] == "host_addr" && RequiredFields[1] == "routes";
      assert Fields[0] == "host_addr" && Fields[1] == "routes";
      FieldChecked(params, Fields, FieldError, "host_addr");
      FieldChecked(params, Fields, FieldError, "routes");
      assert Fields[2] == "output_file";
      FieldChecked(params, Fields, FieldError, "output_file");
      Ok(Params(Field(params, "host_addr").value.s, AsRoutes(Field(params, "routes").value).value,
                OptionalValue(Field(params, "output_file"), x => AsString("output_file", x))))
  }

  /** A route written as in the repository's own test, with its method under
      `method`, decodes to exactly those values. */
  lemma DecodesTestRoute(path: string, verb: string, status: nat)
    requires status < 0x1_0000
    ensures DecodeRoute(Yaml.Mapping(TestRoute(path, verb, status))) == Ok(Route(path, verb, status, None, None))
  {
    var m := TestRoute(path, verb, status);
    TestRouteFields(path, verb, status);
    assert "method" != "path" && "status" != "path" && "status" != "method";
    assert forall i | 0 <= i < |m| :: Checked(m[i], RouteFields, RouteFieldError);
  }

  /** The entries of a route as the repository's test writes them. */
  function TestRoute(path: string, verb: string, status: nat): seq<Yaml.Entry> {
    [Yaml.Entry(Yaml.String("path"), Yaml.String(path)),
     Yaml.Entry(Yaml.String("method"), Yaml.String(verb)),
     Yaml.Entry(Yaml.String("status"), Yaml.Number(status))]
  }

  /** The fields of such a route: its three keys, and no body or result. */
  lemma TestRouteFields(path: string, verb: string, status: nat)
    ensures Field(TestRoute(path, verb, status), "path") == Some(Yaml.String(path))
    ensures Field(TestRoute(path, verb, status), "method") == Some(Yaml.String(verb))
    ensures Field(TestRoute(path, verb, status), "status") == Some(Yaml.Number(status))
    ensures Field(TestRoute(path, verb, status), "body") == None
    ensures Field(TestRoute(path, verb, status), "result") == None
  {
    var m := TestRoute(path, verb, status);
    assert "method" != "path" && "status" != "path" && "status" != "method";
    assert Yaml.UniqueKeys(m);
    Yaml.GetUnique(m, 0);
    Yaml.GetUnique(m, 1);
    Yaml.GetUnique(m, 2);
    assert "body" != "path" && "body" != "method" && "body" != "status";
    Yaml.GetFinds(m, Yaml.String("body"));
    assert "result" != "path" && "result" != "method" && "result" != "status";
    Yaml.GetFinds(m, Yaml.String("result"));
  }

  /** `validate_params` accepts every parameter set. */
  function ValidateParams(p: Params): (r: Outcome<string>)
    ensures r == Pass
  {
    Pass
  }

  // ---------------------------------------------------------------------------
  // Building the router
  // ---------------------------------------------------------------------------

  predicate SupportedMethod(verb: string) {
    verb in {"GET", "POST", "DELETE", "PUT"}
  }

  predicate AllSupported(routes: seq<Route>) {
    forall i | 0 <= i < |routes| :: SupportedMethod(routes[i].verb)
  }

  /** The route loop of `func`: each route is attached under its method; the
      first route with any other verb makes `func` fail before serving. */
  method BuildRouter(routes: seq<Route>) returns (r: Outcome<string>)
    ensures r == Pass <==> AllSupported(routes)
    ensures r != Pass ==> r == Fail("HTTP Method not supported!")
  {
    var i := 0;
    while i < |routes|
      invariant 0 <= i <= |routes|
      invariant forall j | 0 <= j < i :: SupportedMethod(routes[j].verb)
    {
      match routes[i].verb {
        case "GET" =>
        case "POST" =>
        case "DELETE" =>
        case "PUT" =>
        case _ => return Fail("HTTP Method not supported!");
      }
      i := i + 1;
    }
    return Pass;
  }

  /** Whether the router has a handler for `verb` on `path`. */
  predicate Routed(routes: seq<Route>, path: string, verb: string) {
    exists i | 0 <= i < |routes| :: routes[i].path == path && routes[i].verb == verb
  }

  // ---------------------------------------------------------------------------
  // Route lookup inside the handlers
  // ---------------------------------------------------------------------------

  /** `routes.iter().find(|r| r.path == path && r.method == method)`. */
  function FindRoute(routes: seq<Route>, path: string, verb: string): (r: Option<Route>)
    ensures r.Some? <==> Routed(routes, path, verb)
    ensures r.Some? ==> exists i | 0 <= i < |routes| :: routes[i] == r.value && r.value.path == path && r.value.verb == verb &&
                          forall j | 0 <= j < i :: !(routes[j].path == path && routes[j].verb == verb)
    decreases |routes|
  {
    if |routes| == 0 then None
    else if routes[0].path == path && routes[0].verb == verb then Some(routes[0])
    else
      var r := FindRoute(routes[1..], path, verb);
      assert Routed(routes, path, verb) <==> Routed(routes[1..], path, verb) by {
        if Routed(routes, path, verb) {
          var i :| 0 <= i < |routes| && routes[i].path == path && routes[i].verb == verb;
          assert routes[1..][i - 1] == routes[i];
        }
        if Routed(routes[1..], path, verb) {
          var i :| 0 <= i < |routes[1..]| && routes[1..][i].path == path && routes[1..][i].verb == verb;
          assert routes[i + 1] == routes[1..][i];
        }
      }
      if r.Some? then
        assert exists i | 0 <= i < |routes| :: routes[i] == r.value && r.value.path == path && r.value.verb == verb &&
                 forall j | 0 <= j < i :: !(routes[j].path == path && routes[j].verb == verb) by {
          var i :| 0 <= i < |routes[1..]| && routes[1..][i] == r.value && r.value.path == path && r.value.verb == verb &&
                   forall j | 0 <= j < i :: !(routes[1..][j].path == path && routes[1..][j].verb == verb);
          assert routes[i + 1] == r.value;
          assert forall j | 0 <= j < i + 1 :: !(routes[j].path == path && routes[j].verb == verb) by {
            forall j | 0 <= j < i + 1 ensures !(routes[j].path == path && routes[j].verb == verb) {
              if j > 0 { assert routes[j] == routes[1..][j - 1]; }
            }
          }
        }
        r
      else r
  }

  datatype Lookup = Found(route: Route) | NotFound | BodyPanic

  /** Whether a route is the one for `path` and `verb`. */
  predicate Candidate(route: Route, path: string, verb: string) {
    route.path == path && route.verb == verb
  }

  /** Whether a route's body is present and parses. */
  predicate BodyParses(route: Route, parse: string -> Option<Json>) {
    route.body.Some? && parse(route.body.value).Some?
  }

  /** Whether a route's body parses to the payload. */
  predicate BodyEquals(route: Route, payload: Json, parse: string -> Option<Json>) {
    route.body.Some? && parse(route.body.value) == Some(payload)
  }

  /** Whether the search goes on past a route: it is not for `path` and
      `verb`, or its body parses to something other than the payload. */
  predicate Passed(route: Route, path: string, verb: string, payload: Json, parse: string -> Option<Json>) {
    !Candidate(route, path, verb) || (BodyParses(route, parse) && !BodyEquals(route, payload, parse))
  }

  /** The lookup of the POST and PUT handlers, `find` with a predicate that
      unwraps the body and its parse: the first route for the path and method
      whose body parses to the payload, unless a route for them before it has a
      missing or malformed body, which panics. */
  function FindByBody(routes: seq<Route>, path: string, verb: string, payload: Json, parse: string -> Option<Json>): (r: Lookup)
    ensures r == NotFound <==> forall i | 0 <= i < |routes| :: Passed(routes[i], path, verb, payload, parse)
    ensures r.Found? ==> exists i | 0 <= i < |routes| :: routes[i] == r.route && Candidate(routes[i], path, verb) &&
                           BodyEquals(routes[i], payload, parse) &&
                           forall j | 0 <= j < i :: Passed(routes[j], path, verb, payload, parse)
    ensures r == BodyPanic ==> exists i | 0 <= i < |routes| :: Candidate(routes[i], path, verb) && !BodyParses(routes[i], parse) &&
                                 forall j | 0 <= j < i :: Passed(routes[j], path, verb, payload, parse)
    ensures !Routed(routes, path, verb) ==> r == NotFound
    decreases |routes|
  {
    if |routes| == 0 then NotFound
    else if !Passed(routes[0], path, verb, payload, parse) then
      if !BodyParses(routes[0], parse) then BodyPanic else Found(routes[0])
    else
      var r := FindByBody(routes[1..], path, verb, payload, parse);
      assert forall i | 0 < i < |routes| :: routes[i] == routes[1..][i - 1];
      assert r.Found? ==> exists i | 0 <= i < |routes| :: routes[i] == r.route && Candidate(routes[i], path, verb) &&
                            BodyEquals(routes[i], payload, parse) &&
                            forall j | 0 <= j < i :: Passed(routes[j], path, verb, payload, parse) by {
        if r.Found? {
          var i :| 0 <= i < |routes[1..]| && routes[1..][i] == r.route && Candidate(routes[1..][i], path, verb) &&
                   BodyEquals(routes[1..][i], payload, parse) &&
                   forall j | 0 <= j < i :: Passed(routes[1..][j], path, verb, payload, parse);
          PassedShift(routes, path, verb, payload, parse, i);
        }
      }
      assert r == BodyPanic ==> exists i | 0 <= i < |routes| :: Candidate(routes[i], path, verb) && !BodyParses(routes[i], parse) &&
                                  forall j | 0 <= j < i :: Passed(routes[j], path, verb, payload, parse) by {
        if r == BodyPanic {
          var i :| 0 <= i < |routes[1..]| && Candidate(routes[1..][i], path, verb) && !BodyParses(routes[1..][i], parse) &&
                   forall j | 0 <= j < i :: Passed(routes[1..][j], path, verb, payload, parse);
          PassedShift(routes, path, verb, payload, parse, i);
        }
      }
      r
  }

  /** The search passes the first route and then routes 1 .. i of the rest. */
  lemma PassedShift(routes: seq<Route>, path: string, verb: string, payload: Json, parse: string -> Option<Json>, i: nat)
    requires 0 < |routes| && i < |routes| - 1
    requires Passed(routes[0], path, verb, payload, parse)
    requires forall j | 0 <= j < i :: Passed(routes[1..][j], path, verb, payload, parse)
    ensures routes[i + 1] == routes[1..][i]
    ensures forall j | 0 <= j < i + 1 :: Passed(routes[j], path, verb, payload, parse)
  {
    forall j | 0 <= j < i + 1 ensures Passed(routes[j], path, verb, payload, parse) {
      if j > 0 { assert routes[j] == routes[1..][j - 1]; }
    }
  }

  // ---------------------------------------------------------------------------
  // The handlers on the store, as functions of the server state
  // ---------------------------------------------------------------------------

  /** What the handlers share: the routes, the output path (empty: no file) and
      the JSON parser. */
  datatype Env = Env(routes: seq<Route>, outputFile: string, parse: string -> Option<Json>)

  /** The shared state: the store, whether its mutex is poisoned (a handler
      panicked while holding the lock), and the store as last written to the
      output file. */
  datatype State = State(store: map<string, Json>, poisoned: bool, written: Option<map<string, Json>>)

  /** What a request gets: a handler's response (without its body for HEAD),
      axum's answer for a path or method without a handler, or a panic of the
      handler. */
  datatype Reply = Response(status: nat, body: Json) | BodilessResponse(status: nat) | Unrouted(status: nat) | Panicked

  /** `StatusCode::from_u16` accepts 100 ..= 999. */
  predicate ValidStatus(status: nat) {
    100 <= status <= 999
  }

  const NotFoundReply := Response(404, Null)

  /** The store after a change, with `write_output_file`: the whole store is
      written iff the output path is non-empty. */
  function Commit(env: Env, s: State, store: map<string, Json>): (t: State)
    ensures t.store == store && t.poisoned == s.poisoned
    ensures t.written == if env.outputFile != "" then Some(store) else s.written
  {
    State(store, s.poisoned, if env.outputFile != "" then Some(store) else s.written)
  }

  /** The final `StatusCode::from_u16(status).unwrap()`, still under the lock: an
      invalid status panics and poisons the mutex. */
  function Respond(s: State, status: nat, body: Json): (r: (State, Reply))
    ensures ValidStatus(status) ==> r == (s, Response(status, body))
    ensures !ValidStatus(status) ==> r == (s.(poisoned := true), Panicked)
  {
    if ValidStatus(status) then (s, Response(status, body)) else (s.(poisoned := true), Panicked)
  }

  /** Store `result` under `path` and respond: the common tail of the GET, POST
      and PUT handlers once a route with a result is found. The result is
      parsed before the lock is taken; a poisoned lock panics. */
  function StoreAndRespond(env: Env, s: State, path: string, route: Route): (r: (State, Reply))
    requires route.result.Some?
    ensures r.1.Response? || r.1 == Panicked
    ensures s.poisoned ==> r == (s, Panicked)
    ensures r.1.Response? ==> r.0.store == s.store[path := r.1.body] && r.1.status == route.status && !r.0.poisoned
    ensures r.0.poisoned != s.poisoned ==> r.1 == Panicked
  {
    match env.parse(route.result.value)
    case None => (s, Panicked)
    case Some(v) =>
      if s.poisoned then (s, Panicked)
      else Respond(Commit(env, s, s.store[path := v]), route.status, v)
  }

  /** `get_handler` for the matched path. */
  function OnGet(env: Env, s: State, path: string): (r: (State, Reply))
    ensures r.1.Response? || r.1 == Panicked
    ensures s.poisoned ==> r.0 == s && (r.1.Response? ==> r.1 == NotFoundReply)
    ensures r.1 == Panicked || r.1 == NotFoundReply || r.0.store == s.store[path := r.1.body]
    ensures r.0.poisoned != s.poisoned ==> r.1 == Panicked
  {
    match FindRoute(env.routes, path, "GET")
    case None => (s, NotFoundReply)
    case Some(route) => if route.result.None? then (s, NotFoundReply) else StoreAndRespond(env, s, path, route)
  }

  /** `post_handler` (`verb` "POST") and `put_handler` (`verb` "PUT"). */
  function OnUpsert(env: Env, s: State, verb: string, path: string, payload: Json): (r: (State, Reply))
    ensures r.1.Response? || r.1 == Panicked
    ensures s.poisoned ==> r.0 == s && (r.1.Response? ==> r.1 == NotFoundReply)
    ensures r.1 == Panicked || r.1 == NotFoundReply || r.0.store == s.store[path := r.1.body]
    ensures r.0.poisoned != s.poisoned ==> r.1 == Panicked
  {
    match FindByBody(env.routes, path, verb, payload, env.parse)
    case BodyPanic => (s, Panicked)
    case NotFound => (s, NotFoundReply)
    case Found(route) => if route.result.None? then (s, NotFoundReply) else StoreAndRespond(env, s, path, route)
  }

  /** `delete_handler`: the entry is removed and the file written before the
      result is parsed, so a malformed result or an invalid status panics with
      the lock held. */
  function OnDelete(env: Env, s: State, path: string): (r: (State, Reply))
    ensures r.1.Response? || r.1 == Panicked
    ensures s.poisoned ==> r.0 == s && (r.1.Response? ==> r.1 == NotFoundReply)
    ensures FindRoute(env.routes, path, "DELETE").Some? && !s.poisoned ==> r.0.store == s.store - {path}
    ensures r.0.poisoned != s.poisoned ==> r.1 == Panicked
  {
    match FindRoute(env.routes, path, "DELETE")
    case None => (s, NotFoundReply)
    case Some(route) =>
      if s.poisoned then (s, Panicked)
      else
        var t := Commit(env, s, s.store - {path});
        match route.result
        case None => Respond(t, route.status, Null)
        case Some(text) =>
          match env.parse(text)
          case None => (t.(poisoned := true), Panicked)
          case Some(v) => Respond(t, route.status, v)
  }

  /** One request: its method, the path its route matched, and its JSON
      payload (read only by POST and PUT). */
  datatype Request = Request(verb: string, path: string, payload: Json)

  /** The methods axum serves on a path: those of its routes, and HEAD
      wherever GET is served, since a `get` method router answers HEAD too. */
  predicate Serves(routes: seq<Route>, path: string, verb: string) {
    Routed(routes, path, verb) || (verb == "HEAD" && Routed(routes, path, "GET"))
  }

  /** axum's answer to HEAD: the GET handler's response with the body dropped. */
  function WithoutBody(reply: Reply): (r: Reply)
    ensures reply.Response? ==> r == BodilessResponse(reply.status)
    ensures !reply.Response? ==> r == reply
  {
    if reply.Response? then BodilessResponse(reply.status) else reply
  }

  /** axum's dispatch: a path without any route gets 404, a routed path without
      a handler for the verb gets 405, otherwise the verb's handler runs; HEAD
      runs the GET handler. */
  function HandleRequest(env: Env, s: State, req: Request): (r: (State, Reply))
    ensures !Serves(env.routes, req.path, req.verb) ==>
              r.0 == s && r.1 == Unrouted(if exists i | 0 <= i < |env.routes| :: env.routes[i].path == req.path then 405 else 404)
    ensures Serves(env.routes, req.path, req.verb) && req.verb in {"GET", "HEAD", "POST", "PUT", "DELETE"} ==> !r.1.Unrouted?
    ensures req.verb == "HEAD" ==> !r.1.Response?
    ensures s.poisoned ==> r.0 == s
    ensures r.0.poisoned != s.poisoned ==> r.1 == Panicked
  {
    if !Serves(env.routes, req.path, req.verb) then
      if exists i | 0 <= i < |env.routes| :: env.routes[i].path == req.path then (s, Unrouted(405)) else (s, Unrouted(404))
    else if req.verb == "GET" then OnGet(env, s, req.path)
    else if req.verb == "HEAD" then
      var (t, reply) := OnGet(env, s, req.path);
      (t, WithoutBody(reply))
    else if req.verb == "POST" || req.verb == "PUT" then OnUpsert(env, s, req.verb, req.path, req.payload)
    else if req.verb == "DELETE" then OnDelete(env, s, req.path)
    else (s, Unrouted(405))
  }

  /** A sequence of requests handled one after the other. */
  function HandleRequests(env: Env, s: State, reqs: seq<Request>): (r: (State, seq<Reply>))
    ensures |r.1| == |reqs|
    decreases |reqs|
  {
    if |reqs| == 0 then (s, [])
    else
      var first := HandleRequest(env, s, reqs[0]);
      var rest := HandleRequests(env, first.0, reqs[1..]);
      (rest.0, [first.1] + rest.1)
  }

  // ---------------------------------------------------------------------------
  // Properties of the handlers
  // ---------------------------------------------------------------------------

  /** Only the entry under the request's path can change. */
  ghost predicate SameElsewhere(a: map<string, Json>, b: map<string, Json>, path: string) {
    forall k | k != path :: (k in a <==> k in b) && (k in a ==> a[k] == b[k])
  }

  lemma StoreFrame(env: Env, s: State, path: string, route: Route)
    requires route.result.Some?
    ensures SameElsewhere(s.store, StoreAndRespond(env, s, path, route).0.store, path)
  {
  }

  lemma GetFrame(env: Env, s: State, path: string)
    ensures SameElsewhere(s.store, OnGet(env, s, path).0.store, path)
  {
    var found := FindRoute(env.routes, path, "GET");
    if found.Some? && found.value.result.Some? {
      StoreFrame(env, s, path, found.value);
    }
  }

  lemma UpsertFrame(env: Env, s: State, verb: string, path: string, payload: Json)
    ensures SameElsewhere(s.store, OnUpsert(env, s, verb, path, payload).0.store, path)
  {
    var found := FindByBody(env.routes, path, verb, payload, env.parse);
    if found.Found? && found.route.result.Some? {
      StoreFrame(env, s, path, found.route);
    }
  }

  lemma DeleteFrame(env: Env, s: State, path: string)
    ensures SameElsewhere(s.store, OnDelete(env, s, path).0.store, path)
  {
    var r := OnDelete(env, s, path).0;
    assert r.store == s.store || r.store == s.store - {path};
  }

  lemma HandleFrame(env: Env, s: State, req: Request)
    ensures SameElsewhere(s.store, HandleRequest(env, s, req).0.store, req.path)
  {
    if !Serves(env.routes, req.path, req.verb) {
    } else if req.verb == "GET" || req.verb == "HEAD" {
      GetFrame(env, s, req.path);
    } else if req.verb == "POST" || req.verb == "PUT" {
      UpsertFrame(env, s, req.verb, req.path, req.payload);
    } else if req.verb == "DELETE" {
      DeleteFrame(env, s, req.path);
    }
  }

  /** The output file mirrors the store: with an output path, the file holds the
      store once anything was stored (before that the store is empty); without
      one, nothing is ever written. */
  ghost predicate Mirrors(env: Env, s: State) {
    if env.outputFile != "" then s.written == Some(s.store) || (s.written.None? && s.store == map[])
    else s.written.None?
  }

  lemma StoreMirrors(env: Env, s: State, path: string, route: Route)
    requires route.result.Some?
    requires Mirrors(env, s)
    ensures Mirrors(env, StoreAndRespond(env, s, path, route).0)
  {
  }

  lemma GetMirrors(env: Env, s: State, path: string)
    requires Mirrors(env, s)
    ensures Mirrors(env, OnGet(env, s, path).0)
  {
    var found := FindRoute(env.routes, path, "GET");
    if found.Some? && found.value.result.Some? {
      StoreMirrors(env, s, path, found.value);
    }
  }

  lemma UpsertMirrors(env: Env, s: State, verb: string, path: string, payload: Json)
    requires Mirrors(env, s)
    ensures Mirrors(env, OnUpsert(env, s, verb, path, payload).0)
  {
    var found := FindByBody(env.routes, path, verb, payload, env.parse);
    if found.Found? && found.route.result.Some? {
      StoreMirrors(env, s, path, found.route);
    }
  }

  lemma DeleteMirrors(env: Env, s: State, path: string)
    requires Mirrors(env, s)
    ensures Mirrors(env, OnDelete(env, s, path).0)
  {
  }

  lemma HandleMirrors(env: Env, s: State, req: Request)
    requires Mirrors(env, s)
    ensures Mirrors(env, HandleRequest(env, s, req).0)
  {
    if !Serves(env.routes, req.path, req.verb) {
    } else if req.verb == "GET" || req.verb == "HEAD" {
      GetMirrors(env, s, req.path);
    } else if req.verb == "POST" || req.verb == "PUT" {
      UpsertMirrors(env, s, req.verb, req.path, req.payload);
    } else if req.verb == "DELETE" {
      DeleteMirrors(env, s, req.path);
    }
  }

  lemma {:induction false} HandleRequestsMirrors(env: Env, s: State, reqs: seq<Request>)
    requires Mirrors(env, s)
    ensures Mirrors(env, HandleRequests(env, s, reqs).0)
    decreases |reqs|
  {
    if |reqs| > 0 {
      HandleMirrors(env, s, reqs[0]);
      HandleRequestsMirrors(env, HandleRequest(env, s, reqs[0]).0, reqs[1..]);
    }
  }

  /** A poisoned store stays as it is: every later request that reaches the lock
      panics. */
  lemma {:induction false} PoisonIsPermanent(env: Env, s: State, reqs: seq<Request>)
    requires s.poisoned
    ensures HandleRequests(env, s, reqs).0 == s
    decreases |reqs|
  {
    if |reqs| > 0 {
      assert HandleRequest(env, s, reqs[0]).0 == s;
      PoisonIsPermanent(env, s, reqs[1..]);
    }
  }

  /** A GET whose route has a result that parses to `v` and a valid status
      stores `v` under the path, writes the file, and answers with the route's
      status and `v`. */
  lemma GetStores(env: Env, s: State, path: string, v: Json)
    requires !s.poisoned
    requires FindRoute(env.routes, path, "GET").Some?
    requires FindRoute(env.routes, path, "GET").value.result.Some?
    requires env.parse(FindRoute(env.routes, path, "GET").value.result.value) == Some(v)
    requires ValidStatus(FindRoute(env.routes, path, "GET").value.status)
    ensures HandleRequest(env, s, Request("GET", path, Null)) ==
            (Commit(env, s, s.store[path := v]), Response(FindRoute(env.routes, path, "GET").value.status, v))
  {
  }

  /** A HEAD on a path with a GET route runs the GET handler: the same new
      state, and the same reply without its body. */
  lemma HeadRunsGet(env: Env, s: State, path: string, payload: Json)
    requires Routed(env.routes, path, "GET")
    ensures HandleRequest(env, s, Request("HEAD", path, payload)) ==
            (HandleRequest(env, s, Request("GET", path, payload)).0, WithoutBody(HandleRequest(env, s, Request("GET", path, payload)).1))
  {
  }

  /** A POST or PUT whose payload is the body of route `i`, the first route for
      the path and method whose body parses to it, every route for them before
      it having a body that parses, stores the route's result `v` under the
      path, writes the file, and answers with the route's status and `v`. */
  lemma UpsertStores(env: Env, s: State, verb: string, path: string, payload: Json, i: nat, v: Json)
    requires verb == "POST" || verb == "PUT"
    requires !s.poisoned
    requires i < |env.routes| && Candidate(env.routes[i], path, verb) && BodyEquals(env.routes[i], payload, env.parse)
    requires forall j | 0 <= j < i :: Passed(env.routes[j], path, verb, payload, env.parse)
    requires env.routes[i].result.Some? && env.parse(env.routes[i].result.value) == Some(v)
    requires ValidStatus(env.routes[i].status)
    ensures HandleRequest(env, s, Request(verb, path, payload)) ==
            (Commit(env, s, s.store[path := v]), Response(env.routes[i].status, v))
  {
    var found := FindByBody(env.routes, path, verb, payload, env.parse);
    assert !Passed(env.routes[i], path, verb, payload, env.parse);
    if found.Found? {
      var k :| 0 <= k < |env.routes| && env.routes[k] == found.route && Candidate(env.routes[k], path, verb) &&
               BodyEquals(env.routes[k], payload, env.parse) &&
               forall j | 0 <= j < k :: Passed(env.routes[j], path, verb, payload, env.parse);
      assert k == i;
    }
  }

  /** A GET that finds no route with a result answers 404 with null and changes
      nothing. */
  lemma GetWithoutResultIs404(env: Env, s: State, path: string)
    requires Routed(env.routes, path, "GET")
    requires FindRoute(env.routes, path, "GET").value.result.None?
    ensures HandleRequest(env, s, Request("GET", path, Null)) == (s, NotFoundReply)
  {
  }

  /** GET is idempotent: repeating it leaves the same state and gets the same
      reply. */
  lemma GetIdempotent(env: Env, s: State, path: string)
    ensures var (t, reply) := OnGet(env, s, path);
            OnGet(env, t, path) == (t, reply)
  {
    var found := FindRoute(env.routes, path, "GET");
    if found.Some? && found.value.result.Some? && !s.poisoned {
      var parsed := env.parse(found.value.result.value);
      if parsed.Some? {
        var t := Commit(env, s, s.store[path := parsed.value]);
        assert t.store[path := parsed.value] == t.store;
        assert Commit(env, t, t.store) == t;
      }
    }
  }

  /** A DELETE that reaches the lock removes the entry, whatever the route's
      result is. */
  lemma DeleteRemoves(env: Env, s: State, path: string)
    requires !s.poisoned
    requires Routed(env.routes, path, "DELETE")
    ensures path !in HandleRequest(env, s, Request("DELETE", path, Null)).0.store
  {
  }

  /** POST and PUT with a payload that no body with the path and method parses
      to, all those bodies being valid, answer 404 and change nothing. */
  lemma UnmatchedPayloadIs404(env: Env, s: State, verb: string, path: string, payload: Json)
    requires verb == "POST" || verb == "PUT"
    requires Routed(env.routes, path, verb)
    requires forall i | 0 <= i < |env.routes| && env.routes[i].path == path && env.routes[i].verb == verb ::
               env.routes[i].body.Some? && env.parse(env.routes[i].body.value).Some? &&
               env.parse(env.routes[i].body.value) != Some(payload)
    ensures HandleRequest(env, s, Request(verb, path, payload)) == (s, NotFoundReply)
  {
  }

  // ---------------------------------------------------------------------------
  // The server object
  // ---------------------------------------------------------------------------

  /** The running server: the routes, output path and parser shared by the
      handlers, and the mutex-protected store. */
  class MockServer {
    const env: Env
    var store: map<string, Json>
    var poisoned: bool
    var written: Option<map<string, Json>>

    function Snapshot(): State
      reads this
    {
      State(store, poisoned, written)
    }

    ghost predicate Valid()
      reads this
    {
      Mirrors(env, Snapshot())
    }

    /** The shared values `func` builds: a missing `output_file` becomes the
        empty path; the store starts empty. */
    constructor (routes: seq<Route>, outputFile: Option<string>, parse: string -> Option<Json>)
      ensures env == Env(routes, outputFile.GetOr(""), parse)
      ensures Snapshot() == State(map[], false, None)
      ensures Valid()
    {
      env := Env(routes, outputFile.GetOr(""), parse);
      store := map[];
      poisoned := false;
      written := None;
    }

    /** `write_output_file`: writes the whole store iff the path is non-empty. */
    method WriteOutputFile()
      modifies this
      ensures written == if env.outputFile != "" then Some(store) else old(written)
      ensures store == old(store) && poisoned == old(poisoned)
    {
      if env.outputFile != "" {
        written := Some(store);
      }
    }

    /** The common tail of the GET, POST and PUT handlers. */
    method StoreResult(path: string, route: Route) returns (reply: Reply)
      requires route.result.Some?
      modifies this
      ensures (Snapshot(), reply) == StoreAndRespond(env, old(Snapshot()), path, route)
    {
      var parsed := env.parse(route.result.value);
      if parsed.None? {
        return Panicked;
      }
      if poisoned {
        return Panicked;
      }
      store := store[path := parsed.value];
      WriteOutputFile();
      if !ValidStatus(route.status) {
        poisoned := true;
        return Panicked;
      }
      return Response(route.status, parsed.value);
    }

    method Get(path: string) returns (reply: Reply)
      modifies this
      ensures (Snapshot(), reply) == OnGet(env, old(Snapshot()), path)
    {
      var route := FindRoute(env.routes, path, "GET");
      if route.None? || route.value.result.None? {
        return NotFoundReply;
      }
      reply := StoreResult(path, route.value);
    }

    /** POST (`verb` "POST") and PUT (`verb` "PUT"). */
    method Upsert(verb: string, path: string, payload: Json) returns (reply: Reply)
      modifies this
      ensures (Snapshot(), reply) == OnUpsert(env, old(Snapshot()), verb, path, payload)
    {
      var found := FindByBody(env.routes, path, verb, payload, env.parse);
      if found.BodyPanic? {
        return Panicked;
      }
      if found.NotFound? || found.route.result.None? {
        return NotFoundReply;
      }
      reply := StoreResult(path, found.route);
    }

    method Delete(path: string) returns (reply: Reply)
      modifies this
      ensures (Snapshot(), reply) == OnDelete(env, old(Snapshot()), path)
    {
      var route := FindRoute(env.routes, path, "DELETE");
      if route.None? {
        return NotFoundReply;
      }
      if poisoned {
        return Panicked;
      }
      store := store - {path};
      WriteOutputFile();
      var body := Null;
      if route.value.result.Some? {
        var parsed := env.parse(route.value.result.value);
        if parsed.None? {
          poisoned := true;
          return Panicked;
        }
        body := parsed.value;
      }
      if !ValidStatus(route.value.status) {
        poisoned := true;
        return Panicked;
      }
      return Response(route.value.status, body);
    }

    method Handle(req: Request) returns (reply: Reply)
      modifies this
      ensures (Snapshot(), reply) == HandleRequest(env, old(Snapshot()), req)
    {
      if !Serves(env.routes, req.path, req.verb) {
        if exists i | 0 <= i < |env.routes| :: env.routes[i].path == req.path {
          return Unrouted(405);
        }
        return Unrouted(404);
      }
      if req.verb == "GET" {
        reply := Get(req.path);
      } else if req.verb == "HEAD" {
        reply := Get(req.path);
        reply := WithoutBody(reply);
      } else if req.verb == "POST" || req.verb == "PUT" {
        reply := Upsert(req.verb, req.path, req.payload);
      } else if req.verb == "DELETE" {
        reply := Delete(req.path);
      } else {
        reply := Unrouted(405);
      }
    }

    /** Serving: the requests are handled one after the other, and the file keeps
        mirroring the store. */
    method Serve(reqs: seq<Request>) returns (replies: seq<Reply>)
      requires Valid()
      modifies this
      ensures (Snapshot(), replies) == HandleRequests(env, old(Snapshot()), reqs)
      ensures Valid()
    {
      replies := [];
      var i := 0;
      assert reqs[0..] == reqs;
      assert replies + HandleRequests(env, Snapshot(), reqs).1 == HandleRequests(env, Snapshot(), reqs).1;
      while i < |reqs|
        invariant 0 <= i <= |reqs|
        invariant HandleRequests(env, old(Snapshot()), reqs) ==
                  (HandleRequests(env, Snapshot(), reqs[i..]).0, replies + HandleRequests(env, Snapshot(), reqs[i..]).1)
        invariant Valid()
      {
        assert reqs[i..][0] == reqs[i] && reqs[i..][1..] == reqs[i + 1..];
        ghost var before := Snapshot();
        var reply := Handle(reqs[i]);
        HandleMirrors(env, before, reqs[i]);
        assert replies + ([reply] + HandleRequests(env, Snapshot(), reqs[i + 1..]).1) ==
               (replies + [reply]) + HandleRequests(env, Snapshot(), reqs[i + 1..]).1;
        replies := replies + [reply];
        i := i + 1;
      }
      assert reqs[i..] == [];
      assert replies + [] == replies;
    }
  }

  /** Start-up outcomes that lie outside the model: whether `host_addr` parses as
      an IPv4 socket address and whether binding it succeeds. hyper's
      `Server::bind` panics when it cannot bind. */
  datatype Startup = Startup(addressParses: bool, binds: bool)

  datatype ServerError = BadParams(decode: DecodeError) | Invalid(message: string) | UnsupportedMethod(message: string) | BadAddress

  /** The registered `func`: deserialize, validate, build the router, parse the
      address, bind, then serve the requests; the server never returns by
      itself (None for `exit`). A failed bind panics the task. */
  method Func(params: seq<Yaml.Entry>, startup: Startup, parse: string -> Option<Json>, reqs: seq<Request>)
    returns (replies: seq<Reply>, exit: Option<Faker.TaskExit<ServerError>>)
    ensures exit != Some(Faker.Done)
    ensures exit == Some(Faker.Panicked) <==>
              Decode(params).Ok? && AllSupported(Decode(params).value.routes) &&
              startup.addressParses && !startup.binds
    ensures exit == Some(Faker.Panicked) ==> replies == []
    ensures Decode(params).Ok? && AllSupported(Decode(params).value.routes) && !startup.addressParses ==>
              exit == Some(Faker.Failed(BadAddress)) && replies == []
    ensures Decode(params).Err? ==> exit == Some(Faker.Failed(BadParams(Decode(params).error))) && replies == []
    ensures Decode(params).Ok? && !AllSupported(Decode(params).value.routes) ==>
              exit == Some(Faker.Failed(UnsupportedMethod("HTTP Method not supported!"))) && replies == []
    ensures exit.None? <==> Decode(params).Ok? && AllSupported(Decode(params).value.routes) && startup == Startup(true, true)
    ensures exit.None? ==>
              replies == HandleRequests(Env(Decode(params).value.routes, Decode(params).value.outputFile.GetOr(""), parse),
                                        State(map[], false, None), reqs).1
  {
    var decoded := Decode(params);
    if decoded.Err? {
      return [], Some(Faker.Failed(BadParams(decoded.error)));
    }
    var p := decoded.value;
    var valid := ValidateParams(p);
    assert valid == Pass;
    var router := BuildRouter(p.routes);
    if router.Fail? {
      return [], Some(Faker.Failed(UnsupportedMethod(router.error)));
    }
    if !startup.addressParses {
      return [], Some(Faker.Failed(BadAddress));
    }
    if !startup.binds {
      return [], Some(Faker.Panicked);
    }
    var server := new MockServer(p.routes, p.outputFile, parse);
    replies := server.Serve(reqs);
    exit := None;
  }
}
