/** The provisioning endpoint `POST /api/supabase/ensure-table`: it
    validates the request, probes the table and creates it through the
    Management API when it is missing, and answers with a status and a
    JSON body. */
module EnsureTableRoute {
  import opened Wrappers
  import opened Strings
  import opened Js
  import opened Schema
  import opened TableManager

  const InvalidRequest := "tableName and schema (with name and columns) are required"
  const NameMismatch := "schema.name must match tableName"
  const MissingEnv := "Missing Supabase env vars"
  const RouteFailed := "Ensure table failed"

  /** The request body: one the handler throws on before reading any
      field (the error's message), or the fields the handler reads.
      `Unparsable` stands for JSON that does not parse and also for the
      JSON `null`, whose destructuring throws a TypeError; the handler's
      `catch` answers both with 500 and the message. `schema` is the
      declaration, or `None` when the body has no schema object with a
      string `name` and a `columns` array; the handler answers every such
      body with the same 400. */
  datatype RequestBody =
    | Unparsable(parseError: string)
    | Body(tableName: Option<string>, schema: Option<TableSchema>)

  /** The JSON body of the response. */
  datatype ResponseBody = OkBody | MessageBody(message: string)

  /** The response, the server cache after the request, and the calls made. */
  datatype Response = Response(status: nat, body: ResponseBody, cache: set<string>, calls: seq<Call>)

  /** The request is well-formed: a non-empty table name, a schema with a
      non-empty name, and a columns array (which may be empty). */
  predicate WellFormed(body: RequestBody) {
    body.Body? && Truthy(body.tableName) && body.schema.Some? && body.schema.value.name != ""
  }

  /** The request passed validation and the connection settings exist,
      so the handler goes on to probe the table. */
  predicate PastChecks(body: RequestBody, env: Env) {
    WellFormed(body) && body.schema.value.name == body.tableName.value && Truthy(env.supabaseUrl) && Truthy(env.anonKey)
  }

  /** The answer to a thrown error: its message for an `Error`, a fixed
      text for anything else. */
  function Failure(t: Thrown, cache: set<string>, calls: seq<Call>): (r: Response)
    ensures r.status == 500
    ensures t.JsError? ==> r.body == MessageBody(t.message)
    ensures t.Rejected? ==> r.body == MessageBody(RouteFailed)
  {
    Response(500, MessageBody(ErrorMessageOr(t, RouteFailed)), cache, calls)
  }

  /** `POST(request)`. */
  function Post(cache: set<string>, body: RequestBody, env: Env, probe: ProbeReply, management: HttpReply): (r: Response)
    // a body that does not parse is a thrown error
    ensures body.Unparsable? ==> r == Response(500, MessageBody(body.parseError), cache, [])
    // validation comes first and makes no call
    ensures body.Body? && !WellFormed(body) ==> r == Response(400, MessageBody(InvalidRequest), cache, [])
    ensures WellFormed(body) && body.schema.value.name != body.tableName.value ==>
      r == Response(400, MessageBody(NameMismatch), cache, [])
    // the connection settings are checked before the probe
    ensures WellFormed(body) && body.schema.value.name == body.tableName.value && !(Truthy(env.supabaseUrl) && Truthy(env.anonKey)) ==>
      r == Response(500, MessageBody(MissingEnv), cache, [])
    // past the checks, the table is probed first
    ensures PastChecks(body, env) ==> |r.calls| > 0 && r.calls[0] == Probe(body.tableName.value)
    // an existing table is fine, with or without a management token
    ensures PastChecks(body, env) && probe.ProbeOk? ==> r == Response(200, OkBody, cache, [Probe(body.tableName.value)])
    // a missing table without a token is refused and nothing is created
    ensures PastChecks(body, env) && probe == Missing() && !Truthy(env.managementToken) ==>
      r == Response(500, MessageBody(TokenMissing), cache, [Probe(body.tableName.value)])
    // a probe error is answered with the fixed text, since it is not an Error
    ensures PastChecks(body, env) && TableExists(probe).Threw? ==>
      r == Response(500, MessageBody(RouteFailed), cache, [Probe(body.tableName.value)])
    // a missing table with a token is created through the Management API
    ensures PastChecks(body, env) && probe == Missing() && Truthy(env.managementToken) ==>
      var c := CreateTableEffect(cache, body.schema.value, env, management);
      r.calls == [Probe(body.tableName.value)] + c.calls && r.cache == c.cache
      && (r.status == 200 <==> c.outcome.Returned?)
    ensures r.status == 200 <==> r.body == OkBody
    ensures r.status in {200, 400, 500}
    ensures r.cache == cache || r.cache == cache + {body.schema.value.name}
  {
    match body
    case Unparsable(message) => Failure(JsError(message), cache, [])
    case Body(tableName, schema) =>
      if !WellFormed(body) then Response(400, MessageBody(InvalidRequest), cache, [])
      else if schema.value.name != tableName.value then Response(400, MessageBody(NameMismatch), cache, [])
      else if !Truthy(env.supabaseUrl) || !Truthy(env.anonKey) then Response(500, MessageBody(MissingEnv), cache, [])
      else
        var probed := [Probe(tableName.value)];
        match TableExists(probe)
        case Threw(t) => Failure(t, cache, probed)
        case Returned(found) =>
          if found then Response(200, OkBody, cache, probed)
          else if !Truthy(env.managementToken) then Response(500, MessageBody(TokenMissing), cache, probed)
          else
            var c := CreateTableEffect(cache, schema.value, env, management);
            if c.outcome.Threw? then Failure(c.outcome.thrown, c.cache, probed + c.calls)
            else Response(200, OkBody, c.cache, probed + c.calls)
  }

  /** The route's answer as the browser's `fetch` sees it; a status other
      than 200 is not `ok`. */
  function AsHttpReply(r: Response, statusText: string): (h: HttpReply)
    ensures h.HttpOk? <==> r.status == 200
  {
    if r.status == 200 then HttpOk
    else HttpFailed(r.status, statusText, Some(ErrorBody(Some(if r.body.MessageBody? then r.body.message else ""), None)))
  }

  /** A browser-side `ensureTableExists` that goes through the route caches
      the table name exactly when the route answers 200, and otherwise
      throws the route's message (or the fixed client text for an empty
      one). */
  lemma BrowserFollowsRoute(cache: set<string>, tableName: string, schema: TableSchema, w: World, r: Response, statusText: string)
    requires tableName !in cache && !w.isServer && w.probe == Missing()
    requires w.route == AsHttpReply(r, statusText)
    ensures var e := Ensure(cache, tableName, schema, w);
      (e.outcome.Returned? <==> r.status == 200)
      && (r.status == 200 ==> tableName in e.cache)
      && (r.status != 200 && r.body.MessageBody? ==>
            e.outcome == Threw(JsError(OrElse(Some(r.body.message), EnsureFailed))))
  {
    var e := Ensure(cache, tableName, schema, w);
    if r.status != 200 && r.body.MessageBody? {
      assert w.route.body == Some(ErrorBody(Some(r.body.message), None));
      assert e.outcome == Threw(JsError(RouteErrorText(w.route.statusText, w.route.body)));
    }
  }

  /** A route that answers 200 for a table it had to create has created
      it: the Management API was called and the schema's name is cached. */
  lemma CreatedWhenMissing(cache: set<string>, body: RequestBody, env: Env, management: HttpReply)
    requires PastChecks(body, env)
    requires Post(cache, body, env, Missing(), management).status == 200
    ensures var r := Post(cache, body, env, Missing(), management);
      |r.calls| == 2 && r.calls[1].ManagementPost? && body.schema.value.name in r.cache
  {
  }
}
