/** The table manager: the existence probe, creation through the
    Management API, and `ensureTableExists` with its process-wide cache of
    table names known to exist. The probe reply, the Management API reply
    and the reply of the provisioning route are inputs (oracles); the model
    records which of those calls were issued, in order. */
module TableManager {
  import opened Wrappers
  import opened Strings
  import opened Js
  import opened Schema
  import opened Ddl

  /** The PostgREST error code for "relation not found in the schema cache". */
  const Pgrst205 := "PGRST205"

  const TokenMissing := "SUPABASE_MANAGEMENT_API_TOKEN is required for table creation"
  const UrlMissing := "NEXT_PUBLIC_SUPABASE_URL is required"
  const EnsureFailed := "Failed to ensure table"

  /** The configuration read from the environment; `None` is unset. */
  datatype Env = Env(managementToken: Option<string>, supabaseUrl: Option<string>, anonKey: Option<string>)

  /** The `error` of `select('*').limit(0)` on the table. */
  datatype ProbeReply = ProbeOk | ProbeFailed(error: BackendError)

  /** The JSON body of a failed reply (`message` and `error` fields), or
      `None` when the body does not parse. */
  datatype ErrorBody = ErrorBody(message: Option<string>, error: Option<string>)

  /** An HTTP reply: `res.ok`, or a status with its text and body. */
  datatype HttpReply = HttpOk | HttpFailed(status: nat, statusText: string, body: Option<ErrorBody>)

  /** The SQL that `createTable` sends, kept as the declaration whose
      script it is; `Text()` is the text itself. */
  datatype Query = CreateTableQuery(schema: TableSchema) {
    function Text(): string {
      Script(schema)
    }
  }

  /** The request `runManagementQuery` posts. */
  datatype ManagementRequest = ManagementRequest(apiUrl: string, bearer: string, query: Query)

  /** The outside calls the table manager makes. */
  datatype Call =
    | Probe(table: string)
    | ManagementPost(request: ManagementRequest)
    | RoutePost(tableName: string, schema: TableSchema)

  // ---------------------------------------------------------------------
  // tableExists
  // ---------------------------------------------------------------------

  /** No error means the table exists, PGRST205 means it does not, and any
      other error is rethrown. */
  function TableExists(reply: ProbeReply): (r: Outcome<bool>)
    ensures r == Returned(true) <==> reply.ProbeOk?
    ensures r == Returned(false) <==> reply.ProbeFailed? && reply.error.code == Some(Pgrst205)
    ensures r.Threw? <==> reply.ProbeFailed? && reply.error.code != Some(Pgrst205)
    ensures r.Threw? ==> r.thrown == Rejected(reply.error)
  {
    match reply
    case ProbeOk => Returned(true)
    case ProbeFailed(e) => if e.code == Some(Pgrst205) then Returned(false) else Threw(Rejected(e))
  }

  // ---------------------------------------------------------------------
  // runManagementQuery
  // ---------------------------------------------------------------------

  /** `url.replace(/^https:\/\//, '')` */
  function StripHttps(url: string): (r: string)
    ensures StartsWith(url, "https://") ==> url == "https://" + r
    ensures !StartsWith(url, "https://") ==> r == url
  {
    if StartsWith(url, "https://") then url[8..] else url
  }

  /** The project reference: the first dot-separated label of the URL's
      host, after `https://` is dropped. */
  function ProjectRef(url: string): (ref: string)
    ensures '.' !in ref
    ensures StartsWith(StripHttps(url), ref)
    ensures |ref| < |StripHttps(url)| ==> StripHttps(url)[|ref|] == '.'
  {
    var host := StripHttps(url);
    var ref := FirstPiece(host, ".");
    NoDotInPiece(ref);
    DotAfterPiece(host, ref);
    ref
  }

  lemma DotAfterPiece(host: string, ref: string)
    requires ref == FirstPiece(host, ".")
    ensures |ref| < |host| ==> host[|ref|] == '.'
  {
    if |ref| < |host| && Contains(host, ".") {
      assert OccursAt(host, ".", |ref|);
      assert host[|ref|..|ref| + 1] == ".";
    }
  }

  lemma NoDotInPiece(p: string)
    requires !Contains(p, ".")
    ensures '.' !in p
  {
    if '.' in p {
      var k :| 0 <= k < |p| && p[k] == '.';
      assert p[k..k + 1] == ".";
      assert OccursAt(p, ".", k);
    }
  }

  /** The text of the error thrown for a failed Management API reply:
      the body's `message`, else its `error`, else the status line. A body
      that does not parse counts as `{}`. */
  function ManagementErrorText(status: nat, statusText: string, body: Option<ErrorBody>): (m: string)
    ensures body.Some? && Truthy(body.value.message) ==> m == body.value.message.value
    ensures body.Some? && !Truthy(body.value.message) && Truthy(body.value.error) ==> m == body.value.error.value
    ensures (body.None? || (!Truthy(body.value.message) && !Truthy(body.value.error))) ==>
      m == "Management API " + NatToString(status) + ": " + statusText
  {
    var b := body.GetOr(ErrorBody(None, None));
    OrElse(b.message, OrElse(b.error, "Management API " + NatToString(status) + ": " + statusText))
  }

  /** `runManagementQuery(query)`: the configuration checks, then one POST
      whose reply decides the outcome. Returns the calls it issued. */
  function RunManagementQuery(env: Env, query: Query, reply: HttpReply): (r: (Outcome<()>, seq<Call>))
    ensures !Truthy(env.managementToken) ==> r == (Threw(JsError(TokenMissing)), [])
    ensures Truthy(env.managementToken) && !Truthy(env.supabaseUrl) ==> r == (Threw(JsError(UrlMissing)), [])
    ensures Truthy(env.managementToken) && Truthy(env.supabaseUrl) ==>
      r.1 == [ManagementPost(ManagementRequest(
        "https://api.supabase.com/v1/projects/" + ProjectRef(env.supabaseUrl.value) + "/database/query",
        env.managementToken.value, query))]
      && (r.0.Returned? <==> reply.HttpOk?)
    ensures r.0.Threw? ==> r.0.thrown.JsError?
  {
    if !Truthy(env.managementToken) then (Threw(JsError(TokenMissing)), [])
    else if !Truthy(env.supabaseUrl) then (Threw(JsError(UrlMissing)), [])
    else
      var projectRef := ProjectRef(env.supabaseUrl.value);
      var apiUrl := "https://api.supabase.com/v1/projects/" + projectRef + "/database/query";
      var call := ManagementPost(ManagementRequest(apiUrl, env.managementToken.value, query));
      match reply
      case HttpOk => (Returned(()), [call])
      case HttpFailed(status, text, body) => (Threw(JsError(ManagementErrorText(status, text, body))), [call])
  }

  // ---------------------------------------------------------------------
  // createTable and ensureTableExists, as functions of the cache
  // ---------------------------------------------------------------------

  /** The effect of a call on the cache: the new set of names, how the
      call ended and the outside calls it made. */
  datatype Effect = Effect(cache: set<string>, outcome: Outcome<()>, calls: seq<Call>)

  /** `createTable(schema)`: runs the DDL and, when that succeeds, records
      `schema.name` in the cache. */
  function CreateTableEffect(cache: set<string>, schema: TableSchema, env: Env, reply: HttpReply): (e: Effect)
    ensures e.outcome.Returned? ==> e.cache == cache + {schema.name}
    ensures e.outcome.Threw? ==> e.cache == cache
    ensures e.outcome.Threw? ==> e.outcome.thrown.JsError?
    ensures (e.outcome, e.calls) == RunManagementQuery(env, CreateTableQuery(schema), reply)
  {
    var (outcome, calls) := RunManagementQuery(env, CreateTableQuery(schema), reply);
    Effect(if outcome.Returned? then cache + {schema.name} else cache, outcome, calls)
  }

  /** The message of the error thrown on the client when the route fails:
      the reply's `message`, or `statusText` when its body does not parse,
      or a fixed text when either is empty. */
  function RouteErrorText(statusText: string, body: Option<ErrorBody>): (m: string)
    ensures body.Some? ==> m == OrElse(body.value.message, EnsureFailed)
    ensures body.None? ==> m == OrElse(Some(statusText), EnsureFailed)
  {
    var message := if body.Some? then body.value.message else Some(statusText);
    OrElse(message, EnsureFailed)
  }

  /** What the world answers during one `ensureTableExists`: whether the
      code runs on the server (`typeof window === 'undefined'`), the
      environment, and the replies of the probe, of the Management API and
      of the provisioning route. */
  datatype World = World(isServer: bool, env: Env, probe: ProbeReply, management: HttpReply, route: HttpReply)

  /** `ensureTableExists(client, tableName, schema)`. */
  function Ensure(cache: set<string>, tableName: string, schema: TableSchema, w: World): (e: Effect)
    // a cached name returns at once, with no call at all
    ensures tableName in cache ==> e == Effect(cache, Returned(()), [])
    // otherwise the probe is the first call
    ensures tableName !in cache ==> |e.calls| > 0 && e.calls[0] == Probe(tableName)
    // a probe that finds the table caches its name
    ensures tableName !in cache && w.probe.ProbeOk? ==> e == Effect(cache + {tableName}, Returned(()), [Probe(tableName)])
    // a probe error other than PGRST205 is rethrown and nothing else happens
    ensures tableName !in cache && TableExists(w.probe).Threw? ==>
      e == Effect(cache, Threw(Rejected(w.probe.error)), [Probe(tableName)])
    // a missing table on the server is created through the Management API
    ensures tableName !in cache && TableExists(w.probe) == Returned(false) && w.isServer ==>
      var c := CreateTableEffect(cache, schema, w.env, w.management);
      e == Effect(c.cache, c.outcome, [Probe(tableName)] + c.calls)
    // a missing table in the browser is created through the route
    ensures tableName !in cache && TableExists(w.probe) == Returned(false) && !w.isServer ==>
      e.calls == [Probe(tableName), RoutePost(tableName, schema)]
      && (e.outcome.Returned? <==> w.route.HttpOk?)
      && (w.route.HttpOk? ==> e.cache == cache + {tableName})
    // a thrown failure leaves the cache as it was
    ensures e.outcome.Threw? ==> e.cache == cache
    // the cache only grows, by the table's name or the schema's name
    ensures e.cache == cache || e.cache == cache + {tableName} || e.cache == cache + {schema.name}
  {
    if tableName in cache then Effect(cache, Returned(()), [])
    else
      match TableExists(w.probe)
      case Threw(t) => Effect(cache, Threw(t), [Probe(tableName)])
      case Returned(found) =>
        if found then Effect(cache + {tableName}, Returned(()), [Probe(tableName)])
        else if w.isServer then
          var c := CreateTableEffect(cache, schema, w.env, w.management);
          Effect(c.cache, c.outcome, [Probe(tableName)] + c.calls)
        else
          var calls := [Probe(tableName), RoutePost(tableName, schema)];
          match w.route
          case HttpOk => Effect(cache + {tableName}, Returned(()), calls)
          case HttpFailed(_, text, body) => Effect(cache, Threw(JsError(RouteErrorText(text, body))), calls)
  }

  /** Once `ensureTableExists` has returned for a schema whose name is the
      table name, a second call returns at once without any call, whatever
      the world answers then. */
  lemma EnsureIdempotent(cache: set<string>, tableName: string, schema: TableSchema, w: World, w2: World)
    requires schema.name == tableName
    requires Ensure(cache, tableName, schema, w).outcome.Returned?
    ensures var first := Ensure(cache, tableName, schema, w);
      tableName in first.cache && Ensure(first.cache, tableName, schema, w2) == Effect(first.cache, Returned(()), [])
  {
  }

  /** The probe reply that means "the table is missing". */
  function Missing(): ProbeReply {
    ProbeFailed(BackendError(Some(Pgrst205), "Could not find the table in the schema cache"))
  }

  /** On the server, a successful creation caches `schema.name` and not
      the requested table name: when the two differ, the next call probes
      again. */
  lemma ServerCachesSchemaName(cache: set<string>, tableName: string, schema: TableSchema, w: World)
    requires tableName !in cache && schema.name != tableName
    requires w.isServer && w.probe == Missing()
    requires Truthy(w.env.managementToken) && Truthy(w.env.supabaseUrl) && w.management.HttpOk?
    ensures var e := Ensure(cache, tableName, schema, w);
      e.outcome.Returned? && tableName !in e.cache && schema.name in e.cache
      && Ensure(e.cache, tableName, schema, w).calls[0] == Probe(tableName)
  {
  }

  /** Missing configuration on the server throws before any request to the
      Management API, whatever that API would have replied. */
  lemma NoRequestWithoutConfig(cache: set<string>, tableName: string, schema: TableSchema, w: World)
    requires tableName !in cache && w.isServer && w.probe == Missing()
    requires !Truthy(w.env.managementToken) || !Truthy(w.env.supabaseUrl)
    ensures var e := Ensure(cache, tableName, schema, w);
      e.outcome.Threw? && e.calls == [Probe(tableName)] && e.cache == cache
  {
  }

  // ---------------------------------------------------------------------
  // The module-level cache
  // ---------------------------------------------------------------------

  /** `tableExistsCache`, the process-wide set of table names known to
      exist, with the operations that update it. */
  class TableCache {
    var cache: set<string>

    constructor ()
      ensures cache == {}
    {
      cache := {};
    }

    /** `createTable(schema)` */
    method CreateTable(schema: TableSchema, env: Env, reply: HttpReply) returns (outcome: Outcome<()>, calls: seq<Call>)
      modifies this
      ensures Effect(cache, outcome, calls) == CreateTableEffect(old(cache), schema, env, reply)
    {
      var sql := SchemaToSql(schema);
      var query := CreateTableQuery(schema);
      assert sql == query.Text();
      var run := RunManagementQuery(env, query, reply);
      outcome, calls := run.0, run.1;
      if outcome.Returned? {
        cache := cache + {schema.name};
      }
    }

    /** `ensureTableExists(client, tableName, schema)` */
    method EnsureTableExists(tableName: string, schema: TableSchema, w: World)
      returns (outcome: Outcome<()>, calls: seq<Call>)
      modifies this
      ensures Effect(cache, outcome, calls) == Ensure(old(cache), tableName, schema, w)
    {
      if tableName in cache {
        return Returned(()), [];
      }
      calls := [Probe(tableName)];
      var found := TableExists(w.probe);
      if found.Threw? {
        return Threw(found.thrown), calls;
      }
      if found.value {
        cache := cache + {tableName};
        return Returned(()), calls;
      }
      if w.isServer {
        var created;
        outcome, created := CreateTable(schema, w.env, w.management);
        calls := calls + created;
      } else {
        calls := calls + [RoutePost(tableName, schema)];
        if w.route.HttpFailed? {
          return Threw(JsError(RouteErrorText(w.route.statusText, w.route.body))), calls;
        }
        cache := cache + {tableName};
        outcome := Returned(());
      }
    }

    /** `invalidateTableCache(tableName)`: forgets one name. */
    method InvalidateTableCache(tableName: string)
      modifies this
      ensures cache == old(cache) - {tableName}
    {
      cache := cache - {tableName};
    }
  }
}
