/** CRUD with automatic table creation: each operation first makes sure
    the table exists, then issues one request and hands back the backend's
    `{ data, error }` without throwing on backend errors. */
module SmartCrud {
  import opened Wrappers
  import opened Js
  import opened Schema
  import opened TableManager
  import opened Db

  /** The `data` argument of `smartInsert`: one object or an array. */
  datatype Payload = Single(row: Row) | Batch(rows: seq<Row>)

  /** The array sent to `.insert(...)`. */
  function PayloadRows(data: Payload): (rows: seq<Row>)
    ensures data.Single? ==> rows == [data.row]
    ensures data.Batch? ==> rows == data.rows
  {
    match data
    case Single(row) => [row]
    case Batch(rows) => rows
  }

  /** The `data` field of a reply: `null`, one row, or a list of rows. */
  datatype Data = NoData | OneRow(row: Row) | Rows(rows: seq<Row>)

  /** The `{ data, error }` of a smart operation. */
  datatype Reply = Reply(data: Data, error: Option<BackendError>)

  /** A request sent to the backend after the table check. */
  datatype Request =
    | InsertRequest(rows: seq<Row>)
    | SelectRequest(plan: Plan, single: bool)
    | UpdateRequest(filter: Filter, patch: Row)
    | DeleteRequest(filter: Filter)

  /** The result of `insert(...).select()` as `smartInsert` returns it:
      for a single object and a non-empty result, the first row; otherwise
      the result as it came. */
  function Unwrap(single: bool, result: Option<seq<Row>>): (d: Data)
    ensures single && result.Some? && |result.value| > 0 <==> d.OneRow?
    ensures d.OneRow? ==> d.row == result.value[0]
    ensures d.Rows? <==> result.Some? && !(single && |result.value| > 0)
    ensures d.Rows? ==> d.rows == result.value
    ensures d.NoData? <==> result.None?
  {
    if single && result.Some? && |result.value| > 0 then OneRow(result.value[0])
    else if result.Some? then Rows(result.value)
    else NoData
  }

  /** The options of `smartSelect`; every field may be absent. */
  datatype SelectQuery = SelectQuery(
    columns: Option<string>,
    orderBy: Option<string>,
    ascending: Option<bool>,
    limit: Option<nat>,
    eq: Option<seq<(string, Value)>>,
    single: Option<bool>)

  /** The query `smartSelect` builds: all columns unless told otherwise,
      ordered only for a non-empty `orderBy` (descending unless told
      otherwise), limited whenever a limit is given, and one equality per
      `eq` entry. */
  function SelectPlan(query: SelectQuery): (p: Plan)
    ensures query.columns.None? ==> p.columns == "*"
    ensures query.columns.Some? ==> p.columns == query.columns.value
    ensures p.order.Some? <==> Truthy(query.orderBy)
    ensures p.order.Some? ==> p.order.value.col == query.orderBy.value
    ensures p.order.Some? && query.ascending.None? ==> !p.order.value.ascending
    ensures p.order.Some? && query.ascending.Some? ==> p.order.value.ascending == query.ascending.value
    ensures p.limit == query.limit
    ensures p.filter == EqFilter(query.eq.GetOr([]))
  {
    Plan(query.columns.GetOr("*"),
         EqFilter(query.eq.GetOr([])),
         if Truthy(query.orderBy) then Some(Order(query.orderBy.value, query.ascending.GetOr(false))) else None,
         query.limit)
  }

  // ---------------------------------------------------------------------
  // The effect of each request on the table
  // ---------------------------------------------------------------------

  /** `insert(payload).select()` and the unwrapping: the new rows and the
      reply. */
  function InsertEffect(rows: seq<Row>, data: Payload, fault: Fault, generated: seq<Row>): (r: (seq<Row>, Reply))
    ensures fault.Fail? ==> r == (rows, Reply(NoData, Some(fault.error)))
    ensures fault.Ok? ==> r.0 == rows + WithGenerated(PayloadRows(data), generated) && r.1.error.None?
    ensures fault.Ok? && data.Single? ==> r.1.data == OneRow(r.0[|rows|])
    ensures fault.Ok? && data.Batch? ==> r.1.data == Rows(r.0[|rows|..])
  {
    match fault
    case Fail(e) => (rows, Reply(NoData, Some(e)))
    case Ok =>
      var inserted := WithGenerated(PayloadRows(data), generated);
      var after := rows + inserted;
      assert after[|rows|..] == inserted;
      (after, Reply(Unwrap(data.Single?, Some(inserted)), None))
  }

  /** `select(...)` with the rest of the chain: a failure gives no data;
      with `single`, exactly one row or an error; otherwise the list. */
  function SelectEffect(rows: seq<Row>, query: SelectQuery, fault: Fault): (r: Reply)
    ensures fault.Fail? ==> r == Reply(NoData, Some(fault.error))
    ensures fault.Ok? && query.single != Some(true) ==> r == Reply(Rows(Run(rows, SelectPlan(query))), None)
    ensures fault.Ok? && query.single == Some(true) ==>
      var found := Run(rows, SelectPlan(query));
      (|found| == 1 ==> r == Reply(OneRow(found[0]), None))
      && (|found| != 1 ==> r == Reply(NoData, Some(NotOneRow())))
  {
    match fault
    case Fail(e) => Reply(NoData, Some(e))
    case Ok =>
      var found := Run(rows, SelectPlan(query));
      if query.single == Some(true) then
        var one := SingleOf(found);
        Reply(if one.data.Some? then OneRow(one.data.value) else NoData, one.error)
      else Reply(Rows(found), None)
  }

  /** `update(data)` with one equality per `match` entry, then `.select()`. */
  function UpdateEffect(rows: seq<Row>, criteria: seq<(string, Value)>, patch: Row, fault: Fault): (r: (seq<Row>, Reply))
    ensures fault.Fail? ==> r == (rows, Reply(NoData, Some(fault.error)))
    ensures fault.Ok? ==>
      r.0 == UpdateWhere(rows, EqFilter(criteria), patch)
      && r.1 == Reply(Rows(Patched(Where(rows, EqFilter(criteria)), patch)), None)
  {
    match fault
    case Fail(e) => (rows, Reply(NoData, Some(e)))
    case Ok =>
      var f := EqFilter(criteria);
      (UpdateWhere(rows, f, patch), Reply(Rows(Patched(Where(rows, f), patch)), None))
  }

  /** `delete()` with one equality per `match` entry; only the error is
      returned. */
  function DeleteEffect(rows: seq<Row>, criteria: seq<(string, Value)>, fault: Fault): (r: (seq<Row>, Option<BackendError>))
    ensures fault.Fail? ==> r == (rows, Some(fault.error))
    ensures fault.Ok? ==> r == (DeleteWhere(rows, EqFilter(criteria)), None)
  {
    match fault
    case Fail(e) => (rows, Some(e))
    case Ok => (DeleteWhere(rows, EqFilter(criteria)), None)
  }

  /** After a delete, a select with the same pairs finds nothing. */
  lemma DeleteThenSelectFindsNothing(rows: seq<Row>, pairs: seq<(string, Value)>)
    ensures var after := DeleteEffect(rows, pairs, Ok).0;
      SelectEffect(after, SelectQuery(None, None, None, None, Some(pairs), None), Ok) == Reply(Rows([]), None)
  {
    WhereNone(DeleteWhere(rows, EqFilter(pairs)), EqFilter(pairs));
  }

  /** A row inserted that matches the pairs is found by a later select
      with those pairs and no limit. */
  lemma InsertThenSelectFinds(rows: seq<Row>, row: Row, pairs: seq<(string, Value)>, generated: seq<Row>, query: SelectQuery)
    requires query.eq == Some(pairs) && query.limit.None? && query.single != Some(true)
    requires Matches(WithGenerated([row], generated)[0], EqFilter(pairs))
    ensures var after := InsertEffect(rows, Single(row), Ok, generated).0;
      var reply := SelectEffect(after, query, Ok);
      reply.data.Rows? && WithGenerated([row], generated)[0] in reply.data.rows
  {
    var stored := WithGenerated([row], generated)[0];
    var after := InsertEffect(rows, Single(row), Ok, generated).0;
    assert after[|rows|] == stored;
    var f := EqFilter(pairs);
    assert stored in Where(after, f);
    var found := Run(after, SelectPlan(query));
    assert stored in multiset(found);
  }

  /** An update changes only the rows that match all its pairs. */
  lemma UpdateKeepsOthers(rows: seq<Row>, criteria: seq<(string, Value)>, patch: Row, k: nat)
    requires k < |rows| && !Matches(rows[k], EqFilter(criteria))
    ensures UpdateEffect(rows, criteria, patch, Ok).0[k] == rows[k]
  {
  }

  // ---------------------------------------------------------------------
  // The operations
  // ---------------------------------------------------------------------

  /** Adds one `.eq(k, v)` per pair to a filter, as the source's loops do. */
  method AddEqualities(f0: Filter, pairs: seq<(string, Value)>) returns (f: Filter)
    ensures f == f0 + EqFilter(pairs)
  {
    f := f0;
    for i := 0 to |pairs|
      invariant f == f0 + EqFilter(pairs[..i])
    {
      f := f + [Eq(pairs[i].0, pairs[i].1)];
      assert EqFilter(pairs[..i + 1]) == EqFilter(pairs[..i]) + [Eq(pairs[i].0, pairs[i].1)];
    }
    assert pairs[..|pairs|] == pairs;
  }

  /** `smartInsert(client, tableName, schema, data)` */
  method SmartInsert(tm: TableCache, t: Table, tableName: string, schema: TableSchema, data: Payload,
                     w: World, fault: Fault, generated: seq<Row>)
    returns (r: Outcome<Reply>, sent: seq<Request>)
    modifies tm, t
    ensures var e := Ensure(old(tm.cache), tableName, schema, w);
      tm.cache == e.cache
      && (e.outcome.Threw? ==> r == Threw(e.outcome.thrown) && sent == [] && t.rows == old(t.rows))
      && (e.outcome.Returned? ==>
            sent == [InsertRequest(PayloadRows(data))]
            && (t.rows, r) == (InsertEffect(old(t.rows), data, fault, generated).0,
                               Returned(InsertEffect(old(t.rows), data, fault, generated).1)))
  {
    var ensured, _ := tm.EnsureTableExists(tableName, schema, w);
    if ensured.Threw? {
      return Threw(ensured.thrown), [];
    }
    var payload := PayloadRows(data);
    sent := [InsertRequest(payload)];
    if fault.Fail? {
      return Returned(Reply(NoData, Some(fault.error))), sent;
    }
    var result := t.Insert(payload, generated);
    var single := !data.Batch?;
    r := Returned(Reply(Unwrap(single, Some(result)), None));
  }

  /** The plan of `smartSelect` built step by step: select, then order,
      then limit, then one equality per `eq` entry. */
  method BuildSelect(query: SelectQuery) returns (p: Plan)
    ensures p == SelectPlan(query)
  {
    p := Plan(query.columns.GetOr("*"), [], None, None);
    if Truthy(query.orderBy) {
      p := p.(order := Some(Order(query.orderBy.value, query.ascending.GetOr(false))));
    }
    if query.limit.Some? {
      p := p.(limit := query.limit);
    }
    if query.eq.Some? {
      var f := AddEqualities(p.filter, query.eq.value);
      p := p.(filter := f);
    } else {
      assert EqFilter([]) == [];
    }
  }

  /** `smartSelect(client, tableName, schema, query)` */
  method SmartSelect(tm: TableCache, t: Table, tableName: string, schema: TableSchema, query: SelectQuery,
                     w: World, fault: Fault)
    returns (r: Outcome<Reply>, sent: seq<Request>)
    modifies tm
    ensures var e := Ensure(old(tm.cache), tableName, schema, w);
      tm.cache == e.cache
      && (e.outcome.Threw? ==> r == Threw(e.outcome.thrown) && sent == [])
      && (e.outcome.Returned? ==>
            sent == [SelectRequest(SelectPlan(query), query.single == Some(true))]
            && r == Returned(SelectEffect(t.rows, query, fault)))
  {
    var ensured, _ := tm.EnsureTableExists(tableName, schema, w);
    if ensured.Threw? {
      return Threw(ensured.thrown), [];
    }
    var plan := BuildSelect(query);
    var single := query.single == Some(true);
    sent := [SelectRequest(plan, single)];
    r := Returned(SelectEffect(t.rows, query, fault));
  }

  /** `smartUpdate(client, tableName, schema, match, data)` */
  method SmartUpdate(tm: TableCache, t: Table, tableName: string, schema: TableSchema,
                     criteria: seq<(string, Value)>, patch: Row, w: World, fault: Fault)
    returns (r: Outcome<Reply>, sent: seq<Request>)
    modifies tm, t
    ensures var e := Ensure(old(tm.cache), tableName, schema, w);
      tm.cache == e.cache
      && (e.outcome.Threw? ==> r == Threw(e.outcome.thrown) && sent == [] && t.rows == old(t.rows))
      && (e.outcome.Returned? ==>
            sent == [UpdateRequest(EqFilter(criteria), patch)]
            && (t.rows, r) == (UpdateEffect(old(t.rows), criteria, patch, fault).0,
                               Returned(UpdateEffect(old(t.rows), criteria, patch, fault).1)))
  {
    var ensured, _ := tm.EnsureTableExists(tableName, schema, w);
    if ensured.Threw? {
      return Threw(ensured.thrown), [];
    }
    var f := AddEqualities([], criteria);
    assert f == EqFilter(criteria);
    sent := [UpdateRequest(f, patch)];
    if fault.Fail? {
      return Returned(Reply(NoData, Some(fault.error))), sent;
    }
    var updated := t.Update(f, patch);
    r := Returned(Reply(Rows(updated), None));
  }

  /** `smartDelete(client, tableName, schema, match)` */
  method SmartDelete(tm: TableCache, t: Table, tableName: string, schema: TableSchema,
                     criteria: seq<(string, Value)>, w: World, fault: Fault)
    returns (r: Outcome<Option<BackendError>>, sent: seq<Request>)
    modifies tm, t
    ensures var e := Ensure(old(tm.cache), tableName, schema, w);
      tm.cache == e.cache
      && (e.outcome.Threw? ==> r == Threw(e.outcome.thrown) && sent == [] && t.rows == old(t.rows))
      && (e.outcome.Returned? ==>
            sent == [DeleteRequest(EqFilter(criteria))]
            && (t.rows, r) == (DeleteEffect(old(t.rows), criteria, fault).0,
                               Returned(DeleteEffect(old(t.rows), criteria, fault).1)))
  {
    var ensured, _ := tm.EnsureTableExists(tableName, schema, w);
    if ensured.Threw? {
      return Threw(ensured.thrown), [];
    }
    var f := AddEqualities([], criteria);
    assert f == EqFilter(criteria);
    sent := [DeleteRequest(f)];
    if fault.Fail? {
      return Returned(Some(fault.error)), sent;
    }
    t.Delete(f);
    r := Returned(None);
  }
}
