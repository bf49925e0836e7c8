/** The two shapes the entity services share around their data request:
    make sure the table exists and find the signed-in user, in one order
    or the other, and either let a failed table check propagate or catch
    every failure. */
module Services {
  import opened Wrappers
  import opened Js
  import opened Schema
  import opened TableManager
  import opened Db
  import opened Session

  /** What a service call leaves behind when failures propagate: the cache
      of known tables, the rows of the table and the call's outcome. */
  datatype After<T> = After(cache: set<string>, rows: seq<Row>, outcome: Outcome<T>)

  /** What a service call leaves behind when it catches every failure: the
      cache, the rows and the value it returns. */
  datatype Settled<T> = Settled(cache: set<string>, rows: seq<Row>, value: T)

  /** The user first, then the table check `e`, whose failure is rethrown:
      without a user the call returns `none` and changes nothing; otherwise
      `done` gives the new rows and the value returned. */
  function Guarded<T>(cache: set<string>, rows: seq<Row>, user: Option<User>, e: Effect, none: T, done: (seq<Row>, T)): After<T>
  {
    if user.None? then After(cache, rows, Returned(none))
    else if e.outcome.Threw? then After(e.cache, rows, Threw(e.outcome.thrown))
    else After(e.cache, done.0, Returned(done.1))
  }

  /** The table check first, then the user, with every failure caught: a
      failed check or a missing user gives `none` and leaves the rows;
      otherwise `done` gives the new rows and the value returned. */
  function Caught<T>(cache: set<string>, rows: seq<Row>, user: Option<User>, e: Effect, none: T, done: (seq<Row>, T)): Settled<T>
  {
    if e.outcome.Threw? || user.None? then Settled(e.cache, rows, none)
    else Settled(e.cache, done.0, done.1)
  }

  /** The table check of a schema named after its table: a failure leaves
      the cache as it was, and a success has the table's name in the
      cache. */
  lemma EnsureChecked(cache: set<string>, tableName: string, schema: TableSchema, w: World)
    requires schema.name == tableName
    ensures var e := Ensure(cache, tableName, schema, w);
      (e.outcome.Threw? ==> e.cache == cache) && (e.outcome.Returned? ==> tableName in e.cache)
  {
    if Ensure(cache, tableName, schema, w).outcome.Returned? {
      EnsureIdempotent(cache, tableName, schema, w, w);
    }
  }

  /** A guarded call without a user returns `none` and changes nothing, a
      thrown one changes nothing, and one that changed the rows had made
      sure of the table. */
  lemma GuardedFacts<T>(cache: set<string>, rows: seq<Row>, user: Option<User>, tableName: string, e: Effect, none: T, done: (seq<Row>, T))
    requires (e.outcome.Threw? ==> e.cache == cache) && (e.outcome.Returned? ==> tableName in e.cache)
    ensures var a := Guarded(cache, rows, user, e, none, done);
      (user.None? ==> a == After(cache, rows, Returned(none)))
      && (a.outcome.Threw? ==> a.rows == rows && a.cache == cache)
      && (a.rows != rows ==> user.Some? && tableName in a.cache)
  {
  }

  /** A guarded call whose table check returned leaves the rows its body
      gives; any other leaves them as they were. */
  lemma GuardedRows<T>(cache: set<string>, rows: seq<Row>, user: Option<User>, e: Effect, none: T, done: (seq<Row>, T))
    ensures var a := Guarded(cache, rows, user, e, none, done);
      a.rows == (if user.Some? && e.outcome.Returned? then done.0 else rows)
      && (a.outcome.Returned? && user.Some? ==> e.outcome.Returned?)
  {
  }

  /** A caught call whose check failed changes nothing and returns `none`;
      one without a user leaves the rows; one that changed the rows had
      made sure of the table. */
  lemma CaughtFacts<T>(cache: set<string>, rows: seq<Row>, user: Option<User>, tableName: string, e: Effect, none: T, done: (seq<Row>, T))
    requires (e.outcome.Threw? ==> e.cache == cache) && (e.outcome.Returned? ==> tableName in e.cache)
    ensures var s := Caught(cache, rows, user, e, none, done);
      (e.outcome.Threw? ==> s == Settled(cache, rows, none))
      && (user.None? ==> s.rows == rows && s.value == none)
      && (s.rows != rows ==> user.Some? && tableName in s.cache)
      && (s.rows == (if user.Some? && e.outcome.Returned? then done.0 else rows))
  {
  }

  /** `.eq('id', id).eq('user_id', userId)`: the user's own row. */
  function OwnFilter(id: string, userId: string): Filter {
    EqFilter([("id", Str(id)), ("user_id", Str(userId))])
  }

  lemma MatchesOwn(row: Row, id: string, userId: string)
    ensures Matches(row, OwnFilter(id, userId)) <==> Field(row, "id") == Str(id) && Field(row, "user_id") == Str(userId)
  {
    var pairs := [("id", Str(id)), ("user_id", Str(userId))];
    MatchesEqFilter(row, pairs);
    assert pairs[0] == ("id", Str(id)) && pairs[1] == ("user_id", Str(userId));
  }

  /** `.eq('user_id', userId)` */
  function UserFilter(userId: string): Filter {
    EqFilter([("user_id", Str(userId))])
  }

  lemma MatchesUser(row: Row, userId: string)
    ensures Matches(row, UserFilter(userId)) <==> Field(row, "user_id") == Str(userId)
  {
    var pairs := [("user_id", Str(userId))];
    MatchesEqFilter(row, pairs);
    assert pairs[0] == ("user_id", Str(userId));
  }

  // ---------------------------------------------------------------------
  // The user's highest row
  // ---------------------------------------------------------------------

  /** The user's rows by descending `col`. */
  function Descending(rows: seq<Row>, userId: string, col: string): (r: seq<Row>)
    ensures Sorted(r, Order(col, false))
    ensures multiset(r) == multiset(Where(rows, UserFilter(userId)))
  {
    SortBy(Where(rows, UserFilter(userId)), Order(col, false))
  }

  /** `.eq('user_id', userId).order(col, { ascending: false }).limit(1)`
      answers the first of the user's rows by descending `col`, or none
      when the user has no row. */
  lemma TopOfUser(rows: seq<Row>, userId: string, columns: string, col: string)
    ensures var top := Run(rows, Plan(columns, UserFilter(userId), Some(Order(col, false)), Some(1)));
      var sorted := Descending(rows, userId, col);
      (Where(rows, UserFilter(userId)) == [] ==> top == [])
      && (Where(rows, UserFilter(userId)) != [] ==> |sorted| > 0 && top == [sorted[0]])
  {
    var found := Where(rows, UserFilter(userId));
    var sorted := Descending(rows, userId, col);
    assert Run(rows, Plan(columns, UserFilter(userId), Some(Order(col, false)), Some(1))) == Take(sorted, Some(1));
    if found == [] {
      assert |sorted| == 0;
    } else {
      assert found[0] in multiset(sorted);
    }
  }

  /** Each of the user's rows is somewhere in the descending list. */
  lemma InDescending(rows: seq<Row>, userId: string, col: string, row: Row) returns (k: nat)
    requires row in rows && Field(row, "user_id") == Str(userId)
    ensures var sorted := Descending(rows, userId, col);
      k < |sorted| && sorted[k] == row
  {
    var sorted := Descending(rows, userId, col);
    MatchesUser(row, userId);
    assert row in multiset(sorted);
    k :| 0 <= k < |sorted| && sorted[k] == row;
  }

  /** With integers in `col`, the first of the descending list is one of
      the user's rows and holds the highest value among them. */
  lemma HighestOfUser(rows: seq<Row>, userId: string, col: string)
    requires forall row :: row in rows ==> Field(row, col).Int?
    requires Where(rows, UserFilter(userId)) != []
    ensures var sorted := Descending(rows, userId, col);
      |sorted| > 0 && sorted[0] in rows && Field(sorted[0], "user_id") == Str(userId) && Field(sorted[0], col).Int?
      && forall row :: row in rows && Field(row, "user_id") == Str(userId) ==> Field(row, col).i <= Field(sorted[0], col).i
  {
    var found := Where(rows, UserFilter(userId));
    var sorted := Descending(rows, userId, col);
    assert found[0] in multiset(sorted);
    forall row | row in sorted
      ensures Field(row, col).Int?
    {
      assert row in multiset(found);
    }
    forall row | row in rows && Field(row, "user_id") == Str(userId)
      ensures Field(row, col).i <= Field(sorted[0], col).i
    {
      var k := InDescending(rows, userId, col, row);
      DescendingHead(sorted, col, k);
    }
    assert sorted[0] in multiset(found);
    MatchesUser(sorted[0], userId);
  }

  /** A user row with no value in `col` puts a row with no value first. */
  lemma NullOfUserFirst(rows: seq<Row>, userId: string, col: string, row: Row)
    requires row in rows && Field(row, "user_id") == Str(userId) && Field(row, col).IsNullish()
    ensures var sorted := Descending(rows, userId, col);
      |sorted| > 0 && Field(sorted[0], col).IsNullish()
  {
    var sorted := Descending(rows, userId, col);
    var k := InDescending(rows, userId, col, row);
    DescendingRank(sorted, col, k);
  }
}
