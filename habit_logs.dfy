/** The habit-log service: one row per habit, user and calendar day,
    written by an upsert keyed on those three columns. */
module HabitLogs {
  import opened Wrappers
  import opened Strings
  import opened Js
  import opened Schema
  import opened TableManager
  import opened Db
  import opened Session
  import opened Services

  const LogsTable := "habit_logs"

  /** The calendar fields of a `Date` in local time: `getFullYear()`,
      `getMonth()` (from 0) and `getDate()`. */
  datatype LocalDate = LocalDate(year: int, month0: nat, day: nat)

  predicate ValidDate(d: LocalDate) {
    d.month0 < 12 && 1 <= d.day <= 31
  }

  /** `String(n).padStart(2, '0')` */
  function Pad2(n: nat): (r: string)
    ensures n < 100 ==> |r| == 2 && AllDigits(r) && DigitsValue(r) == n
    ensures n >= 10 ==> r == NatToString(n)
  {
    Pad2Facts(n);
    PadStart(NatToString(n), 2, '0')
  }

  lemma Pad2Facts(n: nat)
    ensures var r := PadStart(NatToString(n), 2, '0');
      n < 100 ==> |r| == 2 && AllDigits(r) && DigitsValue(r) == n
  {
    var s := NatToString(n);
    var r := PadStart(s, 2, '0');
    if n < 100 {
      NatToStringValue(n);
      if n < 10 {
        assert r == ['0'] + s;
        assert r[..1] == "0";
      }
    }
  }

  /** `dateToYMD(d)` */
  function DateToYMD(d: LocalDate): string {
    IntToString(d.year) + "-" + Pad2(d.month0 + 1) + "-" + Pad2(d.day)
  }

  lemma FourDigits(n: nat)
    requires 1000 <= n <= 9999
    ensures |NatToString(n)| == 4
  {
    assert |NatToString(n / 100)| == 2;
    assert NatToString(n / 10) == NatToString(n / 100) + [DigitChar(n / 10 % 10)];
  }

  /** For a four-digit year the text is the `full-date` of RFC 3339
      (section 5.6): ten characters `YYYY-MM-DD`, and the three fields
      read back as the year, the month (from 1) and the day. */
  lemma DateToYMDFields(d: LocalDate)
    requires ValidDate(d) && 1000 <= d.year <= 9999
    ensures var r := DateToYMD(d);
      |r| == 10 && r[4] == '-' && r[7] == '-'
      && AllDigits(r[..4]) && DigitsValue(r[..4]) == d.year
      && AllDigits(r[5..7]) && DigitsValue(r[5..7]) == d.month0 + 1
      && AllDigits(r[8..]) && DigitsValue(r[8..]) == d.day
  {
    var y := NatToString(d.year);
    FourDigits(d.year);
    NatToStringValue(d.year);
    var m := Pad2(d.month0 + 1);
    var day := Pad2(d.day);
    var r := DateToYMD(d);
    assert |m| == 2 && |day| == 2;
    assert r == y + "-" + m + "-" + day;
    assert r[..4] == y;
    assert r[5..7] == m by {
      assert r == (y + "-") + m + ("-" + day);
    }
    assert r[8..] == day;
  }

  /** Two valid dates with four-digit years have the same text only if
      they are the same date. */
  lemma DateToYMDInjective(a: LocalDate, b: LocalDate)
    requires ValidDate(a) && 1000 <= a.year <= 9999
    requires ValidDate(b) && 1000 <= b.year <= 9999
    requires DateToYMD(a) == DateToYMD(b)
    ensures a == b
  {
    DateToYMDFields(a);
    DateToYMDFields(b);
  }

  /** The calendar order on dates. */
  predicate DateLe(a: LocalDate, b: LocalDate) {
    a.year < b.year || (a.year == b.year && (a.month0 < b.month0 || (a.month0 == b.month0 && a.day <= b.day)))
  }

  /** For four-digit years, comparing the texts compares the dates, so a
      range condition on the text is a range condition on the day. */
  lemma DateTextOrder(a: LocalDate, b: LocalDate)
    requires ValidDate(a) && 1000 <= a.year <= 9999
    requires ValidDate(b) && 1000 <= b.year <= 9999
    ensures StrLe(DateToYMD(a), DateToYMD(b)) <==> DateLe(a, b)
  {
    var ya, yb := NatToString(a.year), NatToString(b.year);
    FourDigits(a.year);
    FourDigits(b.year);
    NatToStringValue(a.year);
    NatToStringValue(b.year);
    var ma, mb := Pad2(a.month0 + 1), Pad2(b.month0 + 1);
    var da, db := Pad2(a.day), Pad2(b.day);
    assert DateToYMD(a) == ya + ("-" + (ma + ("-" + da)));
    assert DateToYMD(b) == yb + ("-" + (mb + ("-" + db)));
    NumeralThenText(ya, "-" + (ma + ("-" + da)), yb, "-" + (mb + ("-" + db)));
    StrLeConcat("-", ma + ("-" + da), "-", mb + ("-" + db));
    NumeralThenText(ma, "-" + da, mb, "-" + db);
    StrLeConcat("-", da, "-", db);
    StrLeDigits(da, db);
  }

  datatype LogStatus = Completed | Skipped | Missed {
    function Text(): string {
      match this
      case Completed => "completed"
      case Skipped => "skipped"
      case Missed => "missed"
    }
  }

  /** The `entry` argument of `upsertLog`. */
  datatype Entry = Entry(status: LogStatus, value: Option<int>, durationMinutes: Option<int>, note: Option<string>)

  function IntOrNull(o: Option<int>): Value {
    if o.Some? then Int(o.value) else Null
  }

  function StrOrNull(o: Option<string>): Value {
    if o.Some? then Str(o.value) else Null
  }

  /** The row `upsertLog` writes: the key, the status, the optional values
      as NULL when missing, and the time of writing. */
  function LogRow(habitId: string, userId: string, logDate: string, entry: Entry, now: string): (row: Row)
    ensures Field(row, "habit_id") == Str(habitId) && Field(row, "user_id") == Str(userId)
    ensures Field(row, "log_date") == Str(logDate)
    ensures "id" !in row
    ensures forall k :: k in row ==> row[k] != Undefined
  {
    map[
      "habit_id" := Str(habitId),
      "user_id" := Str(userId),
      "log_date" := Str(logDate),
      "status" := Str(entry.status.Text()),
      "value" := IntOrNull(entry.value),
      "duration_minutes" := IntOrNull(entry.durationMinutes),
      "note" := StrOrNull(entry.note),
      "updated_at" := Str(now)]
  }

  /** The other columns of the written row: the status text, the
      optional values or NULL, and the time of writing. */
  lemma LogRowFields(habitId: string, userId: string, logDate: string, entry: Entry, now: string)
    ensures var row := LogRow(habitId, userId, logDate, entry, now);
      Field(row, "status") == Str(entry.status.Text())
      && Field(row, "value") == (if entry.value.Some? then Int(entry.value.value) else Null)
      && Field(row, "duration_minutes") == (if entry.durationMinutes.Some? then Int(entry.durationMinutes.value) else Null)
      && Field(row, "note") == (if entry.note.Some? then Str(entry.note.value) else Null)
      && Field(row, "updated_at") == Str(now)
  {
  }

  /** The stored row keeps the written key and takes its id from the
      generated columns. */
  lemma GeneratedLogRow(generated: Row, habitId: string, userId: string, logDate: string, entry: Entry, now: string)
    ensures var stored := generated + LogRow(habitId, userId, logDate, entry, now);
      Field(stored, "habit_id") == Str(habitId) && Field(stored, "user_id") == Str(userId)
      && Field(stored, "log_date") == Str(logDate) && Field(stored, "id") == Field(generated, "id")
  {
  }

  /** The lookup `.eq('habit_id').eq('user_id').eq('log_date')`. */
  function KeyFilter(habitId: string, userId: string, logDate: string): Filter {
    EqFilter([("habit_id", Str(habitId)), ("user_id", Str(userId)), ("log_date", Str(logDate))])
  }

  /** A row matches a key exactly when its three key columns hold it. */
  lemma MatchesKey(row: Row, habitId: string, userId: string, logDate: string)
    ensures Matches(row, KeyFilter(habitId, userId, logDate)) <==>
      Field(row, "habit_id") == Str(habitId) && Field(row, "user_id") == Str(userId) && Field(row, "log_date") == Str(logDate)
  {
    var pairs := [("habit_id", Str(habitId)), ("user_id", Str(userId)), ("log_date", Str(logDate))];
    MatchesEqFilter(row, pairs);
    assert pairs[0].0 == "habit_id" && pairs[1].0 == "user_id" && pairs[2].0 == "log_date";
  }

  function IdFilter(id: Value): Filter {
    [Eq("id", id)]
  }

  // ---------------------------------------------------------------------
  // upsertLog
  // ---------------------------------------------------------------------

  /** Which way the upsert went. */
  datatype UpsertPath = Updated(id: Value) | Inserted

  /** The lookup: a failed lookup reads as "no row", as does a lookup that
      finds several. */
  function UpsertPathOf(rows: seq<Row>, key: Filter, lookup: Fault): (p: UpsertPath)
    ensures p.Updated? <==> lookup.Ok? && |Where(rows, key)| == 1
    ensures p.Updated? ==> p.id == Field(Where(rows, key)[0], "id")
  {
    if lookup.Fail? then Inserted
    else
      var found := MaybeSingleOf(Run(rows, Plan("id", key, None, None)));
      if found.data.Some? then Updated(Field(found.data.value, "id")) else Inserted
  }

  /** `upsertLog` once the table exists: the new rows and the row it
      returns (`null` as `None`). */
  function UpsertEffect(rows: seq<Row>, userId: string, habitId: string, logDate: string, entry: Entry,
                        now: string, lookup: Fault, write: Fault, generated: Row): (seq<Row>, Option<Row>)
  {
    KeyedWrite(rows, KeyFilter(habitId, userId, logDate), LogRow(habitId, userId, logDate, entry, now), lookup, write, generated)
  }

  /** Looks `key` up, then writes `row` over the one row found (by its id)
      or inserts it. */
  function KeyedWrite(rows: seq<Row>, key: Filter, row: Row, lookup: Fault, write: Fault, generated: Row): (seq<Row>, Option<Row>)
  {
    match UpsertPathOf(rows, key, lookup)
    case Updated(id) =>
      if write.Fail? then (rows, None)
      else
        var updated := Patched(Where(rows, IdFilter(id)), row);
        (UpdateWhere(rows, IdFilter(id), row), SingleOf(updated).data)
    case Inserted =>
      if write.Fail? then (rows, None)
      else
        var stored := WithGenerated([row], [generated]);
        (rows + stored, Some(stored[0]))
  }

  /** A failed write changes nothing; an insert appends the written row
      over the generated columns and returns it; an update patches the rows
      that have the id found. */
  lemma KeyedWriteShape(rows: seq<Row>, key: Filter, row: Row, lookup: Fault, write: Fault, generated: Row)
    requires forall k :: k in row ==> row[k] != Undefined
    ensures var r := KeyedWrite(rows, key, row, lookup, write, generated);
      var path := UpsertPathOf(rows, key, lookup);
      (write.Fail? ==> r == (rows, None))
      && (write.Ok? && path.Inserted? ==> r == (rows + [generated + row], Some(generated + row)))
      && (write.Ok? && path.Updated? ==> r.0 == UpdateWhere(rows, IdFilter(path.id), row))
  {
    if write.Ok? && UpsertPathOf(rows, key, lookup).Inserted? {
      var stored := WithGenerated([row], [generated]);
      assert Stored(row) == row;
      assert stored == [generated + row];
    }
  }

  /** The same for the log row `upsertLog` writes under its key. */
  lemma UpsertEffectShape(rows: seq<Row>, userId: string, habitId: string, logDate: string, entry: Entry,
                          now: string, lookup: Fault, write: Fault, generated: Row)
    ensures var r := UpsertEffect(rows, userId, habitId, logDate, entry, now, lookup, write, generated);
      var path := UpsertPathOf(rows, KeyFilter(habitId, userId, logDate), lookup);
      var row := LogRow(habitId, userId, logDate, entry, now);
      (write.Fail? ==> r == (rows, None))
      && (write.Ok? && path.Inserted? ==> r == (rows + [generated + row], Some(generated + row)))
      && (write.Ok? && path.Updated? ==> r.0 == UpdateWhere(rows, IdFilter(path.id), row))
  {
    var key := KeyFilter(habitId, userId, logDate);
    var row := LogRow(habitId, userId, logDate, entry, now);
    KeyedWriteShape(rows, key, row, lookup, write, generated);
    UpsertIsKeyedWrite(rows, userId, habitId, logDate, entry, now, lookup, write, generated);
  }

  /** The table keeps one row per key and one per id, and every row has
      an id. */
  ghost predicate LogsInvariant(rows: seq<Row>) {
    (forall h, u, d :: |Where(rows, KeyFilter(h, u, d))| <= 1)
    && (forall v :: |Where(rows, IdFilter(v))| <= 1)
    && (forall k :: 0 <= k < |rows| ==> !Field(rows[k], "id").IsNullish())
  }

  /** A generated id is fresh: not NULL, and no row has it yet. */
  predicate FreshId(rows: seq<Row>, generated: Row) {
    !Field(generated, "id").IsNullish() && Where(rows, IdFilter(Field(generated, "id"))) == []
  }

  /** Starting from at most one row per key (and unique ids), a successful
      lookup followed by the upsert leaves at most one row per key. */
  lemma UpsertKeepsOneRowPerKey(rows: seq<Row>, userId: string, habitId: string, logDate: string, entry: Entry,
                                now: string, write: Fault, generated: Row)
    requires LogsInvariant(rows) && FreshId(rows, generated)
    ensures LogsInvariant(UpsertEffect(rows, userId, habitId, logDate, entry, now, Ok, write, generated).0)
  {
    var key := KeyFilter(habitId, userId, logDate);
    var row := LogRow(habitId, userId, logDate, entry, now);
    var path := UpsertPathOf(rows, key, Ok);
    UpsertEffectShape(rows, userId, habitId, logDate, entry, now, Ok, write, generated);
    if write.Fail? {
    } else if path.Inserted? {
      InsertKeepsInvariant(rows, habitId, userId, logDate, row, generated);
    } else {
      UpdateKeepsInvariant(rows, habitId, userId, logDate, row, path.id);
    }
  }

  lemma MatchesId(row: Row, v: Value)
    ensures Matches(row, IdFilter(v)) <==> !v.IsNullish() && Field(row, "id") == v
  {
    assert IdFilter(v)[0] == Eq("id", v);
    assert Matches(row, IdFilter(v)) <==> Holds(row, Eq("id", v));
  }

  /** The insert path: the key had no row and the id is fresh. */
  lemma InsertKeepsInvariant(rows: seq<Row>, habitId: string, userId: string, logDate: string, row: Row, generated: Row)
    requires LogsInvariant(rows) && FreshId(rows, generated)
    requires Field(row, "habit_id") == Str(habitId) && Field(row, "user_id") == Str(userId) && Field(row, "log_date") == Str(logDate)
    requires "id" !in row
    requires |Where(rows, KeyFilter(habitId, userId, logDate))| != 1
    ensures LogsInvariant(rows + [generated + row])
  {
    var added := generated + row;
    var after := rows + [added];
    assert Field(added, "id") == Field(generated, "id");
    assert Field(added, "habit_id") == Str(habitId) && Field(added, "user_id") == Str(userId) && Field(added, "log_date") == Str(logDate);
    forall h, u, d
      ensures |Where(after, KeyFilter(h, u, d))| <= 1
    {
      WhereSnoc(rows, added, KeyFilter(h, u, d));
      MatchesKey(added, h, u, d);
    }
    forall v
      ensures |Where(after, IdFilter(v))| <= 1
    {
      WhereSnoc(rows, added, IdFilter(v));
      MatchesId(added, v);
    }
  }

  /** The update path: the key had exactly one row, and the update by its
      id changes that row only, keeping its key and its id. */
  lemma UpdateKeepsInvariant(rows: seq<Row>, habitId: string, userId: string, logDate: string, row: Row, id: Value)
    requires LogsInvariant(rows)
    requires Field(row, "habit_id") == Str(habitId) && Field(row, "user_id") == Str(userId) && Field(row, "log_date") == Str(logDate)
    requires "id" !in row && forall k :: k in row ==> row[k] != Undefined
    requires |Where(rows, KeyFilter(habitId, userId, logDate))| == 1
    requires id == Field(Where(rows, KeyFilter(habitId, userId, logDate))[0], "id")
    ensures LogsInvariant(UpdateWhere(rows, IdFilter(id), row))
  {
    var key := KeyFilter(habitId, userId, logDate);
    var after := UpdateWhere(rows, IdFilter(id), row);
    var existing := Where(rows, key)[0];
    assert existing in Where(rows, key);
    var j :| 0 <= j < |rows| && rows[j] == existing;
    MatchesId(rows[j], id);
    forall k | 0 <= k < |rows|
      ensures Field(after[k], "id") == Field(rows[k], "id")
      ensures Field(after[k], "habit_id") == Field(rows[k], "habit_id")
      ensures Field(after[k], "user_id") == Field(rows[k], "user_id")
      ensures Field(after[k], "log_date") == Field(rows[k], "log_date")
    {
      if Matches(rows[k], IdFilter(id)) {
        WhereAtMostOne(rows, IdFilter(id), j, k);
        MatchesKey(rows[k], habitId, userId, logDate);
      }
    }
    forall h, u, d
      ensures |Where(after, KeyFilter(h, u, d))| <= 1
    {
      forall k | 0 <= k < |rows|
        ensures Matches(after[k], KeyFilter(h, u, d)) <==> Matches(rows[k], KeyFilter(h, u, d))
      {
        MatchesKey(after[k], h, u, d);
        MatchesKey(rows[k], h, u, d);
      }
      WherePointwise(after, rows, KeyFilter(h, u, d));
    }
    forall v
      ensures |Where(after, IdFilter(v))| <= 1
    {
      forall k | 0 <= k < |rows|
        ensures Matches(after[k], IdFilter(v)) <==> Matches(rows[k], IdFilter(v))
      {
        MatchesId(after[k], v);
        MatchesId(rows[k], v);
      }
      WherePointwise(after, rows, IdFilter(v));
    }
  }

  /** A failed lookup is taken as "no row": the upsert then inserts even
      when the key already has a row, leaving two. */
  lemma FailedLookupDuplicates(rows: seq<Row>, userId: string, habitId: string, logDate: string, entry: Entry,
                               now: string, e: BackendError, generated: Row)
    requires |Where(rows, KeyFilter(habitId, userId, logDate))| == 1
    ensures var after := UpsertEffect(rows, userId, habitId, logDate, entry, now, Fail(e), Ok, generated).0;
      |Where(after, KeyFilter(habitId, userId, logDate))| == 2
  {
    var key := KeyFilter(habitId, userId, logDate);
    var stored := generated + LogRow(habitId, userId, logDate, entry, now);
    GeneratedLogRow(generated, habitId, userId, logDate, entry, now);
    UpsertEffectShape(rows, userId, habitId, logDate, entry, now, Fail(e), Ok, generated);
    WhereSnoc(rows, stored, key);
    MatchesKey(stored, habitId, userId, logDate);
  }

  /** `r` holds every column of `row` with the value written. */
  predicate Carries(r: Row, row: Row) {
    forall c :: c in row ==> Field(r, c) == row[c]
  }

  /** A successful lookup and write leave exactly one row under the key,
      and it holds everything the call wrote. */
  lemma UpsertStoresEntry(rows: seq<Row>, userId: string, habitId: string, logDate: string, entry: Entry,
                          now: string, generated: Row)
    requires LogsInvariant(rows)
    ensures var after := UpsertEffect(rows, userId, habitId, logDate, entry, now, Ok, Ok, generated).0;
      var key := KeyFilter(habitId, userId, logDate);
      |Where(after, key)| == 1 && Carries(Where(after, key)[0], LogRow(habitId, userId, logDate, entry, now))
  {
    var key := KeyFilter(habitId, userId, logDate);
    var row := LogRow(habitId, userId, logDate, entry, now);
    var path := UpsertPathOf(rows, key, Ok);
    UpsertEffectShape(rows, userId, habitId, logDate, entry, now, Ok, Ok, generated);
    if path.Inserted? {
      InsertStores(rows, key, habitId, userId, logDate, row, generated);
    } else {
      UpdateStores(rows, habitId, userId, logDate, row, path.id);
    }
  }

  lemma InsertStores(rows: seq<Row>, key: Filter, habitId: string, userId: string, logDate: string, row: Row, generated: Row)
    requires key == KeyFilter(habitId, userId, logDate) && |Where(rows, key)| <= 1 && |Where(rows, key)| != 1
    requires Field(row, "habit_id") == Str(habitId) && Field(row, "user_id") == Str(userId) && Field(row, "log_date") == Str(logDate)
    ensures |Where(rows + [generated + row], key)| == 1 && Carries(Where(rows + [generated + row], key)[0], row)
  {
    var added := generated + row;
    assert Field(added, "habit_id") == Str(habitId) && Field(added, "user_id") == Str(userId) && Field(added, "log_date") == Str(logDate);
    MatchesKey(added, habitId, userId, logDate);
    WhereSnoc(rows, added, key);
    assert Where(rows, key) == [];
    assert Where(rows + [added], key) == [added];
  }

  lemma UpdateStores(rows: seq<Row>, habitId: string, userId: string, logDate: string, row: Row, id: Value)
    requires LogsInvariant(rows)
    requires Field(row, "habit_id") == Str(habitId) && Field(row, "user_id") == Str(userId) && Field(row, "log_date") == Str(logDate)
    requires "id" !in row && forall k :: k in row ==> row[k] != Undefined
    requires |Where(rows, KeyFilter(habitId, userId, logDate))| == 1
    requires id == Field(Where(rows, KeyFilter(habitId, userId, logDate))[0], "id")
    ensures var after := UpdateWhere(rows, IdFilter(id), row);
      |Where(after, KeyFilter(habitId, userId, logDate))| == 1
      && Carries(Where(after, KeyFilter(habitId, userId, logDate))[0], row)
  {
    var key := KeyFilter(habitId, userId, logDate);
    var after := UpdateWhere(rows, IdFilter(id), row);
    UpdateKeepsInvariant(rows, habitId, userId, logDate, row, id);
    var existing := Where(rows, key)[0];
    assert existing in Where(rows, key);
    var j :| 0 <= j < |rows| && rows[j] == existing;
    MatchesId(rows[j], id);
    assert after[j] == Patch(rows[j], row);
    MatchesKey(after[j], habitId, userId, logDate);
    assert after[j] in Where(after, key);
    var found := Where(after, key)[0];
    assert found in Where(after, key);
    var k :| 0 <= k < |after| && after[k] == found;
    WhereAtMostOne(after, key, j, k);
  }

  // ---------------------------------------------------------------------
  // fetchLogsForDateRange
  // ---------------------------------------------------------------------

  /** The user's logs between two day texts, latest first. */
  function FetchPlan(userId: string, start: string, end: string): Plan {
    Plan("*", [Eq("user_id", Str(userId)), Gte("log_date", Str(start)), Lte("log_date", Str(end))],
         Some(Order("log_date", false)), None)
  }

  /** A row is in the range query exactly when it is the user's and its
      day text lies between the bounds. */
  lemma MatchesFetch(row: Row, userId: string, start: string, end: string)
    ensures Matches(row, FetchPlan(userId, start, end).filter) <==>
      Field(row, "user_id") == Str(userId) && Field(row, "log_date").Str?
      && StrLe(start, Field(row, "log_date").s) && StrLe(Field(row, "log_date").s, end)
  {
    var f := FetchPlan(userId, start, end).filter;
    assert Matches(row, f) <==> Holds(row, f[0]) && Holds(row, f[1]) && Holds(row, f[2]);
  }

  /** `fetchLogsForDateRange` once the table exists: the rows sent back,
      or none on an error. */
  function FetchEffect(rows: seq<Row>, userId: string, start: string, end: string, fault: Fault): (r: seq<Row>)
    ensures fault.Fail? ==> r == []
    ensures Sorted(r, Order("log_date", false))
    ensures fault.Ok? ==> multiset(r) == multiset(Where(rows, FetchPlan(userId, start, end).filter))
  {
    if fault.Fail? then [] else Run(rows, FetchPlan(userId, start, end))
  }

  /** The range query returns exactly the user's stored logs whose day lies
      between the two dates (four-digit years). */
  lemma FetchFindsRange(rows: seq<Row>, userId: string, startDate: LocalDate, endDate: LocalDate, row: Row, day: LocalDate)
    requires ValidDate(startDate) && 1000 <= startDate.year <= 9999
    requires ValidDate(endDate) && 1000 <= endDate.year <= 9999
    requires ValidDate(day) && 1000 <= day.year <= 9999
    requires Field(row, "log_date") == Str(DateToYMD(day))
    ensures row in FetchEffect(rows, userId, DateToYMD(startDate), DateToYMD(endDate), Ok) <==>
      row in rows && Field(row, "user_id") == Str(userId) && DateLe(startDate, day) && DateLe(day, endDate)
  {
    var r := FetchEffect(rows, userId, DateToYMD(startDate), DateToYMD(endDate), Ok);
    var f := FetchPlan(userId, DateToYMD(startDate), DateToYMD(endDate)).filter;
    MatchesFetch(row, userId, DateToYMD(startDate), DateToYMD(endDate));
    DateTextOrder(startDate, day);
    DateTextOrder(day, endDate);
    assert row in r <==> row in multiset(r);
    assert row in Where(rows, f) <==> row in multiset(Where(rows, f));
  }

  // ---------------------------------------------------------------------
  // deleteLog and deleteAllLogsForHabit
  // ---------------------------------------------------------------------

  /** `deleteLog` once the table exists: the rows left, and `true` unless
      the backend failed. */
  function DeleteLogEffect(rows: seq<Row>, userId: string, habitId: string, logDate: string, fault: Fault): (r: (seq<Row>, bool))
    ensures r.1 <==> fault.Ok?
    ensures fault.Fail? ==> r.0 == rows
    ensures fault.Ok? ==> forall row :: row in r.0 <==> row in rows && !Matches(row, KeyFilter(habitId, userId, logDate))
  {
    if fault.Fail? then (rows, false) else (DeleteWhere(rows, KeyFilter(habitId, userId, logDate)), true)
  }

  /** The filter of `deleteAllLogsForHabit`: the habit and the user. */
  function HabitFilter(habitId: string, userId: string): Filter {
    EqFilter([("habit_id", Str(habitId)), ("user_id", Str(userId))])
  }

  lemma MatchesHabit(row: Row, habitId: string, userId: string)
    ensures Matches(row, HabitFilter(habitId, userId)) <==>
      Field(row, "habit_id") == Str(habitId) && Field(row, "user_id") == Str(userId)
  {
    var pairs := [("habit_id", Str(habitId)), ("user_id", Str(userId))];
    MatchesEqFilter(row, pairs);
    assert pairs[0].0 == "habit_id" && pairs[1].0 == "user_id";
  }

  function DeleteAllEffect(rows: seq<Row>, userId: string, habitId: string, fault: Fault): (r: (seq<Row>, bool))
    ensures r.1 <==> fault.Ok?
    ensures fault.Fail? ==> r.0 == rows
    ensures fault.Ok? ==> forall row :: row in r.0 <==> row in rows && !Matches(row, HabitFilter(habitId, userId))
  {
    if fault.Fail? then (rows, false) else (DeleteWhere(rows, HabitFilter(habitId, userId)), true)
  }

  /** After a successful `deleteLog` the day has no log, and only that
      day's logs went. */
  lemma DeleteLogRemovesDay(rows: seq<Row>, userId: string, habitId: string, logDate: string)
    ensures var after := DeleteLogEffect(rows, userId, habitId, logDate, Ok).0;
      Where(after, KeyFilter(habitId, userId, logDate)) == []
      && multiset(after) + multiset(Where(rows, KeyFilter(habitId, userId, logDate))) == multiset(rows)
  {
    var key := KeyFilter(habitId, userId, logDate);
    WhereNone(DeleteWhere(rows, key), key);
    WhereDeletePartition(rows, key);
  }

  /** After a successful `deleteAllLogsForHabit` no day of that habit has a
      log for the user, and the logs of other habits and users stay. */
  lemma DeleteAllRemovesEveryDay(rows: seq<Row>, userId: string, habitId: string, logDate: string, other: Row)
    ensures var after := DeleteAllEffect(rows, userId, habitId, Ok).0;
      Where(after, KeyFilter(habitId, userId, logDate)) == []
      && (other in rows && (Field(other, "habit_id") != Str(habitId) || Field(other, "user_id") != Str(userId))
          ==> other in after)
  {
    var after := DeleteAllEffect(rows, userId, habitId, Ok).0;
    forall row | row in after
      ensures !Matches(row, KeyFilter(habitId, userId, logDate))
    {
      MatchesHabit(row, habitId, userId);
      MatchesKey(row, habitId, userId, logDate);
    }
    WhereNone(after, KeyFilter(habitId, userId, logDate));
    MatchesHabit(other, habitId, userId);
  }

  /** Deleting rows never adds a match to any filter. */
  lemma {:induction false} WhereAfterDelete(rows: seq<Row>, f: Filter, g: Filter)
    ensures |Where(DeleteWhere(rows, f), g)| <= |Where(rows, g)|
    decreases |rows|
  {
    if rows != [] {
      var init := rows[..|rows| - 1];
      var last := rows[|rows| - 1];
      WhereAfterDelete(init, f, g);
      WhereSnoc(DeleteWhere(init, f), last, g);
    }
  }

  /** Both deletes keep one row per key and per id. */
  lemma DeleteKeepsInvariant(rows: seq<Row>, f: Filter)
    requires LogsInvariant(rows)
    ensures LogsInvariant(DeleteWhere(rows, f))
  {
    var after := DeleteWhere(rows, f);
    forall h, u, d
      ensures |Where(after, KeyFilter(h, u, d))| <= 1
    {
      WhereAfterDelete(rows, f, KeyFilter(h, u, d));
    }
    forall v
      ensures |Where(after, IdFilter(v))| <= 1
    {
      WhereAfterDelete(rows, f, IdFilter(v));
    }
    forall k | 0 <= k < |after|
      ensures !Field(after[k], "id").IsNullish()
    {
      assert after[k] in rows;
    }
  }

  // ---------------------------------------------------------------------
  // The service functions
  // ---------------------------------------------------------------------

  /** `fetchLogsForDateRange(startDate, endDate)` as a function of the
      cache and the rows: no user returns no logs, a failed table check
      rethrows, and otherwise the range query runs. */
  function FetchLogsCall(cache: set<string>, rows: seq<Row>, user: Option<User>, startDate: LocalDate, endDate: LocalDate,
                         w: World, fault: Fault): After<seq<Row>>
  {
    Guarded(cache, rows, user, Ensure(cache, LogsTable, HabitLogsSchema, w), [],
            (rows, if user.Some? then FetchEffect(rows, user.value.id, DateToYMD(startDate), DateToYMD(endDate), fault) else []))
  }

  /** `fetchLogsForDateRange(startDate, endDate)`; `user` is the signed-in
      user `getUser` reports and `fault` the backend's answer to the query. */
  method FetchLogsForDateRange(tm: TableCache, logs: Table, user: Option<User>, startDate: LocalDate, endDate: LocalDate,
                               w: World, fault: Fault)
    returns (r: Outcome<seq<Row>>)
    modifies tm
    ensures After(tm.cache, logs.rows, r) == FetchLogsCall(old(tm.cache), logs.rows, user, startDate, endDate, w, fault)
  {
    if user.None? {
      return Returned([]);
    }
    var ensured, _ := tm.EnsureTableExists(LogsTable, HabitLogsSchema, w);
    if ensured.Threw? {
      return Threw(ensured.thrown);
    }
    var start := DateToYMD(startDate);
    var end := DateToYMD(endDate);
    if fault.Fail? {
      return Returned([]);
    }
    r := Returned(Run(logs.rows, FetchPlan(user.value.id, start, end)));
  }

  /** `upsertLog(habitId, logDate, entry)` as a function of the cache and
      the rows: no user returns `null`, a failed table check rethrows, and
      otherwise the row is written under its key. */
  function UpsertLogCall(cache: set<string>, rows: seq<Row>, user: Option<User>, habitId: string, logDate: LocalDate,
                           entry: Entry, now: string, w: World, lookup: Fault, write: Fault, generated: Row): After<Option<Row>>
  {
    if user.None? then After(cache, rows, Returned(None))
    else
      var e := Ensure(cache, LogsTable, HabitLogsSchema, w);
      if e.outcome.Threw? then After(e.cache, rows, Threw(e.outcome.thrown))
      else
        var u := UpsertEffect(rows, user.value.id, habitId, DateToYMD(logDate), entry, now, lookup, write, generated);
        After(e.cache, u.0, Returned(u.1))
  }

  /** `upsertLog(habitId, logDate, entry)`; `now` is the time of writing,
      `lookup` and `write` the backend's answers to the two requests and
      `generated` the columns it fills on an insert. */
  method UpsertLog(tm: TableCache, logs: Table, user: Option<User>, habitId: string, logDate: LocalDate, entry: Entry,
                   now: string, w: World, lookup: Fault, write: Fault, generated: Row)
    returns (r: Outcome<Option<Row>>)
    modifies tm, logs
    ensures After(tm.cache, logs.rows, r) == UpsertLogCall(old(tm.cache), old(logs.rows), user, habitId, logDate, entry, now, w, lookup, write, generated)
  {
    if user.None? {
      return Returned(None);
    }
    var ensured, _ := tm.EnsureTableExists(LogsTable, HabitLogsSchema, w);
    if ensured.Threw? {
      return Threw(ensured.thrown);
    }
    var date := DateToYMD(logDate);
    var written := WriteLog(logs, user.value.id, habitId, date, entry, now, lookup, write, generated);
    r := Returned(written);
  }

  /** `upsertLog` writes the log row under its key. */
  lemma UpsertIsKeyedWrite(rows: seq<Row>, userId: string, habitId: string, logDate: string, entry: Entry,
                        now: string, lookup: Fault, write: Fault, generated: Row)
    ensures UpsertEffect(rows, userId, habitId, logDate, entry, now, lookup, write, generated)
      == KeyedWrite(rows, KeyFilter(habitId, userId, logDate), LogRow(habitId, userId, logDate, entry, now), lookup, write, generated)
  {
  }
  /** The body of `upsertLog` after the table check: look the key up,
      then update the row found by its id or insert the row. */
  method WriteLog(logs: Table, userId: string, habitId: string, logDate: string, entry: Entry,
                  now: string, lookup: Fault, write: Fault, generated: Row)
    returns (r: Option<Row>)
    modifies logs
    ensures (logs.rows, r) == UpsertEffect(old(logs.rows), userId, habitId, logDate, entry, now, lookup, write, generated)
  {
    var key, row := KeyFilter(habitId, userId, logDate), LogRow(habitId, userId, logDate, entry, now);
    UpsertIsKeyedWrite(logs.rows, userId, habitId, logDate, entry, now, lookup, write, generated);
    var existing := MaybeSingleOf(Run(logs.rows, Plan("id", key, None, None)));
    if lookup.Ok? && existing.data.Some? {
      if write.Fail? {
        return None;
      }
      var updated := logs.Update(IdFilter(Field(existing.data.value, "id")), row);
      r := SingleOf(updated).data;
    } else {
      if write.Fail? {
        return None;
      }
      var inserted := logs.Insert([row], [generated]);
      r := SingleOf(inserted).data;
    }
  }

  /** `deleteLog(habitId, logDate)` as a function of the cache and the
      rows. */
  function DeleteLogCall(cache: set<string>, rows: seq<Row>, user: Option<User>, habitId: string, logDate: LocalDate,
                         w: World, fault: Fault): After<bool>
  {
    Guarded(cache, rows, user, Ensure(cache, LogsTable, HabitLogsSchema, w), false,
            if user.Some? then DeleteLogEffect(rows, user.value.id, habitId, DateToYMD(logDate), fault) else (rows, false))
  }

  /** `deleteLog(habitId, logDate)` */
  method DeleteLog(tm: TableCache, logs: Table, user: Option<User>, habitId: string, logDate: LocalDate,
                   w: World, fault: Fault)
    returns (r: Outcome<bool>)
    modifies tm, logs
    ensures After(tm.cache, logs.rows, r) == DeleteLogCall(old(tm.cache), old(logs.rows), user, habitId, logDate, w, fault)
  {
    if user.None? {
      return Returned(false);
    }
    var ensured, _ := tm.EnsureTableExists(LogsTable, HabitLogsSchema, w);
    if ensured.Threw? {
      return Threw(ensured.thrown);
    }
    if fault.Fail? {
      return Returned(false);
    }
    logs.Delete(KeyFilter(habitId, user.value.id, DateToYMD(logDate)));
    r := Returned(true);
  }

  /** `deleteAllLogsForHabit(habitId)` as a function of the cache and the
      rows. */
  function DeleteAllLogsCall(cache: set<string>, rows: seq<Row>, user: Option<User>, habitId: string,
                             w: World, fault: Fault): After<bool>
  {
    Guarded(cache, rows, user, Ensure(cache, LogsTable, HabitLogsSchema, w), false,
            if user.Some? then DeleteAllEffect(rows, user.value.id, habitId, fault) else (rows, false))
  }

  /** `deleteAllLogsForHabit(habitId)` */
  method DeleteAllLogsForHabit(tm: TableCache, logs: Table, user: Option<User>, habitId: string, w: World, fault: Fault)
    returns (r: Outcome<bool>)
    modifies tm, logs
    ensures After(tm.cache, logs.rows, r) == DeleteAllLogsCall(old(tm.cache), old(logs.rows), user, habitId, w, fault)
  {
    if user.None? {
      return Returned(false);
    }
    var ensured, _ := tm.EnsureTableExists(LogsTable, HabitLogsSchema, w);
    if ensured.Threw? {
      return Threw(ensured.thrown);
    }
    if fault.Fail? {
      return Returned(false);
    }
    logs.Delete(HabitFilter(habitId, user.value.id));
    r := Returned(true);
  }

  // ---------------------------------------------------------------------
  // What the service calls promise
  // ---------------------------------------------------------------------

  /** Every call that throws or finds no user leaves the table as it was;
      a call that changes the table has made sure the table exists. */
  lemma UpsertLogGuarded(cache: set<string>, rows: seq<Row>, user: Option<User>, habitId: string, logDate: LocalDate,
                         entry: Entry, now: string, w: World, lookup: Fault, write: Fault, generated: Row)
    ensures var a := UpsertLogCall(cache, rows, user, habitId, logDate, entry, now, w, lookup, write, generated);
      (user.None? ==> a == After(cache, rows, Returned(None)))
      && (a.outcome.Threw? ==> a.rows == rows && a.cache == cache)
      && (a.rows != rows ==> user.Some? && LogsTable in a.cache)
  {
    EnsureChecked(cache, LogsTable, HabitLogsSchema, w);
  }

  lemma DeleteLogGuarded(cache: set<string>, rows: seq<Row>, user: Option<User>, habitId: string, logDate: LocalDate,
                         w: World, fault: Fault)
    ensures var a := DeleteLogCall(cache, rows, user, habitId, logDate, w, fault);
      (user.None? ==> a == After(cache, rows, Returned(false)))
      && (a.outcome.Threw? ==> a.rows == rows && a.cache == cache)
      && (a.rows != rows ==> user.Some? && LogsTable in a.cache)
  {
    EnsureChecked(cache, LogsTable, HabitLogsSchema, w);
    GuardedFacts(cache, rows, user, LogsTable, Ensure(cache, LogsTable, HabitLogsSchema, w), false,
      if user.Some? then DeleteLogEffect(rows, user.value.id, habitId, DateToYMD(logDate), fault) else (rows, false));
  }

  lemma DeleteAllLogsGuarded(cache: set<string>, rows: seq<Row>, user: Option<User>, habitId: string,
                             w: World, fault: Fault)
    ensures var a := DeleteAllLogsCall(cache, rows, user, habitId, w, fault);
      (user.None? ==> a == After(cache, rows, Returned(false)))
      && (a.outcome.Threw? ==> a.rows == rows && a.cache == cache)
      && (a.rows != rows ==> user.Some? && LogsTable in a.cache)
  {
    EnsureChecked(cache, LogsTable, HabitLogsSchema, w);
    GuardedFacts(cache, rows, user, LogsTable, Ensure(cache, LogsTable, HabitLogsSchema, w), false,
      if user.Some? then DeleteAllEffect(rows, user.value.id, habitId, fault) else (rows, false));
  }

  /** With a successful lookup, `upsertLog` keeps one row per key and one
      per id. */
  lemma UpsertLogKeepsInvariant(cache: set<string>, rows: seq<Row>, user: User, habitId: string, logDate: LocalDate,
                                entry: Entry, now: string, w: World, write: Fault, generated: Row)
    requires LogsInvariant(rows) && FreshId(rows, generated)
    ensures LogsInvariant(UpsertLogCall(cache, rows, Some(user), habitId, logDate, entry, now, w, Ok, write, generated).rows)
  {
    var date := DateToYMD(logDate);
    var e := Ensure(cache, LogsTable, HabitLogsSchema, w);
    var u := UpsertEffect(rows, user.id, habitId, date, entry, now, Ok, write, generated);
    UpsertKeepsOneRowPerKey(rows, user.id, habitId, date, entry, now, write, generated);
  }

  /** Once the table exists and the lookup and the write succeed, the day
      has exactly one row and it holds the entry. */
  lemma UpsertLogStores(cache: set<string>, rows: seq<Row>, user: User, habitId: string, logDate: LocalDate,
                        entry: Entry, now: string, w: World, generated: Row)
    requires LogsInvariant(rows)
    ensures var a := UpsertLogCall(cache, rows, Some(user), habitId, logDate, entry, now, w, Ok, Ok, generated);
      var key := KeyFilter(habitId, user.id, DateToYMD(logDate));
      a.outcome.Returned? ==>
        |Where(a.rows, key)| == 1 && Carries(Where(a.rows, key)[0], LogRow(habitId, user.id, DateToYMD(logDate), entry, now))
  {
    var date := DateToYMD(logDate);
    var e := Ensure(cache, LogsTable, HabitLogsSchema, w);
    var u := UpsertEffect(rows, user.id, habitId, date, entry, now, Ok, Ok, generated);
    UpsertStoresEntry(rows, user.id, habitId, date, entry, now, generated);
  }

  /** `deleteLog` keeps one row per key and one per id; when it reports
      success the day has no row left. */
  lemma DeleteLogKeepsInvariant(cache: set<string>, rows: seq<Row>, user: User, habitId: string, logDate: LocalDate,
                                w: World, fault: Fault)
    requires LogsInvariant(rows)
    ensures var a := DeleteLogCall(cache, rows, Some(user), habitId, logDate, w, fault);
      LogsInvariant(a.rows)
      && (a.outcome == Returned(true) ==> Where(a.rows, KeyFilter(habitId, user.id, DateToYMD(logDate))) == [])
  {
    var date := DateToYMD(logDate);
    var e := Ensure(cache, LogsTable, HabitLogsSchema, w);
    var d := DeleteLogEffect(rows, user.id, habitId, date, fault);
    GuardedRows(cache, rows, Some(user), e, false, d);
    DeleteKeepsInvariant(rows, KeyFilter(habitId, user.id, date));
    if fault.Ok? {
      DeleteLogRemovesDay(rows, user.id, habitId, date);
    }
  }

  /** `deleteAllLogsForHabit` keeps one row per key and one per id. */
  lemma DeleteAllLogsKeepInvariant(cache: set<string>, rows: seq<Row>, user: User, habitId: string, w: World, fault: Fault)
    requires LogsInvariant(rows)
    ensures LogsInvariant(DeleteAllLogsCall(cache, rows, Some(user), habitId, w, fault).rows)
  {
    var e := Ensure(cache, LogsTable, HabitLogsSchema, w);
    var d := DeleteAllEffect(rows, user.id, habitId, fault);
    GuardedRows(cache, rows, Some(user), e, false, d);
    DeleteKeepsInvariant(rows, HabitFilter(habitId, user.id));
  }
}
