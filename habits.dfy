/** The habits service: the signed-in user's habits, mapped from the
    stored rows to the objects the dashboard shows, and created, patched,
    archived and deleted in the `habits` table. Every call first makes
    sure the table exists and catches every failure, the table check's
    included, answering `[]`, `null` or `false`. */
module Habits {
  import opened Wrappers
  import opened Seqs
  import opened Js
  import opened Schema
  import opened TableManager
  import opened Db
  import opened Session
  import opened Records
  import opened Services

  const HabitsTable := "habits"

  // ---------------------------------------------------------------------
  // From a stored row to a habit item
  // ---------------------------------------------------------------------

  /** A habit as the dashboard holds it; the properties other than the
      progress are JSON values read from the row. */
  datatype HabitItem = HabitItem(
    id: Value, name: Value, description: Value, done: nat, goal: Value, habitType: Value, unit: Value,
    areaId: Value, isArchived: Value, color: Value, icon: Value, frequency: Value, timeOfDay: Value,
    reminders: Value, startDate: Value, endDate: Value, tags: Value, createdAt: Value, updatedAt: Value)

  /** The fetch's reading of `time_of_day`: an array as it is, another
      value as a one-element array, and `null` as `undefined`. */
  function TimeOfDayList(v: Value): (r: Value)
    ensures r == Undefined || r.List?
    ensures v.List? ==> r == v
    ensures !v.List? && !v.IsNullish() ==> r == List([v])
    ensures v.IsNullish() ==> r == Undefined
  {
    if v.List? then v else if !v.IsNullish() then List([v]) else Undefined
  }

  /** The habit item of a row: the columns under their camel-case names,
      no progress yet, and defaults for the goal, the type and the archived
      flag. The fetch normalises `time_of_day`; create and update pass it
      through. */
  function ItemOf(row: Row, normalise: bool): (item: HabitItem)
    ensures item.done == 0
    ensures item.goal.Truthy() && (Field(row, "goal").Truthy() ==> item.goal == Field(row, "goal"))
    ensures !Field(row, "goal").Truthy() ==> item.goal == Int(1)
    ensures item.habitType.Truthy() && (!Field(row, "type").Truthy() ==> item.habitType == Str("checkbox"))
    ensures !item.isArchived.IsNullish() && (!Field(row, "is_archived").Truthy() ==> item.isArchived == Bool(false))
    ensures normalise ==> item.timeOfDay == Undefined || item.timeOfDay.List?
  {
    HabitItem(
      Field(row, "id"), Field(row, "name"), Field(row, "description"), 0, Or(Field(row, "goal"), Int(1)),
      Or(Field(row, "type"), Str("checkbox")), Field(row, "unit"), Field(row, "area_id"),
      Or(Field(row, "is_archived"), Bool(false)), Field(row, "color"), Field(row, "icon"), Field(row, "frequency"),
      if normalise then TimeOfDayList(Field(row, "time_of_day")) else Field(row, "time_of_day"),
      Field(row, "reminders"), Field(row, "start_date"), Field(row, "end_date"), Field(row, "tags"),
      Field(row, "created_at"), Field(row, "updated_at"))
  }

  // ---------------------------------------------------------------------
  // The rows written
  // ---------------------------------------------------------------------

  /** The properties `createHabit` writes as they are. */
  const InsertCopies: seq<Rule> := [
    Rule("name", "name", Always), Rule("description", "description", Always), Rule("areaId", "area_id", Always),
    Rule("color", "color", Always), Rule("icon", "icon", Always), Rule("frequency", "frequency", Always),
    Rule("timeOfDay", "time_of_day", Always), Rule("reminders", "reminders", Always),
    Rule("startDate", "start_date", Always), Rule("endDate", "end_date", Always), Rule("unit", "unit", Always),
    Rule("target_value", "target_value", Always), Rule("days_of_week", "days_of_week", Always), Rule("tags", "tags", Always)]

  /** The object `createHabit` inserts: the user's id, the copied
      properties, and the defaults for the type and the goal. */
  function InsertRow(userId: string, habit: Row): Row {
    Build(habit, InsertCopies)["user_id" := Str(userId)]["type" := Or(Field(habit, "type"), Str("checkbox"))]
      ["goal" := Or(Field(habit, "goal"), Int(1))]
  }

  /** The `updateData` of `updateHabit`, field by field: the name, the type
      and the colour when truthy, every other field when it is not
      `undefined`. */
  const PatchRules: seq<Rule> := [
    Rule("name", "name", WhenTruthy), Rule("description", "description", WhenDefined),
    Rule("type", "type", WhenTruthy), Rule("areaId", "area_id", WhenDefined),
    Rule("color", "color", WhenTruthy), Rule("icon", "icon", WhenDefined),
    Rule("frequency", "frequency", WhenDefined), Rule("timeOfDay", "time_of_day", WhenDefined),
    Rule("reminders", "reminders", WhenDefined), Rule("startDate", "start_date", WhenDefined),
    Rule("endDate", "end_date", WhenDefined), Rule("goal", "goal", WhenDefined),
    Rule("unit", "unit", WhenDefined), Rule("isArchived", "is_archived", WhenDefined),
    Rule("target_value", "target_value", WhenDefined), Rule("days_of_week", "days_of_week", WhenDefined)]

  function HabitPatch(habit: Row): Row {
    Build(habit, PatchRules)
  }

  /** A patch holds a column exactly when its field is provided, with
      the value given: only the name, the type and the colour must be
      truthy, so a goal of 0 and an archived flag of false are patched. */
  lemma PatchFields(habit: Row)
    ensures var patch := HabitPatch(habit);
      ("name" in patch <==> Field(habit, "name").Truthy())
      && ("type" in patch <==> Field(habit, "type").Truthy())
      && ("color" in patch <==> Field(habit, "color").Truthy())
      && ("goal" in patch <==> Field(habit, "goal") != Undefined)
      && ("is_archived" in patch <==> Field(habit, "isArchived") != Undefined)
      && ("goal" in patch ==> patch["goal"] == Field(habit, "goal"))
      && ("is_archived" in patch ==> patch["is_archived"] == Field(habit, "isArchived"))
  {
    PatchRule(habit, 0);
    PatchRule(habit, 2);
    PatchRule(habit, 4);
    PatchRule(habit, 11);
    PatchRule(habit, 13);
  }

  /** The rule at `i` alone decides its column. */
  lemma PatchRule(habit: Row, i: nat)
    requires i in {0, 2, 4, 11, 13}
    ensures var patch := HabitPatch(habit);
      var rule := PatchRules[i];
      (rule.key in patch <==> Kept(Field(habit, rule.field), rule.keep))
      && (rule.key in patch ==> patch[rule.key] == Field(habit, rule.field))
  {
    PatchKeyOnce(i);
    BuildOnly(habit, PatchRules, i);
  }

  /** No other rule of the patch writes these columns. */
  lemma PatchKeyOnce(i: nat)
    requires i in {0, 2, 4, 11, 13}
    ensures OnlyWriter(PatchRules, i)
  {
  }

  /** `archiveHabit` patches the archived flag and nothing else. */
  lemma ArchivePatch()
    ensures HabitPatch(map["isArchived" := Bool(true)]) == map["is_archived" := Bool(true)]
  {
    var habit := map["isArchived" := Bool(true)];
    var patch := HabitPatch(habit);
    forall k | k in patch
      ensures k == "is_archived"
    {
      BuildKeys(habit, PatchRules, k);
      var i :| 0 <= i < |PatchRules| && PatchRules[i].key == k && Kept(Field(habit, PatchRules[i].field), PatchRules[i].keep);
      assert PatchRules[i].field == "isArchived";
    }
    PatchRule(habit, 13);
  }

  // ---------------------------------------------------------------------
  // The calls, once the table exists and the user is known
  // ---------------------------------------------------------------------

  /** The user's habits, newest first. */
  function FetchPlan(userId: string): Plan {
    Plan("*", UserFilter(userId), Some(Order("created_at", false)), None)
  }

  function FetchEffect(rows: seq<Row>, userId: string, fault: Fault): (seq<Row>, seq<HabitItem>) {
    (rows, if fault.Fail? then [] else Map((row: Row) => ItemOf(row, true), Run(rows, FetchPlan(userId))))
  }

  function CreateEffect(rows: seq<Row>, userId: string, habit: Row, write: Fault, generated: Row): (seq<Row>, Option<HabitItem>) {
    if write.Fail? then (rows, None)
    else
      var stored := WithGenerated([InsertRow(userId, habit)], [generated]);
      (rows + stored, Some(ItemOf(stored[0], false)))
  }

  function UpdateEffect(rows: seq<Row>, userId: string, id: string, habit: Row, write: Fault): (seq<Row>, Option<HabitItem>) {
    if write.Fail? then (rows, None)
    else
      var f, patch := OwnFilter(id, userId), HabitPatch(habit);
      var one := SingleOf(Patched(Where(rows, f), patch));
      (UpdateWhere(rows, f, patch), if one.data.Some? then Some(ItemOf(one.data.value, false)) else None)
  }

  function DeleteEffect(rows: seq<Row>, userId: string, id: string, fault: Fault): (seq<Row>, bool) {
    if fault.Fail? then (rows, false) else (DeleteWhere(rows, OwnFilter(id, userId)), true)
  }

  // ---------------------------------------------------------------------
  // The service calls
  // ---------------------------------------------------------------------

  function FetchHabitsCall(cache: set<string>, rows: seq<Row>, user: Option<User>, w: World, fault: Fault): Settled<seq<HabitItem>> {
    Caught(cache, rows, user, Ensure(cache, HabitsTable, HabitsSchema, w), [],
           if user.Some? then FetchEffect(rows, user.value.id, fault) else (rows, []))
  }

  function CreateHabitCall(cache: set<string>, rows: seq<Row>, user: Option<User>, habit: Row, w: World,
                           write: Fault, generated: Row): Settled<Option<HabitItem>> {
    Caught(cache, rows, user, Ensure(cache, HabitsTable, HabitsSchema, w), None,
           if user.Some? then CreateEffect(rows, user.value.id, habit, write, generated) else (rows, None))
  }

  function UpdateHabitCall(cache: set<string>, rows: seq<Row>, user: Option<User>, id: string, habit: Row, w: World,
                           write: Fault): Settled<Option<HabitItem>> {
    Caught(cache, rows, user, Ensure(cache, HabitsTable, HabitsSchema, w), None,
           if user.Some? then UpdateEffect(rows, user.value.id, id, habit, write) else (rows, None))
  }

  function DeleteHabitCall(cache: set<string>, rows: seq<Row>, user: Option<User>, id: string, w: World,
                           fault: Fault): Settled<bool> {
    Caught(cache, rows, user, Ensure(cache, HabitsTable, HabitsSchema, w), false,
           if user.Some? then DeleteEffect(rows, user.value.id, id, fault) else (rows, false))
  }

  /** `fetchUserHabits()`; `user` is the user `getUser` reports and
      `fault` the backend's answer to the query. */
  method FetchUserHabits(tm: TableCache, habits: Table, user: Option<User>, w: World, fault: Fault)
    returns (r: seq<HabitItem>)
    modifies tm
    ensures Settled(tm.cache, habits.rows, r) == FetchHabitsCall(old(tm.cache), habits.rows, user, w, fault)
  {
    var ensured, _ := tm.EnsureTableExists(HabitsTable, HabitsSchema, w);
    if ensured.Threw? || user.None? || fault.Fail? {
      return [];
    }
    var found := Run(habits.rows, FetchPlan(user.value.id));
    r := Map((row: Row) => ItemOf(row, true), found);
  }

  /** `createHabit(habit)`; `generated` holds the columns the backend fills. */
  method CreateHabit(tm: TableCache, habits: Table, user: Option<User>, habit: Row, w: World, write: Fault, generated: Row)
    returns (r: Option<HabitItem>)
    modifies tm, habits
    ensures Settled(tm.cache, habits.rows, r) == CreateHabitCall(old(tm.cache), old(habits.rows), user, habit, w, write, generated)
  {
    var ensured, _ := tm.EnsureTableExists(HabitsTable, HabitsSchema, w);
    if ensured.Threw? || user.None? || write.Fail? {
      return None;
    }
    var inserted := habits.Insert([InsertRow(user.value.id, habit)], [generated]);
    r := Some(ItemOf(inserted[0], false));
  }

  /** `updateHabit(id, habit)` */
  method UpdateHabit(tm: TableCache, habits: Table, user: Option<User>, id: string, habit: Row, w: World, write: Fault)
    returns (r: Option<HabitItem>)
    modifies tm, habits
    ensures Settled(tm.cache, habits.rows, r) == UpdateHabitCall(old(tm.cache), old(habits.rows), user, id, habit, w, write)
  {
    var ensured, _ := tm.EnsureTableExists(HabitsTable, HabitsSchema, w);
    if ensured.Threw? || user.None? || write.Fail? {
      return None;
    }
    var updated := habits.Update(OwnFilter(id, user.value.id), HabitPatch(habit));
    var one := SingleOf(updated);
    r := if one.data.Some? then Some(ItemOf(one.data.value, false)) else None;
  }

  /** `deleteHabit(id)` */
  method DeleteHabit(tm: TableCache, habits: Table, user: Option<User>, id: string, w: World, fault: Fault)
    returns (r: bool)
    modifies tm, habits
    ensures Settled(tm.cache, habits.rows, r) == DeleteHabitCall(old(tm.cache), old(habits.rows), user, id, w, fault)
  {
    var ensured, _ := tm.EnsureTableExists(HabitsTable, HabitsSchema, w);
    if ensured.Threw? || user.None? || fault.Fail? {
      return false;
    }
    habits.Delete(OwnFilter(id, user.value.id));
    r := true;
  }

  /** `archiveHabit(id)` is `updateHabit(id, { isArchived: true })`. */
  method ArchiveHabit(tm: TableCache, habits: Table, user: Option<User>, id: string, w: World, write: Fault)
    returns (r: Option<HabitItem>)
    modifies tm, habits
    ensures Settled(tm.cache, habits.rows, r) == UpdateHabitCall(old(tm.cache), old(habits.rows), user, id, map["isArchived" := Bool(true)], w, write)
  {
    r := UpdateHabit(tm, habits, user, id, map["isArchived" := Bool(true)], w, write);
  }

  // ---------------------------------------------------------------------
  // What the calls promise
  // ---------------------------------------------------------------------

  /** A failed table check or a missing user leaves the habits as they
      were and answers `null`; a create that changed the habits had made
      sure of the table. */
  lemma CreateCatchesFailures(cache: set<string>, rows: seq<Row>, user: Option<User>, habit: Row, w: World,
                              fault: Fault, generated: Row)
    ensures var e := Ensure(cache, HabitsTable, HabitsSchema, w);
      var c := CreateHabitCall(cache, rows, user, habit, w, fault, generated);
      (e.outcome.Threw? ==> c == Settled(cache, rows, None))
      && (user.None? ==> c.rows == rows && c.value.None?)
      && (c.rows != rows ==> HabitsTable in c.cache)
  {
    var e := Ensure(cache, HabitsTable, HabitsSchema, w);
    EnsureChecked(cache, HabitsTable, HabitsSchema, w);
    CaughtFacts(cache, rows, user, HabitsTable, e, None,
                if user.Some? then CreateEffect(rows, user.value.id, habit, fault, generated) else (rows, None));
  }

  /** The same for an update. */
  lemma UpdateCatchesFailures(cache: set<string>, rows: seq<Row>, user: Option<User>, id: string, habit: Row, w: World,
                              fault: Fault)
    ensures var e := Ensure(cache, HabitsTable, HabitsSchema, w);
      var u := UpdateHabitCall(cache, rows, user, id, habit, w, fault);
      (e.outcome.Threw? ==> u == Settled(cache, rows, None))
      && (user.None? ==> u.rows == rows && u.value.None?)
      && (u.rows != rows ==> HabitsTable in u.cache)
  {
    var e := Ensure(cache, HabitsTable, HabitsSchema, w);
    EnsureChecked(cache, HabitsTable, HabitsSchema, w);
    CaughtFacts(cache, rows, user, HabitsTable, e, None,
                if user.Some? then UpdateEffect(rows, user.value.id, id, habit, fault) else (rows, None));
  }

  /** The same for a delete, which answers `false`. */
  lemma DeleteCatchesFailures(cache: set<string>, rows: seq<Row>, user: Option<User>, id: string, w: World, fault: Fault)
    ensures var e := Ensure(cache, HabitsTable, HabitsSchema, w);
      var d := DeleteHabitCall(cache, rows, user, id, w, fault);
      (e.outcome.Threw? ==> d == Settled(cache, rows, false))
      && (user.None? ==> d.rows == rows && !d.value)
      && (d.rows != rows ==> HabitsTable in d.cache)
  {
    var e := Ensure(cache, HabitsTable, HabitsSchema, w);
    EnsureChecked(cache, HabitsTable, HabitsSchema, w);
    CaughtFacts(cache, rows, user, HabitsTable, e, false,
                if user.Some? then DeleteEffect(rows, user.value.id, id, fault) else (rows, false));
  }

  /** The fetch answers the user's habits, newest first, each mapped to
      its item. */
  lemma FetchFindsOwn(cache: set<string>, rows: seq<Row>, user: User, w: World)
    requires Ensure(cache, HabitsTable, HabitsSchema, w).outcome.Returned?
    ensures var r := FetchHabitsCall(cache, rows, Some(user), w, Ok).value;
      var found := Run(rows, FetchPlan(user.id));
      |r| == |found| && Sorted(found, Order("created_at", false))
      && forall k :: 0 <= k < |r| ==> r[k] == ItemOf(found[k], true) && found[k] in rows && Field(found[k], "user_id") == Str(user.id)
  {
    var found := Run(rows, FetchPlan(user.id));
    forall k | 0 <= k < |found|
      ensures Field(found[k], "user_id") == Str(user.id)
    {
      assert found[k] in found;
      MatchesUser(found[k], user.id);
    }
  }

  /** A created habit is stored for the current user, with a type and a
      goal, and the call answers the item of the stored row. */
  lemma CreateStoresOwned(cache: set<string>, rows: seq<Row>, user: User, habit: Row, w: World, generated: Row)
    requires Ensure(cache, HabitsTable, HabitsSchema, w).outcome.Returned?
    ensures var c := CreateHabitCall(cache, rows, Some(user), habit, w, Ok, generated);
      var stored := generated + Stored(InsertRow(user.id, habit));
      c.rows == rows + [stored] && c.value == Some(ItemOf(stored, false))
      && Field(stored, "user_id") == Str(user.id)
      && Field(stored, "type").Truthy() && Field(stored, "goal").Truthy()
  {
    var row := InsertRow(user.id, habit);
    assert WithGenerated([row], [generated]) == [generated + Stored(row)];
    assert row["user_id"] == Str(user.id) && row["type"].Truthy() && row["goal"].Truthy();
  }

  /** An update patches the user's habit with that id and no other row. */
  lemma UpdateTouchesOwnOnly(cache: set<string>, rows: seq<Row>, user: User, id: string, habit: Row, w: World)
    requires Ensure(cache, HabitsTable, HabitsSchema, w).outcome.Returned?
    ensures var after := UpdateHabitCall(cache, rows, Some(user), id, habit, w, Ok).rows;
      |after| == |rows|
      && forall k :: 0 <= k < |rows| ==>
           after[k] == (if Field(rows[k], "id") == Str(id) && Field(rows[k], "user_id") == Str(user.id)
                        then Patch(rows[k], HabitPatch(habit)) else rows[k])
  {
    forall k | 0 <= k < |rows| {
      MatchesOwn(rows[k], id, user.id);
    }
  }

  /** A delete removes exactly the user's habit with that id. */
  lemma DeleteRemovesOwnOnly(cache: set<string>, rows: seq<Row>, user: User, id: string, w: World)
    requires Ensure(cache, HabitsTable, HabitsSchema, w).outcome.Returned?
    ensures var d := DeleteHabitCall(cache, rows, Some(user), id, w, Ok);
      d.value && forall row :: row in d.rows <==> row in rows && !(Field(row, "id") == Str(id) && Field(row, "user_id") == Str(user.id))
  {
    forall row {
      MatchesOwn(row, id, user.id);
    }
  }
}
