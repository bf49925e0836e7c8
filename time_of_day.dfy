/** The time-of-day service: the signed-in user's time slots (morning,
    afternoon, …) in the `time_of_day` table, listed by their sort order,
    appended after the last one, patched and deleted. Every call looks for
    the user first and then makes sure the table exists; a failed table
    check propagates, a failed request answers `[]`, `null` or `false`. */
module TimeOfDay {
  import opened Wrappers
  import opened Seqs
  import opened Js
  import opened Schema
  import opened TableManager
  import opened Db
  import opened Session
  import opened Records
  import opened Services

  const SlotsTable := "time_of_day"

  // ---------------------------------------------------------------------
  // Slots and rows
  // ---------------------------------------------------------------------

  /** A slot as the settings screen holds it. */
  datatype Slot = Slot(
    id: Value, name: Value, icon: Value, startTime: Value, endTime: Value, color: Value,
    sortOrder: Value, createdAt: Value, updatedAt: Value)

  /** The slot of a row, the columns under their camel-case names. The
      fetch reads a missing sort order as 0; create and update pass the
      stored one through. */
  function SlotOf(row: Row, fetched: bool): (s: Slot)
    ensures fetched ==> !s.sortOrder.IsNullish()
    ensures fetched && Field(row, "sort_order").IsNullish() ==> s.sortOrder == Int(0)
    ensures !Field(row, "sort_order").IsNullish() ==> s.sortOrder == Field(row, "sort_order")
    ensures s.startTime == Field(row, "start_time") && s.endTime == Field(row, "end_time")
  {
    Slot(Field(row, "id"), Field(row, "name"), Field(row, "icon"), Field(row, "start_time"), Field(row, "end_time"),
         Field(row, "color"), if fetched then Coalesce(Field(row, "sort_order"), Int(0)) else Field(row, "sort_order"),
         Field(row, "created_at"), Field(row, "updated_at"))
  }

  /** Every row has a numeric sort order. The application keeps it so:
      a created slot is given one, and an update writes one only when a
      number is given. */
  predicate SortOrdersSet(rows: seq<Row>) {
    forall row :: row in rows ==> Field(row, "sort_order").Int?
  }

  // ---------------------------------------------------------------------
  // The next sort order
  // ---------------------------------------------------------------------

  /** The user's highest slot: `sort_order` descending, one row at most. */
  function TopPlan(userId: string): Plan {
    Plan("sort_order", UserFilter(userId), Some(Order("sort_order", false)), Some(1))
  }

  /** The `data` of the `.maybeSingle()` lookup; its error is not read,
      so a failed lookup is no row. */
  function TopRow(rows: seq<Row>, userId: string, lookup: Fault): Option<Row> {
    if lookup.Fail? then None else MaybeSingleOf(Run(rows, TopPlan(userId))).data
  }

  /** `(existing?.sort_order ?? -1) + 1` */
  function NextSortOrder(existing: Option<Row>): (n: int)
    ensures existing.None? ==> n == 0
    ensures existing.Some? && Field(existing.value, "sort_order").Int? ==> n == Field(existing.value, "sort_order").i + 1
    ensures existing.Some? && Field(existing.value, "sort_order").IsNullish() ==> n == 0
  {
    var v := if existing.Some? then Coalesce(Field(existing.value, "sort_order"), Int(-1)) else Int(-1);
    if v.Int? then v.i + 1 else 0
  }

  /** With numeric sort orders, a new slot goes after every slot of the
      user: its sort order is one more than the highest, or 0 for the
      first slot. */
  lemma NextAboveAll(rows: seq<Row>, userId: string)
    requires SortOrdersSet(rows)
    ensures var n := NextSortOrder(TopRow(rows, userId, Ok));
      (forall row :: row in rows && Field(row, "user_id") == Str(userId) ==> Field(row, "sort_order").i < n)
      && (Where(rows, UserFilter(userId)) == [] ==> n == 0)
      && (Where(rows, UserFilter(userId)) != [] ==>
            exists row :: row in rows && Field(row, "user_id") == Str(userId) && Field(row, "sort_order") == Int(n - 1))
  {
    TopOfUser(rows, userId, "sort_order", "sort_order");
    if Where(rows, UserFilter(userId)) != [] {
      HighestOfUser(rows, userId, "sort_order");
    } else {
      forall row | row in rows && Field(row, "user_id") == Str(userId)
        ensures false
      {
        MatchesUser(row, userId);
      }
    }
  }

  /** A user slot without a sort order sorts first in the descending
      lookup, so the next slot gets 0 again whatever the others hold. */
  lemma NullSortOrderRestarts(rows: seq<Row>, userId: string, row: Row)
    requires row in rows && Field(row, "user_id") == Str(userId) && Field(row, "sort_order").IsNullish()
    ensures NextSortOrder(TopRow(rows, userId, Ok)) == 0
  {
    TopOfUser(rows, userId, "sort_order", "sort_order");
    MatchesUser(row, userId);
    NullOfUserFirst(rows, userId, "sort_order", row);
  }

  // ---------------------------------------------------------------------
  // The rows written
  // ---------------------------------------------------------------------

  /** The slot's properties `createTimeOfDaySlot` copies. */
  const InsertCopies: seq<Rule> := [
    Rule("name", "name", Always), Rule("icon", "icon", Always), Rule("startTime", "start_time", Always),
    Rule("endTime", "end_time", Always), Rule("color", "color", Always)]

  /** The object inserted: the user, the copied properties and the next
      sort order. */
  function InsertRow(userId: string, slot: Row, sortOrder: int): Row {
    Build(slot, InsertCopies)["user_id" := Str(userId)]["sort_order" := Int(sortOrder)]
  }

  /** The `row` of `updateTimeOfDaySlot`: each property given as neither
      `null` nor `undefined`, then the time of the update. */
  const UpdateRules: seq<Rule> := [
    Rule("name", "name", WhenNotNull), Rule("icon", "icon", WhenNotNull),
    Rule("startTime", "start_time", WhenNotNull), Rule("endTime", "end_time", WhenNotNull),
    Rule("color", "color", WhenNotNull), Rule("sortOrder", "sort_order", WhenNotNull)]

  function UpdateRow(updates: Row, now: string): Row {
    Build(updates, UpdateRules)["updated_at" := Str(now)]
  }

  /** The rule at `i` alone decides its column of the update row, which
      is present exactly when the property is given. */
  lemma UpdateRule(updates: Row, now: string, i: nat)
    requires i < |UpdateRules|
    ensures var row := UpdateRow(updates, now);
      var rule := UpdateRules[i];
      var v := Field(updates, rule.field);
      (rule.key in row <==> !v.IsNullish()) && (rule.key in row ==> row[rule.key] == v)
  {
    BuildOnly(updates, UpdateRules, i);
  }

  /** The update always stamps `updated_at`, and writes a sort order
      only when one is given. */
  lemma UpdateRowStamps(updates: Row, now: string)
    ensures var row := UpdateRow(updates, now);
      row["updated_at"] == Str(now)
      && ("sort_order" in row <==> !Field(updates, "sortOrder").IsNullish())
      && ("sort_order" in row ==> row["sort_order"] == Field(updates, "sortOrder"))
      && ("name" in row <==> !Field(updates, "name").IsNullish())
  {
    UpdateRule(updates, now, 0);
    UpdateRule(updates, now, 5);
  }

  // ---------------------------------------------------------------------
  // The calls, once the user is known and the table exists
  // ---------------------------------------------------------------------

  /** The user's slots by ascending sort order. */
  function FetchPlan(userId: string): Plan {
    Plan("*", UserFilter(userId), Some(Order("sort_order", true)), None)
  }

  function FetchEffect(rows: seq<Row>, userId: string, fault: Fault): seq<Slot> {
    if fault.Fail? then [] else Map((row: Row) => SlotOf(row, true), Run(rows, FetchPlan(userId)))
  }

  function CreateEffect(rows: seq<Row>, userId: string, slot: Row, lookup: Fault, write: Fault, generated: Row): (seq<Row>, Option<Slot>) {
    var next := NextSortOrder(TopRow(rows, userId, lookup));
    if write.Fail? then (rows, None)
    else
      var stored := WithGenerated([InsertRow(userId, slot, next)], [generated]);
      (rows + stored, Some(SlotOf(stored[0], false)))
  }

  function UpdateEffect(rows: seq<Row>, userId: string, id: string, updates: Row, now: string, write: Fault): (seq<Row>, Option<Slot>) {
    if write.Fail? then (rows, None)
    else
      var f, row := OwnFilter(id, userId), UpdateRow(updates, now);
      var one := SingleOf(Patched(Where(rows, f), row));
      (UpdateWhere(rows, f, row), if one.data.Some? then Some(SlotOf(one.data.value, false)) else None)
  }

  function DeleteEffect(rows: seq<Row>, userId: string, id: string, fault: Fault): (seq<Row>, bool) {
    if fault.Fail? then (rows, false) else (DeleteWhere(rows, OwnFilter(id, userId)), true)
  }

  // ---------------------------------------------------------------------
  // The service calls
  // ---------------------------------------------------------------------

  function FetchSlotsCall(cache: set<string>, rows: seq<Row>, user: Option<User>, w: World, fault: Fault): After<seq<Slot>> {
    Guarded(cache, rows, user, Ensure(cache, SlotsTable, TimeOfDaySchema, w), [],
            (rows, if user.Some? then FetchEffect(rows, user.value.id, fault) else []))
  }

  function CreateSlotCall(cache: set<string>, rows: seq<Row>, user: Option<User>, slot: Row, w: World,
                          lookup: Fault, write: Fault, generated: Row): After<Option<Slot>> {
    if user.None? then After(cache, rows, Returned(None))
    else
      var e := Ensure(cache, SlotsTable, TimeOfDaySchema, w);
      if e.outcome.Threw? then After(e.cache, rows, Threw(e.outcome.thrown))
      else
        var c := CreateEffect(rows, user.value.id, slot, lookup, write, generated);
        After(e.cache, c.0, Returned(c.1))
  }

  function UpdateSlotCall(cache: set<string>, rows: seq<Row>, user: Option<User>, id: string, updates: Row, now: string,
                          w: World, write: Fault): After<Option<Slot>> {
    if user.None? then After(cache, rows, Returned(None))
    else
      var e := Ensure(cache, SlotsTable, TimeOfDaySchema, w);
      if e.outcome.Threw? then After(e.cache, rows, Threw(e.outcome.thrown))
      else
        var u := UpdateEffect(rows, user.value.id, id, updates, now, write);
        After(e.cache, u.0, Returned(u.1))
  }

  function DeleteSlotCall(cache: set<string>, rows: seq<Row>, user: Option<User>, id: string, w: World, fault: Fault): After<bool> {
    Guarded(cache, rows, user, Ensure(cache, SlotsTable, TimeOfDaySchema, w), false,
            if user.Some? then DeleteEffect(rows, user.value.id, id, fault) else (rows, false))
  }

  /** `fetchUserTimeOfDaySlots()`; `user` is the user `getUser` reports
      and `fault` the backend's answer to the query. */
  method FetchUserSlots(tm: TableCache, slots: Table, user: Option<User>, w: World, fault: Fault)
    returns (r: Outcome<seq<Slot>>)
    modifies tm
    ensures After(tm.cache, slots.rows, r) == FetchSlotsCall(old(tm.cache), slots.rows, user, w, fault)
  {
    if user.None? {
      return Returned([]);
    }
    var ensured, _ := tm.EnsureTableExists(SlotsTable, TimeOfDaySchema, w);
    if ensured.Threw? {
      return Threw(ensured.thrown);
    }
    if fault.Fail? {
      return Returned([]);
    }
    var found := Run(slots.rows, FetchPlan(user.value.id));
    r := Returned(Map((row: Row) => SlotOf(row, true), found));
  }

  /** `createTimeOfDaySlot(slot)`; `lookup` and `write` are the backend's
      answers to the two requests and `generated` the columns it fills. */
  method CreateSlot(tm: TableCache, slots: Table, user: Option<User>, slot: Row, w: World,
                    lookup: Fault, write: Fault, generated: Row)
    returns (r: Outcome<Option<Slot>>)
    modifies tm, slots
    ensures After(tm.cache, slots.rows, r) == CreateSlotCall(old(tm.cache), old(slots.rows), user, slot, w, lookup, write, generated)
  {
    if user.None? {
      return Returned(None);
    }
    var ensured, _ := tm.EnsureTableExists(SlotsTable, TimeOfDaySchema, w);
    if ensured.Threw? {
      return Threw(ensured.thrown);
    }
    var created := AppendSlot(slots, user.value.id, slot, lookup, write, generated);
    r := Returned(created);
  }

  /** The body of `createTimeOfDaySlot` past the checks: look up the
      highest sort order, then insert the slot after it. */
  method AppendSlot(slots: Table, userId: string, slot: Row, lookup: Fault, write: Fault, generated: Row)
    returns (r: Option<Slot>)
    modifies slots
    ensures (slots.rows, r) == CreateEffect(old(slots.rows), userId, slot, lookup, write, generated)
  {
    var existing := if lookup.Fail? then None else MaybeSingleOf(Run(slots.rows, TopPlan(userId))).data;
    var next := NextSortOrder(existing);
    if write.Fail? {
      return None;
    }
    var inserted := slots.Insert([InsertRow(userId, slot, next)], [generated]);
    r := Some(SlotOf(inserted[0], false));
  }

  /** `updateTimeOfDaySlot(id, updates)`; `now` is the time of the update. */
  method UpdateSlot(tm: TableCache, slots: Table, user: Option<User>, id: string, updates: Row, now: string,
                    w: World, write: Fault)
    returns (r: Outcome<Option<Slot>>)
    modifies tm, slots
    ensures After(tm.cache, slots.rows, r) == UpdateSlotCall(old(tm.cache), old(slots.rows), user, id, updates, now, w, write)
  {
    if user.None? {
      return Returned(None);
    }
    var ensured, _ := tm.EnsureTableExists(SlotsTable, TimeOfDaySchema, w);
    if ensured.Threw? {
      return Threw(ensured.thrown);
    }
    var updated := PatchSlot(slots, user.value.id, id, updates, now, write);
    r := Returned(updated);
  }

  /** The body of `updateTimeOfDaySlot` past the checks. */
  method PatchSlot(slots: Table, userId: string, id: string, updates: Row, now: string, write: Fault)
    returns (r: Option<Slot>)
    modifies slots
    ensures (slots.rows, r) == UpdateEffect(old(slots.rows), userId, id, updates, now, write)
  {
    var row := UpdateRow(updates, now);
    if write.Fail? {
      return None;
    }
    var updated := slots.Update(OwnFilter(id, userId), row);
    var one := SingleOf(updated);
    r := if one.data.Some? then Some(SlotOf(one.data.value, false)) else None;
  }

  /** `deleteTimeOfDaySlot(id)` */
  method DeleteSlot(tm: TableCache, slots: Table, user: Option<User>, id: string, w: World, fault: Fault)
    returns (r: Outcome<bool>)
    modifies tm, slots
    ensures After(tm.cache, slots.rows, r) == DeleteSlotCall(old(tm.cache), old(slots.rows), user, id, w, fault)
  {
    if user.None? {
      return Returned(false);
    }
    var ensured, _ := tm.EnsureTableExists(SlotsTable, TimeOfDaySchema, w);
    if ensured.Threw? {
      return Threw(ensured.thrown);
    }
    if fault.Fail? {
      return Returned(false);
    }
    slots.Delete(OwnFilter(id, user.value.id));
    r := Returned(true);
  }

  // ---------------------------------------------------------------------
  // What the calls promise
  // ---------------------------------------------------------------------

  /** Without a user nothing happens; a failed table check is rethrown
      and changes nothing; a call that changed the slots had made sure of
      the table. */
  lemma CreateGuarded(cache: set<string>, rows: seq<Row>, user: Option<User>, slot: Row, w: World,
                      lookup: Fault, write: Fault, generated: Row)
    ensures var a := CreateSlotCall(cache, rows, user, slot, w, lookup, write, generated);
      (user.None? ==> a == After(cache, rows, Returned(None)))
      && (a.outcome.Threw? ==> a.rows == rows && a.cache == cache)
      && (a.rows != rows ==> user.Some? && SlotsTable in a.cache)
  {
    EnsureChecked(cache, SlotsTable, TimeOfDaySchema, w);
  }

  lemma UpdateGuarded(cache: set<string>, rows: seq<Row>, user: Option<User>, id: string, updates: Row, now: string,
                      w: World, write: Fault)
    ensures var a := UpdateSlotCall(cache, rows, user, id, updates, now, w, write);
      (user.None? ==> a == After(cache, rows, Returned(None)))
      && (a.outcome.Threw? ==> a.rows == rows && a.cache == cache)
      && (a.rows != rows ==> user.Some? && SlotsTable in a.cache)
  {
    EnsureChecked(cache, SlotsTable, TimeOfDaySchema, w);
  }

  lemma DeleteGuarded(cache: set<string>, rows: seq<Row>, user: Option<User>, id: string, w: World, fault: Fault)
    ensures var a := DeleteSlotCall(cache, rows, user, id, w, fault);
      (user.None? ==> a == After(cache, rows, Returned(false)))
      && (a.outcome.Threw? ==> a.rows == rows && a.cache == cache)
      && (a.rows != rows ==> user.Some? && SlotsTable in a.cache)
  {
    EnsureChecked(cache, SlotsTable, TimeOfDaySchema, w);
    GuardedFacts(cache, rows, user, SlotsTable, Ensure(cache, SlotsTable, TimeOfDaySchema, w), false,
      if user.Some? then DeleteEffect(rows, user.value.id, id, fault) else (rows, false));
  }

  /** The fetch answers the user's slots by ascending sort order, a
      missing sort order read as 0. */
  lemma FetchSortedOwn(cache: set<string>, rows: seq<Row>, user: User, w: World)
    requires Ensure(cache, SlotsTable, TimeOfDaySchema, w).outcome.Returned?
    ensures var a := FetchSlotsCall(cache, rows, Some(user), w, Ok);
      var found := Run(rows, FetchPlan(user.id));
      a.rows == rows && a.outcome.Returned? && |a.outcome.value| == |found|
      && Sorted(found, Order("sort_order", true))
      && multiset(found) == multiset(Where(rows, UserFilter(user.id)))
      && forall k :: 0 <= k < |found| ==>
           a.outcome.value[k] == SlotOf(found[k], true) && Field(found[k], "user_id") == Str(user.id)
           && !a.outcome.value[k].sortOrder.IsNullish()
  {
    var found := Run(rows, FetchPlan(user.id));
    forall k | 0 <= k < |found|
      ensures Field(found[k], "user_id") == Str(user.id)
    {
      assert found[k] in found;
      MatchesUser(found[k], user.id);
    }
  }

  /** A created slot is stored for the user with the next sort order,
      and the call answers its slot. */
  lemma CreateStores(rows: seq<Row>, userId: string, slot: Row, lookup: Fault, generated: Row)
    ensures var next := NextSortOrder(TopRow(rows, userId, lookup));
      var stored := generated + Stored(InsertRow(userId, slot, next));
      CreateEffect(rows, userId, slot, lookup, Ok, generated) == (rows + [stored], Some(SlotOf(stored, false)))
      && Field(stored, "user_id") == Str(userId) && Field(stored, "sort_order") == Int(next)
  {
    var next := NextSortOrder(TopRow(rows, userId, lookup));
    var row := InsertRow(userId, slot, next);
    assert WithGenerated([row], [generated]) == [generated + Stored(row)];
    assert row["user_id"] == Str(userId) && row["sort_order"] == Int(next);
  }

  /** With numeric sort orders, a created slot goes after all of the
      user's slots, and the sort orders stay numeric. */
  lemma CreateAppends(rows: seq<Row>, userId: string, slot: Row, generated: Row)
    requires SortOrdersSet(rows)
    ensures var after := CreateEffect(rows, userId, slot, Ok, Ok, generated).0;
      |after| == |rows| + 1 && after[..|rows|] == rows && SortOrdersSet(after)
      && forall row :: row in rows && Field(row, "user_id") == Str(userId) ==>
           Field(row, "sort_order").i < Field(after[|rows|], "sort_order").i
  {
    CreateStores(rows, userId, slot, Ok, generated);
    NextAboveAll(rows, userId);
    var after := CreateEffect(rows, userId, slot, Ok, Ok, generated).0;
    assert after[..|rows|] == rows;
    forall r | r in after
      ensures Field(r, "sort_order").Int?
    {
      if r != after[|rows|] {
        assert r in rows;
      }
    }
  }

  /** An update patches the user's slot with that id and no other row,
      and keeps the sort orders numeric when a given one is a number. */
  lemma UpdateTouchesOwnOnly(cache: set<string>, rows: seq<Row>, user: User, id: string, updates: Row, now: string, w: World)
    requires Ensure(cache, SlotsTable, TimeOfDaySchema, w).outcome.Returned?
    ensures var after := UpdateSlotCall(cache, rows, Some(user), id, updates, now, w, Ok).rows;
      |after| == |rows|
      && forall k :: 0 <= k < |rows| ==>
           after[k] == (if Field(rows[k], "id") == Str(id) && Field(rows[k], "user_id") == Str(user.id)
                        then Patch(rows[k], UpdateRow(updates, now)) else rows[k])
  {
    forall k | 0 <= k < |rows| {
      MatchesOwn(rows[k], id, user.id);
    }
  }

  lemma UpdateKeepsSortOrdersSet(rows: seq<Row>, userId: string, id: string, updates: Row, now: string)
    requires SortOrdersSet(rows)
    requires !Field(updates, "sortOrder").IsNullish() ==> Field(updates, "sortOrder").Int?
    ensures SortOrdersSet(UpdateEffect(rows, userId, id, updates, now, Ok).0)
  {
    var row := UpdateRow(updates, now);
    var after := UpdateWhere(rows, OwnFilter(id, userId), row);
    UpdateRowStamps(updates, now);
    forall r | r in after
      ensures Field(r, "sort_order").Int?
    {
      var k :| 0 <= k < |after| && after[k] == r;
      assert rows[k] in rows;
    }
  }

  /** A delete removes exactly the user's slot with that id. */
  lemma DeleteRemovesOwnOnly(cache: set<string>, rows: seq<Row>, user: User, id: string, w: World)
    requires Ensure(cache, SlotsTable, TimeOfDaySchema, w).outcome.Returned?
    ensures var a := DeleteSlotCall(cache, rows, Some(user), id, w, Ok);
      a.outcome == Returned(true)
      && forall row :: row in a.rows <==> row in rows && !(Field(row, "id") == Str(id) && Field(row, "user_id") == Str(user.id))
  {
    forall row {
      MatchesOwn(row, id, user.id);
    }
  }
}
