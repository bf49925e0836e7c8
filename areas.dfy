/** The areas service: the signed-in user's areas (groups of habits) in
    the `areas` table, listed by their `order` column, appended after the
    last one, patched and deleted. It never runs the table check, and it
    catches every failure, answering `[]`, `null` or `false`; there is no
    cache to keep, so a call is a function of the rows alone. */
module Areas {
  import opened Wrappers
  import opened Seqs
  import opened Db
  import opened Session
  import opened Records
  import opened Services

  /** An area as the dashboard holds it. */
  datatype AreaItem = AreaItem(id: Value, name: Value, color: Value, icon: Value, order: Value)

  /** The area of a row: its columns as they are. */
  function AreaOf(row: Row): (a: AreaItem)
    ensures a.id == Field(row, "id") && a.order == Field(row, "order")
  {
    AreaItem(Field(row, "id"), Field(row, "name"), Field(row, "color"), Field(row, "icon"), Field(row, "order"))
  }

  /** Every row has a numeric `order`, as the application writes it. */
  predicate OrdersSet(rows: seq<Row>) {
    forall row :: row in rows ==> Field(row, "order").Int?
  }

  // ---------------------------------------------------------------------
  // The next order
  // ---------------------------------------------------------------------

  /** The user's last area: `order` descending, one row at most. */
  function LastPlan(userId: string): Plan {
    Plan("order", UserFilter(userId), Some(Order("order", false)), Some(1))
  }

  /** The `data` of the lookup: its error is not read, so a failed lookup
      is no rows. */
  function LastRows(rows: seq<Row>, userId: string, lookup: Fault): seq<Row> {
    if lookup.Fail? then [] else Run(rows, LastPlan(userId))
  }

  /** `existingAreas.length > 0 ? existingAreas[0].order + 1 : 0`, with
      JavaScript's `null + 1` being 1. */
  function NextOrder(existing: seq<Row>): (n: int)
    ensures existing == [] ==> n == 0
    ensures existing != [] && Field(existing[0], "order").Int? ==> n == Field(existing[0], "order").i + 1
    ensures existing != [] && Field(existing[0], "order").Null? ==> n == 1
  {
    if existing == [] then 0
    else
      var v := Field(existing[0], "order");
      if v.Int? then v.i + 1 else if v.Null? then 1 else 0
  }

  /** With numeric orders a new area goes after every area of the user:
      one more than the highest order, or 0 for the first area. */
  lemma NextOrderAboveAll(rows: seq<Row>, userId: string)
    requires OrdersSet(rows)
    ensures var n := NextOrder(LastRows(rows, userId, Ok));
      (forall row :: row in rows && Field(row, "user_id") == Str(userId) ==> Field(row, "order").i < n)
      && (Where(rows, UserFilter(userId)) == [] ==> n == 0)
      && (Where(rows, UserFilter(userId)) != [] ==>
            exists row :: row in rows && Field(row, "user_id") == Str(userId) && Field(row, "order") == Int(n - 1))
  {
    TopOfUser(rows, userId, "order", "order");
    if Where(rows, UserFilter(userId)) != [] {
      HighestOfUser(rows, userId, "order");
    } else {
      forall row | row in rows && Field(row, "user_id") == Str(userId)
        ensures false
      {
        MatchesUser(row, userId);
      }
    }
  }

  /** In a table with an `order` column, a user area whose `order` is
      NULL sorts first in the descending lookup, and `null + 1` makes the
      next order 1. */
  lemma NullOrderGivesOne(rows: seq<Row>, userId: string, row: Row)
    requires forall r :: r in rows ==> Field(r, "order") != Undefined
    requires row in rows && Field(row, "user_id") == Str(userId) && Field(row, "order") == Null
    ensures NextOrder(LastRows(rows, userId, Ok)) == 1
  {
    TopOfUser(rows, userId, "order", "order");
    MatchesUser(row, userId);
    NullOfUserFirst(rows, userId, "order", row);
    var sorted := Descending(rows, userId, "order");
    assert sorted[0] in multiset(Where(rows, UserFilter(userId)));
    assert Field(sorted[0], "order") != Undefined;
  }

  // ---------------------------------------------------------------------
  // The rows written
  // ---------------------------------------------------------------------

  /** The area's properties `createArea` copies. */
  const InsertCopies: seq<Rule> := [
    Rule("name", "name", Always), Rule("color", "color", Always), Rule("icon", "icon", Always)]

  function InsertRow(userId: string, area: Row, order: int): Row {
    Build(area, InsertCopies)["user_id" := Str(userId)]["order" := Int(order)]
  }

  /** The spread patch of `updateArea`: the name, the colour and the icon
      when truthy, the order whenever it is not `undefined`. */
  const PatchRules: seq<Rule> := [
    Rule("name", "name", WhenTruthy), Rule("color", "color", WhenTruthy),
    Rule("icon", "icon", WhenTruthy), Rule("order", "order", WhenDefined)]

  function AreaPatch(area: Row): Row {
    Build(area, PatchRules)
  }

  /** The rule at `i` alone decides its column of the patch. */
  lemma PatchRule(area: Row, i: nat)
    requires i < |PatchRules|
    ensures var patch := AreaPatch(area);
      var rule := PatchRules[i];
      (rule.key in patch <==> Kept(Field(area, rule.field), rule.keep))
      && (rule.key in patch ==> patch[rule.key] == Field(area, rule.field))
  {
    BuildOnly(area, PatchRules, i);
  }

  /** A patch holds only the four columns; an order of 0 is patched, an
      empty name is not. */
  lemma PatchFields(area: Row)
    ensures var patch := AreaPatch(area);
      (forall k :: k in patch ==> k in {"name", "color", "icon", "order"})
      && ("name" in patch <==> Field(area, "name").Truthy())
      && ("order" in patch <==> Field(area, "order") != Undefined)
      && ("order" in patch ==> patch["order"] == Field(area, "order"))
  {
    var patch := AreaPatch(area);
    forall k | k in patch
      ensures k in {"name", "color", "icon", "order"}
    {
      BuildKeys(area, PatchRules, k);
    }
    PatchRule(area, 0);
    PatchRule(area, 3);
  }

  // ---------------------------------------------------------------------
  // The service calls
  // ---------------------------------------------------------------------

  /** The user's areas by ascending order. */
  function FetchPlan(userId: string): Plan {
    Plan("*", UserFilter(userId), Some(Order("order", true)), None)
  }

  /** `fetchUserAreas()`: the rows are unchanged. */
  function FetchAreasCall(rows: seq<Row>, user: Option<User>, fault: Fault): seq<AreaItem> {
    if user.None? || fault.Fail? then [] else Map(AreaOf, Run(rows, FetchPlan(user.value.id)))
  }

  /** `createArea(area)`: the new rows and the answer. */
  function CreateAreaCall(rows: seq<Row>, user: Option<User>, area: Row, lookup: Fault, write: Fault, generated: Row): (seq<Row>, Option<AreaItem>) {
    if user.None? then (rows, None)
    else
      var next := NextOrder(LastRows(rows, user.value.id, lookup));
      if write.Fail? then (rows, None)
      else
        var stored := WithGenerated([InsertRow(user.value.id, area, next)], [generated]);
        (rows + stored, Some(AreaOf(stored[0])))
  }

  /** `updateArea(id, area)` */
  function UpdateAreaCall(rows: seq<Row>, user: Option<User>, id: string, area: Row, write: Fault): (seq<Row>, Option<AreaItem>) {
    if user.None? || write.Fail? then (rows, None)
    else
      var f, patch := OwnFilter(id, user.value.id), AreaPatch(area);
      var one := SingleOf(Patched(Where(rows, f), patch));
      (UpdateWhere(rows, f, patch), if one.data.Some? then Some(AreaOf(one.data.value)) else None)
  }

  /** `deleteArea(id)` */
  function DeleteAreaCall(rows: seq<Row>, user: Option<User>, id: string, fault: Fault): (seq<Row>, bool) {
    if user.None? || fault.Fail? then (rows, false) else (DeleteWhere(rows, OwnFilter(id, user.value.id)), true)
  }

  method FetchUserAreas(areas: Table, user: Option<User>, fault: Fault) returns (r: seq<AreaItem>)
    ensures r == FetchAreasCall(areas.rows, user, fault)
  {
    if user.None? || fault.Fail? {
      return [];
    }
    var found := Run(areas.rows, FetchPlan(user.value.id));
    r := Map(AreaOf, found);
  }

  method CreateArea(areas: Table, user: Option<User>, area: Row, lookup: Fault, write: Fault, generated: Row)
    returns (r: Option<AreaItem>)
    modifies areas
    ensures (areas.rows, r) == CreateAreaCall(old(areas.rows), user, area, lookup, write, generated)
  {
    if user.None? {
      return None;
    }
    var existing := if lookup.Fail? then [] else Run(areas.rows, LastPlan(user.value.id));
    var next := NextOrder(existing);
    if write.Fail? {
      return None;
    }
    var inserted := areas.Insert([InsertRow(user.value.id, area, next)], [generated]);
    r := Some(AreaOf(inserted[0]));
  }

  method UpdateArea(areas: Table, user: Option<User>, id: string, area: Row, write: Fault)
    returns (r: Option<AreaItem>)
    modifies areas
    ensures (areas.rows, r) == UpdateAreaCall(old(areas.rows), user, id, area, write)
  {
    if user.None? || write.Fail? {
      return None;
    }
    var updated := areas.Update(OwnFilter(id, user.value.id), AreaPatch(area));
    var one := SingleOf(updated);
    r := if one.data.Some? then Some(AreaOf(one.data.value)) else None;
  }

  method DeleteArea(areas: Table, user: Option<User>, id: string, fault: Fault) returns (r: bool)
    modifies areas
    ensures (areas.rows, r) == DeleteAreaCall(old(areas.rows), user, id, fault)
  {
    if user.None? || fault.Fail? {
      return false;
    }
    areas.Delete(OwnFilter(id, user.value.id));
    r := true;
  }

  // ---------------------------------------------------------------------
  // What the calls promise
  // ---------------------------------------------------------------------

  /** Without a user or with a failed request nothing changes and the
      answer is `[]`, `null` or `false`. */
  lemma FailuresChangeNothing(rows: seq<Row>, user: Option<User>, id: string, area: Row, lookup: Fault, fault: Fault, generated: Row)
    requires user.None? || fault.Fail?
    ensures FetchAreasCall(rows, user, fault) == []
    ensures CreateAreaCall(rows, user, area, lookup, fault, generated) == (rows, None)
    ensures UpdateAreaCall(rows, user, id, area, fault) == (rows, None)
    ensures DeleteAreaCall(rows, user, id, fault) == (rows, false)
  {
  }

  /** The fetch answers the user's areas by ascending order. */
  lemma FetchSortedOwn(rows: seq<Row>, user: User)
    ensures var r := FetchAreasCall(rows, Some(user), Ok);
      var found := Run(rows, FetchPlan(user.id));
      |r| == |found| && Sorted(found, Order("order", true))
      && multiset(found) == multiset(Where(rows, UserFilter(user.id)))
      && forall k :: 0 <= k < |found| ==> r[k] == AreaOf(found[k]) && Field(found[k], "user_id") == Str(user.id)
  {
    var found := Run(rows, FetchPlan(user.id));
    forall k | 0 <= k < |found|
      ensures Field(found[k], "user_id") == Str(user.id)
    {
      assert found[k] in found;
      MatchesUser(found[k], user.id);
    }
  }

  /** A created area is stored for the user after all of the user's
      areas, and the orders stay numeric. */
  lemma CreateAppends(rows: seq<Row>, user: User, area: Row, generated: Row)
    requires OrdersSet(rows)
    ensures var c := CreateAreaCall(rows, Some(user), area, Ok, Ok, generated);
      |c.0| == |rows| + 1 && c.0[..|rows|] == rows && OrdersSet(c.0)
      && Field(c.0[|rows|], "user_id") == Str(user.id) && c.1 == Some(AreaOf(c.0[|rows|]))
      && forall row :: row in rows && Field(row, "user_id") == Str(user.id) ==>
           Field(row, "order").i < Field(c.0[|rows|], "order").i
  {
    var next := NextOrder(LastRows(rows, user.id, Ok));
    var row := InsertRow(user.id, area, next);
    assert WithGenerated([row], [generated]) == [generated + Stored(row)];
    assert row["user_id"] == Str(user.id) && row["order"] == Int(next);
    NextOrderAboveAll(rows, user.id);
    var after := CreateAreaCall(rows, Some(user), area, Ok, Ok, generated).0;
    assert after[..|rows|] == rows;
    forall r | r in after
      ensures Field(r, "order").Int?
    {
      if r != after[|rows|] {
        assert r in rows;
      }
    }
  }

  /** An update patches the user's area with that id and no other row. */
  lemma UpdateTouchesOwnOnly(rows: seq<Row>, user: User, id: string, area: Row)
    ensures var after := UpdateAreaCall(rows, Some(user), id, area, Ok).0;
      |after| == |rows|
      && forall k :: 0 <= k < |rows| ==>
           after[k] == (if Field(rows[k], "id") == Str(id) && Field(rows[k], "user_id") == Str(user.id)
                        then Patch(rows[k], AreaPatch(area)) else rows[k])
  {
    forall k | 0 <= k < |rows| {
      MatchesOwn(rows[k], id, user.id);
    }
  }

  /** A delete removes exactly the user's area with that id. */
  lemma DeleteRemovesOwnOnly(rows: seq<Row>, user: User, id: string)
    ensures var d := DeleteAreaCall(rows, Some(user), id, Ok);
      d.1 && forall row :: row in d.0 <==> row in rows && !(Field(row, "id") == Str(id) && Field(row, "user_id") == Str(user.id))
  {
    forall row {
      MatchesOwn(row, id, user.id);
    }
  }
}
