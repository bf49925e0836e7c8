/** The dashboard's shared state: the areas and habits, seeded with the
    defaults, the new-area dialog's flag, and `addArea`, which appends an
    area at the next position. */
module DashboardContext {
  import opened Wrappers
  import opened Strings
  import opened Js

  /** An area; `order` is its position among the areas. */
  datatype Area = Area(id: string, name: string, color: string, icon: Option<string>, order: int)

  /** A habit as the dashboard seeds it: the properties the defaults set. */
  datatype Habit = Habit(id: string, name: string, done: nat, goal: int, habitType: string, areaId: Option<string>, frequency: string)

  const DefaultAreas: seq<Area> := [
    Area("area-1", "Health", "#10B981", None, 0),
    Area("area-2", "todo list", "#2a67f4", None, 1)]

  const DefaultHabits: seq<Habit> := [
    Habit("1", "test", 0, 1, "checkbox", Some("area-1"), "daily"),
    Habit("2", "Set a To-do List", 1, 1, "checkbox", Some("area-2"), "daily")]

  /** Every area's `order` is its position. */
  predicate OrdersArePositions(areas: seq<Area>) {
    forall i :: 0 <= i < |areas| ==> areas[i].order == i
  }

  /** Every habit that names an area names one of the areas. */
  predicate AreasKnown(habits: seq<Habit>, areas: seq<Area>) {
    forall h :: h in habits && h.areaId.Some? ==> exists a :: a in areas && a.id == h.areaId.value
  }

  /** The defaults are consistent: the default areas are in position
      order, and each default habit belongs to a default area. */
  lemma DefaultsConsistent()
    ensures OrdersArePositions(DefaultAreas)
    ensures AreasKnown(DefaultHabits, DefaultAreas)
  {
    assert DefaultAreas[0].id == "area-1" && DefaultAreas[1].id == "area-2";
    forall h | h in DefaultHabits && h.areaId.Some?
      ensures exists a :: a in DefaultAreas && a.id == h.areaId.value
    {
      if h == DefaultHabits[0] {
        assert DefaultAreas[0] in DefaultAreas;
      } else {
        assert DefaultAreas[1] in DefaultAreas;
      }
    }
  }

  /** The area `addArea` makes: the caller's name, colour and icon, an id
      from the clock (`now`, in milliseconds) and the count of areas as
      its order. */
  function NewArea(name: string, color: string, icon: Option<string>, now: int, count: nat): (a: Area)
    ensures a.name == name && a.color == color && a.icon == icon
    ensures a.order == count && StartsWith(a.id, "area-")
  {
    Area("area-" + IntToString(now), name, color, icon, count)
  }

  class Dashboard {
    var areas: seq<Area>
    var habits: seq<Habit>
    var newAreaModalOpen: bool

    /** The provider's first state. */
    constructor ()
      ensures areas == DefaultAreas && habits == DefaultHabits && !newAreaModalOpen
    {
      areas, habits, newAreaModalOpen := DefaultAreas, DefaultHabits, false;
    }

    /** `addArea`: appends the new area and returns it. */
    method AddArea(name: string, color: string, icon: Option<string>, now: int) returns (area: Area)
      modifies this
      ensures area == NewArea(name, color, icon, now, |old(areas)|)
      ensures areas == old(areas) + [area]
      ensures habits == old(habits) && newAreaModalOpen == old(newAreaModalOpen)
    {
      area := NewArea(name, color, icon, now, |areas|);
      areas := areas + [area];
    }

    method SetAreas(next: seq<Area>)
      modifies this
      ensures areas == next && habits == old(habits) && newAreaModalOpen == old(newAreaModalOpen)
    {
      areas := next;
    }

    method SetHabits(next: seq<Habit>)
      modifies this
      ensures habits == next && areas == old(areas) && newAreaModalOpen == old(newAreaModalOpen)
    {
      habits := next;
    }

    method SetNewAreaModalOpen(open: bool)
      modifies this
      ensures newAreaModalOpen == open && areas == old(areas) && habits == old(habits)
    {
      newAreaModalOpen := open;
    }
  }

  /** Appending the area `addArea` makes keeps every area at its
      position, and the habits' areas stay known. */
  lemma AddKeepsPositions(areas: seq<Area>, habits: seq<Habit>, name: string, color: string, icon: Option<string>, now: int)
    requires OrdersArePositions(areas) && AreasKnown(habits, areas)
    ensures var next := areas + [NewArea(name, color, icon, now, |areas|)];
      OrdersArePositions(next) && AreasKnown(habits, next) && next[..|areas|] == areas
  {
    var next := areas + [NewArea(name, color, icon, now, |areas|)];
    assert forall a :: a in areas ==> a in next;
  }

  /** `useDashboard`: the provider's state, or an error outside one. */
  function UseDashboard(ctx: Option<Dashboard>): (r: Outcome<Dashboard>)
    ensures r.Returned? <==> ctx.Some?
    ensures r.Returned? ==> r.value == ctx.value
    ensures r.Threw? ==> r.thrown == JsError("useDashboard must be used within DashboardProvider")
  {
    match ctx
    case None => Threw(JsError("useDashboard must be used within DashboardProvider"))
    case Some(d) => Returned(d)
  }
}
