/** The new-habit dialog: its time-of-day toggles, its editable lists of
    reminders and checklist items, and the save that hands the habit on
    and clears part of the form. */
module NewHabitModal {

  // ---------------------------------------------------------------------
  // List editing
  // ---------------------------------------------------------------------

  /** `prev.filter((x) => x !== t)` */
  function Without(xs: seq<string>, t: string): (r: seq<string>)
    ensures |r| <= |xs|
    ensures forall x :: x in r <==> x in xs && x != t
    decreases |xs|
  {
    if xs == [] then []
    else (if xs[0] == t then [] else [xs[0]]) + Without(xs[1..], t)
  }

  /** Removing a value that is not there changes nothing. */
  lemma {:induction false} WithoutAbsent(xs: seq<string>, t: string)
    requires t !in xs
    ensures Without(xs, t) == xs
    decreases |xs|
  {
    if xs != [] {
      assert t !in xs[1..];
      WithoutAbsent(xs[1..], t);
    }
  }

  lemma {:induction false} WithoutAppend(xs: seq<string>, ys: seq<string>, t: string)
    ensures Without(xs + ys, t) == Without(xs, t) + Without(ys, t)
    decreases |xs|
  {
    if xs != [] {
      assert (xs + ys)[1..] == xs[1..] + ys;
      WithoutAppend(xs[1..], ys, t);
    } else {
      assert xs + ys == ys;
    }
  }

  /** `toggleTime`: a chosen option is removed (every copy of it), another
      one is added at the end. */
  function Toggle(prev: seq<string>, t: string): (r: seq<string>)
    ensures t in prev ==> r == Without(prev, t)
    ensures t !in prev ==> r == prev + [t]
  {
    if t in prev then Without(prev, t) else prev + [t]
  }

  /** An option is chosen after the toggle exactly when it was not before,
      and the other options are untouched. */
  lemma ToggleFlips(prev: seq<string>, t: string)
    ensures t in Toggle(prev, t) <==> t !in prev
    ensures forall x :: x != t ==> (x in Toggle(prev, t) <==> x in prev)
  {
  }

  /** Toggling an option that is not chosen twice gives back the list. */
  lemma ToggleTwice(prev: seq<string>, t: string)
    requires t !in prev
    ensures Toggle(Toggle(prev, t), t) == prev
  {
    WithoutAppend(prev, [t], t);
    WithoutAbsent(prev, t);
    assert Without([t], t) == [];
    assert prev + [] == prev;
  }

  /** `prev.filter((_, j) => j !== i)`, for the element at `offset` and
      those after it. */
  function DropFrom(xs: seq<string>, i: int, offset: int): (r: seq<string>)
    decreases |xs|
  {
    if xs == [] then []
    else (if offset == i then [] else [xs[0]]) + DropFrom(xs[1..], i, offset + 1)
  }

  /** `removeReminder(i)`, `removeChecklist(i)` */
  function RemoveAt(xs: seq<string>, i: int): (r: seq<string>) {
    DropFrom(xs, i, 0)
  }

  lemma {:induction false} DropFromIs(xs: seq<string>, i: int, offset: int)
    ensures offset <= i < offset + |xs| ==> DropFrom(xs, i, offset) == xs[..i - offset] + xs[i - offset + 1..]
    ensures !(offset <= i < offset + |xs|) ==> DropFrom(xs, i, offset) == xs
    decreases |xs|
  {
    if xs != [] {
      DropFromIs(xs[1..], i, offset + 1);
      if offset == i {
        assert xs[..0] == [];
      } else if offset < i < offset + |xs| {
        assert xs[..i - offset] == [xs[0]] + xs[1..][..i - offset - 1];
        assert xs[i - offset + 1..] == xs[1..][i - offset..];
      } else {
        assert [xs[0]] + xs[1..] == xs;
      }
    }
  }

  /** Removing drops exactly the element at `i` and keeps the others in
      order; an index outside the list removes nothing. */
  lemma RemoveAtIs(xs: seq<string>, i: int)
    ensures 0 <= i < |xs| ==> RemoveAt(xs, i) == xs[..i] + xs[i + 1..]
    ensures 0 <= i < |xs| ==> |RemoveAt(xs, i)| == |xs| - 1
    ensures !(0 <= i < |xs|) ==> RemoveAt(xs, i) == xs
  {
    DropFromIs(xs, i, 0);
  }

  /** `prev.map((r, j) => (j === i ? v : r))`, for the element at `offset`
      and those after it. */
  function ReplaceFrom(xs: seq<string>, i: int, v: string, offset: int): (r: seq<string>)
    ensures |r| == |xs|
    decreases |xs|
  {
    if xs == [] then []
    else [if offset == i then v else xs[0]] + ReplaceFrom(xs[1..], i, v, offset + 1)
  }

  /** `setReminderAt(i, v)`, `setChecklistAt(i, v)` */
  function SetAt(xs: seq<string>, i: int, v: string): (r: seq<string>) {
    ReplaceFrom(xs, i, v, 0)
  }

  lemma {:induction false} ReplaceFromAt(xs: seq<string>, i: int, v: string, offset: int)
    ensures forall j :: 0 <= j < |xs| ==> ReplaceFrom(xs, i, v, offset)[j] == if offset + j == i then v else xs[j]
    decreases |xs|
  {
    if xs != [] {
      ReplaceFromAt(xs[1..], i, v, offset + 1);
      var r := ReplaceFrom(xs, i, v, offset);
      forall j | 0 < j < |xs| ensures r[j] == if offset + j == i then v else xs[j] {
        assert r[j] == ReplaceFrom(xs[1..], i, v, offset + 1)[j - 1];
      }
    }
  }

  /** Setting replaces only the element at `i` and keeps the length; an
      index outside the list changes nothing. */
  lemma SetAtIs(xs: seq<string>, i: int, v: string)
    ensures |SetAt(xs, i, v)| == |xs|
    ensures 0 <= i < |xs| ==> SetAt(xs, i, v) == xs[i := v]
    ensures !(0 <= i < |xs|) ==> SetAt(xs, i, v) == xs
  {
    ReplaceFromAt(xs, i, v, 0);
  }

  // ---------------------------------------------------------------------
  // The form
  // ---------------------------------------------------------------------

  const DefaultReminder := "09:00"

  /** What `onSave` receives. */
  datatype NewHabitInput = NewHabitInput(
    name: string, repeat: string, goal: string, timeOfDay: seq<string>, startDate: string,
    reminders: seq<string>, area: string)

  /** `name || 'New Habit'` */
  function SavedName(name: string): (r: string)
    ensures r != ""
    ensures name != "" ==> r == name
    ensures name == "" ==> r == "New Habit"
  {
    if name == "" then "New Habit" else name
  }

  class Form {
    var name: string
    var repeat: string
    var goal: string
    var timeOfDay: seq<string>
    var startDate: string
    var endCondition: string
    var reminders: seq<string>
    var area: string
    var checklist: seq<string>
    /** The dialog's `open` flag, owned by the parent and set through
        `onOpenChange`. */
    var open: bool

    /** The fields that saving clears hold their first values. */
    predicate Reset()
      reads this
    {
      name == "" && repeat == "Daily" && goal == "1" && timeOfDay == [] && reminders == [DefaultReminder] && area == ""
    }

    /** The form as the dialog first shows it; `today` is the ISO date of
        the clock. */
    constructor (today: string, open: bool)
      ensures Reset() && startDate == today && endCondition == "Never" && checklist == [] && this.open == open
    {
      name, repeat, goal, timeOfDay := "", "Daily", "1", [];
      startDate, endCondition, reminders, area, checklist := today, "Never", [DefaultReminder], "", [];
      this.open := open;
    }

    method ToggleTime(t: string)
      modifies this
      ensures timeOfDay == Toggle(old(timeOfDay), t)
      ensures name == old(name) && repeat == old(repeat) && goal == old(goal) && startDate == old(startDate)
      ensures endCondition == old(endCondition) && reminders == old(reminders) && area == old(area)
      ensures checklist == old(checklist) && open == old(open)
    {
      timeOfDay := Toggle(timeOfDay, t);
    }

    method AddReminder()
      modifies this
      ensures reminders == old(reminders) + [DefaultReminder]
      ensures name == old(name) && repeat == old(repeat) && goal == old(goal) && timeOfDay == old(timeOfDay)
      ensures startDate == old(startDate) && endCondition == old(endCondition) && area == old(area)
      ensures checklist == old(checklist) && open == old(open)
    {
      reminders := reminders + [DefaultReminder];
    }

    method RemoveReminder(i: int)
      modifies this
      ensures reminders == RemoveAt(old(reminders), i)
      ensures name == old(name) && repeat == old(repeat) && goal == old(goal) && timeOfDay == old(timeOfDay)
      ensures startDate == old(startDate) && endCondition == old(endCondition) && area == old(area)
      ensures checklist == old(checklist) && open == old(open)
    {
      reminders := RemoveAt(reminders, i);
    }

    method SetReminderAt(i: int, v: string)
      modifies this
      ensures reminders == SetAt(old(reminders), i, v)
      ensures name == old(name) && repeat == old(repeat) && goal == old(goal) && timeOfDay == old(timeOfDay)
      ensures startDate == old(startDate) && endCondition == old(endCondition) && area == old(area)
      ensures checklist == old(checklist) && open == old(open)
    {
      reminders := SetAt(reminders, i, v);
    }

    method AddChecklist()
      modifies this
      ensures checklist == old(checklist) + [""]
      ensures name == old(name) && repeat == old(repeat) && goal == old(goal) && timeOfDay == old(timeOfDay)
      ensures startDate == old(startDate) && endCondition == old(endCondition) && area == old(area)
      ensures reminders == old(reminders) && open == old(open)
    {
      checklist := checklist + [""];
    }

    method RemoveChecklist(i: int)
      modifies this
      ensures checklist == RemoveAt(old(checklist), i)
      ensures name == old(name) && repeat == old(repeat) && goal == old(goal) && timeOfDay == old(timeOfDay)
      ensures startDate == old(startDate) && endCondition == old(endCondition) && area == old(area)
      ensures reminders == old(reminders) && open == old(open)
    {
      checklist := RemoveAt(checklist, i);
    }

    method SetChecklistAt(i: int, v: string)
      modifies this
      ensures checklist == SetAt(old(checklist), i, v)
      ensures name == old(name) && repeat == old(repeat) && goal == old(goal) && timeOfDay == old(timeOfDay)
      ensures startDate == old(startDate) && endCondition == old(endCondition) && area == old(area)
      ensures reminders == old(reminders) && open == old(open)
    {
      checklist := SetAt(checklist, i, v);
    }

    /** `handleSave`: hands on the form, `New Habit` for an empty name,
        closes the dialog and clears the name, repeat, goal, times,
        reminders and area; the checklist, start date and end condition
        stay as they were. */
    method Save() returns (saved: NewHabitInput)
      modifies this
      ensures saved == NewHabitInput(SavedName(old(name)), old(repeat), old(goal), old(timeOfDay), old(startDate), old(reminders), old(area))
      ensures !open && Reset()
      ensures checklist == old(checklist) && startDate == old(startDate) && endCondition == old(endCondition)
    {
      saved := NewHabitInput(SavedName(name), repeat, goal, timeOfDay, startDate, reminders, area);
      open := false;
      name, repeat, goal, timeOfDay, reminders, area := "", "Daily", "1", [], [DefaultReminder], "";
    }
  }
}
