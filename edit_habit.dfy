/** The edit dialog of a habit: the name, goal, area and archived flag
    entered over the habit, normalised on save. */
module EditHabit {
  import opened Wrappers
  import opened Strings
  import opened Js
  import opened Db
  import opened Habits
  import opened HabitUtils

  /** The dialog's inputs. */
  datatype EditForm = EditForm(name: string, goal: string, areaId: string, isArchived: bool)

  /** `handleSave`: the habit with the trimmed name, or its own name when
      the input is blank; `parseInt(goal, 10) || 1`; an empty area as
      `undefined`; the checkbox's archived flag. Without a habit the
      dialog renders nothing and there is nothing to save. */
  function Edited(habit: Option<HabitItem>, form: EditForm): (r: Option<HabitItem>)
    ensures r.None? <==> habit.None?
    ensures r.Some? && IsBlank(form.name) ==> r.value.name == habit.value.name
    ensures r.Some? && !IsBlank(form.name) ==> r.value.name == Str(Trim(form.name)) && Trim(form.name) != ""
    ensures r.Some? ==> r.value.goal == Int(Goal(form.goal))
    ensures r.Some? ==> (r.value.areaId == Undefined <==> form.areaId == "")
    ensures r.Some? && form.areaId != "" ==> r.value.areaId == Str(form.areaId)
    ensures r.Some? ==> r.value.isArchived == Bool(form.isArchived)
    ensures r.Some? ==> r.value == habit.value.(name := r.value.name, goal := r.value.goal, areaId := r.value.areaId, isArchived := r.value.isArchived)
  {
    match habit
    case None => None
    case Some(h) =>
      TrimEmptyIffBlank(form.name);
      var name := Trim(form.name);
      Some(h.(
        name := if name != "" then Str(name) else h.name,
        goal := Int(Goal(form.goal)),
        areaId := if form.areaId != "" then Str(form.areaId) else Undefined,
        isArchived := Bool(form.isArchived)))
  }

  /** The inputs the dialog loads from a habit: its name, its goal
      written out, its area or nothing, its archived flag or false. */
  predicate LoadedFrom(h: HabitItem, form: EditForm) {
    h.name == Str(form.name)
    && h.goal.Int? && form.goal == IntToString(h.goal.i)
    && (if h.areaId.IsNullish() then form.areaId == "" else h.areaId == Str(form.areaId))
    && (if h.isArchived.IsNullish() then !form.isArchived else h.isArchived == Bool(form.isArchived))
  }

  /** A habit already in the form the dialog saves (a trimmed, non-empty
      name, a non-zero goal, an area that is a non-empty string or
      `undefined`, an archived flag) is saved unchanged when nothing is
      edited. */
  lemma SaveUnedited(h: HabitItem, form: EditForm)
    requires LoadedFrom(h, form)
    requires form.name != "" && Trim(form.name) == form.name
    requires h.goal != Int(0)
    requires h.areaId == Undefined || (h.areaId.Str? && h.areaId.s != "")
    requires h.isArchived.Bool?
    ensures Edited(Some(h), form) == Some(h)
  {
    TrimEmptyIffBlank(form.name);
    ParseIntOfIntToString(h.goal.i);
  }

  /** Saving twice with the same inputs is saving once. */
  lemma EditIdempotent(h: HabitItem, form: EditForm)
    ensures Edited(Edited(Some(h), form), form) == Edited(Some(h), form)
  {
    TrimEmptyIffBlank(form.name);
  }
}
