/** The habit helpers: turning the new-habit dialog's payload into the
    habit passed to `createHabit`, and deciding whether a habit belongs
    under a time-of-day filter. */
module HabitUtils {
  import opened Wrappers
  import opened Strings
  import opened Seqs
  import opened Js
  import opened Db
  import opened Words

  // ---------------------------------------------------------------------
  // From the dialog's payload to a new habit
  // ---------------------------------------------------------------------

  /** What the new-habit dialog sends on save. */
  datatype NewHabitPayload = NewHabitPayload(
    name: string, description: Option<string>, repeat: string, goal: string, timeOfDay: seq<string>,
    startDate: string, reminders: seq<string>, area: string, habitType: Option<string>,
    targetValue: Option<int>, unit: Option<string>, daysOfWeek: Option<seq<int>>,
    color: Option<string>, icon: Option<string>)

  /** `parseInt(goal, 10) || 1`: `NaN` and 0 both give 1. */
  function Goal(goal: string): (g: int)
    ensures g != 0
    ensures ParseInt(goal).Some? && ParseInt(goal).value != 0 ==> g == ParseInt(goal).value
    ensures ParseInt(goal).None? || ParseInt(goal).value == 0 ==> g == 1
  {
    match ParseInt(goal)
    case None => 1
    case Some(v) => if v == 0 then 1 else v
  }

  /** The habit handed to `createHabit`. An optional property that is
      `None` is `undefined`; for `targetValue` and `daysOfWeek` it is a key
      that is not there at all. The frequency is `{type: 'daily'}`. */
  datatype NewHabit = NewHabit(
    name: string, description: Option<string>, goal: int, habitType: string, areaId: Option<string>,
    color: Option<string>, icon: Option<string>, frequency: string, timeOfDay: Option<seq<string>>,
    reminders: seq<string>, startDate: string, unit: Option<string>, targetValue: Option<int>,
    daysOfWeek: Option<seq<int>>)

  /** `newHabitPayloadToItem`: a name is always there, `New Habit` for an
      empty one; the goal is a non-zero number, the one typed when it reads
      as one; the type is `checkbox` when none is given; the frequency is
      daily; an empty area and an empty time-of-day list are left
      undefined; the optional keys are there only when the payload has
      them; everything else is the payload's. */
  function NewHabitItem(p: NewHabitPayload): (h: NewHabit)
    ensures h.name != "" && (p.name != "" ==> h.name == p.name) && (p.name == "" ==> h.name == "New Habit")
    ensures h.goal == Goal(p.goal)
    ensures p.habitType.None? ==> h.habitType == "checkbox"
    ensures p.habitType.Some? ==> h.habitType == p.habitType.value
    ensures h.frequency == "daily"
    ensures h.areaId.None? <==> p.area == ""
    ensures h.areaId.Some? ==> h.areaId.value == p.area
    ensures h.timeOfDay.None? <==> p.timeOfDay == []
    ensures h.timeOfDay.Some? ==> h.timeOfDay.value == p.timeOfDay
    ensures h.description == p.description && h.color == p.color && h.icon == p.icon && h.unit == p.unit
    ensures h.reminders == p.reminders && h.startDate == p.startDate
    ensures h.targetValue == p.targetValue && h.daysOfWeek == p.daysOfWeek
  {
    NewHabit(
      if p.name == "" then "New Habit" else p.name, p.description, Goal(p.goal),
      if p.habitType.Some? then p.habitType.value else "checkbox",
      if p.area == "" then None else Some(p.area), p.color, p.icon, "daily",
      if |p.timeOfDay| > 0 then Some(p.timeOfDay) else None, p.reminders, p.startDate, p.unit,
      p.targetValue, p.daysOfWeek)
  }

  /** A goal typed as a positive numeral is the goal. */
  lemma GoalOfNumeral(n: nat)
    requires n > 0
    ensures Goal(NatToString(n)) == n
  {
    PositiveNumeral(n);
  }

  // ---------------------------------------------------------------------
  // Time-of-day matching
  // ---------------------------------------------------------------------

  /** A habit's `timeOfDay`: one slot name or a list of them. */
  datatype TimeOfDay = One(slot: string) | Many(slots: seq<string>)

  /** `s.toLowerCase().trim()` */
  function Normalise(s: string): string {
    Trim(ToLower(s))
  }

  /** The slot names of a habit, `[]` when `timeOfDay` is falsy. */
  function Slots(t: Option<TimeOfDay>): (r: seq<string>)
    ensures t.Some? && t.value.Many? ==> r == t.value.slots
    ensures t.None? || t == Some(One("")) ==> r == []
    ensures t.Some? && t.value.One? && t.value.slot != "" ==> r == [t.value.slot]
  {
    match t
    case None => []
    case Some(One(s)) => if s == "" then [] else [s]
    case Some(Many(xs)) => xs
  }

  /** `.filter(Boolean)` on strings. */
  function NonEmpty(xs: seq<string>): (r: seq<string>)
    ensures forall k :: 0 <= k < |r| ==> r[k] != ""
    ensures forall x :: x in r <==> x in xs && x != ""
  {
    if xs == [] then []
    else (if xs[0] == "" then [] else [xs[0]]) + NonEmpty(xs[1..])
  }

  /** `getTimeOfDayValues`: the normalised, non-empty slot names. */
  function Values(t: Option<TimeOfDay>): seq<string> {
    NonEmpty(Map(Normalise, Slots(t)))
  }

  /** A slot value and the filter agree when equal, or equal once each
      whitespace run is a dash. */
  predicate Agree(v: string, f: string) {
    v == f || DashSpaces(v) == DashSpaces(f)
  }

  /** `habitMatchesTimeOfDay` */
  predicate HabitMatches(t: Option<TimeOfDay>, filter: string) {
    var values := Values(t);
    values == [] || exists v :: v in values && Agree(v, Normalise(filter))
  }

  lemma LowerKeepsSpace(c: char)
    ensures IsSpace(LowerChar(c)) <==> IsSpace(c)
  {
  }

  /** Case mapping by text: lower-casing an upper-cased string lower-cases
      it; blank padding is left alone. */
  lemma LowerPadded(pad: string, s: string, pad2: string)
    requires IsBlank(pad) && IsBlank(pad2)
    ensures ToLower(pad + ToUpper(s) + pad2) == pad + ToLower(s) + pad2
  {
    var l, r := ToLower(pad + ToUpper(s) + pad2), pad + ToLower(s) + pad2;
    forall i | 0 <= i < |l| ensures l[i] == r[i] {
      if i < |pad| {
        assert (pad + ToUpper(s) + pad2)[i] == pad[i];
      } else if i < |pad| + |s| {
        assert (pad + ToUpper(s) + pad2)[i] == UpperChar(s[i - |pad|]);
      } else {
        assert (pad + ToUpper(s) + pad2)[i] == pad2[i - |pad| - |s|];
      }
    }
  }

  /** A normalised name is empty exactly when the name is blank. */
  lemma NormaliseEmptyIffBlank(s: string)
    ensures Normalise(s) == "" <==> IsBlank(s)
  {
    var l := ToLower(s);
    TrimEmptyIffBlank(l);
    assert IsBlank(l) <==> IsBlank(s) by {
      forall i | 0 <= i < |s| ensures IsSpace(l[i]) <==> IsSpace(s[i]) {
        LowerKeepsSpace(s[i]);
      }
    }
  }

  /** Normalising ignores letter case and blank padding. */
  lemma NormaliseIgnoresCaseAndPadding(pad: string, s: string, pad2: string)
    requires IsBlank(pad) && IsBlank(pad2)
    ensures Normalise(pad + ToUpper(s) + pad2) == Normalise(s)
  {
    LowerPadded(pad, s, pad2);
    TrimPadded(pad, ToLower(s), pad2);
  }

  /** A string with no upper-case letter. */
  predicate NoUpper(s: string) {
    forall i :: 0 <= i < |s| ==> !('A' <= s[i] <= 'Z')
  }

  lemma LowerHasNoUpper(s: string)
    ensures NoUpper(ToLower(s))
  {
  }

  lemma LowerFixesNoUpper(s: string)
    requires NoUpper(s)
    ensures ToLower(s) == s
  {
  }

  /** Trimming keeps a part of the string, so it adds no upper-case letter. */
  lemma TrimKeepsNoUpper(s: string)
    requires NoUpper(s)
    ensures NoUpper(Trim(s))
  {
    var u := TrimStart(s);
    var t := TrimEnd(u);
    assert u == s[|s| - |u|..] && t == u[..|t|];
    forall i | 0 <= i < |t| ensures !('A' <= t[i] <= 'Z') {
      assert t[i] == s[|s| - |u| + i];
    }
  }

  /** A trimmed string trims to itself. */
  lemma TrimTwice(s: string)
    ensures Trim(Trim(s)) == Trim(s)
  {
    var t := Trim(s);
    if t != [] {
      TrimStartNoSpace(t);
      TrimEndNoSpace(t);
    }
  }

  /** Normalising twice changes nothing. */
  lemma NormaliseIdempotent(s: string)
    ensures Normalise(Normalise(s)) == Normalise(s)
  {
    LowerHasNoUpper(s);
    TrimKeepsNoUpper(ToLower(s));
    LowerFixesNoUpper(Normalise(s));
    TrimTwice(ToLower(s));
  }

  /** Filtering out empty strings leaves nothing exactly when they all are. */
  lemma {:induction false} NonEmptyNone(xs: seq<string>)
    ensures NonEmpty(xs) == [] <==> forall k :: 0 <= k < |xs| ==> xs[k] == ""
    decreases |xs|
  {
    if xs != [] {
      NonEmptyNone(xs[1..]);
      assert forall k :: 1 <= k < |xs| ==> xs[k] == xs[1..][k - 1];
    }
  }

  /** The values are non-empty and already normalised. */
  lemma ValuesNormal(t: Option<TimeOfDay>)
    ensures forall v :: v in Values(t) ==> v != "" && Normalise(v) == v
  {
    var slots := Slots(t);
    var normal := Map(Normalise, slots);
    forall v | v in NonEmpty(normal) ensures v != "" && Normalise(v) == v {
      NormalisedIsNormal(slots, v);
    }
  }

  lemma NormalisedIsNormal(xs: seq<string>, v: string)
    requires v in Map(Normalise, xs)
    ensures Normalise(v) == v
  {
    var k :| 0 <= k < |xs| && Map(Normalise, xs)[k] == v;
    MapAt(Normalise, xs, k);
    NormaliseIdempotent(xs[k]);
  }

  /** There are no values exactly when the habit has no time of day or
      only blank names. */
  lemma ValuesEmpty(t: Option<TimeOfDay>)
    ensures Values(t) == [] <==> forall k :: 0 <= k < |Slots(t)| ==> IsBlank(Slots(t)[k])
  {
    var slots := Slots(t);
    var normal := Map(Normalise, slots);
    forall k | 0 <= k < |slots| ensures normal[k] == "" <==> IsBlank(slots[k]) {
      NormaliseEmptyIffBlank(slots[k]);
    }
    NonEmptyNone(normal);
  }

  /** A habit with no time-of-day values shows under every filter. */
  lemma NoValuesMatchAll(t: Option<TimeOfDay>, filter: string)
    requires t.None? || forall k :: 0 <= k < |Slots(t)| ==> IsBlank(Slots(t)[k])
    ensures HabitMatches(t, filter)
  {
    ValuesEmpty(t);
  }

  /** Every habit shows under each of its own slot names. */
  lemma MatchesOwnSlot(t: Option<TimeOfDay>, v: string)
    requires v in Values(t)
    ensures HabitMatches(t, v)
  {
    ValuesNormal(t);
  }

  /** The filter's case and surrounding whitespace do not matter. */
  lemma MatchIgnoresCaseAndPadding(t: Option<TimeOfDay>, pad: string, filter: string, pad2: string)
    requires IsBlank(pad) && IsBlank(pad2)
    ensures HabitMatches(t, pad + ToUpper(filter) + pad2) == HabitMatches(t, filter)
  {
    NormaliseIgnoresCaseAndPadding(pad, filter, pad2);
  }

  /** A value with a whitespace run between two words shows under the
      filter that has a dash there instead, whatever the run's length. */
  lemma RunMatchesDash(t: Option<TimeOfDay>, a: string, sep: string, b: string, filter: string)
    requires a + sep + b in Values(t)
    requires a == [] || !IsSpace(a[|a| - 1])
    requires sep != [] && IsBlank(sep) && (b == [] || !IsSpace(b[0]))
    requires Normalise(filter) == a + "-" + b
    ensures HabitMatches(t, filter)
  {
    DashSpacesRun(a, sep, b);
    assert Agree(a + sep + b, Normalise(filter));
  }
}
