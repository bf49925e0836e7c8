/** The editor of one habit's log for one day: a status, a value or a
    number of minutes (for number and duration habits) and a note, saved
    as a log entry whose optional keys depend on the habit's type, or
    cleared. */
module CellEditor {
  import opened Wrappers

  datatype LogStatus = Completed | Skipped | Missed

  datatype HabitType = Checkbox | Number | Duration

  /** An optional number key of the entry: missing, present with the value
      `undefined`, or present with a number. */
  datatype NumberKey = Missing | Undef | Given(n: int)

  /** `LogEntry`; the integers stand for the numbers the inputs read. */
  datatype LogEntry = LogEntry(status: LogStatus, value: NumberKey, durationMinutes: NumberKey, note: Option<string>)

  /** The editor's state. */
  datatype Editor = Editor(status: LogStatus, value: int, durationMinutes: int, note: string, showNote: bool)

  /** `key || 0` for a number key that may be missing. */
  function NumberOr0(k: NumberKey): (n: int)
    ensures k.Given? && k.n != 0 ==> n == k.n
    ensures !k.Given? || k.n == 0 ==> n == 0
  {
    if k.Given? then k.n else 0
  }

  /** The state the editor opens with, from the day's entry if it has one:
      its status, or `completed`; its numbers, or 0; its note, or nothing,
      the note field open when there is a note. */
  function Opened(initial: Option<LogEntry>): (e: Editor)
    ensures initial.None? ==> e == Editor(Completed, 0, 0, "", false)
    ensures initial.Some? ==> e.status == initial.value.status
    ensures initial.Some? ==> e.value == NumberOr0(initial.value.value) && e.durationMinutes == NumberOr0(initial.value.durationMinutes)
    ensures e.showNote <==> e.note != ""
  {
    match initial
    case None => Editor(Completed, 0, 0, "", false)
    case Some(entry) =>
      var note := if entry.note.Some? then entry.note.value else "";
      Editor(entry.status, NumberOr0(entry.value), NumberOr0(entry.durationMinutes), note, note != "")
  }

  /** `v > 0 ? v : undefined` */
  function Positive(v: int): (k: NumberKey)
    ensures k != Missing
    ensures v > 0 <==> k.Given?
    ensures k.Given? ==> k.n == v
  {
    if v > 0 then Given(v) else Undef
  }

  /** `handleSave`: the status always; the value key for number habits
      only and the minutes key for duration habits only, each `undefined`
      unless positive; the note only when it is not empty. */
  function Saved(habitType: HabitType, e: Editor): (entry: LogEntry)
    ensures entry.status == e.status
    ensures entry.value != Missing <==> habitType == Number
    ensures entry.durationMinutes != Missing <==> habitType == Duration
    ensures habitType == Number ==> entry.value == Positive(e.value)
    ensures habitType == Duration ==> entry.durationMinutes == Positive(e.durationMinutes)
    ensures entry.note.Some? <==> e.note != ""
    ensures entry.note.Some? ==> entry.note.value == e.note
  {
    LogEntry(
      e.status,
      if habitType == Number then Positive(e.value) else Missing,
      if habitType == Duration then Positive(e.durationMinutes) else Missing,
      if e.note != "" then Some(e.note) else None)
  }

  /** What `onSave` receives: `Clear` sends `null`. */
  datatype Action = Save | Clear

  function Result(habitType: HabitType, e: Editor, action: Action): (r: Option<LogEntry>)
    ensures r.None? <==> action == Clear
    ensures r.Some? ==> r.value == Saved(habitType, e)
  {
    if action == Clear then None else Some(Saved(habitType, e))
  }

  /** An entry as this editor saves it for a habit of the given type. */
  predicate SavedShape(habitType: HabitType, entry: LogEntry) {
    (entry.value != Missing <==> habitType == Number)
    && (entry.durationMinutes != Missing <==> habitType == Duration)
    && (entry.value.Given? ==> entry.value.n > 0)
    && (entry.durationMinutes.Given? ==> entry.durationMinutes.n > 0)
    && (entry.note.Some? ==> entry.note.value != "")
  }

  /** Every saved entry has that shape. */
  lemma SavedHasShape(habitType: HabitType, e: Editor)
    ensures SavedShape(habitType, Saved(habitType, e))
  {
  }

  /** Opening the editor on an entry of that shape and saving at once
      gives back the same entry. */
  lemma ReopenSave(habitType: HabitType, entry: LogEntry)
    requires SavedShape(habitType, entry)
    ensures Saved(habitType, Opened(Some(entry))) == entry
  {
    var e := Opened(Some(entry));
    if entry.value == Undef {
      assert e.value == 0;
    }
    if entry.durationMinutes == Undef {
      assert e.durationMinutes == 0;
    }
  }

  /** Opening a blank day and saving gives a completed log with no note. */
  lemma FreshSave(habitType: HabitType)
    ensures var entry := Saved(habitType, Opened(None));
      entry.status == Completed && entry.note.None?
      && (habitType == Number ==> entry.value == Undef)
      && (habitType == Duration ==> entry.durationMinutes == Undef)
  {
  }
}
