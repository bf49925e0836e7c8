/** One habit's row on the dashboard: the progress colour and text, the
    keyboard shortcuts of its status menu, today's badge and the icon. */
module HabitRow {
  import opened Wrappers
  import opened Strings
  import opened Js
  import opened Avatar
  import opened CellEditor

  // ---------------------------------------------------------------------
  // Progress
  // ---------------------------------------------------------------------

  datatype Tone = Green | Blue

  /** `getProgressColor`: green for a habit marked completed or one whose
      count has reached its goal, blue otherwise. */
  function ProgressColor(completed: bool, done: int, goal: int): (c: Tone) {
    if completed then Green else if done >= goal then Green else Blue
  }

  /** The colour turns green exactly at the goal, and doing more never
      turns it back. */
  lemma ProgressColorCases(completed: bool, done: int, goal: int)
    ensures ProgressColor(completed, done, goal) == Green <==> completed || done >= goal
    ensures ProgressColor(completed, done, goal) == Green ==> ProgressColor(completed, done + 1, goal) == Green
    ensures ProgressColor(completed, done, goal) == Blue ==> ProgressColor(true, done, goal) == Green
  {
  }

  /** `habit.unit ? ' ' + habit.unit : ''` */
  function UnitSuffix(unit: Option<string>): (r: string)
    ensures r == [] || r[0] == ' '
  {
    if Truthy(unit) then " " + unit.value else ""
  }

  /** What follows the count in the progress text: the unit, the goal
      and the unit again for number habits, `min` for duration habits and
      `times` for the others. */
  function AfterCount(t: HabitType, goal: int, unit: Option<string>): (r: string)
    ensures r != [] && !IsDigit(r[0])
  {
    match t
    case Number => UnitSuffix(unit) + " / " + IntToString(goal) + UnitSuffix(unit)
    case Duration => "min / " + IntToString(goal) + "min"
    case Checkbox => "/" + IntToString(goal) + " times"
  }

  /** `getProgressText` */
  function ProgressText(t: HabitType, done: nat, goal: int, unit: Option<string>): (r: string) {
    NatToString(done) + AfterCount(t, goal, unit)
  }

  /** `parseInt` reads an integer's text back, whatever non-digit text
      follows it. */
  lemma ParseIntOfText(i: int, tail: string)
    requires tail == [] || !IsDigit(tail[0])
    ensures ParseInt(IntToString(i) + tail) == Some(i)
  {
    TextReadsBack(IntToString(i) + tail, i, tail);
  }

  /** The same, for any text `s` known to be the numeral and the tail. */
  lemma TextReadsBack(s: string, i: int, tail: string)
    requires s == IntToString(i) + tail
    requires tail == [] || !IsDigit(tail[0])
    ensures ParseInt(s) == Some(i)
  {
    var n: nat := if i < 0 then -i else i;
    var digits := NatToString(n);
    SignOfText(s, i, tail);
    LeadingDigitsOfNumeral(digits, tail);
    NatToStringValue(n);
    ReadSigned(s, if i < 0 then -1 else 1, digits + tail, digits);
  }

  /** The numeral's sign, then its digits and the tail. */
  lemma SignOfText(s: string, i: int, tail: string)
    requires s == IntToString(i) + tail
    ensures StripSign(TrimStart(s)) == (if i < 0 then -1 else 1, NatToString(if i < 0 then -i else i) + tail)
  {
    if i < 0 {
      Assoc("-", NatToString(-i), tail);
      MinusSign(NatToString(-i) + tail);
    } else {
      var digits := NatToString(i);
      assert s[0] == digits[0] && IsDigit(digits[0]);
      TrimStartNoSpace(s);
    }
  }

  /** A leading minus sign is read as the sign, before the rest. */
  lemma MinusSign(rest: string)
    ensures StripSign(TrimStart("-" + rest)) == (-1, rest)
  {
    var s := "-" + rest;
    assert s[0] == '-' && s[1..] == rest;
    TrimStartNoSpace(s);
  }

  /** The text starts with the count, which reads back as the count. */
  lemma ProgressReadsDone(t: HabitType, done: nat, goal: int, unit: Option<string>)
    ensures ParseInt(ProgressText(t, done, goal, unit)) == Some(done)
  {
    TextReadsBack(ProgressText(t, done, goal, unit), done, AfterCount(t, goal, unit));
  }

  /** For a checkbox habit the count is followed by `/` and by text that
      reads back as the goal. */
  lemma ProgressReadsGoal(done: nat, goal: int)
    ensures exists rest ::
      (ProgressText(Checkbox, done, goal, None) == NatToString(done) + "/" + rest && ParseInt(rest) == Some(goal))
  {
    var rest := IntToString(goal) + " times";
    CheckboxText(done, goal);
    ParseIntOfText(goal, " times");
    assert ProgressText(Checkbox, done, goal, None) == NatToString(done) + "/" + rest;
  }

  /** A checkbox habit's text: the count, `/`, the goal and ` times`. */
  lemma CheckboxText(done: nat, goal: int)
    ensures ProgressText(Checkbox, done, goal, None) == NatToString(done) + "/" + (IntToString(goal) + " times")
  {
    Assoc("/", IntToString(goal), " times");
    Assoc(NatToString(done), "/", IntToString(goal) + " times");
  }

  // ---------------------------------------------------------------------
  // The status menu and today's badge
  // ---------------------------------------------------------------------

  /** The status reports a key press makes: none unless the menu is open;
      Alt+d, Alt+s and Alt+f report completed, skipped and missed. */
  function KeyReports(menuOpen: bool, altKey: bool, key: string): (r: seq<LogStatus>) {
    if !menuOpen then []
    else
      (if altKey && key == "d" then [Completed] else [])
      + (if altKey && key == "s" then [Skipped] else [])
      + (if altKey && key == "f" then [Missed] else [])
  }

  /** The key that reports a status. */
  function KeyOf(s: LogStatus): (k: string)
    ensures |k| == 1
  {
    match s
    case Completed => "d"
    case Skipped => "s"
    case Missed => "f"
  }

  /** A key press reports at most one status, only with the menu open and
      Alt held, and exactly the status whose key it is. */
  lemma KeyReportsOne(menuOpen: bool, altKey: bool, key: string)
    ensures |KeyReports(menuOpen, altKey, key)| <= 1
    ensures KeyReports(menuOpen, altKey, key) != [] ==> menuOpen && altKey
    ensures forall s :: KeyReports(menuOpen, altKey, key) == [s] <==> menuOpen && altKey && key == KeyOf(s)
  {
    assert "d" != "s" && "d" != "f" && "s" != "f";
    assert "d"[0] != "s"[0] && "d"[0] != "f"[0] && "s"[0] != "f"[0];
  }

  /** Today's badge: none without a status; `Done`, `Skipped`, and `Failed`
      for any other. */
  function Badge(today: Option<LogStatus>): (b: Option<string>)
    ensures b.None? <==> today.None?
  {
    match today
    case None => None
    case Some(Completed) => Some("Done")
    case Some(Skipped) => Some("Skipped")
    case Some(_) => Some("Failed")
  }

  /** The three statuses have three different badges. */
  lemma BadgesDiffer(a: LogStatus, b: LogStatus)
    requires Badge(Some(a)) == Badge(Some(b))
    ensures a == b
  {
    assert "Done"[0] != "Skipped"[0] && "Done"[0] != "Failed"[0] && "Skipped"[0] != "Failed"[0];
  }

  // ---------------------------------------------------------------------
  // The icon
  // ---------------------------------------------------------------------

  datatype RowIcon = Wrench | Run | Letter(text: string)

  /** A wrench for a name that mentions `to-do`, a runner for the name
      `test` (in any case), and otherwise the name's first character
      upper-cased. */
  function IconOf(name: string): (i: RowIcon)
    ensures i.Letter? <==> !Contains(ToLower(name), "to-do") && ToLower(name) != "test"
    ensures i.Letter? ==> |i.text| <= 1 && (i.text == "" <==> name == "")
    ensures i.Letter? && name != [] ==> i.text == [UpperChar(name[0])]
  {
    var lower := ToLower(name);
    if Contains(lower, "to-do") then Wrench else if lower == "test" then Run else Letter(FirstUpper(name))
  }
}
