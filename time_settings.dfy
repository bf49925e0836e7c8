/** The time-of-day settings screen: the icon chosen for a slot, the
    timeline's reading of `HH:MM` times, the default slots, and the form
    that adds a slot (at most ten). */
module TimeOfDaySettings {
  import opened Wrappers
  import opened Strings
  import opened Js

  // ---------------------------------------------------------------------
  // The slot icon
  // ---------------------------------------------------------------------

  datatype Icon = Sun | Moon | Cloud

  /** `getIconForSlot`: the icon name, lower-cased, decides: one that
      mentions `moon` is a moon, else one that mentions `cloud` a cloud,
      and anything else, a missing name included, the sun. */
  function IconFor(icon: Option<string>): (i: Icon)
    ensures var l := ToLower(OrElse(icon, ""));
      (i == Moon <==> Contains(l, "moon")) && (i == Cloud <==> !Contains(l, "moon") && Contains(l, "cloud"))
  {
    var l := ToLower(OrElse(icon, ""));
    if Contains(l, "moon") then Moon else if Contains(l, "cloud") then Cloud else Sun
  }

  /** The icon does not depend on the case of its name, and no name is
      the sun. */
  lemma IconIgnoresCase(s: string)
    ensures IconFor(Some(ToUpper(s))) == IconFor(Some(s))
    ensures IconFor(None) == Sun && IconFor(Some("")) == Sun
  {
    LowerOfUpper(s);
    assert ToUpper("") == "";
    assert ToLower("") == "";
  }

  // ---------------------------------------------------------------------
  // Times on the timeline
  // ---------------------------------------------------------------------

  /** `timeToMinutes`: the hours and the minutes around the first `:`,
      read by `Number`; a missing minute part counts as 0. `None` is
      `NaN`. */
  function TimeToMinutes(t: string): (r: Option<int>)
  {
    var parts := Split(t, ":");
    var h := NumberOf(parts[0]);
    var m := if |parts| >= 2 then NumberOf(parts[1]) else Some(0);
    if h.Some? && m.Some? then Some(60 * h.value + m.value) else None
  }

  /** The timeline's end of a slot: `00:00` is the end of the day. */
  function EndMinutes(endTime: string): (r: Option<int>)
    ensures endTime == "00:00" ==> r == Some(24 * 60)
  {
    if endTime == "00:00" then Some(24 * 60) else TimeToMinutes(endTime)
  }

  lemma DigitsHaveNoColon(s: string)
    requires AllDigits(s)
    ensures forall j: nat :: !OccursAt(s, ":", j)
  {
    forall j: nat ensures !OccursAt(s, ":", j) {
      if j + 1 <= |s| {
        assert s[j..j + 1][0] == s[j];
      }
    }
  }

  /** A string with no `:` splits into itself. */
  lemma SplitNoColon(s: string)
    requires forall j: nat :: !OccursAt(s, ":", j)
    ensures Split(s, ":") == [s]
  {
  }

  /** Two colon-free parts around one `:` are the two pieces. */
  lemma SplitOneColon(a: string, b: string)
    requires forall j: nat :: !OccursAt(a, ":", j)
    requires forall j: nat :: !OccursAt(b, ":", j)
    ensures Split(a + ":" + b, ":") == [a, b]
  {
    var s := a + ":" + b;
    assert OccursAt(s, ":", |a|) by {
      assert s[|a|..|a| + 1] == ":";
    }
    forall j: nat | j < |a| ensures !OccursAt(s, ":", j) {
      assert !OccursAt(a, ":", j);
      assert s[j..j + 1] == a[j..j + 1];
    }
    assert IndexOf(s, ":") == Some(|a|);
    assert s[..|a|] == a && s[|a| + 1..] == b;
    SplitNoColon(b);
  }

  lemma SplitClock(hh: string, mm: string)
    requires AllDigits(hh) && AllDigits(mm)
    ensures Split(hh + ":" + mm, ":") == [hh, mm]
  {
    DigitsHaveNoColon(hh);
    DigitsHaveNoColon(mm);
    SplitOneColon(hh, mm);
  }

  /** The minutes of a time split into two pieces that read as numbers. */
  lemma TwoPieceMinutes(t: string, hh: string, mm: string, h: int, m: int)
    requires Split(t, ":") == [hh, mm] && NumberOf(hh) == Some(h) && NumberOf(mm) == Some(m)
    ensures TimeToMinutes(t) == Some(60 * h + m)
  {
  }

  /** `HH:MM` in digits is sixty times the hours plus the minutes. */
  lemma ClockMinutes(hh: string, mm: string)
    requires |hh| > 0 && AllDigits(hh) && |mm| > 0 && AllDigits(mm)
    ensures TimeToMinutes(hh + ":" + mm) == Some(60 * DigitsValue(hh) + DigitsValue(mm))
  {
    SplitClock(hh, mm);
    NumberOfNumeral(hh);
    NumberOfNumeral(mm);
    TwoPieceMinutes(hh + ":" + mm, hh, mm, DigitsValue(hh), DigitsValue(mm));
  }

  /** Hours alone, with no `:`, are whole hours. */
  lemma HoursOnly(hh: string)
    requires |hh| > 0 && AllDigits(hh)
    ensures TimeToMinutes(hh) == Some(60 * DigitsValue(hh))
  {
    DigitsHaveNoColon(hh);
    SplitNoColon(hh);
    NumberOfNumeral(hh);
  }

  // ---------------------------------------------------------------------
  // The default slots
  // ---------------------------------------------------------------------

  /** A slot as the screen asks for it to be created. */
  datatype NewSlot = NewSlot(name: string, icon: string, startTime: string, endTime: string, color: string, sortOrder: int)

  const DefaultSlots: seq<NewSlot> := [
    NewSlot("Morning", "cloud", "00:00", "12:00", "#93C5FD", 0),
    NewSlot("Afternoon", "sun", "12:00", "18:00", "#FDBA74", 1),
    NewSlot("Evening", "moon", "18:00", "00:00", "#C4B5FD", 2)]

  /** A whole hour `HH:00` is sixty minutes per hour. The times below are
      passed in as `t` rather than written into the statement. */
  lemma OnTheHour(hh: string, t: string)
    requires |hh| > 0 && AllDigits(hh) && t == hh + ":" + "00"
    ensures TimeToMinutes(t) == Some(60 * DigitsValue(hh))
  {
    ClockMinutes(hh, "00");
    assert DigitsValue("00") == 0 by {
      assert "00"[..1] == "0" && "0"[..0] == [];
    }
  }

  /** The three times the default slots use. */
  lemma Midnight(t: string)
    requires t == "00:00"
    ensures TimeToMinutes(t) == Some(0)
  {
    assert "00:00" == "00" + ":" + "00";
    OnTheHour("00", t);
    assert "00"[..1] == "0" && "0"[..0] == [];
  }

  lemma Noon(t: string)
    requires t == "12:00"
    ensures TimeToMinutes(t) == Some(12 * 60)
  {
    assert "12:00" == "12" + ":" + "00";
    OnTheHour("12", t);
    assert "12"[..1] == "1" && "1"[..0] == [];
  }

  lemma SixPm(t: string)
    requires t == "18:00"
    ensures TimeToMinutes(t) == Some(18 * 60)
  {
    assert "18:00" == "18" + ":" + "00";
    OnTheHour("18", t);
    assert "18"[..1] == "1" && "1"[..0] == [];
  }

  /** The default slots tile the day on the timeline: the first starts at
      midnight, each ends where the next starts, and the last runs to the
      end of the day; their sort orders are their positions. */
  lemma DefaultSlotsTile()
    ensures TimeToMinutes(DefaultSlots[0].startTime) == Some(0)
    ensures forall k :: 0 <= k < |DefaultSlots| - 1 ==>
      EndMinutes(DefaultSlots[k].endTime) == TimeToMinutes(DefaultSlots[k + 1].startTime)
    ensures EndMinutes(DefaultSlots[|DefaultSlots| - 1].endTime) == Some(24 * 60)
    ensures forall k :: 0 <= k < |DefaultSlots| ==> DefaultSlots[k].sortOrder == k
  {
    Midnight(DefaultSlots[0].startTime);
    Noon(DefaultSlots[1].startTime);
    SixPm(DefaultSlots[2].startTime);
    assert "12:00"[0] != "00:00"[0] && "18:00"[0] != "00:00"[0];
    assert EndMinutes("12:00") == Some(12 * 60) && EndMinutes("18:00") == Some(18 * 60);
  }

  // ---------------------------------------------------------------------
  // Adding a slot
  // ---------------------------------------------------------------------

  const MaxSlots := 10

  /** `canAdd`: the form is offered while there are fewer than ten slots. */
  predicate CanAdd(slotCount: nat) {
    slotCount < MaxSlots
  }

  /** The slot the form asks for: a name that is not blank, trimmed; the
      sun icon; the times and colour entered; the next sort order. */
  function Request(name: string, start: string, end: string, color: string, slotCount: nat): (r: Option<NewSlot>)
    ensures r.Some? <==> !IsBlank(name)
    ensures r.Some? ==> r.value.name == Trim(name) && r.value.name != "" && r.value.sortOrder == slotCount
    ensures r.Some? ==> r.value.icon == "sun" && r.value.startTime == start && r.value.endTime == end && r.value.color == color
  {
    TrimEmptyIffBlank(name);
    if Trim(name) == "" then None else Some(NewSlot(Trim(name), "sun", start, end, color, slotCount))
  }

  class AddForm {
    var name: string
    var start: string
    var end: string
    var color: string
    var open: bool

    /** The form's state as it is when cleared. */
    predicate Cleared()
      reads this
    {
      name == "" && start == "08:00" && end == "12:00" && color == "#93C5FD" && !open
    }

    constructor ()
      ensures Cleared()
    {
      name, start, end, color, open := "", "08:00", "12:00", "#93C5FD", false;
    }

    /** `+ Add more...`, shown only while another slot is allowed. */
    method Open(slotCount: nat)
      modifies this
      ensures open == (old(open) || CanAdd(slotCount))
      ensures name == old(name) && start == old(start) && end == old(end) && color == old(color)
    {
      if CanAdd(slotCount) {
        open := true;
      }
    }

    /** `handleAdd`: asks for the slot, then clears the form when the slot
        came back created (`created`, the answer of the request). A blank
        name asks for nothing and changes nothing. */
    method Add(slotCount: nat, created: bool) returns (request: Option<NewSlot>)
      modifies this
      ensures request == Request(old(name), old(start), old(end), old(color), slotCount)
      ensures request.Some? && created ==> Cleared()
      ensures request.None? || !created ==>
        name == old(name) && start == old(start) && end == old(end) && color == old(color) && open == old(open)
    {
      request := Request(name, start, end, color, slotCount);
      if request.Some? && created {
        name, start, end, color, open := "", "08:00", "12:00", "#93C5FD", false;
      }
    }
  }

  /** The `Add default` button, shown while there are no slots: asks for
      the default slots one after another. */
  method AddDefaults() returns (requests: seq<NewSlot>)
    ensures requests == DefaultSlots
  {
    requests := [];
    var i := 0;
    while i < |DefaultSlots|
      invariant 0 <= i <= |DefaultSlots| && requests == DefaultSlots[..i]
    {
      requests := requests + [DefaultSlots[i]];
      i := i + 1;
    }
  }
}
