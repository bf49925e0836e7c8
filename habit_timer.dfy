/** The habit timer dialog: a clock display of the elapsed seconds and a
    stopwatch that counts one second per tick while it runs. */
module HabitTimer {
  import opened Strings

  /** A clock field: the numeral padded with zeros to two digits. */
  function Pad2(n: nat): string {
    PadStart(NatToString(n), 2, '0')
  }

  /** A padded field is a numeral of at least two digits that reads back
      as the number; below 100 it has exactly two. */
  lemma Pad2Value(n: nat)
    ensures AllDigits(Pad2(n)) && |Pad2(n)| >= 2 && DigitsValue(Pad2(n)) == n
    ensures n < 100 ==> |Pad2(n)| == 2
  {
    var digits := NatToString(n);
    NatToStringValue(n);
    if |digits| < 2 {
      var r := Pad2(n);
      assert r == "0" + digits;
      assert r[..|r| - 1] == "0";
      assert DigitsValue("0") == 0 by {
        assert "0"[..0] == [];
      }
      assert digits[..0] == [];
    }
  }

  /** The hours, minutes and seconds of a duration in seconds. */
  function Clock(seconds: nat): (hms: (nat, nat, nat))
    ensures 3600 * hms.0 + 60 * hms.1 + hms.2 == seconds
    ensures hms.1 < 60 && hms.2 < 60
  {
    (seconds / 3600, (seconds % 3600) / 60, seconds % 60)
  }

  /** `formatTime(seconds)`: `HH:MM:SS` when there is at least an hour,
      `MM:SS` otherwise. */
  function FormatTime(seconds: nat): string {
    var (h, m, s) := Clock(seconds);
    if h > 0 then Pad2(h) + ":" + Pad2(m) + ":" + Pad2(s) else Pad2(m) + ":" + Pad2(s)
  }

  /** Reading the fields of the display back gives the clock of the
      duration: under an hour five characters `MM:SS`; otherwise at least
      eight, the hours before the last six `:MM:SS`. */
  lemma FormatTimeReadsBack(seconds: nat)
    ensures var r, hms := FormatTime(seconds), Clock(seconds);
      var tail := r[|r| - 5..];
      |r| >= 5 && tail[2] == ':' && AllDigits(tail[..2]) && AllDigits(tail[3..])
      && DigitsValue(tail[..2]) == hms.1 && DigitsValue(tail[3..]) == hms.2
      && (hms.0 == 0 <==> |r| == 5)
      && (hms.0 > 0 ==> |r| >= 8 && r[|r| - 6] == ':' && AllDigits(r[..|r| - 6]) && DigitsValue(r[..|r| - 6]) == hms.0)
  {
    var (h, m, s) := Clock(seconds);
    Pad2Value(h);
    Pad2Value(m);
    Pad2Value(s);
    SplitMinutes(Pad2(m), Pad2(s));
    if h > 0 {
      SplitHours(Pad2(h), Pad2(m), Pad2(s));
    }
  }

  /** `MM:SS` splits back into its two fields. */
  lemma SplitMinutes(mm: string, ss: string)
    requires |mm| == 2 && |ss| == 2
    ensures var t := mm + ":" + ss; |t| == 5 && t[2] == ':' && t[..2] == mm && t[3..] == ss
  {
    var t := mm + ":" + ss;
    assert t[..2] == mm && t[3..] == ss;
  }

  /** `HH:MM:SS` ends in `MM:SS`, after the hours and a colon. */
  lemma SplitHours(hh: string, mm: string, ss: string)
    requires |mm| == 2 && |ss| == 2
    ensures var r := hh + ":" + mm + ":" + ss;
      r[|r| - 5..] == mm + ":" + ss && r[|r| - 6] == ':' && r[..|r| - 6] == hh
  {
    var r := hh + ":" + mm + ":" + ss;
    assert r[|r| - 5..] == mm + ":" + ss && r[..|r| - 6] == hh;
  }

  /** The timer's state. */
  datatype Watch = Watch(seconds: nat, running: bool)

  /** One second of the interval: it only fires while running. */
  function Elapse(w: Watch): Watch {
    if w.running then w.(seconds := w.seconds + 1) else w
  }

  /** `n` seconds of wall-clock time. */
  function ElapseFor(w: Watch, n: nat): Watch
    decreases n
  {
    if n == 0 then w else ElapseFor(Elapse(w), n - 1)
  }

  /** A running timer counts every second; a stopped one holds. */
  lemma {:induction false} TicksCount(w: Watch, n: nat)
    ensures ElapseFor(w, n) == if w.running then w.(seconds := w.seconds + n) else w
    decreases n
  {
    if n > 0 {
      TicksCount(Elapse(w), n - 1);
    }
  }

  class Timer {
    var seconds: nat
    var running: bool

    /** The dialog opens stopped at `initialSeconds`. */
    constructor (initialSeconds: nat)
      ensures seconds == initialSeconds && !running
    {
      seconds, running := initialSeconds, false;
    }

    function State(): Watch
      reads this
    {
      Watch(seconds, running)
    }

    /** `setSeconds((s) => s + 1)` from the interval. */
    method Tick()
      modifies this
      ensures State() == Elapse(old(State()))
    {
      if running {
        seconds := seconds + 1;
      }
    }

    /** `toggleTimer` */
    method Toggle()
      modifies this
      ensures running == !old(running) && seconds == old(seconds)
    {
      running := !running;
    }

    /** `handleSave`: stops the timer and reports the seconds counted. */
    method Save() returns (reported: nat)
      modifies this
      ensures reported == old(seconds) && seconds == old(seconds) && !running
    {
      running := false;
      reported := seconds;
    }
  }
}
