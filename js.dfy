/** The pieces of JavaScript's runtime semantics the application leans on:
    thrown values, an async call's outcome, string truthiness and the two
    integer readers `parseInt` and `Number`. */
module Js {
  import opened Wrappers
  import opened Strings

  /** An error object from the database REST layer (`{ code, message }`).
      It is a plain object, not an `Error` instance. */
  datatype BackendError = BackendError(code: Option<string>, message: string)

  /** What a `throw` carries: an `Error` built with a message, or a backend
      error object rethrown as is. */
  datatype Thrown = JsError(message: string) | Rejected(error: BackendError)

  /** How an awaited call ends: it returns a value or it throws. */
  datatype Outcome<T> = Returned(value: T) | Threw(thrown: Thrown) {
    predicate IsReturned() { Returned? }
  }

  /** `err instanceof Error ? err.message : fallback` */
  function ErrorMessageOr(t: Thrown, fallback: string): (m: string)
    ensures t.JsError? ==> m == t.message
    ensures t.Rejected? ==> m == fallback
  {
    match t
    case JsError(msg) => msg
    case Rejected(_) => fallback
  }

  /** A string-valued slot that is present and non-empty, i.e. truthy. */
  predicate Truthy(o: Option<string>) {
    o.Some? && o.value != ""
  }

  /** `a || fallback` for an optional string `a`. */
  function OrElse(o: Option<string>, fallback: string): (r: string)
    ensures Truthy(o) ==> r == o.value
    ensures !Truthy(o) ==> r == fallback
  {
    if Truthy(o) then o.value else fallback
  }

  // ---------------------------------------------------------------------
  // parseInt and Number, restricted to decimal integers
  // ---------------------------------------------------------------------

  /** The longest prefix of `s` made of decimal digits. */
  function LeadingDigits(s: string): (d: string)
    ensures |d| <= |s| && d == s[..|d|] && AllDigits(d)
    ensures |d| < |s| ==> !IsDigit(s[|d|])
    decreases |s|
  {
    if |s| > 0 && IsDigit(s[0]) then [s[0]] + LeadingDigits(s[1..]) else []
  }

  lemma {:induction false} LeadingDigitsOfDigits(s: string)
    requires AllDigits(s)
    ensures LeadingDigits(s) == s
    decreases |s|
  {
    if |s| > 0 {
      LeadingDigitsOfDigits(s[1..]);
    }
  }

  /** The text after an optional leading `+` or `-`, and the sign it gives. */
  function StripSign(s: string): (r: (int, string))
    ensures r.0 == 1 || r.0 == -1
    ensures r.0 == -1 <==> (|s| > 0 && s[0] == '-')
    ensures (|s| > 0 && (s[0] == '-' || s[0] == '+')) ==> r.1 == s[1..]
    ensures !(|s| > 0 && (s[0] == '-' || s[0] == '+')) ==> r.1 == s
  {
    if |s| > 0 && s[0] == '-' then (-1, s[1..])
    else if |s| > 0 && s[0] == '+' then (1, s[1..])
    else (1, s)
  }

  /** A magnitude with the sign `StripSign` found. */
  function Signed(sign: int, v: nat): int {
    if sign < 0 then -(v as int) else v
  }

  /** `parseInt(s)` (base 10): leading whitespace, an optional sign and the
      digits that follow; anything after them is ignored. `None` is `NaN`. */
  function ParseInt(s: string): (r: Option<int>)
    ensures r.None? <==> LeadingDigits(StripSign(TrimStart(s)).1) == []
  {
    var (sign, rest) := StripSign(TrimStart(s));
    var digits := LeadingDigits(rest);
    if digits == [] then None else Some(Signed(sign, DigitsValue(digits)))
  }

  /** `parseInt` stops at the first character that is not a digit. */
  lemma ParseIntIgnoresTail(digits: string, tail: string)
    requires |digits| > 0 && AllDigits(digits)
    requires tail == [] || !IsDigit(tail[0])
    ensures ParseInt(digits + tail) == Some(DigitsValue(digits))
  {
    var s := digits + tail;
    assert s[0] == digits[0];
    assert IsDigit(s[0]);
    TrimStartNoSpace(s);
    assert StripSign(s) == (1, s);
    LeadingDigitsOfNumeral(digits, tail);
  }

  lemma LeadingDigitsOfNumeral(digits: string, tail: string)
    requires AllDigits(digits)
    requires tail == [] || !IsDigit(tail[0])
    ensures LeadingDigits(digits + tail) == digits
  {
    var s := digits + tail;
    assert s[..|digits|] == digits;
  }

  /** Reading back the numeral of any integer gives that integer. */
  lemma ParseIntOfIntToString(i: int)
    ensures ParseInt(IntToString(i)) == Some(i)
  {
    if i < 0 {
      NegativeNumeral(-i);
    } else {
      PositiveNumeral(i);
    }
  }

  lemma PositiveNumeral(n: nat)
    ensures ParseInt(NatToString(n)) == Some(n)
  {
    var digits := NatToString(n);
    NatToStringValue(n);
    ParseIntIgnoresTail(digits, []);
    assert digits + [] == digits;
  }

  lemma NegativeNumeral(n: int)
    requires n > 0
    ensures ParseInt(IntToString(-n)) == Some(-n)
  {
    var digits := NatToString(n);
    NatToStringValue(n);
    var s := IntToString(-n);
    assert s == "-" + digits;
    assert s[0] == '-' && s[1..] == digits;
    TrimStartNoSpace(s);
    assert StripSign(s).1 == digits;
    LeadingDigitsOfDigits(digits);
    assert LeadingDigits(StripSign(TrimStart(s)).1) == digits;
  }

  /** `parseInt` once its sign and its digits are known. */
  lemma ReadSigned(s: string, sign: int, rest: string, digits: string)
    requires StripSign(TrimStart(s)) == (sign, rest)
    requires LeadingDigits(rest) == digits && digits != []
    ensures ParseInt(s) == Some(Signed(sign, DigitsValue(digits)))
  {
  }

  /** `Number(s)` for strings: surrounding whitespace is ignored, the empty
      string is 0, an optional sign and decimal digits give their value and
      anything else is `NaN` (`None`). */
  function NumberOf(s: string): (r: Option<int>)
    decreases |s|
  {
    if s != [] && IsSpace(s[0]) then NumberOf(s[1..])
    else if s != [] && IsSpace(s[|s| - 1]) then NumberOf(s[..|s| - 1])
    else if s == [] then Some(0)
    else
      var (sign, rest) := StripSign(s);
      if rest != [] && AllDigits(rest) then Some(Signed(sign, DigitsValue(rest))) else None
  }

  /** A blank string is 0. */
  lemma {:induction false} NumberOfBlank(s: string)
    requires IsBlank(s)
    ensures NumberOf(s) == Some(0)
    decreases |s|
  {
    if s != [] {
      assert IsBlank(s[1..]) by {
        forall i | 0 <= i < |s| - 1 ensures IsSpace(s[1..][i]) {
          assert s[1..][i] == s[i + 1];
        }
      }
      NumberOfBlank(s[1..]);
    }
  }

  /** `Number` reads back every numeral. */
  lemma NumberOfNatToString(n: nat)
    ensures NumberOf(NatToString(n)) == Some(n)
  {
    NatToStringValue(n);
    NumberOfNumeral(NatToString(n));
  }

  lemma NumberOfNumeral(s: string)
    requires |s| > 0 && AllDigits(s)
    ensures NumberOf(s) == Some(DigitsValue(s))
  {
    assert IsDigit(s[0]) && IsDigit(s[|s| - 1]);
    assert StripSign(s) == (1, s);
  }
}
