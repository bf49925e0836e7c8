/** The team page's price calculator: a price per user that depends on
    the billing period, a user count read from a text field and clamped
    into 1..1000, and their product. */
module TeamPricing {
  import opened Wrappers
  import opened Strings
  import opened Js

  /** The billing periods the page offers. */
  datatype Duration = OneMonth | TwelveMonth

  const MaxUsers := 1000

  /** `duration === '1-month' ? 10 : 48` */
  function PricePerUser(d: Duration): (p: nat)
    ensures p > 0
  {
    if d.OneMonth? then 10 else 48
  }

  /** `parseInt(userCount, 10) || 0`, in JavaScript terms: `NaN` and 0 both
      read as 0. */
  function Requested(userCount: string): int {
    match ParseInt(userCount)
    case None => 0
    case Some(v) => v
  }

  /** `Math.max(1, Math.min(1000, requested))` */
  function Users(userCount: string): (u: int)
    ensures 1 <= u <= MaxUsers
  {
    var n := Requested(userCount);
    if n < 1 then 1 else if n > MaxUsers then MaxUsers else n
  }

  function Total(d: Duration, userCount: string): int {
    PricePerUser(d) * Users(userCount)
  }

  /** The user count is the number typed when it lies in 1..1000, the
      nearest bound when it lies outside, and 1 when the text is not a
      number. */
  lemma UsersClamps(userCount: string)
    ensures var n := ParseInt(userCount);
      (n.None? ==> Users(userCount) == 1)
      && (n.Some? && 1 <= n.value <= MaxUsers ==> Users(userCount) == n.value)
      && (n.Some? && n.value < 1 ==> Users(userCount) == 1)
      && (n.Some? && n.value > MaxUsers ==> Users(userCount) == MaxUsers)
  {
  }

  /** The total is the price for one user up to the price for a thousand. */
  lemma TotalBounds(d: Duration, userCount: string)
    ensures PricePerUser(d) <= Total(d, userCount) <= MaxUsers * PricePerUser(d)
  {
    var p, u := PricePerUser(d), Users(userCount);
    assert p * 1 <= p * u <= p * MaxUsers;
  }

  /** A month costs 10 a user and a year 48. */
  lemma PriceTable()
    ensures PricePerUser(OneMonth) == 10 && PricePerUser(TwelveMonth) == 48
  {
  }

  /** The page opens on a year for ten users: 480. */
  lemma DefaultTotal()
    ensures Total(TwelveMonth, "10") == 480
  {
    assert NatToString(10) == "10";
    PositiveNumeral(10);
  }
}
