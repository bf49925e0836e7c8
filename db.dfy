/** The abstract backend the application queries: a table is a sequence of
    rows, a row maps column names to JSON-like values, and a query is a
    conjunction of column conditions with an optional order and limit. */
module Db {
  import opened Wrappers
  import opened Strings
  import opened Js

  /** A JavaScript value as the application passes it to and from the
      backend. `Undefined` is a missing property; `Null` is SQL NULL. */
  datatype Value =
    | Undefined
    | Null
    | Bool(b: bool)
    | Int(i: int)
    | Str(s: string)
    | List(items: seq<Value>)
    | Obj(fields: map<string, Value>)
  {
    /** JavaScript truthiness (the integers stand for all numbers). */
    predicate Truthy() {
      match this
      case Undefined => false
      case Null => false
      case Bool(b) => b
      case Int(i) => i != 0
      case Str(s) => s != ""
      case List(_) => true
      case Obj(_) => true
    }

    /** `== null` in JavaScript: `null` or `undefined`. */
    predicate IsNullish() { Undefined? || Null? }
  }

  type Row = map<string, Value>

  /** `row[col]`: a missing column reads as `undefined`. */
  function Field(row: Row, col: string): (v: Value)
    ensures col !in row ==> v == Undefined
    ensures col in row ==> v == row[col]
  {
    if col in row then row[col] else Undefined
  }

  /** What reaches the backend of an object: `JSON.stringify` drops the
      properties whose value is `undefined`. */
  function Stored(row: Row): (r: Row)
    ensures forall k :: k in r <==> k in row && row[k] != Undefined
    ensures forall k :: k in r ==> r[k] == row[k]
  {
    map k | k in row && row[k] != Undefined :: row[k]
  }

  /** `value ?? null` */
  function OrNull(v: Value): (r: Value)
    ensures v.IsNullish() ==> r == Null
    ensures !v.IsNullish() ==> r == v
  {
    if v.IsNullish() then Null else v
  }

  // ---------------------------------------------------------------------
  // Comparison of values, as ORDER BY and the range filters see them
  // ---------------------------------------------------------------------

  /** Lexicographic order on strings. */
  predicate StrLe(a: string, b: string)
    decreases |a|
  {
    a == [] || (b != [] && (a[0] < b[0] || (a[0] == b[0] && StrLe(a[1..], b[1..]))))
  }

  lemma {:induction false} StrLeTotal(a: string, b: string)
    ensures StrLe(a, b) || StrLe(b, a)
    decreases |a|
  {
    if a != [] && b != [] && a[0] == b[0] {
      StrLeTotal(a[1..], b[1..]);
    }
  }

  lemma {:induction false} StrLeRefl(a: string)
    ensures StrLe(a, a)
    decreases |a|
  {
    if a != [] {
      StrLeRefl(a[1..]);
    }
  }

  /** The rank of a value's kind; SQL NULL sorts after every other value. */
  function KindRank(v: Value): (k: nat)
    ensures k == 5 <==> v.IsNullish()
  {
    match v
    case Bool(_) => 0
    case Int(_) => 1
    case Str(_) => 2
    case List(_) => 3
    case Obj(_) => 4
    case _ => 5
  }

  /** Comparing two texts whose first parts have the same length: the
      first parts decide, unless they are equal. */
  lemma {:induction false} StrLeConcat(x: string, y: string, x2: string, y2: string)
    requires |x| == |x2|
    ensures StrLe(x + y, x2 + y2) <==> (x != x2 && StrLe(x, x2)) || (x == x2 && StrLe(y, y2))
    decreases |x|
  {
    if |x| > 0 {
      assert (x + y)[0] == x[0] && (x2 + y2)[0] == x2[0];
      assert (x + y)[1..] == x[1..] + y && (x2 + y2)[1..] == x2[1..] + y2;
      StrLeConcat(x[1..], y, x2[1..], y2);
      if x[0] == x2[0] {
        assert x != x2 <==> x[1..] != x2[1..] by {
          assert x == [x[0]] + x[1..] && x2 == [x2[0]] + x2[1..];
        }
      }
    } else {
      assert x + y == y && x2 + y2 == y2;
    }
  }

  lemma {:induction false} MulLe(x: nat, y: nat, p: nat)
    requires x <= y
    ensures x * p <= y * p
    decreases y - x
  {
    if x < y {
      MulLe(x, y - 1, p);
      assert (y - 1) * p + p == y * p;
    }
  }

  /** A leading digit outweighs everything after it. */
  lemma LeadingDigitDecides(da: nat, db: nat, ra: nat, rb: nat, p: nat)
    requires ra < p && rb < p
    ensures da * p + ra <= db * p + rb <==> da < db || (da == db && ra <= rb)
  {
    if da < db {
      MulLe(da + 1, db, p);
      assert (da + 1) * p == da * p + p;
    } else if db < da {
      MulLe(db + 1, da, p);
      assert (db + 1) * p == db * p + p;
    }
  }

  /** On numerals of the same length the text order is the numeric order. */
  lemma {:induction false} StrLeDigits(a: string, b: string)
    requires |a| == |b| && AllDigits(a) && AllDigits(b)
    ensures StrLe(a, b) <==> DigitsValue(a) <= DigitsValue(b)
    decreases |a|
  {
    if |a| > 0 {
      DigitsValueCons(a);
      DigitsValueCons(b);
      DigitsValueBound(a[1..]);
      DigitsValueBound(b[1..]);
      StrLeDigits(a[1..], b[1..]);
      LeadingDigitDecides(DigitValue(a[0]), DigitValue(b[0]), DigitsValue(a[1..]), DigitsValue(b[1..]), Pow10(|a| - 1));
      assert a[0] < b[0] <==> DigitValue(a[0]) < DigitValue(b[0]);
      assert a[0] == b[0] <==> DigitValue(a[0]) == DigitValue(b[0]);
    }
  }

  /** Numerals of the same length that read the same are the same. */
  lemma {:induction false} DigitsValueInjective(a: string, b: string)
    requires |a| == |b| && AllDigits(a) && AllDigits(b)
    requires DigitsValue(a) == DigitsValue(b)
    ensures a == b
    decreases |a|
  {
    if |a| > 0 {
      DigitsValueCons(a);
      DigitsValueCons(b);
      DigitsValueBound(a[1..]);
      DigitsValueBound(b[1..]);
      var da, db, ra, rb, p := DigitValue(a[0]), DigitValue(b[0]), DigitsValue(a[1..]), DigitsValue(b[1..]), Pow10(|a| - 1);
      LeadingDigitDecides(da, db, ra, rb, p);
      LeadingDigitDecides(db, da, rb, ra, p);
      DigitsValueInjective(a[1..], b[1..]);
      assert a == [a[0]] + a[1..] && b == [b[0]] + b[1..];
    }
  }

  /** Texts that start with numerals of the same length compare by the
      numerals' values first, then by what follows. */
  lemma NumeralThenText(x: string, y: string, x2: string, y2: string)
    requires |x| == |x2| && AllDigits(x) && AllDigits(x2)
    ensures StrLe(x + y, x2 + y2) <==>
      DigitsValue(x) < DigitsValue(x2) || (DigitsValue(x) == DigitsValue(x2) && StrLe(y, y2))
  {
    StrLeConcat(x, y, x2, y2);
    StrLeDigits(x, x2);
    if DigitsValue(x) == DigitsValue(x2) {
      DigitsValueInjective(x, x2);
    }
  }

  /** The ascending order on values: by kind, then by value; NULLs last,
      as PostgreSQL sorts them by default. Lists and objects are not
      compared with each other. */
  predicate ValueLe(a: Value, b: Value) {
    if KindRank(a) != KindRank(b) then KindRank(a) < KindRank(b)
    else match (a, b)
      case (Bool(x), Bool(y)) => !x || y
      case (Int(x), Int(y)) => x <= y
      case (Str(x), Str(y)) => StrLe(x, y)
      case _ => true
  }

  lemma ValueLeTotal(a: Value, b: Value)
    ensures ValueLe(a, b) || ValueLe(b, a)
  {
    if a.Str? && b.Str? {
      StrLeTotal(a.s, b.s);
    }
  }

  // ---------------------------------------------------------------------
  // Filters
  // ---------------------------------------------------------------------

  /** One condition of a query: `.eq`, `.gte` or `.lte` on a column. */
  datatype Condition = Eq(col: string, v: Value) | Gte(col: string, v: Value) | Lte(col: string, v: Value)

  /** The conditions of a query, ANDed together. */
  type Filter = seq<Condition>

  /** A condition holds of a row when the column is not NULL and compares
      as asked; NULL satisfies no comparison. */
  predicate Holds(row: Row, c: Condition) {
    var x := Field(row, c.col);
    !x.IsNullish() && !c.v.IsNullish() &&
    match c
    case Eq(_, v) => x == v
    case Gte(_, v) => KindRank(x) == KindRank(v) && ValueLe(v, x)
    case Lte(_, v) => KindRank(x) == KindRank(v) && ValueLe(x, v)
  }

  predicate Matches(row: Row, f: Filter) {
    forall k :: 0 <= k < |f| ==> Holds(row, f[k])
  }

  /** The equality filter `.eq(k1, v1).eq(k2, v2)…` of a list of pairs. */
  function EqFilter(pairs: seq<(string, Value)>): (f: Filter)
    ensures |f| == |pairs|
    ensures forall k :: 0 <= k < |f| ==> f[k] == Eq(pairs[k].0, pairs[k].1)
  {
    seq(|pairs|, k requires 0 <= k < |pairs| => Eq(pairs[k].0, pairs[k].1))
  }

  /** A row matches an equality filter exactly when every pair's column
      holds that pair's non-null value. */
  lemma MatchesEqFilter(row: Row, pairs: seq<(string, Value)>)
    ensures Matches(row, EqFilter(pairs)) <==>
      forall k :: 0 <= k < |pairs| ==> pairs[k].0 in row && row[pairs[k].0] == pairs[k].1 && !pairs[k].1.IsNullish()
  {
    var f := EqFilter(pairs);
    if Matches(row, f) {
      forall k | 0 <= k < |pairs|
        ensures pairs[k].0 in row && row[pairs[k].0] == pairs[k].1 && !pairs[k].1.IsNullish()
      {
        assert Holds(row, f[k]);
      }
    }
  }

  /** The rows that match, in stored order. */
  function Where(rows: seq<Row>, f: Filter): (r: seq<Row>)
    ensures |r| <= |rows|
    ensures forall row :: row in r <==> row in rows && Matches(row, f)
    decreases |rows|
  {
    if rows == [] then []
    else
      var rest := Where(rows[..|rows| - 1], f);
      var last := rows[|rows| - 1];
      assert rows == rows[..|rows| - 1] + [last];
      if Matches(last, f) then rest + [last] else rest
  }

  /** The rows that do not match, in stored order: what `.delete()` keeps. */
  function DeleteWhere(rows: seq<Row>, f: Filter): (r: seq<Row>)
    ensures |r| <= |rows|
    ensures forall row :: row in r <==> row in rows && !Matches(row, f)
    decreases |rows|
  {
    if rows == [] then []
    else
      var rest := DeleteWhere(rows[..|rows| - 1], f);
      var last := rows[|rows| - 1];
      assert rows == rows[..|rows| - 1] + [last];
      if Matches(last, f) then rest else rest + [last]
  }

  /** Appending a row adds it to the selection exactly when it matches. */
  lemma WhereSnoc(rows: seq<Row>, x: Row, f: Filter)
    ensures Where(rows + [x], f) == Where(rows, f) + (if Matches(x, f) then [x] else [])
  {
    assert (rows + [x])[..|rows|] == rows;
  }

  /** Two tables that agree, row by row, on which rows match select the
      same number of rows. */
  lemma {:induction false} WherePointwise(a: seq<Row>, b: seq<Row>, f: Filter)
    requires |a| == |b|
    requires forall k :: 0 <= k < |a| ==> (Matches(a[k], f) <==> Matches(b[k], f))
    ensures |Where(a, f)| == |Where(b, f)|
    decreases |a|
  {
    if a != [] {
      WherePointwise(a[..|a| - 1], b[..|b| - 1], f);
    }
  }

  /** Two matching positions make a selection of at least two rows. */
  lemma {:induction false} WhereTwo(rows: seq<Row>, f: Filter, i: nat, j: nat)
    requires i < |rows| && j < |rows|
    ensures i < j && Matches(rows[i], f) && Matches(rows[j], f) ==> |Where(rows, f)| >= 2
    decreases |rows|
  {
    if i < j && Matches(rows[i], f) && Matches(rows[j], f) {
      var init := rows[..|rows| - 1];
      if j == |rows| - 1 {
        assert init[i] == rows[i];
        assert rows[i] in Where(init, f);
      } else {
        assert init[i] == rows[i] && init[j] == rows[j];
        WhereTwo(init, f, i, j);
      }
    }
  }

  /** Under a filter that selects at most one row, the matching position
      is unique. */
  lemma WhereAtMostOne(rows: seq<Row>, f: Filter, i: nat, j: nat)
    requires |Where(rows, f)| <= 1
    requires i < |rows| && j < |rows| && Matches(rows[i], f) && Matches(rows[j], f)
    ensures i == j
  {
    WhereTwo(rows, f, i, j);
    WhereTwo(rows, f, j, i);
  }

  /** Where no row matches, the filter selects nothing. */
  lemma {:induction false} WhereNone(rows: seq<Row>, f: Filter)
    requires forall row :: row in rows ==> !Matches(row, f)
    ensures Where(rows, f) == []
    decreases |rows|
  {
    if rows != [] {
      var init := rows[..|rows| - 1];
      assert forall row :: row in init ==> row in rows;
      WhereNone(init, f);
      assert rows[|rows| - 1] in rows;
    }
  }

  /** A delete splits the table: the matching rows go, the others stay,
      and no row is lost or duplicated. */
  lemma {:induction false} WhereDeletePartition(rows: seq<Row>, f: Filter)
    ensures multiset(Where(rows, f)) + multiset(DeleteWhere(rows, f)) == multiset(rows)
    decreases |rows|
  {
    if rows != [] {
      var init := rows[..|rows| - 1];
      WhereDeletePartition(init, f);
      assert rows == init + [rows[|rows| - 1]];
    }
  }

  /** `.update(patch)` on one row: the stored fields of the patch overwrite
      the row's. */
  function Patch(row: Row, patch: Row): (r: Row)
    ensures forall k :: k in r <==> k in row || (k in patch && patch[k] != Undefined)
    ensures forall k :: k in patch && patch[k] != Undefined ==> r[k] == patch[k]
    ensures forall k :: k in row && !(k in patch && patch[k] != Undefined) ==> r[k] == row[k]
  {
    row + Stored(patch)
  }

  /** `.update(patch)` under a filter. */
  function UpdateWhere(rows: seq<Row>, f: Filter, patch: Row): (r: seq<Row>)
    ensures |r| == |rows|
    ensures forall k :: 0 <= k < |rows| && !Matches(rows[k], f) ==> r[k] == rows[k]
    ensures forall k :: 0 <= k < |rows| && Matches(rows[k], f) ==> r[k] == Patch(rows[k], patch)
  {
    seq(|rows|, k requires 0 <= k < |rows| => if Matches(rows[k], f) then Patch(rows[k], patch) else rows[k])
  }

  /** The rows `.update(patch).select()` returns: the new version of every
      matching row, in stored order. */
  function Patched(rows: seq<Row>, patch: Row): (r: seq<Row>)
    ensures |r| == |rows|
    ensures forall k :: 0 <= k < |rows| ==> r[k] == Patch(rows[k], patch)
  {
    seq(|rows|, k requires 0 <= k < |rows| => Patch(rows[k], patch))
  }

  /** An update that matches nothing changes nothing. */
  lemma UpdateNoMatch(rows: seq<Row>, f: Filter, patch: Row)
    requires Where(rows, f) == []
    ensures UpdateWhere(rows, f, patch) == rows
  {
    forall k | 0 <= k < |rows|
      ensures !Matches(rows[k], f)
    {
      assert rows[k] in rows;
    }
  }

  // ---------------------------------------------------------------------
  // Order and limit
  // ---------------------------------------------------------------------

  /** `.order(col, { ascending })` */
  datatype Order = Order(col: string, ascending: bool)

  predicate Before(a: Row, b: Row, o: Order) {
    if o.ascending then ValueLe(Field(a, o.col), Field(b, o.col))
    else ValueLe(Field(b, o.col), Field(a, o.col))
  }

  lemma BeforeTotal(a: Row, b: Row, o: Order)
    ensures Before(a, b, o) || Before(b, a, o)
  {
    ValueLeTotal(Field(a, o.col), Field(b, o.col));
  }

  predicate Sorted(rows: seq<Row>, o: Order) {
    forall k :: 0 <= k < |rows| - 1 ==> Before(rows[k], rows[k + 1], o)
  }

  /** Inserts one row before the first row it precedes. */
  function InsertSorted(x: Row, rows: seq<Row>, o: Order): (r: seq<Row>)
    ensures |r| == |rows| + 1
    ensures r[0] == x || (|rows| > 0 && r[0] == rows[0])
    decreases |rows|
  {
    if rows == [] then [x]
    else if Before(x, rows[0], o) then [x] + rows
    else [rows[0]] + InsertSorted(x, rows[1..], o)
  }

  /** Inserting into a sorted sequence keeps it sorted. */
  lemma {:induction false} InsertSortedSorted(x: Row, rows: seq<Row>, o: Order)
    requires Sorted(rows, o)
    ensures Sorted(InsertSorted(x, rows, o), o)
    decreases |rows|
  {
    if rows == [] {
    } else if Before(x, rows[0], o) {
      SortedCons(x, rows, o);
    } else {
      SortedTail(rows, o);
      var rest := InsertSorted(x, rows[1..], o);
      InsertSortedSorted(x, rows[1..], o);
      HeadBeforeInsert(x, rows, rest, o);
      SortedCons(rows[0], rest, o);
    }
  }

  /** Inserting adds exactly the one row. */
  lemma {:induction false} InsertSortedPerm(x: Row, rows: seq<Row>, o: Order)
    ensures multiset(InsertSorted(x, rows, o)) == multiset(rows) + multiset{x}
    decreases |rows|
  {
    if rows != [] && !Before(x, rows[0], o) {
      InsertSortedPerm(x, rows[1..], o);
      ConsMultiset(rows, InsertSorted(x, rows[1..], o), x);
    }
  }

  lemma ConsMultiset<T>(xs: seq<T>, rest: seq<T>, x: T)
    requires |xs| > 0 && multiset(rest) == multiset(xs[1..]) + multiset{x}
    ensures multiset([xs[0]] + rest) == multiset(xs) + multiset{x}
  {
    assert xs == [xs[0]] + xs[1..];
  }

  lemma SortedTail(rows: seq<Row>, o: Order)
    requires |rows| > 0 && Sorted(rows, o)
    ensures Sorted(rows[1..], o)
  {
    forall k | 0 <= k < |rows| - 2 ensures Before(rows[1..][k], rows[1..][k + 1], o) {
      assert Before(rows[k + 1], rows[k + 2], o);
    }
  }

  lemma SortedCons(h: Row, t: seq<Row>, o: Order)
    requires Sorted(t, o) && (t == [] || Before(h, t[0], o))
    ensures Sorted([h] + t, o)
  {
    var r := [h] + t;
    forall k | 0 <= k < |r| - 1 ensures Before(r[k], r[k + 1], o) {
      if k > 0 {
        assert r[k] == t[k - 1] && r[k + 1] == t[k];
      }
    }
  }

  /** The head of a sorted sequence that `x` does not precede comes before
      whatever inserting `x` into the tail puts first. */
  lemma HeadBeforeInsert(x: Row, rows: seq<Row>, rest: seq<Row>, o: Order)
    requires |rows| > 0 && Sorted(rows, o) && !Before(x, rows[0], o)
    requires |rest| > 0 && (rest[0] == x || (|rows| > 1 && rest[0] == rows[1]))
    ensures Before(rows[0], rest[0], o)
  {
    BeforeTotal(x, rows[0], o);
    if rest[0] != x {
      assert Before(rows[0], rows[1], o);
    }
  }

  /** The rows in the order `.order(col, { ascending })` asks for. */
  function SortBy(rows: seq<Row>, o: Order): (r: seq<Row>)
    ensures Sorted(r, o)
    ensures multiset(r) == multiset(rows)
    ensures |r| == |rows|
    decreases |rows|
  {
    if rows == [] then []
    else
      var rest := SortBy(rows[1..], o);
      InsertSortedSorted(rows[0], rest, o);
      InsertSortedPerm(rows[0], rest, o);
      assert rows == [rows[0]] + rows[1..];
      InsertSorted(rows[0], rest, o)
  }

  /** Down a list sorted by descending `col`, no integer exceeds the
      first. */
  lemma {:induction false} DescendingHead(s: seq<Row>, col: string, k: nat)
    requires k < |s| && Sorted(s, Order(col, false))
    requires forall row :: row in s ==> Field(row, col).Int?
    ensures Field(s[k], col).i <= Field(s[0], col).i
  {
    if k > 0 {
      DescendingHead(s, col, k - 1);
      assert Before(s[k - 1], s[k], Order(col, false));
      assert s[k - 1] in s && s[k] in s;
    }
  }

  /** Down a list sorted by descending `col`, the kinds only fall, so a
      NULL anywhere puts a NULL first (descending order puts NULLs first). */
  lemma {:induction false} DescendingRank(s: seq<Row>, col: string, k: nat)
    requires k < |s| && Sorted(s, Order(col, false))
    ensures KindRank(Field(s[k], col)) <= KindRank(Field(s[0], col))
  {
    if k > 0 {
      DescendingRank(s, col, k - 1);
      assert Before(s[k - 1], s[k], Order(col, false));
    }
  }

  /** `.limit(n)`: the first `n` rows. */
  function Take(rows: seq<Row>, limit: Option<nat>): (r: seq<Row>)
    ensures limit.None? ==> r == rows
    ensures limit.Some? ==> |r| == (if limit.value < |rows| then limit.value else |rows|)
    ensures r == rows[..|r|]
  {
    if limit.Some? && limit.value < |rows| then rows[..limit.value] else rows
  }

  /** A query as the builder chain leaves it: the projection text, the
      conditions, the order and the limit. */
  datatype Plan = Plan(columns: string, filter: Filter, order: Option<Order>, limit: Option<nat>)

  /** The rows in the plan's order, when it has one. */
  function Ordered(rows: seq<Row>, o: Option<Order>): (r: seq<Row>)
    ensures o.Some? ==> Sorted(r, o.value)
    ensures multiset(r) == multiset(rows)
  {
    if o.Some? then SortBy(rows, o.value) else rows
  }

  /** The rows a plan selects: filtered, ordered, then cut to the limit. */
  function Run(rows: seq<Row>, plan: Plan): (r: seq<Row>)
    ensures plan.order.Some? ==> Sorted(r, plan.order.value)
    ensures forall row :: row in r ==> row in rows && Matches(row, plan.filter)
    ensures plan.limit.Some? ==> |r| <= plan.limit.value
    ensures plan.limit.None? ==> multiset(r) == multiset(Where(rows, plan.filter))
  {
    var ordered := Ordered(Where(rows, plan.filter), plan.order);
    var r := Take(ordered, plan.limit);
    PrefixFacts(ordered, plan.order, |r|);
    r
  }

  lemma PrefixFacts(s: seq<Row>, o: Option<Order>, n: nat)
    requires n <= |s|
    requires o.Some? ==> Sorted(s, o.value)
    ensures o.Some? ==> Sorted(s[..n], o.value)
    ensures forall x :: x in s[..n] ==> x in multiset(s)
  {
    forall x | x in s[..n]
      ensures x in multiset(s)
    {
      var k :| 0 <= k < n && s[..n][k] == x;
      assert s[k] == x;
    }
  }

  /** The PostgREST code for "the result does not contain exactly one row". */
  const Pgrst116 := "PGRST116"

  function NotOneRow(): BackendError {
    BackendError(Some(Pgrst116), "JSON object requested, multiple (or no) rows returned")
  }

  /** The `{ data, error }` pair of a query that returns one row or none. */
  datatype RowReply = RowReply(data: Option<Row>, error: Option<BackendError>)

  /** `.single()`: exactly one row, or an error and no data. */
  function SingleOf(rows: seq<Row>): (r: RowReply)
    ensures r.data.Some? <==> |rows| == 1
    ensures r.data.Some? ==> r.data.value == rows[0] && r.error.None?
    ensures r.data.None? ==> r.error == Some(NotOneRow())
  {
    if |rows| == 1 then RowReply(Some(rows[0]), None) else RowReply(None, Some(NotOneRow()))
  }

  /** `.maybeSingle()`: no row is not an error, several rows are. */
  function MaybeSingleOf(rows: seq<Row>): (r: RowReply)
    ensures r.data.Some? <==> |rows| == 1
    ensures r.data.Some? ==> r.data.value == rows[0]
    ensures r.error.Some? <==> |rows| > 1
  {
    if |rows| == 1 then RowReply(Some(rows[0]), None)
    else if |rows| == 0 then RowReply(None, None)
    else RowReply(None, Some(NotOneRow()))
  }

  /** The backend's answer to one request: a failure, or success. */
  datatype Fault = Ok | Fail(error: BackendError)

  // ---------------------------------------------------------------------
  // A table whose rows the requests change
  // ---------------------------------------------------------------------

  /** The rows an insert stores: each object without its `undefined`
      properties, over the values the backend generates for it (`id`,
      timestamps), when it generates any. */
  function WithGenerated(rows: seq<Row>, generated: seq<Row>): (r: seq<Row>)
    ensures |r| == |rows|
    ensures forall k :: 0 <= k < |rows| && k < |generated| ==> r[k] == generated[k] + Stored(rows[k])
    ensures forall k :: |generated| <= k < |rows| ==> r[k] == Stored(rows[k])
  {
    seq(|rows|, k requires 0 <= k < |rows| => if k < |generated| then generated[k] + Stored(rows[k]) else Stored(rows[k]))
  }

  class Table {
    var rows: seq<Row>

    constructor (initial: seq<Row>)
      ensures rows == initial
    {
      rows := initial;
    }

    /** `.insert(rows).select()`: appends and returns the stored rows. */
    method Insert(newRows: seq<Row>, generated: seq<Row>) returns (inserted: seq<Row>)
      modifies this
      ensures inserted == WithGenerated(newRows, generated)
      ensures rows == old(rows) + inserted
    {
      inserted := WithGenerated(newRows, generated);
      rows := rows + inserted;
    }

    /** `.update(patch)` with the filter, then `.select()`. */
    method Update(f: Filter, patch: Row) returns (updated: seq<Row>)
      modifies this
      ensures rows == UpdateWhere(old(rows), f, patch)
      ensures updated == Patched(Where(old(rows), f), patch)
    {
      updated := Patched(Where(rows, f), patch);
      rows := UpdateWhere(rows, f, patch);
    }

    /** `.delete()` with the filter. */
    method Delete(f: Filter)
      modifies this
      ensures rows == DeleteWhere(old(rows), f)
    {
      rows := DeleteWhere(rows, f);
    }
  }
}
