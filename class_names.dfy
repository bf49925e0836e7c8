/** `cn(...inputs)`: the class-name combinator every component uses. Its
    arguments are strings or the falsy values `false`, `null` and
    `undefined`; it keeps the truthy ones and joins them with spaces. */
module ClassNames {
  import opened Strings

  datatype Arg = Class(name: string) | False | Null | Undefined {
    predicate Truthy() { Class? && name != "" }
  }

  /** `inputs.filter(Boolean)` */
  function Kept(inputs: seq<Arg>): (r: seq<string>)
    ensures |r| <= |inputs|
    ensures forall i :: 0 <= i < |r| ==> r[i] != ""
  {
    if inputs == [] then []
    else (if inputs[0].Truthy() then [inputs[0].name] else []) + Kept(inputs[1..])
  }

  /** `inputs.filter(Boolean).join(' ')` */
  function Cn(inputs: seq<Arg>): string {
    Join(Kept(inputs), " ")
  }

  lemma {:induction false} KeptAppend(a: seq<Arg>, b: seq<Arg>)
    ensures Kept(a + b) == Kept(a) + Kept(b)
    decreases |a|
  {
    if a == [] {
      assert a + b == b;
    } else {
      assert (a + b)[1..] == a[1..] + b;
      KeptAppend(a[1..], b);
    }
  }

  lemma {:induction false} JoinAppend(a: seq<string>, b: seq<string>, sep: string)
    requires |a| > 0 && |b| > 0
    ensures Join(a + b, sep) == Join(a, sep) + sep + Join(b, sep)
    decreases |a|
  {
    if |a| == 1 {
      assert a + b == [a[0]] + b;
      JoinCons(a[0], b, sep);
    } else {
      assert a + b == [a[0]] + (a[1..] + b);
      JoinCons(a[0], a[1..] + b, sep);
      JoinAppend(a[1..], b, sep);
      JoinCons(a[0], a[1..], sep);
    }
  }

  /** The class names of two argument lists put together are the two
      results joined by one space, or either one alone when the other
      keeps nothing. */
  lemma CnAppend(a: seq<Arg>, b: seq<Arg>)
    ensures Kept(a) == [] ==> Cn(a + b) == Cn(b)
    ensures Kept(b) == [] ==> Cn(a + b) == Cn(a)
    ensures Kept(a) != [] && Kept(b) != [] ==> Cn(a + b) == Cn(a) + " " + Cn(b)
  {
    KeptAppend(a, b);
    if Kept(a) != [] && Kept(b) != [] {
      JoinAppend(Kept(a), Kept(b), " ");
    } else if Kept(a) == [] {
      assert Kept(a) + Kept(b) == Kept(b);
    } else {
      assert Kept(a) + Kept(b) == Kept(a);
    }
  }

  /** A falsy argument, anywhere, changes nothing. */
  lemma FalsyDropped(a: seq<Arg>, x: Arg, b: seq<Arg>)
    requires !x.Truthy()
    ensures Cn(a + [x] + b) == Cn(a + b)
  {
    KeptAppend(a + [x], b);
    KeptAppend(a, [x]);
    KeptAppend(a, b);
    assert Kept([x]) == [] by {
      assert [x][1..] == [];
    }
    assert Kept(a) + [] == Kept(a);
  }

  /** Nothing is kept exactly when every argument is falsy. */
  lemma {:induction false} KeptNone(inputs: seq<Arg>)
    ensures Kept(inputs) == [] <==> forall i :: 0 <= i < |inputs| ==> !inputs[i].Truthy()
    decreases |inputs|
  {
    if inputs != [] {
      KeptNone(inputs[1..]);
      assert forall i :: 1 <= i < |inputs| ==> inputs[i] == inputs[1..][i - 1];
    }
  }

  /** The class names are empty exactly when every argument is falsy:
      falsy arguments give the empty string, and a truthy one gives a
      non-empty name that the text starts with. */
  lemma AllFalsy(inputs: seq<Arg>)
    ensures Cn(inputs) == "" <==> forall i :: 0 <= i < |inputs| ==> !inputs[i].Truthy()
  {
    KeptNone(inputs);
    var kept := Kept(inputs);
    if kept != [] {
      assert kept[0] != "";
      assert |Join(kept, " ")| >= |kept[0]|;
    }
  }

  /** One class name comes back as it is. */
  lemma Single(s: string)
    requires s != ""
    ensures Cn([Class(s)]) == s
  {
    assert [Class(s)][1..] == [];
  }

  /** A class name is kept, and the text around it comes from the rest. */
  lemma TruthyKept(a: seq<Arg>, s: string, b: seq<Arg>)
    requires s != ""
    ensures Kept(a + [Class(s)] + b) == Kept(a) + [s] + Kept(b)
  {
    KeptAppend(a + [Class(s)], b);
    KeptAppend(a, [Class(s)]);
    assert [Class(s)][1..] == [];
  }
}
