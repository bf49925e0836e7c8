/** Whitespace runs, as the regular expression `\s+` finds them: splitting
    a string at them and replacing each by a dash. `\s` is read as the
    whitespace of `Strings.IsSpace`, the same set `trim()` removes. */
module Words {
  import opened Strings

  /** A non-empty run of characters without whitespace. */
  predicate Word(w: string) {
    |w| > 0 && forall i :: 0 <= i < |w| ==> !IsSpace(w[i])
  }

  /** The position of the first whitespace character, or the length. */
  function SpaceAt(s: string): (i: nat)
    ensures i <= |s| && (i < |s| ==> IsSpace(s[i]))
    ensures forall j :: 0 <= j < i ==> !IsSpace(s[j])
    decreases |s|
  {
    if s == [] || IsSpace(s[0]) then 0
    else
      var i := SpaceAt(s[1..]);
      assert forall j :: 1 <= j < i + 1 ==> s[j] == s[1..][j - 1];
      1 + i
  }

  /** The text after the leading whitespace: `trimStart` in the
      recursion-friendly form equal to it (`DropSpacesIsTrimStart`). */
  function DropSpaces(s: string): (r: string)
    ensures |r| <= |s|
    decreases |s|
  {
    if s != [] && IsSpace(s[0]) then DropSpaces(s[1..]) else s
  }

  lemma {:induction false} DropSpacesIsTrimStart(s: string)
    ensures DropSpaces(s) == TrimStart(s)
    decreases |s|
  {
    if s != [] && IsSpace(s[0]) {
      DropSpacesIsTrimStart(s[1..]);
    }
  }

  /** `s.split(/\s+/)` */
  function SplitSpaces(s: string): (r: seq<string>)
    ensures |r| >= 1
    decreases |s|
  {
    var i := SpaceAt(s);
    if i == |s| then [s] else [s[..i]] + SplitSpaces(DropSpaces(s[i + 1..]))
  }

  /** `s.replace(/\s+/g, '-')` */
  function DashSpaces(s: string): string
    decreases |s|
  {
    if s == [] then []
    else if IsSpace(s[0]) then "-" + DashSpaces(DropSpaces(s[1..]))
    else [s[0]] + DashSpaces(s[1..])
  }

  // ---------------------------------------------------------------------
  // Trimming around blank padding
  // ---------------------------------------------------------------------

  /** Blank padding in front of text that starts with no whitespace is
      exactly what is dropped. */
  lemma {:induction false} DropPadding(pad: string, t: string)
    requires IsBlank(pad) && (t == [] || !IsSpace(t[0]))
    ensures DropSpaces(pad + t) == t
    decreases |pad|
  {
    if pad != [] {
      assert (pad + t)[0] == pad[0];
      assert (pad + t)[1..] == pad[1..] + t;
      DropPadding(pad[1..], t);
    } else {
      assert pad + t == t;
    }
  }

  /** Text that ends with no whitespace shields what precedes it from
      `trimEnd`. */
  lemma {:induction false} TrimEndAppend(a: string, b: string)
    requires a == [] || !IsSpace(a[|a| - 1])
    ensures TrimEnd(a + b) == a + TrimEnd(b)
    decreases |b|
  {
    if b == [] {
      assert a + b == a;
      TrimEndNoSpace(a);
    } else if IsSpace(b[|b| - 1]) {
      assert (a + b)[..|a + b| - 1] == a + b[..|b| - 1];
      TrimEndAppend(a, b[..|b| - 1]);
    }
  }

  /** A string that ends in a non-blank character keeps its tail when
      leading whitespace is dropped. */
  lemma {:induction false} DropSpacesAppend(a: string, b: string)
    requires a != [] && !IsSpace(a[|a| - 1])
    ensures DropSpaces(a + b) == DropSpaces(a) + b
    decreases |a|
  {
    assert (a + b)[0] == a[0];
    if IsSpace(a[0]) {
      assert (a + b)[1..] == a[1..] + b;
      DropSpacesAppend(a[1..], b);
    }
  }

  /** What is left after dropping whitespace starts with none. */
  lemma {:induction false} DropSpacesStart(s: string)
    ensures DropSpaces(s) == [] || !IsSpace(DropSpaces(s)[0])
    decreases |s|
  {
    if s != [] && IsSpace(s[0]) {
      DropSpacesStart(s[1..]);
    }
  }

  /** What is left after dropping whitespace from a string ending in a
      non-blank character still ends in it. */
  lemma {:induction false} DropSpacesKeepsEnd(a: string)
    requires a != [] && !IsSpace(a[|a| - 1])
    ensures var t := DropSpaces(a); t != [] && t[|t| - 1] == a[|a| - 1] && t == a[|a| - |t|..]
    decreases |a|
  {
    if IsSpace(a[0]) {
      DropSpacesKeepsEnd(a[1..]);
    }
  }

  /** Blank padding in front is dropped along with any whitespace after it. */
  lemma {:induction false} DropBlankPrefix(pad: string, t: string)
    requires IsBlank(pad)
    ensures DropSpaces(pad + t) == DropSpaces(t)
    decreases |pad|
  {
    if pad == [] {
      assert pad + t == t;
    } else {
      assert (pad + t)[0] == pad[0];
      assert (pad + t)[1..] == pad[1..] + t;
      DropBlankPrefix(pad[1..], t);
    }
  }

  /** Blank padding behind is removed by `trimEnd`. */
  lemma {:induction false} TrimEndBlankSuffix(t: string, pad: string)
    requires IsBlank(pad)
    ensures TrimEnd(t + pad) == TrimEnd(t)
    decreases |pad|
  {
    if pad == [] {
      assert t + pad == t;
    } else {
      assert (t + pad)[..|t + pad| - 1] == t + pad[..|pad| - 1];
      TrimEndBlankSuffix(t, pad[..|pad| - 1]);
    }
  }

  /** Text that is not blank keeps what follows it when leading
      whitespace is dropped. */
  lemma {:induction false} DropSpacesNonBlank(a: string, b: string)
    requires !IsBlank(a)
    ensures DropSpaces(a + b) == DropSpaces(a) + b
    decreases |a|
  {
    assert (a + b)[0] == a[0];
    if IsSpace(a[0]) {
      assert (a + b)[1..] == a[1..] + b;
      assert !IsBlank(a[1..]) by {
        var i :| 0 <= i < |a| && !IsSpace(a[i]);
        assert a[1..][i - 1] == a[i];
      }
      DropSpacesNonBlank(a[1..], b);
    }
  }

  /** `trim()` ignores blank padding on either side. */
  lemma TrimPadded(pad: string, t: string, pad2: string)
    requires IsBlank(pad) && IsBlank(pad2)
    ensures Trim(pad + t + pad2) == Trim(t)
  {
    Assoc(pad, t, pad2);
    DropSpacesIsTrimStart(pad + (t + pad2));
    DropBlankPrefix(pad, t + pad2);
    TrimEndPadded(t, pad2);
  }

  /** Blank padding after the text does not change what `trim()` keeps. */
  lemma TrimEndPadded(t: string, pad2: string)
    requires IsBlank(pad2)
    ensures TrimEnd(DropSpaces(t + pad2)) == Trim(t)
  {
    DropSpacesIsTrimStart(t);
    if IsBlank(t) {
      TrimEmptyIffBlank(t);
      BlankAppend(t, pad2);
      DropBlank(t + pad2);
    } else {
      DropSpacesNonBlank(t, pad2);
      TrimEndBlankSuffix(DropSpaces(t), pad2);
    }
  }

  lemma BlankAppend(a: string, b: string)
    requires IsBlank(a) && IsBlank(b)
    ensures IsBlank(a + b)
  {
    forall i | 0 <= i < |a + b| ensures IsSpace((a + b)[i]) {
      if i < |a| { assert (a + b)[i] == a[i]; } else { assert (a + b)[i] == b[i - |a|]; }
    }
  }

  lemma DropBlank(s: string)
    requires IsBlank(s)
    ensures DropSpaces(s) == []
  {
    DropBlankPrefix(s, []);
    assert s + [] == s;
  }

  // ---------------------------------------------------------------------
  // Splitting
  // ---------------------------------------------------------------------

  lemma {:induction false} SpaceAtWord(w: string, rest: string)
    requires forall i :: 0 <= i < |w| ==> !IsSpace(w[i])
    requires rest == [] || IsSpace(rest[0])
    ensures SpaceAt(w + rest) == |w|
    decreases |w|
  {
    if w != [] {
      assert (w + rest)[0] == w[0];
      assert (w + rest)[1..] == w[1..] + rest;
      SpaceAtWord(w[1..], rest);
    } else {
      assert w + rest == rest;
    }
  }

  /** A word followed by nothing or by whitespace is the first piece; the
      rest is split after its whitespace. */
  lemma SplitAfterWord(w: string, rest: string)
    requires Word(w) && (rest == [] || IsSpace(rest[0]))
    ensures rest == [] ==> SplitSpaces(w + rest) == [w]
    ensures rest != [] ==> SplitSpaces(w + rest) == [w] + SplitSpaces(DropSpaces(rest))
  {
    SpaceAtWord(w, rest);
    var s := w + rest;
    assert s[..|w|] == w;
    if rest == [] {
      assert s == w;
    } else {
      assert s[|w| + 1..] == rest[1..];
    }
  }

  /** A string that starts with a non-blank character starts with a word. */
  lemma SplitFirstWord(s: string)
    requires s != [] && !IsSpace(s[0])
    ensures Word(SplitSpaces(s)[0])
  {
  }

  /** In a string that ends in a non-blank character, the second piece,
      when there is one, is a word. */
  lemma SplitSecondWord(s: string)
    requires s == [] || !IsSpace(s[|s| - 1])
    ensures |SplitSpaces(s)| >= 2 ==> Word(SplitSpaces(s)[1])
  {
    var i := SpaceAt(s);
    if i < |s| {
      var after := s[i + 1..];
      assert after != [] && after[|after| - 1] == s[|s| - 1];
      DropSpacesKeepsEnd(after);
      DropSpacesStart(after);
      SplitFirstWord(DropSpaces(after));
    }
  }

  // ---------------------------------------------------------------------
  // Dashing
  // ---------------------------------------------------------------------

  /** The head and the rest of a concatenation whose first part is not
      empty. */
  lemma HeadOfAppend(a: string, b: string)
    requires a != []
    ensures (a + b)[0] == a[0] && (a + b)[1..] == a[1..] + b
  {
    assert (a + b)[1..] == a[1..] + b;
  }

  /** A leading non-blank character is kept. */
  lemma DashChar(s: string)
    requires s != [] && !IsSpace(s[0])
    ensures DashSpaces(s) == [s[0]] + DashSpaces(s[1..])
  {
  }

  /** A leading whitespace run becomes one dash. */
  lemma DashRun(s: string)
    requires s != [] && IsSpace(s[0])
    ensures DashSpaces(s) == "-" + DashSpaces(DropSpaces(s[1..]))
  {
  }

  /** One step of `DashSpacesAppend` at a leading whitespace run, given
      the law for the text after the run. */
  lemma DashSpacesAppendRun(a: string, b: string)
    requires a != [] && IsSpace(a[0]) && !IsSpace(a[|a| - 1])
    requires var t := DropSpaces(a[1..]); DashSpaces(t + b) == DashSpaces(t) + DashSpaces(b)
    ensures DashSpaces(a + b) == DashSpaces(a) + DashSpaces(b)
  {
    var rest := a[1..];
    assert rest != [] && rest[|rest| - 1] == a[|a| - 1];
    var t := DropSpaces(rest);
    HeadOfAppend(a, b);
    DropSpacesAppend(rest, b);
    DashRun(a + b);
    DashRun(a);
    Assoc("-", DashSpaces(t), DashSpaces(b));
  }

  /** One step of `DashSpacesAppend` at a leading non-blank character,
      given the law for the text after it. */
  lemma DashSpacesAppendChar(a: string, b: string)
    requires a != [] && !IsSpace(a[0])
    requires DashSpaces(a[1..] + b) == DashSpaces(a[1..]) + DashSpaces(b)
    ensures DashSpaces(a + b) == DashSpaces(a) + DashSpaces(b)
  {
    var c, rest := a[0], a[1..];
    HeadOfAppend(a, b);
    DashChar(a + b);
    DashChar(a);
    Assoc([c], DashSpaces(rest), DashSpaces(b));
  }

  /** Dashing distributes over a split after a non-blank character. */
  lemma {:induction false} DashSpacesAppend(a: string, b: string)
    requires a == [] || !IsSpace(a[|a| - 1])
    ensures DashSpaces(a + b) == DashSpaces(a) + DashSpaces(b)
    decreases |a|
  {
    if a == [] {
      assert a + b == b;
    } else if IsSpace(a[0]) {
      DropSpacesKeepsEnd(a[1..]);
      DashSpacesAppend(DropSpaces(a[1..]), b);
      DashSpacesAppendRun(a, b);
    } else {
      DashSpacesAppend(a[1..], b);
      DashSpacesAppendChar(a, b);
    }
  }

  /** A leading whitespace run, of any length, becomes one dash. */
  lemma DashLeadingRun(sep: string, b: string)
    requires sep != [] && IsBlank(sep) && (b == [] || !IsSpace(b[0]))
    ensures DashSpaces(sep + b) == "-" + DashSpaces(b)
  {
    assert (sep + b)[0] == sep[0] && (sep + b)[1..] == sep[1..] + b;
    DropPadding(sep[1..], b);
  }

  /** A leading dash stays. */
  lemma DashLeadingDash(b: string)
    ensures DashSpaces("-" + b) == "-" + DashSpaces(b)
  {
    assert ("-" + b)[0] == '-' && ("-" + b)[1..] == b;
  }

  /** A whitespace run of any length between two non-blank characters
      becomes one dash. */
  lemma DashSpacesRunDash(a: string, sep: string, b: string)
    requires a == [] || !IsSpace(a[|a| - 1])
    requires sep != [] && IsBlank(sep) && (b == [] || !IsSpace(b[0]))
    ensures DashSpaces(a + sep + b) == DashSpaces(a) + "-" + DashSpaces(b)
  {
    Assoc(a, sep, b);
    DashSpacesAppend(a, sep + b);
    DashLeadingRun(sep, b);
  }

  /** A dash already between two non-blank characters stays one. */
  lemma DashSpacesKeepsDash(a: string, b: string)
    requires a == [] || !IsSpace(a[|a| - 1])
    ensures DashSpaces(a + "-" + b) == DashSpaces(a) + "-" + DashSpaces(b)
  {
    Assoc(a, "-", b);
    DashSpacesAppend(a, "-" + b);
    DashLeadingDash(b);
  }

  /** So a whitespace run and a single dash in its place dash alike. */
  lemma DashSpacesRun(a: string, sep: string, b: string)
    requires a == [] || !IsSpace(a[|a| - 1])
    requires sep != [] && IsBlank(sep) && (b == [] || !IsSpace(b[0]))
    ensures DashSpaces(a + sep + b) == DashSpaces(a + "-" + b)
  {
    DashSpacesRunDash(a, sep, b);
    DashSpacesKeepsDash(a, b);
  }
}
