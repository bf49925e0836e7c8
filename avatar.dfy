/** The avatar: the picture when there is one, otherwise up to two
    initials taken from the fallback name, or `U` when it has none. */
module Avatar {
  import opened Wrappers
  import opened Strings
  import opened Seqs
  import opened Words

  /** `p[0]?.toUpperCase()`, where `undefined` joins as nothing. */
  function FirstUpper(p: string): (r: string)
    ensures |r| <= 1 && (|r| == 1 <==> p != [])
    ensures p != [] ==> r == [UpperChar(p[0])]
  {
    if p == [] then "" else [UpperChar(p[0])]
  }

  /** `.slice(0, 2)` */
  function TakeTwo<T>(xs: seq<T>): (r: seq<T>)
    ensures |xs| <= 2 ==> r == xs
    ensures |xs| > 2 ==> r == xs[..2]
  {
    if |xs| <= 2 then xs else xs[..2]
  }

  lemma TakeTwoOf<T>(xs: seq<T>)
    requires |xs| >= 2
    ensures TakeTwo(xs) == [xs[0], xs[1]]
  {
    if |xs| > 2 {
      assert xs[..2] == [xs[0], xs[1]];
    } else {
      assert xs == [xs[0], xs[1]];
    }
  }

  /** The initials of the fallback name: the first letter, upper-cased, of
      each of its first two words. */
  function Initials(fallback: string): string {
    Join(Map(FirstUpper, TakeTwo(SplitSpaces(Trim(fallback)))), "")
  }

  datatype Face = Picture(src: string) | Letters(text: string)

  /** What the avatar shows for `src` (absent, `null` or a string). */
  function Shown(src: Option<string>, fallback: string): Face {
    if src.Some? && src.value != "" then Picture(src.value)
    else
      var initials := Initials(fallback);
      Letters(if initials == "" then "U" else initials)
  }

  /** The initials of the first one or two pieces: at most two
      characters, and none only when every piece taken is empty. */
  lemma InitialsOfPieces(pieces: seq<string>)
    requires 1 <= |pieces| <= 2
    ensures var r := Join(Map(FirstUpper, pieces), "");
      |r| <= 2 && (r == "" <==> pieces[0] == "" && (|pieces| == 2 ==> pieces[1] == ""))
  {
    var parts := Map(FirstUpper, pieces);
    MapAt(FirstUpper, pieces, 0);
    if |pieces| == 2 {
      MapAt(FirstUpper, pieces, 1);
      assert parts == [parts[0]] + [parts[1]];
      JoinCons(parts[0], [parts[1]], "");
    }
  }

  /** The first piece of a trimmed name is empty only for a blank name. */
  lemma FirstPieceOfTrimmed(fallback: string)
    ensures var t := Trim(fallback);
      SplitSpaces(t)[0] == "" <==> IsBlank(fallback)
  {
    var t := Trim(fallback);
    TrimEmptyIffBlank(fallback);
    if t == [] {
      assert SplitSpaces(t) == [t];
    } else {
      SplitFirstWord(t);
    }
  }

  /** There are at most two initials, and none exactly when the name is
      blank. */
  lemma InitialsShape(fallback: string)
    ensures |Initials(fallback)| <= 2
    ensures Initials(fallback) == "" <==> IsBlank(fallback)
  {
    var pieces := TakeTwo(SplitSpaces(Trim(fallback)));
    InitialsOfPieces(pieces);
    FirstPieceOfTrimmed(fallback);
    if |pieces| == 2 {
      SplitSecondWord(Trim(fallback));
    }
  }

  /** Dropping the blank padding in front of some text, then the trailing
      whitespace after a last non-blank character. */
  lemma TrimAround(pad: string, core: string, tail: string)
    requires IsBlank(pad) && core != [] && !IsSpace(core[0]) && !IsSpace(core[|core| - 1])
    ensures Trim(pad + core + tail) == core + TrimEnd(tail)
  {
    var t := core + tail;
    assert pad + core + tail == pad + t;
    assert t[0] == core[0];
    DropPadding(pad, t);
    DropSpacesIsTrimStart(pad + t);
    TrimEndAppend(core, tail);
  }

  /** Two words apart, followed by nothing or by whitespace, are the first
      two pieces. */
  lemma SplitTwoWords(w1: string, sep: string, w2: string, e: string)
    requires Word(w1) && Word(w2) && sep != [] && IsBlank(sep)
    requires e == [] || IsSpace(e[0])
    ensures var pieces := SplitSpaces(w1 + sep + w2 + e);
      |pieces| >= 2 && pieces[0] == w1 && pieces[1] == w2
  {
    var rest := w2 + e;
    var after := sep + rest;
    Assoc(w1 + sep, w2, e);
    Assoc(w1, sep, rest);
    SplitAfterWord(w2, e);
    assert rest[0] == w2[0];
    DropPadding(sep, rest);
    assert after[0] == sep[0];
    SplitAfterWord(w1, after);
  }

  /** A name of two or more words has the initials of its first two. */
  lemma InitialsOfWords(pad: string, w1: string, sep: string, w2: string, tail: string)
    requires IsBlank(pad) && Word(w1) && Word(w2) && sep != [] && IsBlank(sep)
    requires tail == [] || IsSpace(tail[0])
    ensures Initials(pad + w1 + sep + w2 + tail) == [UpperChar(w1[0]), UpperChar(w2[0])]
  {
    var core := w1 + sep + w2;
    assert pad + w1 + sep + w2 + tail == pad + core + tail;
    assert core[0] == w1[0] && core[|core| - 1] == w2[|w2| - 1];
    TrimAround(pad, core, tail);
    var e := TrimEnd(tail);
    assert e == [] || IsSpace(e[0]);
    assert core + e == w1 + sep + w2 + e;
    SplitTwoWords(w1, sep, w2, e);
    TakeTwoOf(SplitSpaces(core + e));
    TwoInitials(w1, w2);
  }

  lemma TwoInitials(w1: string, w2: string)
    requires w1 != [] && w2 != []
    ensures Join(Map(FirstUpper, [w1, w2]), "") == [UpperChar(w1[0]), UpperChar(w2[0])]
  {
    var parts := Map(FirstUpper, [w1, w2]);
    MapAt(FirstUpper, [w1, w2], 0);
    MapAt(FirstUpper, [w1, w2], 1);
    assert parts == [parts[0]] + [parts[1]];
    JoinCons(parts[0], [parts[1]], "");
  }

  /** A one-word name has one initial. */
  lemma InitialOfWord(pad: string, w: string, tail: string)
    requires IsBlank(pad) && Word(w) && IsBlank(tail)
    ensures Initials(pad + w + tail) == [UpperChar(w[0])]
  {
    TrimAround(pad, w, tail);
    assert TrimEnd(tail) == [];
    assert w + TrimEnd(tail) == w;
    SplitAfterWord(w, []);
    assert w + [] == w;
    MapSingle(FirstUpper, w);
  }

  /** A picture is shown exactly when there is a non-empty source; the
      letters are one or two characters, `U` for a blank name. */
  lemma ShownCases(src: Option<string>, fallback: string)
    ensures Shown(src, fallback).Picture? <==> src.Some? && src.value != ""
    ensures Shown(src, fallback).Picture? ==> Shown(src, fallback).src == src.value
    ensures Shown(src, fallback).Letters? ==> 1 <= |Shown(src, fallback).text| <= 2
    ensures Shown(src, fallback).Letters? && IsBlank(fallback) ==> Shown(src, fallback) == Letters("U")
    ensures Shown(src, fallback).Letters? && !IsBlank(fallback) ==> Shown(src, fallback) == Letters(Initials(fallback))
  {
    InitialsShape(fallback);
  }
}
