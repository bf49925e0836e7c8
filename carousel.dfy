/** The image carousel: an index into the images, moved by the Prev and
    Next buttons and the arrow keys with wrap-around, and set directly by
    the dots. JavaScript's `%` by an empty count gives `NaN`, which the
    index holds as `None`; the keyboard handler can reach it, but an empty
    carousel renders nothing. The `images` prop may change while the index
    stays where it was; rendering then reads `images[index]`, which may be
    `undefined`. */
module Carousel {
  import opened Wrappers
  import opened Js

  /** `(i + 1) % count`. JavaScript's `%` takes the sign of the dividend,
      Dafny's is never negative; the two agree on the non-negative
      dividends that occur, since the index is never negative. A negative
      dividend cannot occur and is answered with `None`, not with the
      negative remainder JavaScript would give. From any non-negative
      index, even one past a list that has shrunk, Next lands on an
      image. */
  function NextIndex(i: Option<int>, count: nat): (r: Option<int>)
    ensures count > 0 && i.Some? && 0 <= i.value ==> r.Some? && 0 <= r.value < count
    ensures count == 0 || i.None? ==> r.None?
  {
    if count == 0 || i.None? || i.value + 1 < 0 then None else Some((i.value + 1) % count)
  }

  /** `(i - 1 + count) % count`, with the same treatment of the sign. */
  function PrevIndex(i: Option<int>, count: nat): (r: Option<int>)
    ensures count > 0 && i.Some? && 0 <= i.value ==> r.Some? && 0 <= r.value < count
    ensures count == 0 || i.None? ==> r.None?
  {
    if count == 0 || i.None? || i.value - 1 + count < 0 then None else Some((i.value - 1 + count) % count)
  }

  /** Euclidean division has one remainder: a decomposition with a
      remainder in range is the one `%` finds. */
  lemma ModUnique(x: int, n: int, q: int, r: int)
    requires n > 0 && x == n * q + r && 0 <= r < n
    ensures x % n == r
  {
    var d := q - x / n;
    assert n * d == x % n - r;
  }

  /** From the last image Next goes to the first; otherwise one on. */
  lemma NextWraps(i: int, count: nat)
    requires 0 <= i < count
    ensures NextIndex(Some(i), count) == Some(if i + 1 == count then 0 else i + 1)
  {
    if i + 1 == count {
      ModUnique(i + 1, count, 1, 0);
    } else {
      ModUnique(i + 1, count, 0, i + 1);
    }
  }

  /** From the first image Prev goes to the last; otherwise one back. */
  lemma PrevWraps(i: int, count: nat)
    requires 0 <= i < count
    ensures PrevIndex(Some(i), count) == Some(if i == 0 then count - 1 else i - 1)
  {
    if i == 0 {
      ModUnique(count - 1, count, 0, count - 1);
    } else {
      ModUnique(i - 1 + count, count, 1, i - 1);
    }
  }

  /** Prev undoes Next and Next undoes Prev. */
  lemma NextPrevInverse(i: int, count: nat)
    requires 0 <= i < count
    ensures PrevIndex(NextIndex(Some(i), count), count) == Some(i)
    ensures NextIndex(PrevIndex(Some(i), count), count) == Some(i)
  {
    NextWraps(i, count);
    PrevWraps(i, count);
    PrevWraps(if i + 1 == count then 0 else i + 1, count);
    NextWraps(if i == 0 then count - 1 else i - 1, count);
  }

  /** `k` presses of Next. */
  function Nexts(i: Option<int>, count: nat, k: nat): Option<int>
    decreases k
  {
    if k == 0 then i else Nexts(NextIndex(i, count), count, k - 1)
  }

  lemma {:induction false} NextsCompose(i: Option<int>, count: nat, a: nat, b: nat)
    ensures Nexts(i, count, a + b) == Nexts(Nexts(i, count, a), count, b)
    decreases a
  {
    if a > 0 {
      NextsCompose(NextIndex(i, count), count, a - 1, b);
    }
  }

  /** Short of the last image, `k` presses of Next move `k` images on. */
  lemma {:induction false} NextsForward(i: int, count: nat, k: nat)
    requires 0 <= i && i + k < count
    ensures Nexts(Some(i), count, k) == Some(i + k)
    decreases k
  {
    if k > 0 {
      NextWraps(i, count);
      NextsForward(i + 1, count, k - 1);
    }
  }

  /** A full round of Next presses comes back to the start. */
  lemma FullRound(i: int, count: nat)
    requires 0 <= i < count
    ensures Nexts(Some(i), count, count) == Some(i)
  {
    var up := count - 1 - i;
    NextsCompose(Some(i), count, up, i + 1);
    NextsForward(i, count, up);
    NextsCompose(Some(count - 1), count, 1, i);
    NextWraps(count - 1, count);
    NextsForward(0, count, i);
  }

  /** What rendering reads, `images[index].src`, throws when the index
      does not name an image: the engine's TypeError for reading a
      property of `undefined`. */
  const UndefinedSrc := "Cannot read properties of undefined (reading 'src')"

  /** The index names one of the images. */
  predicate Shows<T>(images: seq<T>, index: Option<int>) {
    index.Some? && 0 <= index.value < |images|
  }

  /** What the carousel renders: nothing for no images; otherwise the
      image at the index, and a thrown TypeError when the index names no
      image (a `NaN` index, or one past a list that has shrunk). */
  function Active<T>(images: seq<T>, index: Option<int>): (r: Outcome<Option<T>>)
    ensures r == Returned(None) <==> images == []
    ensures r.Threw? <==> images != [] && !Shows(images, index)
    ensures r.Threw? ==> r.thrown == JsError(UndefinedSrc)
    ensures Shows(images, index) ==> r == Returned(Some(images[index.value]))
  {
    if images == [] then Returned(None)
    else if !Shows(images, index) then Threw(JsError(UndefinedSrc))
    else Returned(Some(images[index.value]))
  }

  class Slides<T> {
    var images: seq<T>
    var index: Option<int>

    /** The index is never negative: it starts at 0, the dots set it to
        their own positions and the remainders are never negative. */
    predicate Valid()
      reads this
    {
      index.Some? ==> 0 <= index.value
    }

    /** The index starts at the first image. */
    constructor (images: seq<T>)
      ensures this.images == images && index == Some(0) && Valid()
    {
      this.images := images;
      index := Some(0);
    }

    /** A new `images` prop: the index is kept as it is. */
    method SetImages(next: seq<T>)
      requires Valid()
      modifies this
      ensures images == next && index == old(index) && Valid()
    {
      images := next;
    }

    /** The Next button or the right arrow; with images, the index then
        names one of them. */
    method Next()
      requires Valid()
      modifies this
      ensures images == old(images) && index == NextIndex(old(index), |images|) && Valid()
      ensures images != [] && old(index).Some? ==> Shows(images, index)
    {
      index := NextIndex(index, |images|);
    }

    /** The Prev button or the left arrow. */
    method Prev()
      requires Valid()
      modifies this
      ensures images == old(images) && index == PrevIndex(old(index), |images|) && Valid()
      ensures images != [] && old(index).Some? ==> Shows(images, index)
    {
      index := PrevIndex(index, |images|);
    }

    /** Clicking dot `i`; the dots are numbered `0 <= i < |images|`. */
    method Go(i: nat)
      requires i < |images|
      modifies this
      ensures images == old(images) && index == Some(i as int) && Valid() && Shows(images, index)
    {
      index := Some(i as int);
    }
  }

  /** Shrinking the list below the index makes the next render throw, and
      one press of Next or Prev, had it come first, would have brought the
      index back among the images. */
  lemma ShrinkCrashes<T>(images: seq<T>, i: int)
    requires images != [] && |images| <= i
    ensures Active(images, Some(i)) == Threw(JsError(UndefinedSrc))
    ensures Active(images, NextIndex(Some(i), |images|)).Returned?
    ensures Active(images, PrevIndex(Some(i), |images|)).Returned?
  {
  }

  /** An arrow key on an empty carousel leaves a `NaN` index that no key
      repairs, and images arriving later make the render throw until a
      dot is clicked. */
  lemma NaNIndexCrashes<T>(images: seq<T>, i: Option<int>)
    requires images != []
    ensures NextIndex(i, 0).None? && PrevIndex(i, 0).None?
    ensures NextIndex(None, |images|).None? && PrevIndex(None, |images|).None?
    ensures Active(images, None) == Threw(JsError(UndefinedSrc))
  {
  }
}
