/**
 * Canvas sizing of one packed bin: the tight bounding box of its
 * rectangles (`ReducerTrim`) and the same box with each side rounded up to a
 * power of two (`SquareTrim`).
 */
module AtlasTrim {
  import opened AtlasTypes

  function Max(a: int, b: int): int { if a < b then b else a }

  /**
   * `rects.reduce` with `Math.max` from `{0, 0}`: the largest right edge and
   * the largest bottom edge, and never less than zero.
   */
  function ReducerTrim(rects: seq<PlacedItem>): (d: Dimension)
    ensures d.width >= 0 && d.height >= 0
  {
    if |rects| == 0 then Dimension(0, 0)
    else
      var acc := ReducerTrim(rects[..|rects| - 1]);
      var last := rects[|rects| - 1];
      Dimension(Max(acc.width, last.Right()), Max(acc.height, last.Bottom()))
  }

  /** Every rectangle lies inside the box `d` spanned from the origin. */
  predicate Encloses(rects: seq<PlacedItem>, d: Dimension) {
    forall i :: 0 <= i < |rects| ==> rects[i].Right() <= d.width && rects[i].Bottom() <= d.height
  }

  /**
   * `ReducerTrim` is the tight box: it holds every rectangle, and each side
   * is 0 or the edge of some rectangle; an empty bin gives 0 x 0.
   */
  lemma {:induction false} ReducerTrimIsTight(rects: seq<PlacedItem>)
    ensures Encloses(rects, ReducerTrim(rects))
    ensures ReducerTrim(rects).width == 0 || exists i :: 0 <= i < |rects| && rects[i].Right() == ReducerTrim(rects).width
    ensures ReducerTrim(rects).height == 0 || exists i :: 0 <= i < |rects| && rects[i].Bottom() == ReducerTrim(rects).height
    ensures |rects| == 0 ==> ReducerTrim(rects) == Dimension(0, 0)
  {
    if |rects| > 0 {
      var front := rects[..|rects| - 1];
      ReducerTrimIsTight(front);
      assert forall i :: 0 <= i < |front| ==> rects[i] == front[i];
    }
  }

  /** No smaller box holds every rectangle. */
  lemma {:induction false} ReducerTrimIsLeast(rects: seq<PlacedItem>, d: Dimension)
    requires d.width >= 0 && d.height >= 0 && Encloses(rects, d)
    ensures ReducerTrim(rects).width <= d.width && ReducerTrim(rects).height <= d.height
  {
    if |rects| > 0 {
      var front := rects[..|rects| - 1];
      assert rects[|rects| - 1] == rects[|rects| - 1];
      assert forall i :: 0 <= i < |front| ==> front[i] == rects[i];
      ReducerTrimIsLeast(front, d);
    }
  }

  predicate IsPowerOfTwo(n: int)
    decreases if n < 0 then 0 else n
  {
    n == 1 || (n > 1 && n % 2 == 0 && IsPowerOfTwo(n / 2))
  }

  /**
   * `2 ** ceil(log2(n))`, computed exactly: the least power of two that is
   * at least `n`; for `n = 0` the floating-point formula yields 0 (log2 is
   * minus infinity). For `n >= 2` it is twice the power for `ceil(n / 2)`.
   */
  function Create2nSquare(n: nat): (r: nat)
    ensures n == 0 ==> r == 0
    ensures n >= 1 ==> IsPowerOfTwo(r) && n <= r < 2 * n
  {
    if n <= 1 then n
    else
      var m := (n + 1) / 2;
      var half := Create2nSquare(m);
      assert n <= 2 * m <= n + 1;
      assert half < n by {
        if n % 2 == 1 { OddNotPowerOfTwo(n); }
      }
      assert (2 * half) % 2 == 0 && (2 * half) / 2 == half;
      2 * half
  }

  /** An odd number above 1 is no power of two. */
  lemma OddNotPowerOfTwo(n: int)
    requires n > 1 && n % 2 == 1
    ensures !IsPowerOfTwo(n)
  {
  }

  /** Between two different powers of two there is at least a factor of two. */
  lemma {:induction false} PowersOfTwoApart(p: int, q: int)
    requires IsPowerOfTwo(p) && IsPowerOfTwo(q) && p < q
    ensures 2 * p <= q
  {
    if p > 1 {
      PowersOfTwoApart(p / 2, q / 2);
    }
  }

  /** `Create2nSquare(n)` is the least power of two that is at least `n`. */
  lemma Create2nSquareIsLeast(n: nat, q: int)
    requires n >= 1 && IsPowerOfTwo(q) && n <= q
    ensures Create2nSquare(n) <= q
  {
    var r := Create2nSquare(n);
    if q < r {
      PowersOfTwoApart(q, r);
    }
  }

  /** Rounding of one axis: 0 stays 0, any other extent goes up to the next power of two. */
  predicate RoundedUp(tight: int, side: int) {
    (tight == 0 ==> side == 0) && (tight > 0 ==> IsPowerOfTwo(side) && tight <= side < 2 * tight)
  }

  /** The tight box with each axis rounded up on its own. */
  function SquareTrim(rects: seq<PlacedItem>): Dimension {
    var tight := ReducerTrim(rects);
    Dimension(Create2nSquare(tight.width), Create2nSquare(tight.height))
  }

  /**
   * Each side of `SquareTrim` is the tight side rounded up to a power of two
   * on its own (0 stays 0), so the rounded box still holds every rectangle.
   */
  lemma SquareTrimRoundsUp(rects: seq<PlacedItem>)
    ensures RoundedUp(ReducerTrim(rects).width, SquareTrim(rects).width)
    ensures RoundedUp(ReducerTrim(rects).height, SquareTrim(rects).height)
    ensures Encloses(rects, SquareTrim(rects))
  {
    ReducerTrimIsTight(rects);
  }

  /** The axes are rounded independently, so the canvas need not be square: 3 x 10 becomes 4 x 16. */
  lemma SquareTrimNeedNotBeSquare(item: MeasuredItem)
    requires item.width == 3 && item.height == 10
    ensures SquareTrim([PlacedItem(item, 0, 0, false)]) == Dimension(4, 16)
  {
    var rects := [PlacedItem(item, 0, 0, false)];
    assert rects[..0] == [];
    assert ReducerTrim(rects) == Dimension(3, 10);
    assert Create2nSquare(1) == 1;
    assert Create2nSquare(2) == 2;
    assert Create2nSquare(3) == 4;
    assert Create2nSquare(5) == 8;
    assert Create2nSquare(10) == 16;
  }
}
