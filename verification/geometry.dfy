/**
 * The field state of an axis-aligned rectangle as a value, and the two
 * updates of lib/rectangle.js (reset, shrink) and its containment query
 * stated as functions over it. Numbers are mathematical integers: exact
 * arithmetic is assumed throughout.
 */
module Geometry {

  /** Every numeric field of a rectangle: the stored geometry and the cached right/bottom/area. */
  datatype Rect = Rect(left: int, top: int, width: int, height: int,
                       right: int, bottom: int, area: int)

  /** The class invariant: the cached fields agree with the stored geometry. */
  predicate Consistent(g: Rect)
  {
    && g.right == g.left + g.width
    && g.bottom == g.top + g.height
    && g.area == g.width * g.height
  }

  /** The state `reset(left, top, width, height)` leaves behind: no validation of any argument. */
  function Reset(left: int, top: int, width: int, height: int): (g: Rect)
    ensures Consistent(g)
    ensures g.left == left && g.top == top && g.width == width && g.height == height
  {
    Rect(left, top, width, height, left + width, top + height, width * height)
  }

  /**
   * The state `shrink(num)` leaves behind. The edges and the dimensions are
   * updated on two separate paths: left/top move forward by num, right/bottom
   * move back by num, width/height lose 2*num, and only area is recomputed.
   */
  function Shrink(g: Rect, num: int): (r: Rect)
    ensures Consistent(g) ==> Consistent(r)
    ensures r.area == r.width * r.height
  {
    var twice := num * 2;
    Rect(g.left + num, g.top + num, g.width - twice, g.height - twice,
         g.right - num, g.bottom - num, (g.width - twice) * (g.height - twice))
  }

  /**
   * Boundary-inclusive containment, reading the cached right/bottom of both
   * rectangles; when both are consistent that is containment of the edges
   * recomputed from left/top/width/height.
   */
  predicate Contains(outer: Rect, inner: Rect): (b: bool)
    ensures Consistent(outer) && Consistent(inner) ==>
              (b <==> && inner.left >= outer.left && inner.left + inner.width <= outer.left + outer.width
                      && inner.top >= outer.top && inner.top + inner.height <= outer.top + outer.height)
  {
    && inner.left >= outer.left
    && inner.right <= outer.right
    && inner.top >= outer.top
    && inner.bottom <= outer.bottom
  }

  /** Under exact arithmetic the two-path update of shrink is a reset to the moved edges. */
  lemma ShrinkIsResetOfMovedEdges(g: Rect, num: int)
    requires Consistent(g)
    ensures Shrink(g, num) == Reset(g.left + num, g.top + num, g.width - 2 * num, g.height - 2 * num)
    ensures Shrink(g, num).right == g.right - num && Shrink(g, num).bottom == g.bottom - num
  {
  }

  /** Reset does not depend on the prior state, so resetting twice with the same arguments is resetting once. */
  lemma ResetOverwritesEverything(g: Rect, left: int, top: int, width: int, height: int)
    ensures Apply(Apply(g, ResetOp(left, top, width, height)), ResetOp(left, top, width, height))
         == Apply(g, ResetOp(left, top, width, height))
  {
  }

  /** shrink(0) keeps the geometry; it leaves the whole state unchanged exactly when area was up to date. */
  lemma ShrinkZero(g: Rect)
    ensures Shrink(g, 0).left == g.left && Shrink(g, 0).top == g.top
    ensures Shrink(g, 0).width == g.width && Shrink(g, 0).height == g.height
    ensures Shrink(g, 0).right == g.right && Shrink(g, 0).bottom == g.bottom
    ensures Shrink(g, 0) == g <==> g.area == g.width * g.height
  {
  }

  /**
   * shrink accepts any amount: once 2*num exceeds the width the width goes
   * negative, and the area is negative exactly when one dimension is negative
   * and the other positive.
   */
  lemma ShrinkPastWidth(g: Rect, num: int)
    requires 2 * num > g.width
    ensures Shrink(g, num).width < 0
    ensures Shrink(g, num).area < 0 <==> 2 * num < g.height
  {
  }

  /** A negative width need not give a negative area: when both dimensions collapse the area is positive. */
  lemma BothDimensionsCollapse()
    ensures Consistent(Rect(0, 0, 2, 2, 2, 2, 4))
    ensures Shrink(Rect(0, 0, 2, 2, 2, 2, 4), 2) == Rect(2, 2, -2, -2, 0, 0, 4)
  {
  }

  lemma ContainsReflexive(g: Rect)
    ensures Contains(g, g)
  {
  }

  lemma ContainsTransitive(a: Rect, b: Rect, c: Rect)
    requires Contains(a, b) && Contains(b, c)
    ensures Contains(a, c)
  {
  }

  /**
   * A rectangle contains what shrink makes of it exactly when the amount is
   * not negative, and the shrunk rectangle contains the original exactly when
   * the amount is not positive. Neither needs the cached fields to be
   * consistent, since shrink moves the cached right/bottom directly.
   */
  lemma ShrinkNested(g: Rect, num: int)
    ensures Contains(g, Shrink(g, num)) <==> num >= 0
    ensures Contains(Shrink(g, num), g) <==> num <= 0
  {
  }

  /** One call of a mutator of the rectangle. */
  datatype Op = ResetOp(left: int, top: int, width: int, height: int) | ShrinkOp(num: int)

  function Apply(g: Rect, op: Op): Rect
  {
    match op
    case ResetOp(left, top, width, height) => Reset(left, top, width, height)
    case ShrinkOp(num) => Shrink(g, num)
  }

  /** The state after the calls in `ops`, in order. */
  function Run(g: Rect, ops: seq<Op>): Rect
    decreases |ops|
  {
    if ops == [] then g else Run(Apply(g, ops[0]), ops[1..])
  }

  /** The invariant holds after every sequence of reset/shrink calls that starts from a consistent state. */
  lemma {:induction false} RunKeepsConsistent(g: Rect, ops: seq<Op>)
    requires Consistent(g)
    ensures Consistent(Run(g, ops))
    decreases |ops|
  {
    if ops != [] {
      RunKeepsConsistent(Apply(g, ops[0]), ops[1..]);
    }
  }

  /** Any sequence that contains a reset ends consistent, whatever the state it started from. */
  lemma {:induction false} RunAfterResetConsistent(g: Rect, ops: seq<Op>, k: nat)
    requires k < |ops| && ops[k].ResetOp?
    ensures Consistent(Run(g, ops))
    decreases |ops|
  {
    if k == 0 {
      RunKeepsConsistent(Apply(g, ops[0]), ops[1..]);
    } else {
      RunAfterResetConsistent(Apply(g, ops[0]), ops[1..], k - 1);
    }
  }

  function Sum(nums: seq<int>): int
    decreases |nums|
  {
    if nums == [] then 0 else nums[0] + Sum(nums[1..])
  }

  /** The state after shrinking by each amount of `nums` in turn. */
  function ShrinkAll(g: Rect, nums: seq<int>): Rect
    decreases |nums|
  {
    if nums == [] then g else ShrinkAll(Shrink(g, nums[0]), nums[1..])
  }

  lemma ShrinkTwice(g: Rect, a: int, b: int)
    ensures Shrink(Shrink(g, a), b) == Shrink(g, a + b)
  {
  }

  /** Shrinking repeatedly (at least once) is shrinking once by the total amount. */
  lemma {:induction false} ShrinkAllIsOneShrink(g: Rect, nums: seq<int>)
    requires nums != []
    ensures ShrinkAll(g, nums) == Shrink(g, Sum(nums))
    decreases |nums|
  {
    if |nums| > 1 {
      ShrinkAllIsOneShrink(Shrink(g, nums[0]), nums[1..]);
      ShrinkTwice(g, nums[0], Sum(nums[1..]));
    }
  }

  /** A rectangle contains the result of any series of non-negative shrinks of it. */
  lemma {:induction false} ShrinkAllNested(g: Rect, nums: seq<int>)
    requires forall i :: 0 <= i < |nums| ==> nums[i] >= 0
    ensures Contains(g, ShrinkAll(g, nums))
    decreases |nums|
  {
    if nums == [] {
      ContainsReflexive(g);
    } else {
      var h := Shrink(g, nums[0]);
      ShrinkNested(g, nums[0]);
      ShrinkAllNested(h, nums[1..]);
      ContainsTransitive(g, h, ShrinkAll(h, nums[1..]));
    }
  }
}
