/**
 * The mutable Rectangle object of lib/rectangle.js: five stored fields
 * (id, left, top, width, height) and three cached ones (right, bottom, area),
 * updated in place by reset and shrink.
 */
module Rectangles {
  import opened Geometry

  class Rectangle<Id> {
    var id: Id
    var left: int
    var top: int
    var width: int
    var height: int
    var right: int
    var bottom: int
    var area: int

    /** The numeric fields as a value. */
    function Snapshot(): Rect
      reads this
    {
      Rect(left, top, width, height, right, bottom, area)
    }

    /** The cached right/bottom/area agree with left/top/width/height. */
    ghost predicate Valid()
      reads this
    {
      Consistent(Snapshot())
    }

    /** Stores the caller's id, then initialises the geometry exactly as reset does. */
    constructor (left: int, top: int, width: int, height: int, id: Id)
      ensures Valid()
      ensures this.id == id
      ensures this.left == left && this.top == top && this.width == width && this.height == height
      ensures this.right == left + width && this.bottom == top + height && this.area == width * height
    {
      this.id := id;
      new;
      Reset(left, top, width, height);
    }

    /** Replaces the whole geometry and recomputes the cached fields; id is left alone. */
    method Reset(left: int, top: int, width: int, height: int)
      modifies this
      ensures Valid()
      ensures id == old(id)
      ensures Snapshot() == Geometry.Reset(left, top, width, height)
      ensures this.left == left && this.top == top && this.width == width && this.height == height
      ensures right == left + width && bottom == top + height && area == width * height
    {
      this.left := left;
      this.top := top;
      this.width := width;
      this.height := height;
      right := this.left + this.width;
      bottom := this.top + this.height;
      area := this.width * this.height;
    }

    /**
     * Moves every edge inward by num (outward when num is negative) with no
     * check on num, and returns the new area. The edges and the dimensions are
     * updated separately; the invariant is nevertheless re-established.
     */
    method Shrink(num: int) returns (newArea: int)
      modifies this
      ensures id == old(id)
      ensures Snapshot() == Geometry.Shrink(old(Snapshot()), num)
      ensures left == old(left) + num && top == old(top) + num
      ensures right == old(right) - num && bottom == old(bottom) - num
      ensures width == old(width) - 2 * num && height == old(height) - 2 * num
      ensures area == width * height && newArea == area
      ensures old(Valid()) ==> Valid()
    {
      left := left + num;
      top := top + num;
      right := right - num;
      bottom := bottom - num;
      var delta := num;
      delta := delta * 2;
      width := width - delta;
      height := height - delta;
      area := width * height;
      newArea := area;
    }

    /**
     * Boundary-inclusive containment of rect in this rectangle. It reads the
     * cached right/bottom of both; for valid rectangles that is the same as
     * comparing the recomputed edges.
     */
    predicate Contains(rect: Rectangle<Id>): (b: bool)
      reads this, rect
      ensures b <==> Geometry.Contains(Snapshot(), rect.Snapshot())
      ensures Valid() && rect.Valid() ==>
                (b <==> && rect.left >= left && rect.left + rect.width <= left + width
                        && rect.top >= top && rect.top + rect.height <= top + height)
    {
      rect.left >= left && rect.right <= right && rect.top >= top && rect.bottom <= bottom
    }

    /**
     * The debugging text `[Rect(id:…, left:…, top:…, w:…, h:…)]`. How an id or a
     * number is written out is the caller's `idText` and `numText`.
     */
    function ToString(idText: Id -> string, numText: int -> string): (s: string)
      reads this
      ensures |s| >= 11 + |idText(id)| && s[..9] == "[Rect(id:" && s[|s| - 2..] == ")]"
      ensures s[9..9 + |idText(id)|] == idText(id)
    {
      "[Rect(id:" + idText(id) + ", left:" + numText(left) + ", top:" + numText(top)
        + ", w:" + numText(width) + ", h:" + numText(height) + ")]"
    }
  }
}
