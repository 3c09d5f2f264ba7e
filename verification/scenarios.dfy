/** Clients of the Rectangle class: construction, reset, shrink, containment and a stale cache, checked against the contracts alone. */
module Scenarios {
  import opened Rectangles

  method Construct()
  {
    var r1 := new Rectangle(0, 0, 10, 20, "r1");
    assert r1.left == 0 && r1.top == 0 && r1.width == 10 && r1.height == 20;
    assert r1.right == 10 && r1.bottom == 20 && r1.area == 200;
    assert r1.id == "r1";
  }

  method ResetInPlace()
  {
    var r1 := new Rectangle(0, 0, 10, 20, "r1");
    r1.Reset(5, 5, 4, 4);
    assert r1.left == 5 && r1.top == 5 && r1.width == 4 && r1.height == 4;
    assert r1.right == 9 && r1.bottom == 9 && r1.area == 16;
    assert r1.id == "r1";
  }

  method ShrinkByOne(r1: Rectangle<string>)
    requires r1.Valid()
    requires r1.left == 5 && r1.top == 5 && r1.width == 4 && r1.height == 4
    modifies r1
  {
    var a := r1.Shrink(1);
    assert r1.left == 6 && r1.top == 6 && r1.right == 8 && r1.bottom == 8;
    assert r1.width == 2 && r1.height == 2 && r1.area == 4 && a == 4;
    assert r1.Valid();
  }

  method ContainsOneWay()
  {
    var a := new Rectangle(0, 0, 10, 10, "a");
    var b := new Rectangle(2, 2, 5, 5, "b");
    var ab := a.Contains(b);
    var ba := b.Contains(a);
    assert ab && !ba;
  }

  /** Resetting twice with the same arguments leaves the same fields as resetting once. */
  method ResetTwice(r: Rectangle<string>, left: int, top: int, width: int, height: int)
    modifies r
  {
    r.Reset(left, top, width, height);
    var once := r.Snapshot();
    r.Reset(left, top, width, height);
    assert r.Snapshot() == once;
  }

  /** Shrinking past the width is accepted and yields a negative width and, here, a negative area. */
  method DegenerateShrink(r: Rectangle<string>)
    requires r.width == 2 && r.height == 10
    modifies r
  {
    var a := r.Shrink(2);
    assert r.width == -2 && r.height == 6 && a == -12;
    assert r.Contains(r);
  }

  /** Containment reads the cached right, so a width assigned directly is not seen by it. */
  method StaleCache()
  {
    var outer := new Rectangle(0, 0, 10, 10, "outer");
    var inner := new Rectangle(2, 2, 5, 5, "inner");
    inner.width := 50;
    var c := outer.Contains(inner);
    assert c;
    assert inner.left + inner.width > outer.right;
  }
}
