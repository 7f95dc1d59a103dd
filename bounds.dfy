/** findPuzzleBorder: the bounding rectangle of all the triangles' endpoints. */
module Bounds {
  import opened Geometry

  /** Both endpoints of l lie in the rectangle b. */
  predicate InBox(b: Border, l: Line) {
    b.minX <= l.x1 <= b.maxX && b.minX <= l.x2 <= b.maxX &&
    b.minY <= l.y1 <= b.maxY && b.minY <= l.y2 <= b.maxY
  }

  ghost predicate Encloses(b: Border, ts: seq<Triangle>) {
    forall k, s :: 0 <= k < |ts| && 0 <= s < 3 ==> InBox(b, ts[k].sides[s])
  }

  /** Side s of triangle k has an endpoint with x-coordinate x. */
  ghost predicate HasX(ts: seq<Triangle>, k: int, s: int, x: int) {
    0 <= k < |ts| && 0 <= s < 3 && (ts[k].sides[s].x1 == x || ts[k].sides[s].x2 == x)
  }

  /** Side s of triangle k has an endpoint with y-coordinate y. */
  ghost predicate HasY(ts: seq<Triangle>, k: int, s: int, y: int) {
    0 <= k < |ts| && 0 <= s < 3 && (ts[k].sides[s].y1 == y || ts[k].sides[s].y2 == y)
  }

  /** Every bound is the coordinate of some endpoint. */
  ghost predicate Attains(b: Border, ts: seq<Triangle>) {
    (exists k, s :: HasX(ts, k, s, b.minX)) && (exists k, s :: HasX(ts, k, s, b.maxX)) &&
    (exists k, s :: HasY(ts, k, s, b.minY)) && (exists k, s :: HasY(ts, k, s, b.maxY))
  }

  /** b is the smallest rectangle holding every endpoint of ts. */
  ghost predicate IsBorderOf(b: Border, ts: seq<Triangle>) {
    Encloses(b, ts) && Attains(b, ts)
  }

  /** There is only one border of a puzzle. */
  lemma BorderUnique(b1: Border, b2: Border, ts: seq<Triangle>)
    requires IsBorderOf(b1, ts) && IsBorderOf(b2, ts)
    ensures b1 == b2
  {
    var k1, s1 :| HasX(ts, k1, s1, b1.minX);
    var k2, s2 :| HasX(ts, k2, s2, b2.minX);
    assert InBox(b1, ts[k2].sides[s2]) && InBox(b2, ts[k1].sides[s1]);
    var k3, s3 :| HasX(ts, k3, s3, b1.maxX);
    var k4, s4 :| HasX(ts, k4, s4, b2.maxX);
    assert InBox(b1, ts[k4].sides[s4]) && InBox(b2, ts[k3].sides[s3]);
    var k5, s5 :| HasY(ts, k5, s5, b1.minY);
    var k6, s6 :| HasY(ts, k6, s6, b2.minY);
    assert InBox(b1, ts[k6].sides[s6]) && InBox(b2, ts[k5].sides[s5]);
    var k7, s7 :| HasY(ts, k7, s7, b1.maxY);
    var k8, s8 :| HasY(ts, k8, s8, b2.maxY);
    assert InBox(b1, ts[k8].sides[s8]) && InBox(b2, ts[k7].sides[s7]);
  }

  /** b contains the rectangle inner. */
  predicate Wider(b: Border, inner: Border) {
    b.minX <= inner.minX && inner.maxX <= b.maxX && b.minY <= inner.minY && inner.maxY <= b.maxY
  }

  /** Every side before side s of triangle k (in scan order) lies in b. */
  ghost predicate EnclosedBefore(b: Border, ts: seq<Triangle>, k: int, s: int) {
    forall k', s' :: 0 <= k' < |ts| && 0 <= s' < 3 && (k' < k || (k' == k && s' < s)) ==> InBox(b, ts[k'].sides[s'])
  }

  lemma EnclosedBeforeStep(b: Border, inner: Border, ts: seq<Triangle>, k: nat, s: nat)
    requires k < |ts| && s < 3
    requires EnclosedBefore(inner, ts, k, s) && Wider(b, inner) && InBox(b, ts[k].sides[s])
    ensures EnclosedBefore(b, ts, k, s + 1)
  {
  }

  /** findPuzzleBorder: start from the first endpoint and widen over every side. */
  method FindPuzzleBorder(triangles: seq<Triangle>) returns (b: Border)
    requires |triangles| > 0
    ensures IsBorderOf(b, triangles)
  {
    var first := triangles[0].sides[0];
    b := Border(first.x1, first.y1, first.x1, first.y1);
    ghost var wMinX, wMaxX, wMinY, wMaxY := (0, 0), (0, 0), (0, 0), (0, 0);
    var k := 0;
    while k < |triangles|
      invariant 0 <= k <= |triangles|
      invariant EnclosedBefore(b, triangles, k, 0)
      invariant HasX(triangles, wMinX.0, wMinX.1, b.minX) && HasX(triangles, wMaxX.0, wMaxX.1, b.maxX)
      invariant HasY(triangles, wMinY.0, wMinY.1, b.minY) && HasY(triangles, wMaxY.0, wMaxY.1, b.maxY)
    {
      var s := 0;
      while s < 3
        invariant 0 <= s <= 3
        invariant EnclosedBefore(b, triangles, k, s)
        invariant HasX(triangles, wMinX.0, wMinX.1, b.minX) && HasX(triangles, wMaxX.0, wMaxX.1, b.maxX)
        invariant HasY(triangles, wMinY.0, wMinY.1, b.minY) && HasY(triangles, wMaxY.0, wMaxY.1, b.maxY)
      {
        var side := triangles[k].sides[s];
        ghost var before := b;
        if Min(side.x1, side.x2) < b.minX {
          b := b.(minX := Min(side.x1, side.x2));
          wMinX := (k, s);
        }
        if Max(side.x1, side.x2) > b.maxX {
          b := b.(maxX := Max(side.x1, side.x2));
          wMaxX := (k, s);
        }
        if Min(side.y1, side.y2) < b.minY {
          b := b.(minY := Min(side.y1, side.y2));
          wMinY := (k, s);
        }
        if Max(side.y1, side.y2) > b.maxY {
          b := b.(maxY := Max(side.y1, side.y2));
          wMaxY := (k, s);
        }
        EnclosedBeforeStep(b, before, triangles, k, s);
        s := s + 1;
      }
      assert EnclosedBefore(b, triangles, k + 1, 0);
      k := k + 1;
    }
    assert Encloses(b, triangles);
  }
}
