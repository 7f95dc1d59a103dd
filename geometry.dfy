/**
 * Points, lines (lineT), triangles (triangleT) and the rectangular puzzle border
 * (puzzleBorderT), with the pure predicates the solver is built from: direction-insensitive
 * line equality, the border test and the concavity test.
 */
module Geometry {
  import opened Wrappers

  /** A vertex on the integer grid. */
  datatype Point = Point(x: int, y: int)

  /** A directed segment from (x1, y1) to (x2, y2). */
  datatype Line = Line(x1: int, y1: int, x2: int, y2: int) {
    function Start(): Point { Point(x1, y1) }
    function End(): Point { Point(x2, y2) }
    function Reversed(): Line { Line(x2, y2, x1, y1) }
  }

  /** A triangle always has exactly three sides. */
  type Sides = s: seq<Line> | |s| == 3 witness [Line(0, 0, 0, 0), Line(0, 0, 0, 0), Line(0, 0, 0, 0)]

  /** A numbered triangle given by its three sides. */
  datatype Triangle = Triangle(sides: Sides, num: int)

  /** The bounding rectangle of the whole puzzle. */
  datatype Border = Border(minX: int, minY: int, maxX: int, maxY: int)

  function Min(a: int, b: int): int { if a < b then a else b }
  function Max(a: int, b: int): int { if a < b then b else a }

  /** The line from a to b. */
  function CreateLine(a: Point, b: Point): (l: Line)
    ensures l.Start() == a && l.End() == b
  {
    Line(a.x, a.y, b.x, b.y)
  }

  /** Side i ends where side i + 1 (cyclically) starts. */
  ghost predicate IsClosed(t: Triangle) {
    forall i :: 0 <= i < 3 ==> t.sides[i].End() == t.sides[(i + 1) % 3].Start()
  }

  /** p is an endpoint of some side of t. */
  ghost predicate IsVertex(t: Triangle, p: Point) {
    exists j :: 0 <= j < 3 && (t.sides[j].Start() == p || t.sides[j].End() == p)
  }

  /**
   * The triangle through the first three points, in order. The number is the one the
   * callers assign right after construction.
   */
  function CreateTriangle(points: seq<Point>, num: int): (t: Triangle)
    requires |points| >= 3
    ensures IsClosed(t)
    ensures forall i :: 0 <= i < 3 ==> t.sides[i].Start() == points[i]
    ensures t.num == num
  {
    Triangle([CreateLine(points[0], points[1]), CreateLine(points[1], points[2]),
              CreateLine(points[2], points[0])], num)
  }

  /** A closed triangle is rebuilt exactly from its three start points. */
  lemma CreateTriangleFromVertices(t: Triangle)
    requires IsClosed(t)
    ensures CreateTriangle([t.sides[0].Start(), t.sides[1].Start(), t.sides[2].Start()], t.num) == t
  {
    var r := CreateTriangle([t.sides[0].Start(), t.sides[1].Start(), t.sides[2].Start()], t.num);
    forall i | 0 <= i < 3
      ensures r.sides[i] == t.sides[i]
    {
      assert t.sides[i].End() == t.sides[(i + 1) % 3].Start();
      assert r.sides[i].End() == t.sides[(i + 1) % 3].Start();
    }
    assert r.sides == t.sides;
  }

  /** compareLines: the two lines have the same endpoints, in either order. */
  function SameLine(a: Line, b: Line): (r: bool)
    ensures r <==> a == b || a == b.Reversed()
  {
    (a.x1 == b.x1 && a.y1 == b.y1 && a.x2 == b.x2 && a.y2 == b.y2) ||
    (a.x1 == b.x2 && a.y1 == b.y2 && a.x2 == b.x1 && a.y2 == b.y1)
  }

  function Endpoints(l: Line): set<Point> {
    {l.Start(), l.End()}
  }

  /** SameLine compares the endpoint sets of two lines. */
  lemma SameLineIffSameEndpoints(a: Line, b: Line)
    ensures SameLine(a, b) <==> Endpoints(a) == Endpoints(b)
  {
    if Endpoints(a) == Endpoints(b) {
      assert a.Start() in Endpoints(b) && a.End() in Endpoints(b);
      assert b.Start() in Endpoints(a) && b.End() in Endpoints(a);
      if a.Start() != b.Start() {
        assert a.Start() == b.End();
        assert b.Start() == a.End();
      }
    }
  }

  /** SameLine is an equivalence relation. */
  lemma SameLineEquivalence(a: Line, b: Line, c: Line)
    ensures SameLine(a, a)
    ensures SameLine(a, b) ==> SameLine(b, a)
    ensures SameLine(a, b) && SameLine(b, c) ==> SameLine(a, c)
  {
  }

  /** isOnBorder: both endpoints lie on one side of the bounding rectangle. */
  function OnBorder(l: Line, b: Border): (r: bool)
    ensures r ==> l.x1 == l.x2 || l.y1 == l.y2
  {
    (l.x1 == b.minX && l.x2 == b.minX) ||
    (l.x1 == b.maxX && l.x2 == b.maxX) ||
    (l.y1 == b.minY && l.y2 == b.minY) ||
    (l.y1 == b.maxY && l.y2 == b.maxY)
  }

  /** The border test does not depend on the direction of the line. */
  lemma OnBorderIgnoresDirection(a: Line, c: Line, b: Border)
    requires SameLine(a, c)
    ensures OnBorder(a, b) == OnBorder(c, b)
  {
  }

  /** Both endpoints lie on the bottom side of the border. */
  predicate OnBottom(l: Line, b: Border) {
    l.y1 == b.minY && l.y2 == b.minY
  }

  /** Both endpoints of l have an x-coordinate in [lo, hi]. */
  predicate Within(l: Line, lo: int, hi: int) {
    lo <= l.x1 <= hi && lo <= l.x2 <= hi
  }

  /**
   * The scan of isConcave from side i on: the first side with an endpoint outside
   * [lo, hi], turned so that the outside endpoint comes first; None if there is none.
   */
  function FirstOverhang(sides: Sides, lo: int, hi: int, i: nat): (r: Option<Line>)
    requires i <= 3
    decreases 3 - i
    ensures r.None? <==> forall j :: i <= j < 3 ==> Within(sides[j], lo, hi)
    ensures r.Some? ==> !(lo <= r.value.x1 <= hi)
    ensures r.Some? ==> exists j :: i <= j < 3 && (r.value == sides[j] || r.value == sides[j].Reversed()) &&
                                    forall j' :: i <= j' < j ==> Within(sides[j'], lo, hi)
  {
    if i == 3 then None
    else if sides[i].x1 < lo || sides[i].x1 > hi then Some(sides[i])
    else if sides[i].x2 < lo || sides[i].x2 > hi then Some(sides[i].Reversed())
    else FirstOverhang(sides, lo, hi, i + 1)
  }

  /**
   * isConcave with its obstructedLine out-parameter: None when every vertex of t lies
   * within the x-span of the contact line, otherwise the overhanging side.
   */
  function Overhang(t: Triangle, contact: Line): (r: Option<Line>)
    ensures r.None? <==> forall j :: 0 <= j < 3 ==> Within(t.sides[j], Min(contact.x1, contact.x2), Max(contact.x1, contact.x2))
    ensures r.Some? ==> !(Min(contact.x1, contact.x2) <= r.value.x1 <= Max(contact.x1, contact.x2))
    ensures r.Some? ==> exists j :: 0 <= j < 3 && (r.value == t.sides[j] || r.value == t.sides[j].Reversed())
  {
    FirstOverhang(t.sides, Min(contact.x1, contact.x2), Max(contact.x1, contact.x2), 0)
  }

  /** isConcave without the out-parameter. */
  function IsConcave(t: Triangle, baseLine: Line): (r: bool)
    ensures r <==> forall j :: 0 <= j < 3 ==> Within(t.sides[j], Min(baseLine.x1, baseLine.x2), Max(baseLine.x1, baseLine.x2))
  {
    Overhang(t, baseLine).None?
  }
}
