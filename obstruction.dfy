/**
 * The obstruction test (defineObstructedLine, obstructedLineIsBoundaryLine, doesNotBlock):
 * a triangle that overhangs its contact line would cover a lower line of its own; the
 * placement is safe only when that line is already covered by the frontier or lies at
 * ground level.
 */
module Obstruction {
  import opened Wrappers
  import opened Geometry
  import opened Frontier

  /**
   * One iteration of defineObstructedLine: a side that leaves the start point of o toward
   * a lower point than o's end replaces o's end by that point.
   */
  function LowerStep(side: Line, o: Line): Line {
    if side.x1 == o.x1 && side.y1 == o.y1 && side.y2 < o.y2 then o.(x2 := side.x2, y2 := side.y2)
    else if side.x2 == o.x1 && side.y2 == o.y1 && side.y1 < o.y2 then o.(x2 := side.x1, y2 := side.y1)
    else o
  }

  /** A neighbour of p in t: the other endpoint of a side of t ending at p. */
  ghost predicate IsNeighbour(t: Triangle, p: Point, q: Point) {
    exists j :: 0 <= j < 3 && ((t.sides[j].Start() == p && t.sides[j].End() == q) ||
                               (t.sides[j].End() == p && t.sides[j].Start() == q))
  }

  /** No side among the first n of t leaves p toward a point lower than y. */
  ghost predicate NoLowerNeighbour(t: Triangle, p: Point, y: int, n: int) {
    forall j :: 0 <= j < n && j < 3 ==>
      (t.sides[j].Start() == p ==> y <= t.sides[j].y2) && (t.sides[j].End() == p ==> y <= t.sides[j].y1)
  }

  /**
   * o after the first n iterations of defineObstructedLine: the start stays, the end moves
   * only down and only to a neighbour of the start, and no side scanned so far leads lower.
   */
  function LowerObstruction(t: Triangle, o: Line, n: nat): (r: Line)
    requires n <= 3
    ensures r.Start() == o.Start()
    ensures r.y2 <= o.y2
    ensures r == o || (IsNeighbour(t, o.Start(), r.End()) && r.y2 < o.y2)
    ensures NoLowerNeighbour(t, o.Start(), r.y2, n)
  {
    if n == 0 then o
    else
      var prev := LowerObstruction(t, o, n - 1);
      var r := LowerStep(t.sides[n - 1], prev);
      assert r != prev ==> (t.sides[n - 1].Start() == o.Start() && t.sides[n - 1].End() == r.End()) ||
                           (t.sides[n - 1].End() == o.Start() && t.sides[n - 1].Start() == r.End());
      r
  }

  /** defineObstructedLine: the obstructed line is lowered as far as t's sides lead. */
  method DefineObstructedLine(t: Triangle, o: Line) returns (r: Line)
    ensures r == LowerObstruction(t, o, 3)
  {
    r := o;
    for side := 0 to 3
      invariant r == LowerObstruction(t, o, side)
    {
      if t.sides[side].x1 == r.x1 && t.sides[side].y1 == r.y1 && t.sides[side].y2 < r.y2 {
        r := r.(x2 := t.sides[side].x2, y2 := t.sides[side].y2);
      } else if t.sides[side].x2 == r.x1 && t.sides[side].y2 == r.y1 && t.sides[side].y1 < r.y2 {
        r := r.(x2 := t.sides[side].x1, y2 := t.sides[side].y1);
      }
    }
  }

  /** Both endpoints at height 0: the literal ground level, not the border's minY. */
  predicate AtGroundLevel(l: Line) {
    l.y1 == 0 && l.y2 == 0
  }

  /**
   * obstructedLineIsBoundaryLine: whether the scan over the boundary lines meets an entry
   * equal to o, or o is at ground level (tested only inside the loop, so never for an empty
   * frontier). The line is kept when found and reset to no line otherwise.
   */
  method ObstructedLineIsBoundaryLine(lines: seq<Line>, o: Line) returns (found: bool, kept: Option<Line>)
    ensures found <==> |lines| > 0 && (AtGroundLevel(o) || OnFrontier(lines, o))
    ensures kept == if found then Some(o) else None
  {
    var boundary := 0;
    while boundary < |lines|
      invariant 0 <= boundary <= |lines|
      invariant boundary > 0 ==> !AtGroundLevel(o)
      invariant forall j :: 0 <= j < boundary ==> !SameLine(lines[j], o)
    {
      if AtGroundLevel(o) || SameLine(lines[boundary], o) {
        return true, Some(o);
      }
      boundary := boundary + 1;
    }
    return false, None;
  }

  /**
   * The line a placement of t on contact would obstruct: none when t is concave over the
   * contact, otherwise the overhanging side lowered by defineObstructedLine.
   */
  function ObstructedLine(t: Triangle, contact: Line): (r: Option<Line>)
    ensures r.None? <==> IsConcave(t, contact)
    ensures r.Some? ==> r.value.Start() == Overhang(t, contact).value.Start() &&
                        !(Min(contact.x1, contact.x2) <= r.value.x1 <= Max(contact.x1, contact.x2))
  {
    match Overhang(t, contact)
    case None => None
    case Some(o) => Some(LowerObstruction(t, o, 3))
  }

  /** The verdict of doesNotBlock: safe exactly when nothing is obstructed or the obstructed line is supported. */
  predicate SafePlacement(lines: seq<Line>, t: Triangle, contact: Line) {
    match ObstructedLine(t, contact)
    case None => true
    case Some(o) => |lines| > 0 && (AtGroundLevel(o) || OnFrontier(lines, o))
  }

  /**
   * doesNotBlock, with the obstructed line as a result: none when the placement is concave
   * (the source leaves it unset) or unsafe (the source resets it).
   */
  method DoesNotBlock(lines: seq<Line>, t: Triangle, contact: Line) returns (safe: bool, obstructed: Option<Line>)
    ensures safe <==> SafePlacement(lines, t, contact)
    ensures safe <==> IsConcave(t, contact) ||
                      (|lines| > 0 && (AtGroundLevel(ObstructedLine(t, contact).value) ||
                                       OnFrontier(lines, ObstructedLine(t, contact).value)))
    ensures obstructed == if safe then ObstructedLine(t, contact) else None
  {
    var overhang := Overhang(t, contact);
    if overhang.None? {
      return true, None;
    }
    var lowered := DefineObstructedLine(t, overhang.value);
    safe, obstructed := ObstructedLineIsBoundaryLine(lines, lowered);
  }

  /** A concave placement is safe whatever the frontier is, and obstructs nothing. */
  lemma ConcaveIsSafe(lines: seq<Line>, t: Triangle, contact: Line)
    requires IsConcave(t, contact)
    ensures SafePlacement(lines, t, contact) && ObstructedLine(t, contact) == None
  {
  }

  /** With an empty frontier only concave placements are safe. */
  lemma EmptyFrontierNeedsConcave(t: Triangle, contact: Line)
    ensures SafePlacement([], t, contact) <==> IsConcave(t, contact)
  {
  }

  /** Growing the frontier never makes a safe placement unsafe. */
  lemma SafeMonotone(lines: seq<Line>, more: seq<Line>, t: Triangle, contact: Line)
    requires SafePlacement(lines, t, contact)
    ensures SafePlacement(lines + more, t, contact)
  {
    var o := ObstructedLine(t, contact);
    if o.Some? && OnFrontier(lines, o.value) {
      var j :| 0 <= j < |lines| && SameLine(lines[j], o.value);
      assert (lines + more)[j] == lines[j];
    }
  }
}
