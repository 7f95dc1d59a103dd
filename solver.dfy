/**
 * The greedy ordering solver: seeding with the starting triangles (findStartingTriangles),
 * the scan for the first safe (boundary line, triangle, side) triple, the commit that
 * updates the three vectors, the recursion (solveRec) and the entry point (solve).
 */
module Solver {
  import opened Wrappers
  import opened Geometry
  import opened Sequences
  import opened Bounds
  import opened Frontier
  import opened Obstruction

  /*** Seeding ***/

  /** Side s of t lies on the bottom of the border and t is concave over it. */
  predicate StartsOn(t: Triangle, s: int, b: Border) {
    0 <= s < 3 && OnBottom(t.sides[s], b) && IsConcave(t, t.sides[s])
  }

  /** t can be dropped first: it stands concave on the bottom of the border. */
  predicate IsStarter(t: Triangle, b: Border) {
    exists s :: 0 <= s < 3 && StartsOn(t, s, b)
  }

  /** The starting triangles of ts, in scan order. */
  function Starters(ts: seq<Triangle>, b: Border): seq<Triangle> {
    if ts == [] then []
    else Starters(ts[..|ts| - 1], b) + (if IsStarter(ts[|ts| - 1], b) then [ts[|ts| - 1]] else [])
  }

  /** The triangles of ts that are not starting triangles, in their order. */
  function NonStarters(ts: seq<Triangle>, b: Border): seq<Triangle> {
    if ts == [] then []
    else NonStarters(ts[..|ts| - 1], b) + (if IsStarter(ts[|ts| - 1], b) then [] else [ts[|ts| - 1]])
  }

  /** The non-border sides of the starting triangles of ts, in scan order. */
  function SeedLines(ts: seq<Triangle>, b: Border): seq<Line> {
    if ts == [] then []
    else SeedLines(ts[..|ts| - 1], b) + (if IsStarter(ts[|ts| - 1], b) then Exposed(ts[|ts| - 1], NoSkip, b) else [])
  }

  lemma SeedSnoc(ts: seq<Triangle>, t: Triangle, b: Border)
    ensures Starters(ts + [t], b) == Starters(ts, b) + (if IsStarter(t, b) then [t] else [])
    ensures NonStarters(ts + [t], b) == NonStarters(ts, b) + (if IsStarter(t, b) then [] else [t])
    ensures SeedLines(ts + [t], b) == SeedLines(ts, b) + (if IsStarter(t, b) then Exposed(t, NoSkip, b) else [])
  {
    assert (ts + [t])[..|ts|] == ts;
  }

  /** Seeding splits the triangles: the starters and the rest together are exactly ts. */
  lemma {:induction false} StartersPartition(ts: seq<Triangle>, b: Border)
    ensures multiset(Starters(ts, b)) + multiset(NonStarters(ts, b)) == multiset(ts)
    ensures forall t :: t in Starters(ts, b) ==> IsStarter(t, b)
    ensures forall t :: t in NonStarters(ts, b) ==> !IsStarter(t, b)
  {
    if ts != [] {
      var init, last := ts[..|ts| - 1], ts[|ts| - 1];
      assert ts == init + [last];
      StartersPartition(init, b);
    }
  }

  lemma NoBorderLinesAppend(s: seq<Line>, u: seq<Line>, b: Border)
    requires NoBorderLines(s, b) && NoBorderLines(u, b)
    ensures NoBorderLines(s + u, b)
  {
    forall k | 0 <= k < |s + u|
      ensures !OnBorder((s + u)[k], b)
    {
      if k >= |s| {
        assert (s + u)[k] == u[k - |s|];
      }
    }
  }

  /** No border side is ever seeded into the frontier. */
  lemma {:induction false} SeedLinesOffBorder(ts: seq<Triangle>, b: Border)
    ensures NoBorderLines(SeedLines(ts, b), b)
  {
    if ts != [] {
      var last := ts[|ts| - 1];
      SeedLinesOffBorder(ts[..|ts| - 1], b);
      ExposedMembers(last, NoSkip, b, 3);
      var extra := if IsStarter(last, b) then Exposed(last, NoSkip, b) else [];
      assert NoBorderLines(extra, b) by {
        forall k | 0 <= k < |extra|
          ensures !OnBorder(extra[k], b)
        {
          assert extra[k] in Exposed(last, NoSkip, b);
        }
      }
      NoBorderLinesAppend(SeedLines(ts[..|ts| - 1], b), extra, b);
    }
  }

  /** Scanning one more triangle extends the three seeding functions by it. */
  lemma SeedStep(ts: seq<Triangle>, m: nat, b: Border)
    requires m < |ts|
    ensures Starters(ts[..m + 1], b) == Starters(ts[..m], b) + (if IsStarter(ts[m], b) then [ts[m]] else [])
    ensures NonStarters(ts[..m + 1], b) == NonStarters(ts[..m], b) + (if IsStarter(ts[m], b) then [] else [ts[m]])
    ensures SeedLines(ts[..m + 1], b) == SeedLines(ts[..m], b) + (if IsStarter(ts[m], b) then Exposed(ts[m], NoSkip, b) else [])
  {
    assert ts[..m + 1] == ts[..m] + [ts[m]];
    SeedSnoc(ts[..m], ts[m], b);
  }

  /**
   * The state of findStartingTriangles after scanning the first m input triangles: the
   * non-starters so far, then the unscanned rest, with the counter at the first unscanned
   * one; the starters so far appended to the order and their sides to the boundary lines.
   */
  ghost predicate Seeded(triangles: seq<Triangle>, b: Border, soFar: seq<Triangle>, lines: seq<Line>, m: int,
                         left: seq<Triangle>, counter: int, newSoFar: seq<Triangle>, newLines: seq<Line>) {
    0 <= m <= |triangles| &&
    left == NonStarters(triangles[..m], b) + triangles[m..] &&
    counter == |NonStarters(triangles[..m], b)| &&
    newSoFar == soFar + Starters(triangles[..m], b) &&
    newLines == lines + SeedLines(triangles[..m], b)
  }

  lemma SeededNext(triangles: seq<Triangle>, b: Border, soFar: seq<Triangle>, lines: seq<Line>, m: int,
                   left: seq<Triangle>, counter: int, newSoFar: seq<Triangle>, newLines: seq<Line>)
    requires Seeded(triangles, b, soFar, lines, m, left, counter, newSoFar, newLines) && counter < |left|
    ensures m < |triangles| && left[counter] == triangles[m]
  {
  }

  /** Scanning a starting triangle: it leaves the list, joins the order, and seeds its sides. */
  lemma SeededPlaced(triangles: seq<Triangle>, b: Border, soFar: seq<Triangle>, lines: seq<Line>, m: int,
                     left: seq<Triangle>, counter: int, newSoFar: seq<Triangle>, newLines: seq<Line>, s: int)
    requires Seeded(triangles, b, soFar, lines, m, left, counter, newSoFar, newLines) && counter < |left|
    requires StartsOn(left[counter], s, b)
    ensures Seeded(triangles, b, soFar, lines, m + 1, RemoveAt(left, counter), counter,
                   newSoFar + [left[counter]], newLines + Exposed(left[counter], NoSkip, b))
  {
    ScanStep(left, NonStarters(triangles[..m], b), triangles, m, true);
    SeedStep(triangles, m, b);
  }

  /** Scanning any other triangle only moves the counter on. */
  lemma SeededSkipped(triangles: seq<Triangle>, b: Border, soFar: seq<Triangle>, lines: seq<Line>, m: int,
                      left: seq<Triangle>, counter: int, newSoFar: seq<Triangle>, newLines: seq<Line>)
    requires Seeded(triangles, b, soFar, lines, m, left, counter, newSoFar, newLines) && counter < |left|
    requires forall s :: 0 <= s < 3 ==> !StartsOn(left[counter], s, b)
    ensures Seeded(triangles, b, soFar, lines, m + 1, left, counter + 1, newSoFar, newLines)
  {
    ScanStep(left, NonStarters(triangles[..m], b), triangles, m, false);
    SeedStep(triangles, m, b);
  }

  /**
   * findStartingTriangles: moves every starting triangle, in scan order, from the triangle
   * list to the end of the order so far, and adds its non-border sides to the boundary lines.
   */
  method FindStartingTriangles(triangles: seq<Triangle>, soFar: seq<Triangle>, lines: seq<Line>, b: Border)
    returns (left: seq<Triangle>, newSoFar: seq<Triangle>, newLines: seq<Line>)
    ensures left == NonStarters(triangles, b)
    ensures newSoFar == soFar + Starters(triangles, b)
    ensures newLines == lines + SeedLines(triangles, b)
  {
    left, newSoFar, newLines := triangles, soFar, lines;
    var triangleCounter: int := 0;
    ghost var m := 0;
    assert triangles[..0] == [];
    while triangleCounter < |left|
      invariant Seeded(triangles, b, soFar, lines, m, left, triangleCounter, newSoFar, newLines)
      decreases |left| - triangleCounter
    {
      SeededNext(triangles, b, soFar, lines, m, left, triangleCounter, newSoFar, newLines);
      ghost var left0, soFar0, lines0, counter0 := left, newSoFar, newLines, triangleCounter;
      ghost var placed := false;
      var sideCounter := 0;
      while sideCounter < 3
        invariant 0 <= sideCounter <= 3
        invariant !placed
        invariant forall s :: 0 <= s < sideCounter ==> !StartsOn(left0[counter0], s, b)
        invariant left == left0 && newSoFar == soFar0 && newLines == lines0 && triangleCounter == counter0
      {
        var triangle := left[triangleCounter];
        if triangle.sides[sideCounter].y1 == b.minY && triangle.sides[sideCounter].y2 == b.minY {
          if IsConcave(triangle, triangle.sides[sideCounter]) {
            SeededPlaced(triangles, b, soFar, lines, m, left, triangleCounter, newSoFar, newLines, sideCounter);
            newSoFar := newSoFar + [triangle];
            newLines := AppendExposedSides(newLines, triangle, NoSkip, b);
            left := RemoveAt(left, triangleCounter);
            triangleCounter := triangleCounter - 1;
            placed := true;
            break;
          }
        }
        sideCounter := sideCounter + 1;
      }
      if !placed {
        SeededSkipped(triangles, b, soFar, lines, m, left, triangleCounter, newSoFar, newLines);
      }
      triangleCounter := triangleCounter + 1;
      m := m + 1;
    }
    assert triangles[..m] == triangles;
  }

  /*** The search ***/

  /** The three vectors solveRec threads through the recursion. */
  datatype SolverState = SolverState(left: seq<Triangle>, soFar: seq<Triangle>, lines: seq<Line>)

  /** A chosen triple, by index, with the line its placement obstructs, if any. */
  datatype Move = Move(line: nat, tri: nat, side: nat, obstructed: Option<Line>)

  /** Side s of remaining triangle k matches boundary line i and the placement does not block. */
  predicate Qualifies(lines: seq<Line>, left: seq<Triangle>, i: int, k: int, s: int) {
    0 <= i < |lines| && 0 <= k < |left| && 0 <= s < 3 &&
    SameLine(lines[i], left[k].sides[s]) && SafePlacement(lines, left[k], left[k].sides[s])
  }

  /** (i, k, s) comes before (i', k', s') in the scan order boundary line, triangle, side. */
  predicate ScannedBefore(i: int, k: int, s: int, i': int, k': int, s': int) {
    i < i' || (i == i' && (k < k' || (k == k' && s < s')))
  }

  /** No triple before (i, k, s) in the scan order qualifies. */
  ghost predicate NoneBefore(lines: seq<Line>, left: seq<Triangle>, i: int, k: int, s: int) {
    forall i', k', s' :: Qualifies(lines, left, i', k', s') ==> !ScannedBefore(i', k', s', i, k, s)
  }

  /** No triple qualifies at all. */
  ghost predicate Stuck(lines: seq<Line>, left: seq<Triangle>) {
    forall i, k, s :: !Qualifies(lines, left, i, k, s)
  }

  lemma NextSide(lines: seq<Line>, left: seq<Triangle>, i: int, k: int, s: int)
    requires NoneBefore(lines, left, i, k, s) && !Qualifies(lines, left, i, k, s)
    ensures NoneBefore(lines, left, i, k, s + 1)
  {
  }

  lemma NextTriangle(lines: seq<Line>, left: seq<Triangle>, i: int, k: int)
    requires NoneBefore(lines, left, i, k, 3)
    ensures NoneBefore(lines, left, i, k + 1, 0)
  {
  }

  lemma NextLine(lines: seq<Line>, left: seq<Triangle>, i: int)
    requires NoneBefore(lines, left, i, |left|, 0)
    ensures NoneBefore(lines, left, i + 1, 0, 0)
  {
  }

  lemma ScanDone(lines: seq<Line>, left: seq<Triangle>)
    requires NoneBefore(lines, left, |lines|, 0, 0)
    ensures Stuck(lines, left)
  {
  }

  /**
   * The three nested loops of solveRec: the first triple in scan order whose side matches
   * the boundary line and passes doesNotBlock, or none when no triple does.
   */
  method FindMove(lines: seq<Line>, left: seq<Triangle>) returns (m: Option<Move>)
    ensures m.None? <==> Stuck(lines, left)
    ensures m.Some? ==> Qualifies(lines, left, m.value.line, m.value.tri, m.value.side)
    ensures m.Some? ==> NoneBefore(lines, left, m.value.line, m.value.tri, m.value.side)
    ensures m.Some? ==> m.value.obstructed == ObstructedLine(left[m.value.tri], left[m.value.tri].sides[m.value.side])
  {
    var boundaryLineCounter := 0;
    while boundaryLineCounter < |lines|
      invariant 0 <= boundaryLineCounter <= |lines|
      invariant NoneBefore(lines, left, boundaryLineCounter, 0, 0)
    {
      var boundaryLine := lines[boundaryLineCounter];
      var trianglesLeftCounter := 0;
      while trianglesLeftCounter < |left|
        invariant 0 <= trianglesLeftCounter <= |left|
        invariant NoneBefore(lines, left, boundaryLineCounter, trianglesLeftCounter, 0)
      {
        var triangle := left[trianglesLeftCounter];
        var sideCounter := 0;
        while sideCounter < 3
          invariant 0 <= sideCounter <= 3
          invariant NoneBefore(lines, left, boundaryLineCounter, trianglesLeftCounter, sideCounter)
        {
          var line := triangle.sides[sideCounter];
          if SameLine(boundaryLine, line) {
            var safe, obstructed := DoesNotBlock(lines, triangle, line);
            if safe {
              assert Qualifies(lines, left, boundaryLineCounter, trianglesLeftCounter, sideCounter);
              return Some(Move(boundaryLineCounter, trianglesLeftCounter, sideCounter, obstructed));
            }
          }
          NextSide(lines, left, boundaryLineCounter, trianglesLeftCounter, sideCounter);
          sideCounter := sideCounter + 1;
        }
        NextTriangle(lines, left, boundaryLineCounter, trianglesLeftCounter);
        trianglesLeftCounter := trianglesLeftCounter + 1;
      }
      NextLine(lines, left, boundaryLineCounter);
      boundaryLineCounter := boundaryLineCounter + 1;
    }
    ScanDone(lines, left);
    return None;
  }

  /**
   * The boundary lines after placing t through side `side` on boundary line `line`, before
   * duplicate pairs are cancelled: the contact line taken out, t's other non-border sides
   * added, and the obstructed line uncovered.
   */
  function Placed(lines: seq<Line>, t: Triangle, m: Move, b: Border): seq<Line>
    requires m.line < |lines|
  {
    Uncover(RemoveAt(lines, m.line) + Exposed(t, m.side, b), m.obstructed)
  }

  /** Every entry of r is an entry of s, so r has no border line when s has none. */
  lemma NoBorderLinesMembers(r: seq<Line>, s: seq<Line>, b: Border)
    requires forall x :: x in r ==> x in s
    requires NoBorderLines(s, b)
    ensures NoBorderLines(r, b)
  {
    forall k | 0 <= k < |r|
      ensures !OnBorder(r[k], b)
    {
      assert r[k] in s;
    }
  }

  /** Placing a triangle adds no border line to a frontier that had none. */
  lemma PlacedOffBorder(lines: seq<Line>, t: Triangle, m: Move, b: Border)
    requires m.line < |lines| && NoBorderLines(lines, b)
    ensures NoBorderLines(Placed(lines, t, m, b), b)
  {
    var removed := RemoveAt(lines, m.line);
    RemoveAtMembers(lines, m.line);
    NoBorderLinesMembers(removed, lines, b);
    var extra := Exposed(t, m.side, b);
    ExposedMembers(t, m.side, b, 3);
    assert NoBorderLines(extra, b) by {
      forall k | 0 <= k < |extra|
        ensures !OnBorder(extra[k], b)
      {
        assert extra[k] in extra;
      }
    }
    NoBorderLinesAppend(removed, extra, b);
    if m.obstructed.Some? {
      WithoutMembers(removed + extra, m.obstructed.value);
      NoBorderLinesMembers(Placed(lines, t, m, b), removed + extra, b);
    }
  }

  /** Uncovering the obstructed line leaves no entry equal to it. */
  lemma PlacedUncovers(lines: seq<Line>, t: Triangle, m: Move, b: Border)
    requires m.line < |lines| && m.obstructed.Some?
    ensures forall x :: x in Placed(lines, t, m, b) ==> !SameLine(x, m.obstructed.value)
  {
    WithoutMembers(RemoveAt(lines, m.line) + Exposed(t, m.side, b), m.obstructed.value);
  }

  /**
   * The commit of solveRec: the boundary lines become Placed with duplicate pairs
   * cancelled, the triangle moves from the remaining triangles to the end of the order.
   */
  method Commit(st: SolverState, m: Move, b: Border) returns (next: SolverState)
    requires m.line < |st.lines| && m.tri < |st.left| && m.side < 3
    ensures next.soFar == st.soFar + [st.left[m.tri]]
    ensures next.left == RemoveAt(st.left, m.tri)
    ensures multiset(next.left) + multiset(next.soFar) == multiset(st.left) + multiset(st.soFar)
    ensures IsSubsequence(next.lines, Placed(st.lines, st.left[m.tri], m, b))
    ensures NoDuplicates(next.lines)
    ensures forall l :: CountSame(next.lines, l) == CountSame(Placed(st.lines, st.left[m.tri], m, b), l) % 2
    ensures m.obstructed.Some? ==> !OnFrontier(next.lines, m.obstructed.value)
    ensures NoBorderLines(st.lines, b) ==> NoBorderLines(next.lines, b)
  {
    var triangle := st.left[m.tri];
    var lines := RemoveAt(st.lines, m.line);
    lines := AppendExposedSides(lines, triangle, m.side, b);
    lines := RemoveObstructedLine(lines, m.obstructed);
    ghost var uncovered := lines;
    assert uncovered == Placed(st.lines, triangle, m, b);
    lines := RemoveDuplicateBoundaryLines(lines);
    next := SolverState(RemoveAt(st.left, m.tri), st.soFar + [triangle], lines);
    RemoveAtMultiset(st.left, m.tri);
    SubsequenceMembers(lines, uncovered);
    if m.obstructed.Some? {
      PlacedUncovers(st.lines, triangle, m, b);
    }
    if NoBorderLines(st.lines, b) {
      PlacedOffBorder(st.lines, triangle, m, b);
      NoBorderLinesMembers(lines, uncovered, b);
    }
  }

  /** The failure of a solve. */
  datatype SolveFault =
    | NoSolution  // boundary lines remain but no triple qualifies
    | Incomplete  // the boundary lines ran out while triangles remain

  /** r is what the cancelling loop may leave of s: a subsequence keeping each odd line once. */
  ghost predicate Cancels(r: seq<Line>, s: seq<Line>) {
    IsSubsequence(r, s) && NoDuplicates(r) && forall l :: CountSame(r, l) == CountSame(s, l) % 2
  }

  /**
   * One step of solveRec from st to next: m is the first qualifying triple in scan order,
   * with the line its placement obstructs, and next is the state its commit leaves.
   */
  ghost predicate Step(st: SolverState, m: Move, next: SolverState, b: Border) {
    Qualifies(st.lines, st.left, m.line, m.tri, m.side) &&
    NoneBefore(st.lines, st.left, m.line, m.tri, m.side) &&
    m.obstructed == ObstructedLine(st.left[m.tri], st.left[m.tri].sides[m.side]) &&
    next.soFar == st.soFar + [st.left[m.tri]] &&
    next.left == RemoveAt(st.left, m.tri) &&
    Cancels(next.lines, Placed(st.lines, st.left[m.tri], m, b))
  }

  /**
   * The runs of solveRec from st ending in r: success as soon as the boundary lines are
   * empty, failure exactly when boundary lines remain and no triple qualifies, and
   * otherwise a step followed by a run from the state it leaves.
   */
  ghost predicate Run(st: SolverState, r: Result<SolverState, SolveFault>, b: Border)
    decreases |st.left|
  {
    if |st.lines| == 0 then r == Ok(st)
    else if Stuck(st.lines, st.left) then r == Err(NoSolution)
    else exists m: Move, next: SolverState :: Step(st, m, next, b) && Run(next, r, b)
  }

  /** Two steps from one state commit the same triple and move the same triangle. */
  lemma StepDeterminesTriple(st: SolverState, m1: Move, next1: SolverState, m2: Move, next2: SolverState, b: Border)
    requires Step(st, m1, next1, b) && Step(st, m2, next2, b)
    ensures m1 == m2 && next1.soFar == next2.soFar && next1.left == next2.left
  {
    assert !ScannedBefore(m1.line, m1.tri, m1.side, m2.line, m2.tri, m2.side);
    assert !ScannedBefore(m2.line, m2.tri, m2.side, m1.line, m1.tri, m1.side);
  }

  /**
   * A successful run empties the boundary lines, keeps the order so far as a prefix,
   * conserves the triangles, and takes one step per triangle it places.
   */
  lemma {:induction false} RunOk(st: SolverState, r: Result<SolverState, SolveFault>, b: Border)
    requires Run(st, r, b) && r.Ok?
    decreases |st.left|
    ensures r.value.lines == []
    ensures st.soFar <= r.value.soFar
    ensures multiset(r.value.left) + multiset(r.value.soFar) == multiset(st.left) + multiset(st.soFar)
    ensures |r.value.soFar| - |st.soFar| == |st.left| - |r.value.left|
  {
    if |st.lines| != 0 {
      var m, next :| Step(st, m, next, b) && Run(next, r, b);
      RunOk(next, r, b);
      StepMovesOne(st, m, next, b);
    }
  }

  /** A step moves one triangle from the triangles left to the end of the order so far. */
  lemma StepMovesOne(st: SolverState, m: Move, next: SolverState, b: Border)
    requires Step(st, m, next, b)
    ensures st.soFar <= next.soFar
    ensures multiset(next.left) + multiset(next.soFar) == multiset(st.left) + multiset(st.soFar)
    ensures |next.soFar| == |st.soFar| + 1 && |next.left| + 1 == |st.left|
  {
    RemoveAtMultiset(st.left, m.tri);
  }

  /** A failed run fails for want of a qualifying triple. */
  lemma {:induction false} RunErr(st: SolverState, r: Result<SolverState, SolveFault>, b: Border)
    requires Run(st, r, b) && r.Err?
    decreases |st.left|
    ensures r.error == NoSolution
  {
    if |st.lines| != 0 && !Stuck(st.lines, st.left) {
      var m, next :| Step(st, m, next, b) && Run(next, r, b);
      RunErr(next, r, b);
    }
  }

  /**
   * solveRec: done when the boundary lines are empty; otherwise commit the first qualifying
   * triple and recurse, or fail when there is none.
   */
  method SolveRec(st: SolverState, b: Border) returns (r: Result<SolverState, SolveFault>)
    decreases |st.left|
    ensures Run(st, r, b)
    ensures |st.lines| == 0 ==> r == Ok(st)
    ensures |st.lines| > 0 && Stuck(st.lines, st.left) ==> r == Err(NoSolution)
    ensures r.Err? ==> r.error == NoSolution
    ensures r.Ok? ==> r.value.lines == []
    ensures r.Ok? ==> st.soFar <= r.value.soFar
    ensures r.Ok? ==> multiset(r.value.left) + multiset(r.value.soFar) == multiset(st.left) + multiset(st.soFar)
    ensures r.Ok? ==> |r.value.soFar| - |st.soFar| == |st.left| - |r.value.left| <= |st.left|
  {
    if |st.lines| == 0 {
      return Ok(st);
    }
    var m := FindMove(st.lines, st.left);
    if m.None? {
      return Err(NoSolution);
    }
    var next := Commit(st, m.value, b);
    assert Step(st, m.value, next, b);
    r := SolveRec(next, b);
    if r.Ok? {
      assert st.soFar <= next.soFar <= r.value.soFar;
    }
  }

  /** The state solveRec starts from: the non-starters left, the starters placed, their sides seeded. */
  function InitialState(ts: seq<Triangle>, b: Border): SolverState {
    SolverState(NonStarters(ts, b), Starters(ts, b), SeedLines(ts, b))
  }

  /** What solve hands back for a run: the order so far on success, the failure otherwise. */
  function Reported(res: Result<SolverState, SolveFault>): Result<seq<Triangle>, SolveFault> {
    if res.Err? then Err(res.error) else Ok(res.value.soFar)
  }

  /** What the corrected solve hands back: a run that leaves triangles over is incomplete. */
  function ReportedChecked(res: Result<SolverState, SolveFault>): Result<seq<Triangle>, SolveFault> {
    if res.Err? then Err(res.error)
    else if res.value.left != [] then Err(Incomplete)
    else Ok(res.value.soFar)
  }

  /**
   * solve: the border, the seeding, then solveRec; the order reached is returned even when
   * triangles remain.
   */
  method Solve(triangles: seq<Triangle>) returns (r: Result<seq<Triangle>, SolveFault>)
    requires |triangles| > 0
    ensures exists b :: IsBorderOf(b, triangles)
    ensures forall b :: IsBorderOf(b, triangles) ==>
              exists res :: Run(InitialState(triangles, b), res, b) && r == Reported(res)
    ensures r.Err? ==> r.error == NoSolution
    ensures r.Ok? ==> multiset(r.value) <= multiset(triangles)
    ensures forall b :: IsBorderOf(b, triangles) && r.Ok? ==> Starters(triangles, b) <= r.value
    ensures forall b :: IsBorderOf(b, triangles) && Starters(triangles, b) == [] ==> r == Ok([])
  {
    var border := FindPuzzleBorder(triangles);
    OnlyBorder(border, triangles);
    var left, soFar, lines := FindStartingTriangles(triangles, [], [], border);
    assert soFar == Starters(triangles, border);
    StartersPartition(triangles, border);
    if Starters(triangles, border) == [] {
      SeedLinesEmpty(triangles, border);
      assert lines == [];
    }
    assert SolverState(left, soFar, lines) == InitialState(triangles, border);
    var res := SolveRec(SolverState(left, soFar, lines), border);
    if res.Err? {
      r := Err(res.error);
    } else {
      r := Ok(res.value.soFar);
      assert multiset(r.value) <= multiset(res.value.left) + multiset(r.value);
    }
    assert r == Reported(res);
    forall b | IsBorderOf(b, triangles)
      ensures exists res' :: Run(InitialState(triangles, b), res', b) && r == Reported(res')
    {
      assert b == border;
    }
  }

  /** The border found is the only one, so facts about it hold for every border of ts. */
  lemma OnlyBorder(border: Border, ts: seq<Triangle>)
    requires IsBorderOf(border, ts)
    ensures forall b :: IsBorderOf(b, ts) ==> b == border
  {
    forall b | IsBorderOf(b, ts)
      ensures b == border
    {
      BorderUnique(b, border, ts);
    }
  }

  /** Without starting triangles nothing is seeded. */
  lemma {:induction false} SeedLinesEmpty(ts: seq<Triangle>, b: Border)
    requires Starters(ts, b) == []
    ensures SeedLines(ts, b) == []
  {
    if ts != [] {
      SeedLinesEmpty(ts[..|ts| - 1], b);
    }
  }

  /**
   * solve with the missing failure case added: an order that does not cover every triangle
   * is reported as incomplete, so every order returned is a permutation of the input.
   */
  method SolveChecked(triangles: seq<Triangle>) returns (r: Result<seq<Triangle>, SolveFault>)
    requires |triangles| > 0
    ensures exists b :: IsBorderOf(b, triangles)
    ensures forall b :: IsBorderOf(b, triangles) ==>
              exists res :: Run(InitialState(triangles, b), res, b) && r == ReportedChecked(res)
    ensures r.Ok? ==> multiset(r.value) == multiset(triangles) && |r.value| == |triangles|
    ensures r.Ok? ==> forall b :: IsBorderOf(b, triangles) ==> Starters(triangles, b) <= r.value
    ensures forall b :: IsBorderOf(b, triangles) && Starters(triangles, b) == [] ==> r == Err(Incomplete)
  {
    r := Solve(triangles);
    ghost var reached := r;
    if r.Ok? && |r.value| < |triangles| {
      r := Err(Incomplete);
    } else if r.Ok? {
      MultisetFull(r.value, triangles);
    }
    forall b | IsBorderOf(b, triangles)
      ensures exists res :: Run(InitialState(triangles, b), res, b) && r == ReportedChecked(res)
    {
      var res :| Run(InitialState(triangles, b), res, b) && reached == Reported(res);
      if res.Ok? {
        RunOk(InitialState(triangles, b), res, b);
        StartersPartition(triangles, b);
        assert |res.value.left| + |res.value.soFar| == |triangles| by {
          assert |multiset(res.value.left) + multiset(res.value.soFar)| == |multiset(triangles)|;
        }
      }
      assert r == ReportedChecked(res);
    }
  }

  /** A sub-multiset as large as the whole is the whole. */
  lemma MultisetFull(a: seq<Triangle>, b: seq<Triangle>)
    requires multiset(a) <= multiset(b) && |a| >= |b|
    ensures multiset(a) == multiset(b) && |a| == |b|
  {
    var d := multiset(b) - multiset(a);
    assert multiset(b) == multiset(a) + d;
    assert |multiset(b)| == |multiset(a)| + |d|;
  }

  /*** A puzzle with no starting triangle ***/

  /** One triangle standing on (0, 0)-(2, 0) whose apex (3, 1) overhangs to the right. */
  const LoneOverhang: Triangle := CreateTriangle([Point(0, 0), Point(2, 0), Point(3, 1)], 0)

  /** The border of the lone overhang. */
  lemma LoneOverhangBorder()
    ensures IsBorderOf(Border(0, 0, 3, 1), [LoneOverhang])
  {
    var ts := [LoneOverhang];
    assert HasX(ts, 0, 0, 0) && HasX(ts, 0, 1, 3) && HasY(ts, 0, 0, 0) && HasY(ts, 0, 1, 1);
  }

  /** The lone overhang is not a starting triangle: its bottom side does not carry its apex. */
  lemma LoneOverhangHasNoStart()
    ensures Starters([LoneOverhang], Border(0, 0, 3, 1)) == []
  {
    var t, b := LoneOverhang, Border(0, 0, 3, 1);
    assert !StartsOn(t, 0, b) by {
      assert !Within(t.sides[1], 0, 2);
    }
    assert !StartsOn(t, 1, b) && !StartsOn(t, 2, b);
    assert [LoneOverhang][..0] == [];
  }

  /** solve as written accepts the one-triangle puzzle and returns an empty order for it. */
  method SolveLoneOverhang() returns (r: Result<seq<Triangle>, SolveFault>)
    ensures r == Ok([])
  {
    LoneOverhangBorder();
    LoneOverhangHasNoStart();
    r := Solve([LoneOverhang]);
  }

  /** The corrected solve reports the same puzzle as incomplete. */
  method SolveCheckedLoneOverhang() returns (r: Result<seq<Triangle>, SolveFault>)
    ensures r == Err(Incomplete)
  {
    LoneOverhangBorder();
    LoneOverhangHasNoStart();
    r := SolveChecked([LoneOverhang]);
  }

  /*** A commit whose cancelling step reads out of range as written ***/

  /** A triangle filling the notch between (0, 2)-(2, 0) and (2, 0)-(1, 2). */
  const Notch: Triangle := CreateTriangle([Point(0, 2), Point(2, 0), Point(1, 2)], 0)

  /**
   * Placing the notch triangle on the first boundary line is the first qualifying move, and
   * the lines it leaves begin with a pair, so the loop as written would read index -1 where
   * the corrected loop used by Commit goes on.
   */
  lemma NotchCommitReadsOutOfRange()
    ensures Qualifies([Line(0, 2, 2, 0), Line(2, 0, 1, 2)], [Notch], 0, 0, 0)
    ensures NoneBefore([Line(0, 2, 2, 0), Line(2, 0, 1, 2)], [Notch], 0, 0, 0)
    ensures ObstructedLine(Notch, Notch.sides[0]) == None
    ensures AsWrittenOuter(Placed([Line(0, 2, 2, 0), Line(2, 0, 1, 2)], Notch, Move(0, 0, 0, None), Border(0, 0, 3, 3)), 0)
            == Err(IndexOutOfRange(-1))
  {
    var lines, b := [Line(0, 2, 2, 0), Line(2, 0, 1, 2)], Border(0, 0, 3, 3);
    assert IsConcave(Notch, Notch.sides[0]);
    assert Exposed(Notch, 0, b) == [Line(2, 0, 1, 2), Line(1, 2, 0, 2)];
    var placed := [Line(2, 0, 1, 2), Line(2, 0, 1, 2), Line(1, 2, 0, 2)];
    assert Placed(lines, Notch, Move(0, 0, 0, None), b) == placed;
    assert SameLine(placed[0], placed[1]);
    assert RemoveAt(RemoveAt(placed, 0), 0) == [Line(1, 2, 0, 2)];
    assert AsWrittenInner([Line(1, 2, 0, 2)], -1, 0) == Err(IndexOutOfRange(-1));
  }
}
