# Glass-shard ordering solver, modelled in Dafny

The superheroes program takes a rectangle tiled by numbered triangles (glass shards). It
computes an order in which the shards can be dropped into the rectangle from above so that
no shard ever blocks a later one. This project models and proves the solver at the heart of
that program, `superheroes.cpp`.

The solver works in four phases:

- It finds the bounding rectangle of the puzzle (`findPuzzleBorder`).
- It seeds the order with the triangles that stand concave on the bottom border
  (`findStartingTriangles`).
- It keeps a frontier of exposed, non-border sides: the boundary lines.
- It places triangles greedily (`solveRec`). At each step it commits the first triple of
  boundary line, remaining triangle and side, in that scan order, whose side matches the
  boundary line and whose placement does not block (`doesNotBlock`). The placement is
  judged by the concavity test (`isConcave`) and the obstruction analysis
  (`defineObstructedLine`, `obstructedLineIsBoundaryLine`).

Modules:

- `Wrappers` (wrappers.dfy): `Option` and `Result`.
- `Geometry` (geometry.dfy): points, lines, triangles, the border, `compareLines`
  (`SameLine`), `isOnBorder`, and both `isConcave` overloads. `Overhang` is the overload
  with the obstructed-line out-parameter.
- `Sequences` (sequences.dfy): `Vector::removeAt` as `RemoveAt`, and subsequence
  embeddings.
- `Bounds` (bounds.dfy): `findPuzzleBorder`.
- `Frontier` (frontier.dfy): the edits of the boundary lines. These are adding a placed
  triangle's sides, removing the obstructed line, and `removeDuplicateBoundaryLines`.
- `Obstruction` (obstruction.dfy): `defineObstructedLine`,
  `obstructedLineIsBoundaryLine`, `doesNotBlock`.
- `Solver` (solver.dfy): `findStartingTriangles`, the scan and the commit of `solveRec`,
  the recursion, and `solve`.

The C++ functions change their vectors through reference parameters, and nothing aliases
them. The model therefore gives each such function the old contents as a value and returns
the new contents. The loops stay as loops: `removeAt` inside the iteration, with the
counter stepped back. Most loops are proved equal to a specification function of the old
contents: seeding, removing the obstructed line, adding exposed sides, lowering the
obstructed line, and the cancelling loop as written. Two loops are proved against the
properties that characterise their result instead. The corrected cancelling loop leaves a
subsequence with each line kept once when it occurred an odd number of times. The scan of
`solveRec` returns the first qualifying triple.

When `isConcave` succeeds, `obstructedLine` is left uninitialised. `obstructedLineIsBoundaryLine`
resets it to a default-constructed `lineT` when it fails. The model uses `None` for both, so
the removal loop of a commit then removes nothing.

Some details of the code are easy to misread:

- The obstructed line starts at the overhanging vertex: the first side with an endpoint
  outside the contact line's x-span, turned so that endpoint comes first. It is then
  lowered to the lowest neighbour of that vertex, scanning the sides once in order.
- A placement is also safe when the lowered line lies at height 0 at both ends. That is the
  literal 0, not the border's `minY`. This test runs only inside the loop over the boundary
  lines, so it never applies when the frontier is empty.
- After a commit, every boundary line equal to the obstructed line is removed, not just one.
- `solve` performs no input validation (closed cycles, degenerate sides). It only needs a
  non-empty triangle list, because `findPuzzleBorder` reads the first triangle.

## Model

| member | source | states |
|---|---|---|
| Geometry.CreateLine | superheroes.cpp:791-798 | the line runs from the first point to the second |
| Geometry.CreateTriangle | superheroes.cpp:780-786 | the sides form a closed cycle (side i ends where side i+1 mod 3 starts), side i starts at point i, and the number is kept |
| Geometry.CreateTriangleFromVertices | superheroes.cpp:780-786 | every closed triangle is rebuilt exactly by createTriangle from its three start points |
| Geometry.SameLine | superheroes.cpp:918-922 | compareLines holds exactly when the lines are equal or one is the other reversed |
| Geometry.SameLineIffSameEndpoints | superheroes.cpp:918-922 | compareLines holds exactly when the two lines have the same set of endpoints |
| Geometry.SameLineEquivalence | superheroes.cpp:918-922 | compareLines is reflexive, symmetric and transitive |
| Geometry.OnBorder | superheroes.cpp:927-933 | a line on the border is vertical or horizontal |
| Geometry.OnBorderIgnoresDirection | superheroes.cpp:927-933 | lines equal under compareLines are on the border together or not at all |
| Geometry.FirstOverhang | superheroes.cpp:950-962 | from side i on: none exactly when every later side lies in the span; otherwise the first side that leaves the span, possibly reversed, with its out-of-span endpoint first |
| Geometry.Overhang | superheroes.cpp:947-963 | isConcave with out-parameter: none exactly when every side lies within the contact line's x-span, otherwise a side of the triangle, possibly reversed, whose first endpoint is outside that span |
| Geometry.IsConcave | superheroes.cpp:938-941 | true exactly when both endpoints of every side have x within the base line's x-span |
| Sequences.RemoveAt | superheroes.cpp:854 | removeAt: one element fewer, earlier elements kept, later ones moved down by one |
| Sequences.RemoveAtMultiset | superheroes.cpp:854 | removeAt takes exactly the removed element out of the multiset |
| Sequences.EmbedsRemoveAt | superheroes.cpp:1014-1016 | removing an element keeps the result a subsequence of the original input |
| Sequences.SubsequenceMembers | superheroes.cpp:1010-1022 | every element of a subsequence is an element of the whole |
| Bounds.BorderUnique | superheroes.cpp:871-890 | at most one rectangle both encloses every endpoint and has every bound attained by an endpoint |
| Bounds.FindPuzzleBorder | superheroes.cpp:871-890 | for a non-empty list, every endpoint lies within the result and each of the four bounds is the coordinate of some endpoint |
| Frontier.WithoutMembers | superheroes.cpp:842-847 | removing a line keeps exactly the entries not equal to it under compareLines |
| Frontier.RemoveObstructedLine | superheroes.cpp:842-847 | the loop with removeAt and a stepped-back counter leaves the boundary lines in order, minus every entry equal to the obstructed line; nothing is removed when there is none |
| Frontier.ExposedMembers | superheroes.cpp:839-841 | the added sides are exactly the triangle's non-border sides other than the skipped one |
| Frontier.AppendExposedSides | superheroes.cpp:839-841 | the boundary lines gain the triangle's non-border sides except the skipped one, and still contain no border line if they contained none |
| Frontier.CancelPairCount | superheroes.cpp:1013-1018 | cancelling two equal entries lowers the count of that line by two and leaves other counts alone |
| Frontier.CountAtMostOne | superheroes.cpp:1010-1022 | without duplicates, every line occurs at most once |
| Frontier.CancelKeepsParity | superheroes.cpp:1013-1018 | cancelling a pair keeps the parity of every line's count |
| Frontier.CancelStep | superheroes.cpp:1013-1018 | a cancelled pair keeps the result a subsequence, keeps the settled prefix distinct, keeps every count's parity, and keeps the length drop even |
| Frontier.CancelDone | superheroes.cpp:1010-1022 | at the end, each line remains exactly once when it occurred an odd number of times, and not at all otherwise |
| Frontier.RemoveDuplicateBoundaryLines | superheroes.cpp:1010-1022 | with the corrected loop: the result is a subsequence of the input with no two equal entries, each line kept once when it occurred an odd number of times, and the length dropped by an even number |
| Frontier.RemoveDuplicateBoundaryLinesAsWritten | superheroes.cpp:1010-1022 | the loop as written, counter juggling included, computes the recursive as-written definition, including the out-of-range read |
| Frontier.FrontPairReadsOutOfRange | superheroes.cpp:1013-1017 | for [a, a reversed, c] the loop as written reads boundaryLines[-1] |
| Obstruction.LowerObstruction | superheroes.cpp:979-993 | the start of the obstructed line is fixed, y2 never increases, the end is kept or moved to a strictly lower neighbour of the start, and no scanned side leads from the start to a point lower than the result |
| Obstruction.DefineObstructedLine | superheroes.cpp:979-993 | the loop computes the obstructed line lowered over all three sides |
| Obstruction.ObstructedLineIsBoundaryLine | superheroes.cpp:998-1005 | true exactly when there are boundary lines and the line is at height 0 or equal to some boundary line; the line is kept when true and reset to none when false |
| Obstruction.ObstructedLine | superheroes.cpp:970-972 | a placement obstructs nothing exactly when it is concave; otherwise it obstructs a line starting at the overhanging vertex, outside the contact line's span |
| Obstruction.DoesNotBlock | superheroes.cpp:970-974 | true exactly when the triangle is concave over the contact line, or there are boundary lines and the lowered obstructed line is at height 0 or equal to a boundary line; the obstructed line is returned only for a safe placement |
| Obstruction.ConcaveIsSafe | superheroes.cpp:971 | a concave placement is safe for any frontier and obstructs nothing |
| Obstruction.EmptyFrontierNeedsConcave | superheroes.cpp:998-1005 | with no boundary lines, only concave placements are safe |
| Obstruction.SafeMonotone | superheroes.cpp:998-1001 | adding boundary lines never makes a safe placement unsafe |
| Solver.StartersPartition | superheroes.cpp:895-913 | the starting triangles and the rest together are exactly the input, as a multiset; every starter stands concave on the bottom border and no other triangle does |
| Solver.SeedLinesOffBorder | superheroes.cpp:902-904 | seeding never adds a border side to the boundary lines |
| Solver.SeedLinesEmpty | superheroes.cpp:895-913 | without starting triangles, nothing is seeded |
| Solver.FindStartingTriangles | superheroes.cpp:895-913 | the loop with removeAt and a stepped-back counter leaves the non-starters in order, appends the starters in scan order, and appends their non-border sides |
| Solver.FindMove | superheroes.cpp:823-835 | the scan returns the first qualifying triple in the order boundary line, triangle, side, with its obstructed line, or nothing exactly when no triple qualifies |
| Solver.PlacedOffBorder | superheroes.cpp:838-847 | placing a triangle adds no border line to boundary lines that had none |
| Solver.PlacedUncovers | superheroes.cpp:842-847 | after a placement, no boundary line equals the obstructed line |
| Solver.Commit | superheroes.cpp:836-854 | the triangle moves from the remaining list to the end of the order, triangles are conserved, the new boundary lines are the old ones minus the contact line, plus the other exposed sides, minus the obstructed line, with duplicate pairs cancelled, the obstructed line no longer among them, and no border line appears |
| Solver.StepMovesOne | superheroes.cpp:850-854 | a step appends one triangle to the order and removes it from the remaining list, conserving triangles |
| Solver.StepDeterminesTriple | superheroes.cpp:823-835 | two steps from one state commit the same triple and move the same triangle |
| Solver.RunOk | superheroes.cpp:820-865 | a successful run ends with no boundary lines, extends the order so far, conserves triangles, and places one triangle per step |
| Solver.RunErr | superheroes.cpp:820-865 | a run fails only for want of a qualifying triple |
| Solver.SolveRec | superheroes.cpp:820-865 | the result is a run from the state: done with the state itself when the boundary lines are empty; failure exactly when boundary lines remain and no triple qualifies; otherwise the first qualifying triple, in scan order, is committed with its obstructed line, the triangle moves to the order, the new boundary lines cancel the placed lines, and the recursion continues from there; on success the boundary lines are empty, the order so far is a prefix of the result, and triangles are conserved |
| Solver.OnlyBorder | superheroes.cpp:871-890 | the computed border is the only rectangle that encloses and attains the endpoints |
| Solver.Solve | superheroes.cpp:807-814 | the puzzle has a border, and for it the result is a run of solveRec from the seeded state, reporting the order so far on success even when triangles remain; the order is a sub-multiset of the input that starts with the starting triangles, and is empty when there are no starting triangles |
| Solver.MultisetFull | superheroes.cpp:807-814 | an order within the input and as long as it is a permutation of the input |
| Solver.SolveChecked | superheroes.cpp:807-814 | corrected: the puzzle has a border, and the result is a run of solveRec from the seeded state, reported incomplete when triangles remain; any order returned is a permutation of the input that starts with the starting triangles; a puzzle without starting triangles is reported incomplete |
| Solver.LoneOverhangBorder | superheroes.cpp:871-890 | the border of the one-triangle puzzle (0,0), (2,0), (3,1) is (0,0)-(3,1) |
| Solver.LoneOverhangHasNoStart | superheroes.cpp:895-913 | that triangle is not a starting triangle |
| Solver.SolveLoneOverhang | superheroes.cpp:807-814 | solve as written returns the empty order for that puzzle |
| Solver.SolveCheckedLoneOverhang | superheroes.cpp:807-814 | the corrected solve reports that puzzle as incomplete |
| Solver.NotchCommitReadsOutOfRange | superheroes.cpp:836-854 | placing the triangle (0,2), (2,0), (1,2) on the first of the boundary lines (0,2)-(2,0), (2,0)-(1,2) is the first qualifying move, and the cancelling loop as written faults on the lines it leaves |

## Left out

- Graphics, animation, the user interface, and file and console input/output are not part
  of this model. They are drawing with floating point, event callbacks and streams from
  libraries that are not part of this model.
- `Error("No solution! ...")` ends the process. Here it is the result `Err(NoSolution)`,
  passed back out of the recursion.
- Vector bounds checks: an out-of-range read is modelled only where one can occur, in
  `RemoveDuplicateBoundaryLinesAsWritten`, as `Err(IndexOutOfRange)`.
- Uninitialised `obstructedLine`: in C++ this holds indeterminate values. The model uses
  `None`, so a concave placement removes no boundary line. A garbage value that happened to
  equal a boundary line is not modelled.
- 32-bit `int`: coordinates are only compared, never computed with, and counters stay below
  the vector sizes. Unbounded integers lose nothing there, and overflow is not modelled.
- Input validation (empty list, open cycles, degenerate sides) is not done by the code and
  is not modelled. An empty list is excluded by a precondition, because the code reads
  `triangles[0]`.
- Solver.SolveRec: its result is stated as a run (`Run`), a relation rather than a
  function. Each step fixes the triple, the obstructed line, the order and the remaining
  triangles exactly. The boundary lines after a step are fixed only up to which copy of an
  oddly repeated line the cancelling loop keeps, and up to the order it leaves them in
  (`Cancels`).
- Solver.Commit: it uses the corrected cancelling loop (`RemoveDuplicateBoundaryLines`),
  so `Commit`, `SolveRec`, `Solve` and `SolveChecked` model the program with the first
  finding below fixed. Where the loop as written reads index -1, the program has undefined
  behaviour, and the model goes on (`Solver.NotchCommitReadsOutOfRange` shows such a
  commit).
- Determinism, the same order for the same input, holds because every member is a
  deterministic method. It is not stated as a lemma.
- That a well-formed rectangle triangulation is always solved completely is a geometric
  claim about tilings. It is not part of this model.

## Findings

| source | as written | input that shows it | evidently intended | confidence | as-written member | corrected member |
|---|---|---|---|---|---|---|
| superheroes.cpp:1013-1018 | after cancelling a pair, both counters step back and the inner loop goes on, so with the pair at index 0 the next comparison reads `boundaryLines[-1]` | boundary lines [(0,0)-(1,1), (1,1)-(0,0), (1,1)-(2,0)] | after a cancelled pair, leave the inner loop so the outer position is examined again | not executed | Frontier.FrontPairReadsOutOfRange | Frontier.RemoveDuplicateBoundaryLines |
| superheroes.cpp:807-814 | solve returns the order reached even when triangles remain, so a puzzle without a starting triangle gets the empty order | the single triangle (0,0), (2,0), (3,1) | report the puzzle as not solved when triangles remain | not executed | Solver.SolveLoneOverhang | Solver.SolveChecked |
