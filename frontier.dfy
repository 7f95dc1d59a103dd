/**
 * The boundary lines (the frontier): the exposed, non-border sides of the triangles placed
 * so far. The solver keeps them in a vector that it edits in place; here each edit is a
 * method that takes the old contents and returns the new.
 */
module Frontier {
  import opened Wrappers
  import opened Geometry
  import opened Sequences

  /** Number of entries of s that are the same line as l. */
  function CountSame(s: seq<Line>, l: Line): nat {
    if s == [] then 0 else (if SameLine(s[0], l) then 1 else 0) + CountSame(s[1..], l)
  }

  /** No two entries of s are the same line. */
  ghost predicate NoDuplicates(s: seq<Line>) {
    forall p, q :: 0 <= p < q < |s| ==> !SameLine(s[p], s[q])
  }

  /** No entry of s lies on the border. */
  ghost predicate NoBorderLines(s: seq<Line>, b: Border) {
    forall k :: 0 <= k < |s| ==> !OnBorder(s[k], b)
  }

  /** Some entry of s is the same line as l. */
  predicate OnFrontier(s: seq<Line>, l: Line) {
    exists j :: 0 <= j < |s| && SameLine(s[j], l)
  }

  lemma {:induction false} CountRemoveAt(s: seq<Line>, i: nat, l: Line)
    requires i < |s|
    ensures CountSame(RemoveAt(s, i), l) == CountSame(s, l) - (if SameLine(s[i], l) then 1 else 0)
  {
    if i == 0 {
      assert RemoveAt(s, 0) == s[1..];
    } else {
      assert RemoveAt(s, i) == [s[0]] + RemoveAt(s[1..], i - 1);
      assert ([s[0]] + RemoveAt(s[1..], i - 1))[1..] == RemoveAt(s[1..], i - 1);
      CountRemoveAt(s[1..], i - 1, l);
    }
  }

  /** Cancelling two copies of one line takes two from the count of that line, none from others. */
  lemma CancelPairCount(s: seq<Line>, i: nat, j: nat, l: Line)
    requires i < j < |s| && SameLine(s[i], s[j])
    ensures CountSame(RemoveAt(RemoveAt(s, i), j - 1), l) == CountSame(s, l) - (if SameLine(s[i], l) then 2 else 0)
  {
    var once := RemoveAt(s, i);
    CountRemoveAt(s, i, l);
    assert once[j - 1] == s[j];
    CountRemoveAt(once, j - 1, l);
    SameLineEquivalence(s[i], s[j], l);
    SameLineEquivalence(s[j], s[i], l);
  }

  lemma {:induction false} CountNone(s: seq<Line>, l: Line)
    requires forall k :: 0 <= k < |s| ==> !SameLine(s[k], l)
    ensures CountSame(s, l) == 0
  {
    if s != [] {
      CountNone(s[1..], l);
    }
  }

  /** Without duplicates, each line is counted at most once. */
  lemma {:induction false} CountAtMostOne(s: seq<Line>, l: Line)
    requires NoDuplicates(s)
    ensures CountSame(s, l) <= 1
  {
    if s != [] {
      assert NoDuplicates(s[1..]) by {
        forall p, q | 0 <= p < q < |s| - 1
          ensures !SameLine(s[1..][p], s[1..][q])
        {
          assert s[1..][p] == s[p + 1] && s[1..][q] == s[q + 1];
        }
      }
      CountAtMostOne(s[1..], l);
      if SameLine(s[0], l) {
        forall k | 0 <= k < |s| - 1
          ensures !SameLine(s[1..][k], l)
        {
          SameLineEquivalence(s[0], l, s[k + 1]);
          SameLineEquivalence(s[k + 1], l, s[0]);
          assert !SameLine(s[0], s[k + 1]);
        }
        CountNone(s[1..], l);
      }
    }
  }

  /** s with every entry that is the same line as l taken out, in order. */
  function Without(s: seq<Line>, l: Line): seq<Line> {
    if s == [] then []
    else Without(s[..|s| - 1], l) + (if SameLine(s[|s| - 1], l) then [] else [s[|s| - 1]])
  }

  /** Without keeps exactly the entries that are not the same line as l. */
  lemma {:induction false} WithoutMembers(s: seq<Line>, l: Line)
    ensures |Without(s, l)| <= |s|
    ensures forall x :: x in Without(s, l) <==> x in s && !SameLine(x, l)
  {
    if s != [] {
      var init, last := s[..|s| - 1], s[|s| - 1];
      assert s == init + [last];
      WithoutMembers(init, l);
    }
  }

  /** The frontier once the obstructed line, if there is one, is uncovered. */
  function Uncover(s: seq<Line>, obstructed: Option<Line>): seq<Line> {
    if obstructed.Some? then Without(s, obstructed.value) else s
  }

  /** One more scanned entry: it is dropped when it is the obstructed line, kept otherwise. */
  lemma UncoverStep(lines: seq<Line>, m: nat, obstructed: Option<Line>)
    requires m < |lines|
    ensures Uncover(lines[..m + 1], obstructed) ==
            Uncover(lines[..m], obstructed) + (if obstructed.Some? && SameLine(lines[m], obstructed.value) then [] else [lines[m]])
  {
    var s := lines[..m + 1];
    assert s[..|s| - 1] == lines[..m];
    assert s[|s| - 1] == lines[m];
  }

  /**
   * The loop after a placement that deletes every boundary line equal to the obstructed
   * line, stepping the counter back after each deletion.
   */
  method RemoveObstructedLine(lines: seq<Line>, obstructed: Option<Line>) returns (r: seq<Line>)
    ensures r == Uncover(lines, obstructed)
  {
    r := lines;
    var k: int := 0;
    ghost var m := 0;
    ghost var kept := [];
    while k < |r|
      invariant 0 <= m <= |lines|
      invariant kept == Uncover(lines[..m], obstructed)
      invariant r == kept + lines[m..]
      invariant k == |kept|
      decreases |r| - k
    {
      ghost var drop := obstructed.Some? && SameLine(lines[m], obstructed.value);
      ScanStep(r, kept, lines, m, drop);
      UncoverStep(lines, m, obstructed);
      if obstructed.Some? && SameLine(r[k], obstructed.value) {
        r := RemoveAt(r, k);
        k := k - 1;
      } else {
        kept := kept + [lines[m]];
      }
      k := k + 1;
      m := m + 1;
    }
    assert lines[..m] == lines;
  }

  /** Used for the side index to skip when no side is to be skipped. */
  const NoSkip: int := -1

  /** The sides among the first n of t, other than side skip, that are not on the border. */
  function ExposedUpTo(t: Triangle, skip: int, b: Border, n: nat): (r: seq<Line>)
    requires n <= 3
    ensures |r| <= n
  {
    if n == 0 then []
    else ExposedUpTo(t, skip, b, n - 1) + (if n - 1 != skip && !OnBorder(t.sides[n - 1], b) then [t.sides[n - 1]] else [])
  }

  function Exposed(t: Triangle, skip: int, b: Border): seq<Line> {
    ExposedUpTo(t, skip, b, 3)
  }

  /** The exposed sides are exactly the non-border sides other than side skip. */
  lemma {:induction false} ExposedMembers(t: Triangle, skip: int, b: Border, n: nat)
    requires n <= 3
    ensures forall x :: x in ExposedUpTo(t, skip, b, n) <==>
                        exists j :: 0 <= j < n && j != skip && !OnBorder(t.sides[j], b) && x == t.sides[j]
  {
    if n > 0 {
      ExposedMembers(t, skip, b, n - 1);
    }
  }

  /** The loops that add a triangle's non-border sides, except side skip, to the boundary lines. */
  method AppendExposedSides(lines: seq<Line>, t: Triangle, skip: int, b: Border) returns (r: seq<Line>)
    ensures r == lines + Exposed(t, skip, b)
    ensures NoBorderLines(lines, b) ==> NoBorderLines(r, b)
  {
    r := lines;
    for j := 0 to 3
      invariant r == lines + ExposedUpTo(t, skip, b, j)
    {
      if j != skip && !OnBorder(t.sides[j], b) {
        r := r + [t.sides[j]];
      }
    }
    ExposedMembers(t, skip, b, 3);
    forall k | |lines| <= k < |r|
      ensures !OnBorder(r[k], b)
    {
      assert r[k] in Exposed(t, skip, b);
    }
  }

  /** No entry before index b equals a later entry. */
  ghost predicate DistinctBefore(s: seq<Line>, b: int) {
    forall p, q :: 0 <= p < b && p < q < |s| ==> !SameLine(s[p], s[q])
  }

  lemma DistinctBeforeRemoveAt(s: seq<Line>, i: nat, b: int)
    requires i < |s| && b <= i && DistinctBefore(s, b)
    ensures DistinctBefore(RemoveAt(s, i), b)
  {
    var r := RemoveAt(s, i);
    forall p, q | 0 <= p < b && p < q < |r|
      ensures !SameLine(r[p], r[q])
    {
      assert r[p] == s[p];
      assert r[q] == s[if q < i then q else q + 1];
    }
  }

  /** What the cancelling loop keeps true: b1 entries are settled, counts keep their parity. */
  ghost predicate CancelInvariant(r: seq<Line>, lines: seq<Line>, idx: seq<int>, b1: int) {
    0 <= b1 <= |r| &&
    Embeds(r, lines, idx) &&
    DistinctBefore(r, b1) &&
    (forall l :: CountSame(r, l) % 2 == CountSame(lines, l) % 2) &&
    (|lines| - |r|) % 2 == 0
  }

  /** The parity of every count survives a cancelled pair. */
  lemma CancelKeepsParity(r: seq<Line>, lines: seq<Line>, b1: nat, b2: nat)
    requires b1 < b2 < |r| && SameLine(r[b1], r[b2])
    requires forall l :: CountSame(r, l) % 2 == CountSame(lines, l) % 2
    ensures forall l :: CountSame(RemoveAt(RemoveAt(r, b1), b2 - 1), l) % 2 == CountSame(lines, l) % 2
  {
    forall l
      ensures CountSame(RemoveAt(RemoveAt(r, b1), b2 - 1), l) % 2 == CountSame(lines, l) % 2
    {
      CancelPairCount(r, b1, b2, l);
    }
  }

  lemma CancelKeepsDistinct(r: seq<Line>, b1: nat, b2: nat)
    requires b1 < b2 < |r| && DistinctBefore(r, b1)
    ensures DistinctBefore(RemoveAt(RemoveAt(r, b1), b2 - 1), b1)
  {
    DistinctBeforeRemoveAt(r, b1, b1);
    DistinctBeforeRemoveAt(RemoveAt(r, b1), b2 - 1, b1);
  }

  lemma CancelKeepsEmbedding(r: seq<Line>, lines: seq<Line>, idx: seq<int>, b1: nat, b2: nat)
    requires b1 < b2 < |r| && Embeds(r, lines, idx)
    ensures Embeds(RemoveAt(RemoveAt(r, b1), b2 - 1), lines, RemoveAt(RemoveAt(idx, b1), b2 - 1))
  {
    EmbedsRemoveAt(r, lines, idx, b1);
    EmbedsRemoveAt(RemoveAt(r, b1), lines, RemoveAt(idx, b1), b2 - 1);
  }

  /** Cancelling the pair at b1 and b2 keeps the loop invariant, at the same b1. */
  lemma CancelStep(r: seq<Line>, lines: seq<Line>, idx: seq<int>, b1: nat, b2: nat)
    requires CancelInvariant(r, lines, idx, b1)
    requires b1 < b2 < |r| && SameLine(r[b1], r[b2])
    ensures CancelInvariant(RemoveAt(RemoveAt(r, b1), b2 - 1), lines, RemoveAt(RemoveAt(idx, b1), b2 - 1), b1)
  {
    CancelKeepsParity(r, lines, b1, b2);
    CancelKeepsDistinct(r, b1, b2);
    CancelKeepsEmbedding(r, lines, idx, b1, b2);
  }

  /** When no later entry matches entry b1, one more entry is settled. */
  lemma SettleStep(r: seq<Line>, lines: seq<Line>, idx: seq<int>, b1: nat)
    requires CancelInvariant(r, lines, idx, b1) && b1 < |r|
    requires forall q :: b1 < q < |r| ==> !SameLine(r[b1], r[q])
    ensures CancelInvariant(r, lines, idx, b1 + 1)
  {
  }

  /** Once every entry is settled, each line is left exactly when it occurred an odd number of times. */
  lemma CancelDone(r: seq<Line>, lines: seq<Line>, idx: seq<int>)
    requires CancelInvariant(r, lines, idx, |r|)
    ensures IsSubsequence(r, lines) && NoDuplicates(r)
    ensures forall l :: CountSame(r, l) == CountSame(lines, l) % 2
  {
    forall l
      ensures CountSame(r, l) == CountSame(lines, l) % 2
    {
      CountAtMostOne(r, l);
    }
  }

  /**
   * removeDuplicateBoundaryLines with the loop left after each cancelled pair, so that the
   * outer index comes back to the same position: the intended pair cancellation.
   */
  method RemoveDuplicateBoundaryLines(lines: seq<Line>) returns (r: seq<Line>)
    ensures IsSubsequence(r, lines)
    ensures NoDuplicates(r)
    ensures forall l :: CountSame(r, l) == CountSame(lines, l) % 2
    ensures (|lines| - |r|) % 2 == 0
  {
    r := lines;
    ghost var idx := Identity(|lines|);
    EmbedsIdentity(lines);
    var b1: int := 0;
    while b1 < |r|
      invariant CancelInvariant(r, lines, idx, b1)
      decreases |r| - b1
    {
      ghost var r0, idx0, b10 := r, idx, b1;
      var b2: int := b1 + 1;
      while b2 < |r|
        invariant r == r0 && idx == idx0 && b1 == b10
        invariant b1 + 1 <= b2 <= |r|
        invariant forall q :: b1 < q < b2 ==> !SameLine(r[b1], r[q])
        decreases |r| - b2
      {
        if SameLine(r[b1], r[b2]) {
          CancelStep(r, lines, idx, b1, b2);
          idx := RemoveAt(RemoveAt(idx, b1), b2 - 1);
          r := RemoveAt(r, b1);
          b2 := b2 - 1;
          r := RemoveAt(r, b2);
          b1 := b1 - 1;
          b2 := b2 - 1;
          break;
        }
        b2 := b2 + 1;
      }
      if r == r0 {
        SettleStep(r, lines, idx, b1);
      }
      b1 := b1 + 1;
    }
    CancelDone(r, lines, idx);
  }

  /** The out-of-range read in the code as written. */
  datatype AccessFault = IndexOutOfRange(index: int)

  /** The outer loop of removeDuplicateBoundaryLines as written, entered with counter b1. */
  function AsWrittenOuter(lines: seq<Line>, b1: int): Result<seq<Line>, AccessFault>
    requires 0 <= b1
    decreases |lines|, |lines| - b1, 0
  {
    if b1 >= |lines| then Ok(lines) else AsWrittenInner(lines, b1, b1 + 1)
  }

  /**
   * The inner loop as written, entered with counters b1 and b2. After a cancelled pair it
   * goes on with both counters stepped back, so b1 can be -1 when it next reads an entry.
   */
  function AsWrittenInner(lines: seq<Line>, b1: int, b2: int): Result<seq<Line>, AccessFault>
    requires -1 <= b1 < b2 <= |lines|
    decreases |lines|, |lines| - b1 - 1, |lines| - b2 + 1
  {
    if b2 >= |lines| then AsWrittenOuter(lines, b1 + 1)
    else if b1 < 0 then Err(IndexOutOfRange(b1))
    else if SameLine(lines[b1], lines[b2]) then
      var once := RemoveAt(lines, b1);
      AsWrittenInner(RemoveAt(once, b2 - 1), b1 - 1, b2 - 1)
    else AsWrittenInner(lines, b1, b2 + 1)
  }

  /** removeDuplicateBoundaryLines exactly as written, with its out-of-range read. */
  method RemoveDuplicateBoundaryLinesAsWritten(lines: seq<Line>) returns (r: Result<seq<Line>, AccessFault>)
    ensures r == AsWrittenOuter(lines, 0)
  {
    var cur := lines;
    var b1: int := 0;
    while b1 < |cur|
      invariant 0 <= b1 <= |cur|
      invariant AsWrittenOuter(cur, b1) == AsWrittenOuter(lines, 0)
      decreases |cur|, |cur| - b1
    {
      ghost var n0, b10 := |cur|, b1;
      var b2: int := b1 + 1;
      while b2 < |cur|
        invariant -1 <= b1 < b2 <= |cur|
        invariant |cur| <= n0 && (|cur| == n0 ==> b1 == b10)
        invariant AsWrittenInner(cur, b1, b2) == AsWrittenOuter(lines, 0)
        decreases |cur|, |cur| - b2
      {
        if b1 < 0 {
          return Err(IndexOutOfRange(b1));
        }
        if SameLine(cur[b1], cur[b2]) {
          cur := RemoveAt(cur, b1);
          b2 := b2 - 1;
          cur := RemoveAt(cur, b2);
          b1 := b1 - 1;
          b2 := b2 - 1;
        }
        b2 := b2 + 1;
      }
      b1 := b1 + 1;
    }
    r := Ok(cur);
  }

  /**
   * A pair cancelled at index 0 with an entry after it: the code as written then reads
   * the boundary line at index -1.
   */
  lemma FrontPairReadsOutOfRange()
    ensures AsWrittenOuter([Line(0, 0, 1, 1), Line(1, 1, 0, 0), Line(1, 1, 2, 0)], 0) == Err(IndexOutOfRange(-1))
  {
    var s := [Line(0, 0, 1, 1), Line(1, 1, 0, 0), Line(1, 1, 2, 0)];
    assert SameLine(s[0], s[1]);
    assert RemoveAt(RemoveAt(s, 0), 0) == [Line(1, 1, 2, 0)];
    assert AsWrittenInner([Line(1, 1, 2, 0)], -1, 0) == Err(IndexOutOfRange(-1));
    assert AsWrittenInner(s, 0, 1) == Err(IndexOutOfRange(-1));
  }
}
