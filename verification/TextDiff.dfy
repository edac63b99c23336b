/** The one-hunk text diff shown by `push --diff`: strip the common first and last lines and show the rest. A text is
    held as its lines. */
module TextDiff {
  import opened Basics

  type Line = string

  datatype DiffLine = At(line: int, removed: nat, added: nat) | Removed(text: Line) | Added(text: Line)

  function RemovedLines(lines: seq<Line>): seq<DiffLine> {
    seq(|lines|, i requires 0 <= i < |lines| => Removed(lines[i]))
  }

  function AddedLines(lines: seq<Line>): seq<DiffLine> {
    seq(|lines|, i requires 0 <= i < |lines| => Added(lines[i]))
  }

  predicate WellFormed(diff: seq<DiffLine>) {
    && (diff != [] ==> diff[0].At? && |diff| == 1 + diff[0].removed + diff[0].added)
    && forall i | 0 < i < |diff| :: !diff[i].At?
  }

  function Texts(lines: seq<DiffLine>): seq<Line>
    requires forall l | l in lines :: !l.At?
  {
    seq(|lines|, i requires 0 <= i < |lines| => lines[i].text)
  }

  /** What a reader of the diff does: at the named line, the removed lines must be there, and the added ones replace
      them. */
  function Patch(base: seq<Line>, diff: seq<DiffLine>): Option<seq<Line>>
    requires WellFormed(diff)
  {
    if diff == [] then Some(base)
    else
      var (at, r) := (diff[0].line - 1, diff[0].removed);
      var minus, plus := diff[1..1 + r], diff[1 + r..];
      if at < 0 || at + r > |base| || minus != RemovedLines(base[at..at + r]) then None
      else if exists l | l in plus :: !l.Added? then None
      else Some(base[..at] + Texts(plus) + base[at + r..])
  }

  /** The diff read backwards. */
  function Swapped(diff: seq<DiffLine>): seq<DiffLine>
    requires WellFormed(diff)
  {
    if diff == [] then []
    else
      var (r, a) := (diff[0].removed, diff[0].added);
      [At(diff[0].line, a, r)] + RemovedLines(Texts(diff[1 + r..])) + AddedLines(Texts(diff[1..1 + r]))
  }

  /** before and after agree on the first p and, beyond those, the last s lines. */
  predicate Agree(before: seq<Line>, after: seq<Line>, p: nat, s: nat) {
    && p + s <= |before| && p + s <= |after|
    && before[..p] == after[..p]
    && before[|before| - s..] == after[|after| - s..]
  }

  method SimpleDiff(before: seq<Line>, after: seq<Line>) returns (diff: seq<DiffLine>)
    ensures diff == [] <==> before == after
    ensures WellFormed(diff)
    ensures Patch(before, diff) == Some(after)
    ensures WellFormed(Swapped(diff)) && Patch(after, Swapped(diff)) == Some(before)
    ensures forall other: seq<DiffLine> | WellFormed(other) && other != [] && before != after &&
              Patch(before, other) == Some(after) ::
              diff[0].removed <= other[0].removed && diff[0].added <= other[0].added
  {
    if before == after {
      return [];
    }
    var prefix := 0;
    while prefix < |before| && prefix < |after| && before[prefix] == after[prefix]
      invariant Agree(before, after, prefix, 0)
    {
      prefix := prefix + 1;
    }
    var suffix := 0;
    while suffix < |before| - prefix && suffix < |after| - prefix &&
          before[|before| - 1 - suffix] == after[|after| - 1 - suffix]
      invariant Agree(before, after, prefix, suffix)
    {
      suffix := suffix + 1;
    }
    var removed, added := before[prefix..|before| - suffix], after[prefix..|after| - suffix];
    diff := [At(prefix + 1, |removed|, |added|)] + RemovedLines(removed) + AddedLines(added);
    DiffPatches(before, after, prefix, suffix, diff);
    DiffPatchesBack(before, after, prefix, suffix, diff);
    forall other: seq<DiffLine> | WellFormed(other) && other != [] && Patch(before, other) == Some(after)
      ensures diff[0].removed <= other[0].removed && diff[0].added <= other[0].added
    {
      NoSmallerHunk(before, after, prefix, suffix, other);
    }
  }

  predicate IsDiff(before: seq<Line>, after: seq<Line>, p: nat, s: nat, diff: seq<DiffLine>) {
    && Agree(before, after, p, s)
    && var removed, added := before[p..|before| - s], after[p..|after| - s];
       diff == [At(p + 1, |removed|, |added|)] + RemovedLines(removed) + AddedLines(added)
  }

  lemma DiffPatches(before: seq<Line>, after: seq<Line>, p: nat, s: nat, diff: seq<DiffLine>)
    requires IsDiff(before, after, p, s, diff)
    ensures WellFormed(diff) && Patch(before, diff) == Some(after)
  {
    var removed, added := before[p..|before| - s], after[p..|after| - s];
    assert diff[1..1 + |removed|] == RemovedLines(removed) && diff[1 + |removed|..] == AddedLines(added);
    assert Texts(AddedLines(added)) == added;
    assert before[..p] + added + before[|before| - s..] == after;
  }

  lemma DiffPatchesBack(before: seq<Line>, after: seq<Line>, p: nat, s: nat, diff: seq<DiffLine>)
    requires IsDiff(before, after, p, s, diff) && WellFormed(diff)
    ensures WellFormed(Swapped(diff)) && Patch(after, Swapped(diff)) == Some(before)
  {
    var removed, added := before[p..|before| - s], after[p..|after| - s];
    assert diff[1..1 + |removed|] == RemovedLines(removed) && diff[1 + |removed|..] == AddedLines(added);
    assert Texts(AddedLines(added)) == added && Texts(RemovedLines(removed)) == removed;
    DiffPatches(after, before, p, s, Swapped(diff));
  }

  /** The greedy strip is optimal: any hunk that turns before into after replaces at least as many lines. */
  lemma NoSmallerHunk(before: seq<Line>, after: seq<Line>, p: nat, s: nat, other: seq<DiffLine>)
    requires Agree(before, after, p, s)
    requires p < |before| && p < |after| ==> before[p] != after[p]
    requires p + s < |before| && p + s < |after| ==> before[|before| - 1 - s] != after[|after| - 1 - s]
    requires WellFormed(other) && other != [] && Patch(before, other) == Some(after)
    ensures |before| - p - s <= other[0].removed && |after| - p - s <= other[0].added
  {
    var at, r := other[0].line - 1, other[0].removed;
    var q := |before| - at - r;
    Replaces(before, after, at, r, Texts(other[1 + r..]));
    assert forall k | 0 <= k < at :: before[k] == after[k];
    var b, a := before[|before| - q..], after[|after| - q..];
    assert s < q ==> b[q - 1 - s] == a[q - 1 - s];
  }

  lemma Replaces(before: seq<Line>, after: seq<Line>, at: nat, r: nat, added: seq<Line>)
    requires at + r <= |before| && after == before[..at] + added + before[at + r..]
    ensures |after| == |before| - r + |added| && Agree(before, after, at, |before| - at - r)
  {}
}
