/**
 Header arithmetic of the emitted hunks (git_patch_selection.py:125-158): where each
 hunk starts, that hunks do not overlap on either side, and how far a printed new start
 is from the line where the hunk lands in the partially staged file.
 */
module PatchHeaders {
  import opened Wrappers
  import opened PatchSelection
  import opened PatchReader
  import opened PatchStaging
  import opened PatchCounts
  import opened PatchLaws

  // ------------------------------------------------------------- placement

  /** The hunks come in order, with equally long stretches between them on both sides. */
  predicate Placed(hunks: seq<Hunk>, o: nat, n: nat) {
    hunks == [] ||
    (var h := hunks[0];
     && o <= h.oldStart && n <= h.newStart && h.oldStart - o == h.newStart - n
     && Placed(hunks[1..], h.oldStart + |OldSide(h.entries)|, h.newStart + |NewSide(h.entries)|))
  }

  /** The hunks come in order and do not overlap, on the old side and on the new side. */
  predicate Disjoint(hunks: seq<Hunk>, o: nat, n: nat) {
    hunks == [] ||
    (var h := hunks[0];
     && o <= h.oldStart && n <= h.newStart
     && Disjoint(hunks[1..], h.oldStart + |OldSide(h.entries)|, h.newStart + |NewSide(h.entries)|))
  }

  lemma {:induction false} DescribedPlaced(hunks: seq<Hunk>, oldFile: seq<Line>, newFile: seq<Line>, o: nat, n: nat)
    requires Describes(hunks, oldFile, newFile, o, n)
    ensures Placed(hunks, o, n)
    decreases |hunks|
  {
    hide Lines, OldSide, NewSide;
    if hunks != [] {
      var h := hunks[0];
      DescribesStep(hunks, oldFile, newFile, o, n);
      LinesLength(oldFile, o, h.oldStart);
      LinesLength(newFile, n, h.newStart);
      DescribedPlaced(hunks[1..], oldFile, newFile,
                      h.oldStart + |OldSide(h.entries)|, h.newStart + |NewSide(h.entries)|);
    }
  }

  lemma DisjointEarlier(hunks: seq<Hunk>, o: nat, n: nat, o': nat, n': nat)
    requires Disjoint(hunks, o', n') && o <= o' && n <= n'
    ensures Disjoint(hunks, o, n)
  {
  }

  lemma {:induction false} DisjointRuns(entries: seq<Entry>, inc: seq<bool>, i: nat, o: nat, n: nat, more: seq<Hunk>)
    requires i <= |entries| == |inc| && Chained(entries[i..], o, n)
    requires Disjoint(more, o + |OldSide(entries[i..])|, n + |NewSide(entries[i..])|)
    ensures Disjoint(HunksOf(RunsFrom(entries, inc, i)) + more, o, n)
    decreases |entries| - i
  {
    hide OldSide, NewSide, SegmentHunk;
    if i == |entries| {
      assert HunksOf(RunsFrom(entries, inc, i)) + more == more;
      DisjointEarlier(more, o, n, o + |OldSide(entries[i..])|, n + |NewSide(entries[i..])|);
    } else if !inc[i] {
      var e := entries[i];
      EntryStep(entries, i, o, n);
      DisjointRuns(entries, inc, i + 1, e.OldAfter(), e.NewAfter(), more);
      DisjointEarlier(HunksOf(RunsFrom(entries, inc, i + 1)) + more, o, n, e.OldAfter(), e.NewAfter());
    } else {
      var e := RunEnd(inc, i);
      var segment := entries[i..e];
      SegmentStep(entries, i, e, o, n);
      var o', n' := o + |OldSide(segment)|, n + |NewSide(segment)|;
      DisjointRuns(entries, inc, e, o', n', more);
      RunsFirst(entries, inc, i, more);
      DisjointCons(SegmentHunk(segment), HunksOf(RunsFrom(entries, inc, e)) + more, o, n);
    }
  }

  lemma DisjointCons(h: Hunk, more: seq<Hunk>, o: nat, n: nat)
    requires o <= h.oldStart && n <= h.newStart
    requires Disjoint(more, h.oldStart + |OldSide(h.entries)|, h.newStart + |NewSide(h.entries)|)
    ensures Disjoint([h] + more, o, n)
  {
    assert ([h] + more)[1..] == more;
  }

  lemma EntryStep(entries: seq<Entry>, i: nat, o: nat, n: nat)
    requires i < |entries| && Chained(entries[i..], o, n)
    ensures var e := entries[i];
            && e.oldBefore == o && e.newBefore == n
            && Chained(entries[i + 1..], e.OldAfter(), e.NewAfter())
            && e.OldAfter() + |OldSide(entries[i + 1..])| == o + |OldSide(entries[i..])|
            && e.NewAfter() + |NewSide(entries[i + 1..])| == n + |NewSide(entries[i..])|
  {
    assert entries[i..][0] == entries[i] && entries[i..][1..] == entries[i + 1..];
  }

  lemma SegmentStep(entries: seq<Entry>, i: nat, e: nat, o: nat, n: nat)
    requires i < e <= |entries| && Chained(entries[i..], o, n)
    ensures var segment := entries[i..e];
            && entries[i..] == segment + entries[e..]
            && SegmentHunk(segment) == Hunk(o, n, segment)
            && Chained(segment, o, n)
            && Chained(entries[e..], o + |OldSide(segment)|, n + |NewSide(segment)|)
            && |OldSide(entries[i..])| == |OldSide(segment)| + |OldSide(entries[e..])|
            && |NewSide(entries[i..])| == |NewSide(segment)| + |NewSide(entries[e..])|
  {
    var segment := entries[i..e];
    assert entries[i..] == segment + entries[e..];
    assert entries[i..][..e - i] == segment && entries[i..][e - i..] == entries[e..];
    ChainedSplit(entries[i..], e - i, o, n);
    StartsOfChained(segment, o, n);
    OldSideConcat(segment, entries[e..]);
    NewSideConcat(segment, entries[e..]);
  }

  lemma {:induction false} DisjointSelected(hunks: seq<Hunk>, sel: Selection, o: nat, n: nat)
    requires ChainedHunks(hunks) && Placed(hunks, o, n)
    ensures Disjoint(SelectHunks(hunks, sel), o, n)
    decreases |hunks|
  {
    if hunks != [] {
      var h := hunks[0];
      DisjointSelected(hunks[1..], sel, h.oldStart + |OldSide(h.entries)|, h.newStart + |NewSide(h.entries)|);
      assert h.entries[0..] == h.entries;
      DisjointRuns(h.entries, Flags(h.entries, sel), 0, h.oldStart, h.newStart, SelectHunks(hunks[1..], sel));
      DisjointEarlier(SelectHunks(hunks, sel), o, n, h.oldStart, h.newStart);
    }
  }

  // ------------------------------------------------------ where hunks land

  /** Lines added minus lines removed by the first `k` hunks. */
  function Shift(hunks: seq<Hunk>, k: nat): int
    requires k <= |hunks|
  {
    if k == 0 then 0
    else |NewSide(hunks[0].entries)| - |OldSide(hunks[0].entries)| + Shift(hunks[1..], k - 1)
  }

  /** The line of the patched file at which hunk `k` starts. */
  function Landing(hunks: seq<Hunk>, k: nat): int
    requires k < |hunks|
  {
    hunks[k].oldStart + Shift(hunks, k)
  }

  /** There, indeed, the applied file holds the new side of the hunk. */
  lemma {:induction false} Lands(file: seq<Line>, pos: nat, hunks: seq<Hunk>, k: nat)
    requires 1 <= pos <= |file| + 1 && k < |hunks| && ApplyFrom(file, pos, hunks).Some?
    ensures var result := ApplyFrom(file, pos, hunks).value;
            var at, side := Landing(hunks, k) - pos, NewSide(hunks[k].entries);
            0 <= at && at + |side| <= |result| && result[at..at + |side|] == side
    decreases |hunks|
  {
    hide OldSide, NewSide, Lines;
    var h := hunks[0];
    var end := h.oldStart + |OldSide(h.entries)|;
    var rest := ApplyFrom(file, end, hunks[1..]).value;
    var head := Lines(file, pos, h.oldStart) + NewSide(h.entries);
    LinesLength(file, pos, h.oldStart);
    assert ApplyFrom(file, pos, hunks).value == head + rest;
    if k == 0 {
      assert (head + rest)[|head| - |NewSide(h.entries)|..|head|] == NewSide(h.entries);
    } else {
      Lands(file, end, hunks[1..], k - 1);
      var at := Landing(hunks[1..], k - 1) - end;
      assert hunks[1..][k - 1] == hunks[k];
      SliceAfter(head, rest, at, |NewSide(hunks[k].entries)|);
    }
  }

  lemma SliceAfter<T>(head: seq<T>, rest: seq<T>, at: nat, length: nat)
    requires at + length <= |rest|
    ensures (head + rest)[|head| + at..|head| + at + length] == rest[at..at + length]
  {
  }

  // ------------------------------------------------------------------ drift

  /** What leaving `e` out does to the numbering of later lines, against the full new file. */
  function EntryDrift(e: Entry, sel: Selection): int {
    if e.kind.Keep? || sel.Picks(e) then 0 else if e.kind.Insert? then 1 else -1
  }

  /** Unselected additions minus unselected deletions. */
  function Drift(entries: seq<Entry>, sel: Selection): int {
    if entries == [] then 0 else EntryDrift(entries[0], sel) + Drift(entries[1..], sel)
  }

  /** The same, over the entries before the point whose two cursors add up to `limit`. */
  function DriftBefore(entries: seq<Entry>, sel: Selection, limit: nat): int {
    if entries == [] then 0
    else
      (if entries[0].oldBefore + entries[0].newBefore < limit then EntryDrift(entries[0], sel) else 0)
      + DriftBefore(entries[1..], sel, limit)
  }

  predicate Below(entries: seq<Entry>, limit: nat) {
    forall i :: 0 <= i < |entries| ==> entries[i].oldBefore + entries[i].newBefore < limit
  }

  predicate AtLeast(entries: seq<Entry>, limit: nat) {
    forall i :: 0 <= i < |entries| ==> limit <= entries[i].oldBefore + entries[i].newBefore
  }

  lemma {:induction false} DriftConcat(a: seq<Entry>, b: seq<Entry>, sel: Selection)
    ensures Drift(a + b, sel) == Drift(a, sel) + Drift(b, sel)
  {
    if a == [] {
      assert a + b == b;
    } else {
      assert (a + b)[1..] == a[1..] + b;
      DriftConcat(a[1..], b, sel);
    }
  }

  lemma {:induction false} DriftSplits(a: seq<Entry>, b: seq<Entry>, sel: Selection, limit: nat)
    requires Below(a, limit) && AtLeast(b, limit)
    ensures DriftBefore(a + b, sel, limit) == Drift(a, sel)
  {
    if a != [] {
      assert (a + b)[1..] == a[1..] + b;
      DriftSplits(a[1..], b, sel, limit);
    } else if b != [] {
      assert a + b == b && a + b[1..] == b[1..];
      DriftSplits(a, b[1..], sel, limit);
    }
  }

  /** Changes that are all picked leave the numbering alone. */
  lemma {:induction false} DriftPicked(entries: seq<Entry>, sel: Selection)
    requires forall i :: 0 <= i < |entries| ==> entries[i].kind.Keep? || sel.Picks(entries[i])
    ensures Drift(entries, sel) == 0
  {
    if entries != [] {
      assert forall i :: 0 <= i < |entries[1..]| ==> entries[1..][i] == entries[i + 1];
      DriftPicked(entries[1..], sel);
    }
  }

  lemma {:induction false} ChainedSums(entries: seq<Entry>, o: nat, n: nat)
    requires Chained(entries, o, n)
    ensures AtLeast(entries, o + n)
    ensures Below(entries, o + |OldSide(entries)| + n + |NewSide(entries)|)
  {
    if entries != [] {
      ChainedSums(entries[1..], entries[0].OldAfter(), entries[0].NewAfter());
      assert forall i :: 0 < i < |entries| ==> entries[i] == entries[1..][i - 1];
    }
  }

  /** `new_start` minus landing line, hunk by hunk, with `shift` lines already gained. */
  predicate DriftsAs(hunks: seq<Hunk>, shift: int, all: seq<Entry>, sel: Selection) {
    hunks == [] ||
    (var h := hunks[0];
     && h.newStart - (h.oldStart + shift) == DriftBefore(all, sel, h.oldStart + h.newStart)
     && DriftsAs(hunks[1..], shift + |NewSide(h.entries)| - |OldSide(h.entries)|, all, sel))
  }

  lemma DriftsCons(h: Hunk, more: seq<Hunk>, shift: int, all: seq<Entry>, sel: Selection)
    requires h.newStart - (h.oldStart + shift) == DriftBefore(all, sel, h.oldStart + h.newStart)
    requires DriftsAs(more, shift + |NewSide(h.entries)| - |OldSide(h.entries)|, all, sel)
    ensures DriftsAs([h] + more, shift, all, sel)
  {
    assert ([h] + more)[1..] == more;
  }

  /** Runs of one hunk: `before` and `after` are the diff's entries around `entries[i..]`. */
  lemma {:induction false} DriftRuns(entries: seq<Entry>, sel: Selection, i: nat, o: nat, n: nat,
                                     before: seq<Entry>, after: seq<Entry>, more: seq<Hunk>)
    requires i <= |entries| && Chained(entries[i..], o, n) && Below(before, o + n)
    requires AtLeast(after, o + |OldSide(entries[i..])| + n + |NewSide(entries[i..])|)
    requires DriftsAs(more,
                      n + |NewSide(entries[i..])| - o - |OldSide(entries[i..])| - Drift(before + entries[i..], sel),
                      before + entries[i..] + after, sel)
    ensures DriftsAs(HunksOf(RunsFrom(entries, Flags(entries, sel), i)) + more, n - o - Drift(before, sel),
                     before + entries[i..] + after, sel)
    decreases |entries| - i
  {
    var inc := Flags(entries, sel);
    if i == |entries| {
      assert entries[i..] == [] && before + entries[i..] == before;
      assert HunksOf(RunsFrom(entries, inc, i)) + more == more;
    } else if !inc[i] {
      DriftSkip(entries, sel, i, o, n, before, after, more);
    } else {
      DriftRun(entries, sel, i, RunEnd(inc, i), o, n, before, after, more);
    }
  }

  lemma {:induction false} DriftSkip(entries: seq<Entry>, sel: Selection, i: nat, o: nat, n: nat,
                                     before: seq<Entry>, after: seq<Entry>, more: seq<Hunk>)
    requires i < |entries| && Chained(entries[i..], o, n) && Below(before, o + n)
    requires !Flags(entries, sel)[i]
    requires AtLeast(after, o + |OldSide(entries[i..])| + n + |NewSide(entries[i..])|)
    requires DriftsAs(more,
                      n + |NewSide(entries[i..])| - o - |OldSide(entries[i..])| - Drift(before + entries[i..], sel),
                      before + entries[i..] + after, sel)
    ensures DriftsAs(HunksOf(RunsFrom(entries, Flags(entries, sel), i)) + more, n - o - Drift(before, sel),
                     before + entries[i..] + after, sel)
    decreases |entries| - i, 0
  {
    hide DriftsAs, DriftBefore, Drift, HunksOf, OldSide, NewSide, Chained, RunsFrom;
    var e := entries[i];
    var inc := Flags(entries, sel);
    assert !Included(entries, sel, i);
    EntryStep(entries, i, o, n);
    var before' := before + [e];
    assert before' + entries[i + 1..] == before + entries[i..];
    DriftConcat(before, [e], sel);
    DriftOne(e, sel);
    assert Below(before', e.OldAfter() + e.NewAfter());
    DriftRuns(entries, sel, i + 1, e.OldAfter(), e.NewAfter(), before', after, more);
    RunsSkip(entries, inc, i, i + 1);
  }

  lemma DriftOne(e: Entry, sel: Selection)
    ensures Drift([e], sel) == EntryDrift(e, sel)
  {
  }

  lemma {:induction false} DriftRun(entries: seq<Entry>, sel: Selection, i: nat, e: nat, o: nat, n: nat,
                                    before: seq<Entry>, after: seq<Entry>, more: seq<Hunk>)
    requires i < |entries| && Chained(entries[i..], o, n) && Below(before, o + n)
    requires Flags(entries, sel)[i] && e == RunEnd(Flags(entries, sel), i)
    requires AtLeast(after, o + |OldSide(entries[i..])| + n + |NewSide(entries[i..])|)
    requires DriftsAs(more,
                      n + |NewSide(entries[i..])| - o - |OldSide(entries[i..])| - Drift(before + entries[i..], sel),
                      before + entries[i..] + after, sel)
    ensures DriftsAs(HunksOf(RunsFrom(entries, Flags(entries, sel), i)) + more, n - o - Drift(before, sel),
                     before + entries[i..] + after, sel)
    decreases |entries| - i, 0
  {
    hide DriftsAs, DriftBefore, Drift, HunksOf, OldSide, NewSide, Chained, RunsFrom, SegmentHunk;
    var inc := Flags(entries, sel);
    assert e != i;
    var segment := entries[i..e];
    SegmentStep(entries, i, e, o, n);
    forall j | 0 <= j < |segment| ensures segment[j].kind.Keep? || sel.Picks(segment[j]) {
      assert inc[i + j];
    }
    DriftPicked(segment, sel);
    DriftConcat(before, segment, sel);
    ChainedSums(segment, o, n);
    ChainedSums(entries[i..], o, n);
    var before', tail := before + segment, entries[i..] + after;
    assert before' + entries[e..] == before + entries[i..];
    var all := before + entries[i..] + after;
    assert all == before + tail;
    DriftSplits(before, tail, sel, o + n);
    assert Below(before', o + |OldSide(segment)| + n + |NewSide(segment)|);
    var o', n' := o + |OldSide(segment)|, n + |NewSide(segment)|;
    DriftRuns(entries, sel, e, o', n', before', after, more);
    DriftsCons(SegmentHunk(segment), HunksOf(RunsFrom(entries, inc, e)) + more, n - o - Drift(before, sel), all, sel);
    RunsFirst(entries, inc, i, more);
  }

  lemma {:induction false} FlatAtLeast(hunks: seq<Hunk>, o: nat, n: nat)
    requires ChainedHunks(hunks) && Placed(hunks, o, n)
    ensures AtLeast(Flat(hunks), o + n)
  {
    if hunks != [] {
      var h := hunks[0];
      ChainedSums(h.entries, h.oldStart, h.newStart);
      FlatAtLeast(hunks[1..], h.oldStart + |OldSide(h.entries)|, h.newStart + |NewSide(h.entries)|);
    }
  }

  lemma {:induction false} DriftSelected(hunks: seq<Hunk>, sel: Selection, o: nat, n: nat, before: seq<Entry>)
    requires ChainedHunks(hunks) && Placed(hunks, o, n) && Below(before, o + n)
    ensures DriftsAs(SelectHunks(hunks, sel), n - o - Drift(before, sel), before + Flat(hunks), sel)
    decreases |hunks|
  {
    hide *;
    if hunks == [] {
      DriftsEmpty(n - o - Drift(before, sel), before + Flat(hunks), sel);
      assert SelectHunks(hunks, sel) == [] by { NothingSelected(sel); }
    } else {
      var h := hunks[0];
      var o', n' := h.oldStart + |OldSide(h.entries)|, h.newStart + |NewSide(h.entries)|;
      PlacedStep(hunks, o, n);
      ChainedStep(hunks);
      ChainedSums(h.entries, h.oldStart, h.newStart);
      var before' := before + h.entries;
      BelowJoin(before, h.entries, o + n, o' + n');
      BelowJoin(before, [], o + n, h.oldStart + h.newStart);
      assert before + [] == before;
      DriftSelected(hunks[1..], sel, o', n', before');
      DriftConcat(before, h.entries, sel);
      FlatAtLeast(hunks[1..], o', n');
      assert h.entries[0..] == h.entries;
      SelectStep(hunks, sel);
      assert before' + Flat(hunks[1..]) == before + Flat(hunks);
      DriftRuns(h.entries, sel, 0, h.oldStart, h.newStart, before, Flat(hunks[1..]), SelectHunks(hunks[1..], sel));
    }
  }

  lemma NothingSelected(sel: Selection)
    ensures SelectHunks([], sel) == []
  {
  }

  lemma PlacedStep(hunks: seq<Hunk>, o: nat, n: nat)
    requires Placed(hunks, o, n) && hunks != []
    ensures var h := hunks[0];
            && o <= h.oldStart && n <= h.newStart && h.oldStart - o == h.newStart - n
            && Placed(hunks[1..], h.oldStart + |OldSide(h.entries)|, h.newStart + |NewSide(h.entries)|)
  {
  }

  lemma BelowJoin(a: seq<Entry>, b: seq<Entry>, low: nat, high: nat)
    requires Below(a, low) && Below(b, high) && low <= high
    ensures Below(a + b, high)
  {
  }

  lemma SelectStep(hunks: seq<Hunk>, sel: Selection)
    requires hunks != []
    ensures Flat(hunks) == hunks[0].entries + Flat(hunks[1..])
    ensures SelectHunks(hunks, sel)
            == HunksOf(RunsFrom(hunks[0].entries, Flags(hunks[0].entries, sel), 0)) + SelectHunks(hunks[1..], sel)
  {
  }

  lemma DriftsEmpty(shift: int, all: seq<Entry>, sel: Selection)
    ensures DriftsAs([], shift, all, sel)
  {
  }

  lemma {:induction false} DriftsAt(hunks: seq<Hunk>, shift: int, all: seq<Entry>, sel: Selection, k: nat)
    requires DriftsAs(hunks, shift, all, sel) && k < |hunks|
    ensures hunks[k].newStart - (Landing(hunks, k) + shift)
            == DriftBefore(all, sel, hunks[k].oldStart + hunks[k].newStart)
  {
    if 0 < k {
      var h := hunks[0];
      DriftsAt(hunks[1..], shift + |NewSide(h.entries)| - |OldSide(h.entries)|, all, sel, k - 1);
      assert hunks[1..][k - 1] == hunks[k];
    }
  }

  // ----------------------------------------------------------- main results

  lemma {:induction false} EmittedStarts(entries: seq<Entry>, inc: seq<bool>, i: nat, o: nat, n: nat, k: nat)
    requires i <= |entries| == |inc| && Chained(entries[i..], o, n)
    requires k < |HunksOf(RunsFrom(entries, inc, i))|
    ensures var h := HunksOf(RunsFrom(entries, inc, i))[k];
            h.entries != [] && h.oldStart == h.entries[0].oldBefore && h.newStart == h.entries[0].newBefore
    decreases |entries| - i
  {
    hide OldSide, NewSide, SegmentHunk;
    if i < |entries| && !inc[i] {
      EntryStep(entries, i, o, n);
      EmittedStarts(entries, inc, i + 1, entries[i].OldAfter(), entries[i].NewAfter(), k);
    } else if i < |entries| {
      var e := RunEnd(inc, i);
      SegmentStep(entries, i, e, o, n);
      RunsFirst(entries, inc, i, []);
      var rest := HunksOf(RunsFrom(entries, inc, e));
      assert HunksOf(RunsFrom(entries, inc, i)) == [SegmentHunk(entries[i..e])] + rest;
      if 0 < k {
        EmittedStarts(entries, inc, e, o + |OldSide(entries[i..e])|, n + |NewSide(entries[i..e])|, k - 1);
      } else {
        assert entries[i..e][0] == entries[i] == entries[i..][0];
      }
    }
  }

  lemma {:induction false} SelectedStarts(hunks: seq<Hunk>, sel: Selection, k: nat)
    requires ChainedHunks(hunks) && k < |SelectHunks(hunks, sel)|
    ensures var h := SelectHunks(hunks, sel)[k];
            h.entries != [] && h.oldStart == h.entries[0].oldBefore && h.newStart == h.entries[0].newBefore
  {
    var h := hunks[0];
    var first := HunksOf(Segments(h.entries, sel));
    if k < |first| {
      assert h.entries[0..] == h.entries;
      EmittedStarts(h.entries, Flags(h.entries, sel), 0, h.oldStart, h.newStart, k);
    } else {
      SelectedStarts(hunks[1..], sel, k - |first|);
    }
  }

  /** The header of hunk `k`: its starts, the line where it lands in `staged`, and how far its new start is off. */
  predicate HeaderOk(patch: seq<Hunk>, k: nat, staged: seq<Line>, all: seq<Entry>, sel: Selection)
    requires k < |patch|
  {
    var h := patch[k];
    var at, side := Landing(patch, k), NewSide(h.entries);
    && h.entries != []
    && h.oldStart == h.entries[0].oldBefore && h.newStart == h.entries[0].newBefore
    && 1 <= at && at - 1 + |side| <= |staged| && staged[at - 1..at - 1 + |side|] == side
    && h.newStart - at == DriftBefore(all, sel, h.oldStart + h.newStart)
  }

  /** The header arithmetic of what is selected from the hunks of a diff. */
  lemma SelectedHeaders(read: seq<Hunk>, oldFile: seq<Line>, newFile: seq<Line>, sel: Selection, k: nat)
    requires ChainedHunks(read) && Describes(read, oldFile, newFile, 1, 1)
    ensures var patch := SelectHunks(read, sel);
            && Disjoint(patch, 1, 1) && ApplyForward(oldFile, patch).Some?
            && (k < |patch| ==> HeaderOk(patch, k, ApplyForward(oldFile, patch).value, Flat(read), sel))
  {
    hide Describes, Fits, Script, SelectHunks, Staged, Disjoint, DriftsAs, DriftBefore, Placed, Flat, Shift, ApplyFrom,
         Chained, OldSide, NewSide;
    DescribedPlaced(read, oldFile, newFile, 1, 1);
    DescribedFits(read, oldFile, newFile, 1, 1);
    TurnsSelected(read, oldFile, 1, 1, sel);
    var patch := SelectHunks(read, sel);
    DisjointSelected(read, sel, 1, 1);
    if k < |patch| {
      SelectedStarts(read, sel, k);
      Lands(oldFile, 1, patch, k);
      DriftSelected(read, sel, 1, 1, []);
      DriftNone(sel);
      assert [] + Flat(read) == Flat(read);
      DriftsAt(patch, 0, Flat(read), sel, k);
    }
  }

  /**
   Every emitted hunk starts at its first entry's cursors; the hunks are disjoint and in
   order on both sides; hunk `k` lands at `Landing`, where the staged file holds its new
   side; and its printed new start is off by exactly the unselected additions minus the
   unselected deletions before it.
   */
  lemma HeaderTheorem(lines: seq<string>, oldFile: seq<Line>, newFile: seq<Line>, sel: Selection, k: nat)
    requires WellFormed(lines, oldFile, newFile) && UnharmedHunks(ReadDiff(lines).value, sel)
    ensures ReadDiff(SelectedPatch(lines, sel)).Some?
    ensures var patch := ReadDiff(SelectedPatch(lines, sel)).value;
            && Disjoint(patch, 1, 1)
            && ApplyForward(oldFile, patch).Some?
            && (k < |patch| ==>
                  HeaderOk(patch, k, ApplyForward(oldFile, patch).value, Flat(ReadDiff(lines).value), sel))
  {
    hide Describes, SelectHunks, SelectedPatch, ReadDiff, UnharmedHunks, Disjoint, HeaderOk, Flat, ApplyFrom,
         ChainedHunks;
    PatchSeen(lines, sel);
    SelectedSeen(ReadDiff(lines).value, sel);
    SelectedHeaders(ReadDiff(lines).value, oldFile, newFile, sel, k);
  }

  lemma DriftNone(sel: Selection)
    ensures Drift([], sel) == 0
  {
  }
}
