/**
 Diffs numbered as the section "Diff -u or -U Output Format" of POSIX `diff` has it, where the
 start of an empty range names the line before it, and patches read that way. Both callers
 produce and consume such diffs (mcp_tgit.py:409-430, 478-500). The source reads and prints
 its starts without looking at the counts (git_patch_selection.py:53-54, 145-154).
 */
module PatchPosix {
  import opened PatchSelection
  import opened PatchReader
  import opened PatchLaws
  import opened PatchDuality

  // --------------------------------------------------------------- renumbering

  function ShiftEntry(e: Entry, d: nat, m: nat): Entry {
    e.(oldBefore := e.oldBefore + d, newBefore := e.newBefore + m)
  }

  function ShiftEntries(entries: seq<Entry>, d: nat, m: nat): (shifted: seq<Entry>)
    ensures |shifted| == |entries|
  {
    seq(|entries|, i requires 0 <= i < |entries| => ShiftEntry(entries[i], d, m))
  }

  function ShiftHunk(h: Hunk, d: nat, m: nat): Hunk {
    Hunk(h.oldStart + d, h.newStart + m, ShiftEntries(h.entries, d, m))
  }

  function ShiftHunks(hunks: seq<Hunk>, d: nat, m: nat): (shifted: seq<Hunk>)
    ensures |shifted| == |hunks|
  {
    seq(|hunks|, i requires 0 <= i < |hunks| => ShiftHunk(hunks[i], d, m))
  }

  /** How far the first line of a range is from the line that its start names. */
  function Step(side: seq<Line>): nat {
    if side == [] then 1 else 0
  }

  /** The hunk that a header and its body mean. */
  function Posix(h: Hunk): Hunk {
    ShiftHunk(h, Step(OldSide(h.entries)), Step(NewSide(h.entries)))
  }

  function PosixAll(hunks: seq<Hunk>): (meant: seq<Hunk>)
    ensures |meant| == |hunks| && forall i :: 0 <= i < |hunks| ==> meant[i] == Posix(hunks[i])
  {
    if hunks == [] then [] else [Posix(hunks[0])] + PosixAll(hunks[1..])
  }

  /** Whether both shifts are of sides on which the hunk has no line. */
  predicate Idle(entries: seq<Entry>, d: nat, m: nat) {
    (0 < d ==> OldSide(entries) == []) && (0 < m ==> NewSide(entries) == [])
  }

  lemma {:induction false} ShiftSides(entries: seq<Entry>, d: nat, m: nat)
    ensures OldSide(ShiftEntries(entries, d, m)) == OldSide(entries)
    ensures NewSide(ShiftEntries(entries, d, m)) == NewSide(entries)
  {
    if entries != [] {
      assert ShiftEntries(entries, d, m)[1..] == ShiftEntries(entries[1..], d, m);
      ShiftSides(entries[1..], d, m);
    }
  }

  lemma {:induction false} ShiftChained(entries: seq<Entry>, o: nat, n: nat, d: nat, m: nat)
    requires Chained(entries, o, n)
    ensures Chained(ShiftEntries(entries, d, m), o + d, n + m)
  {
    if entries != [] {
      assert ShiftEntries(entries, d, m)[1..] == ShiftEntries(entries[1..], d, m);
      ShiftChained(entries[1..], entries[0].OldAfter(), entries[0].NewAfter(), d, m);
    }
  }

  lemma {:induction false} ShiftSeen(entries: seq<Entry>, d: nat, m: nat)
    ensures Seen(ShiftEntries(entries, d, m)) == ShiftEntries(Seen(entries), d, m)
  {
    if entries != [] {
      assert ShiftEntries(entries, d, m)[1..] == ShiftEntries(entries[1..], d, m);
      ShiftSeen(entries[1..], d, m);
    }
  }

  /** An entry on a side makes the side non-empty. */
  lemma {:induction false} SideHas(entries: seq<Entry>, i: nat)
    requires i < |entries|
    ensures entries[i].OnOld() ==> OldSide(entries) != []
    ensures entries[i].OnNew() ==> NewSide(entries) != []
  {
    if 0 < i {
      SideHas(entries[1..], i - 1);
    }
  }

  /** Renumbering an empty side does not change what is picked. */
  lemma ShiftPicks(entries: seq<Entry>, d: nat, m: nat, sel: Selection, i: nat)
    requires Idle(entries, d, m) && i < |entries|
    ensures sel.Picks(ShiftEntries(entries, d, m)[i]) == sel.Picks(entries[i])
  {
    SideHas(entries, i);
  }

  lemma ShiftFlags(entries: seq<Entry>, d: nat, m: nat, sel: Selection)
    requires Idle(entries, d, m)
    ensures Flags(ShiftEntries(entries, d, m), sel) == Flags(entries, sel)
  {
    hide Idle;
    var shifted := ShiftEntries(entries, d, m);
    forall i | 0 <= i < |entries| ensures sel.Picks(shifted[i]) == sel.Picks(entries[i]) {
      ShiftPicks(entries, d, m, sel, i);
    }
    assert forall i :: 0 <= i < |entries| ==> shifted[i].kind == entries[i].kind;
    forall i | 0 <= i < |entries| ensures Included(shifted, sel, i) == Included(entries, sel, i) {
    }
  }

  lemma {:induction false} ShiftStarts(segment: seq<Entry>, d: nat, m: nat, default: nat)
    ensures OldStartOf(ShiftEntries(segment, d, m), default + d) == OldStartOf(segment, default) + d
    ensures NewStartOf(ShiftEntries(segment, d, m), default + m) == NewStartOf(segment, default) + m
  {
    if segment != [] {
      assert ShiftEntries(segment, d, m)[1..] == ShiftEntries(segment[1..], d, m);
      ShiftStarts(segment[1..], d, m, default);
    }
  }

  lemma ShiftSegment(segment: seq<Entry>, d: nat, m: nat)
    requires segment != []
    ensures SegmentHunk(ShiftEntries(segment, d, m)) == ShiftHunk(SegmentHunk(segment), d, m)
  {
    ShiftStarts(segment, d, m, segment[0].oldBefore);
    ShiftStarts(segment, d, m, segment[0].newBefore);
  }

  lemma {:induction false} ShiftRuns(entries: seq<Entry>, inc: seq<bool>, i: nat, d: nat, m: nat)
    requires i <= |entries| == |inc|
    ensures HunksOf(RunsFrom(ShiftEntries(entries, d, m), inc, i))
            == ShiftHunks(HunksOf(RunsFrom(entries, inc, i)), d, m)
    decreases |entries| - i
  {
    hide SegmentHunk, ShiftHunk, ShiftEntries, ShiftHunks, RunsFrom, HunksOf;
    if i == |entries| {
      NoShift(entries, inc, d, m);
    } else if !inc[i] {
      ShiftRuns(entries, inc, i + 1, d, m);
      RunsSkip(entries, inc, i, i + 1);
      RunsSkip(ShiftEntries(entries, d, m), inc, i, i + 1);
    } else {
      var e := RunEnd(inc, i);
      ShiftRuns(entries, inc, e, d, m);
      ShiftSegment(entries[i..e], d, m);
      ShiftSlice(entries, i, e, d, m);
      RunsCons(entries, inc, i);
      RunsCons(ShiftEntries(entries, d, m), inc, i);
      ShiftHunksCons(SegmentHunk(entries[i..e]), HunksOf(RunsFrom(entries, inc, e)), d, m);
    }
  }

  lemma NoShift(entries: seq<Entry>, inc: seq<bool>, d: nat, m: nat)
    requires |entries| == |inc|
    ensures HunksOf(RunsFrom(entries, inc, |entries|)) == []
    ensures HunksOf(RunsFrom(ShiftEntries(entries, d, m), inc, |entries|)) == [] == ShiftHunks([], d, m)
  {
  }

  lemma ShiftSlice(entries: seq<Entry>, i: nat, e: nat, d: nat, m: nat)
    requires i <= e <= |entries|
    ensures ShiftEntries(entries, d, m)[i..e] == ShiftEntries(entries[i..e], d, m)
  {
  }

  lemma ShiftHunksCons(h: Hunk, more: seq<Hunk>, d: nat, m: nat)
    ensures ShiftHunks([h] + more, d, m) == [ShiftHunk(h, d, m)] + ShiftHunks(more, d, m)
  {
    hide ShiftHunk;
  }

  // -------------------------------------------------- what a patch names

  /** The hunks printed for one hunk of the diff. */
  function Emitted(h: Hunk, sel: Selection): seq<Hunk> {
    HunksOf(Segments(Seen(h.entries), sel))
  }

  /** No printed hunk is without an old line, unless its hunk of the diff is. */
  predicate NamesOld(hunks: seq<Hunk>, sel: Selection) {
    forall a, s :: 0 <= a < |hunks| && s in Emitted(hunks[a], sel) && OldSide(s.entries) == [] ==>
      OldSide(hunks[a].entries) == []
  }

  predicate NamesNew(hunks: seq<Hunk>, sel: Selection) {
    forall a, s :: 0 <= a < |hunks| && s in Emitted(hunks[a], sel) && NewSide(s.entries) == [] ==>
      NewSide(hunks[a].entries) == []
  }

  /** What the printed patch says, read as POSIX has it, and what the selection means. */
  function Named(hunks: seq<Hunk>, sel: Selection): seq<Hunk> {
    PosixAll(SelectHunks(SeenHunks(hunks), sel))
  }

  function Meant(hunks: seq<Hunk>, sel: Selection): seq<Hunk> {
    SelectHunks(SeenHunks(PosixAll(hunks)), sel)
  }

  /** One hunk's part of both. */
  lemma MeantStep(hunks: seq<Hunk>, sel: Selection)
    requires hunks != []
    ensures var h := hunks[0];
            && Meant(hunks, sel)
               == ShiftHunks(Emitted(h, sel), Step(OldSide(h.entries)), Step(NewSide(h.entries)))
                  + Meant(hunks[1..], sel)
            && Named(hunks, sel) == PosixAll(Emitted(h, sel)) + Named(hunks[1..], sel)
  {
    hide OldSide, NewSide, Segments, Seen, HunksOf;
    var h := hunks[0];
    var d, m := Step(OldSide(h.entries)), Step(NewSide(h.entries));
    ShiftSeen(h.entries, d, m);
    SeenIdle(h.entries, d, m);
    ShiftFlags(Seen(h.entries), d, m, sel);
    ShiftRuns(Seen(h.entries), Flags(Seen(h.entries), sel), 0, d, m);
    SegmentsAre(Seen(h.entries), sel);
    SegmentsAre(ShiftEntries(Seen(h.entries), d, m), sel);
    assert SeenHunks(PosixAll(hunks))[1..] == SeenHunks(PosixAll(hunks[1..]));
    assert SeenHunks(hunks)[1..] == SeenHunks(hunks[1..]);
    PosixConcat(Emitted(h, sel), SelectHunks(SeenHunks(hunks[1..]), sel));
  }

  lemma SegmentsAre(entries: seq<Entry>, sel: Selection)
    ensures Segments(entries, sel) == RunsFrom(entries, Flags(entries, sel), 0)
  {
  }

  lemma SeenIdle(entries: seq<Entry>, d: nat, m: nat)
    requires Idle(entries, d, m)
    ensures Idle(Seen(entries), d, m)
  {
    SeenSides(entries);
  }

  lemma {:induction false} SeenSides(entries: seq<Entry>)
    ensures OldSide(entries) == [] ==> OldSide(Seen(entries)) == []
    ensures NewSide(entries) == [] ==> NewSide(Seen(entries)) == []
  {
    if entries != [] {
      SeenSides(entries[1..]);
    }
  }

  lemma PosixConcat(a: seq<Hunk>, b: seq<Hunk>)
    ensures PosixAll(a + b) == PosixAll(a) + PosixAll(b)
  {
  }

  /** What is printed for a hunk has no line on a side on which the hunk has none. */
  lemma {:induction false} RunsIdle(entries: seq<Entry>, inc: seq<bool>, i: nat, s: Hunk)
    requires i <= |entries| == |inc| && s in HunksOf(RunsFrom(entries, inc, i))
    ensures OldSide(entries) == [] ==> OldSide(s.entries) == []
    ensures NewSide(entries) == [] ==> NewSide(s.entries) == []
    decreases |entries| - i
  {
    hide OldSide, NewSide, SegmentHunk;
    if !inc[i] {
      RunsIdle(entries, inc, i + 1, s);
    } else {
      var e := RunEnd(inc, i);
      RunsCons(entries, inc, i);
      if s == SegmentHunk(entries[i..e]) {
        SliceIdle(entries, i, e);
        SegmentEntries(entries[i..e]);
      } else {
        RunsIdle(entries, inc, e, s);
      }
    }
  }

  lemma SegmentEntries(segment: seq<Entry>)
    requires segment != []
    ensures SegmentHunk(segment).entries == segment
  {
  }

  lemma SliceIdle(entries: seq<Entry>, i: nat, e: nat)
    requires i <= e <= |entries|
    ensures OldSide(entries) == [] ==> OldSide(entries[i..e]) == []
    ensures NewSide(entries) == [] ==> NewSide(entries[i..e]) == []
  {
    hide OldSide, NewSide;
    assert entries == entries[..i] + (entries[i..e] + entries[e..]);
    OldSideConcat(entries[..i], entries[i..e] + entries[e..]);
    OldSideConcat(entries[i..e], entries[e..]);
    NewSideConcat(entries[..i], entries[i..e] + entries[e..]);
    NewSideConcat(entries[i..e], entries[e..]);
  }

  lemma EmittedIdle(h: Hunk, sel: Selection, s: Hunk)
    requires s in Emitted(h, sel)
    ensures OldSide(h.entries) == [] ==> OldSide(s.entries) == []
    ensures NewSide(h.entries) == [] ==> NewSide(s.entries) == []
  {
    hide OldSide, NewSide, Seen;
    SeenSides(h.entries);
    RunsIdle(Seen(h.entries), Flags(Seen(h.entries), sel), 0, s);
  }

  /** Of one printed hunk: each start is right, or one line too late, and the sides are right. */
  lemma NamedHunk(h: Hunk, sel: Selection, s: Hunk)
    requires s in Emitted(h, sel)
    ensures var meant := ShiftHunk(s, Step(OldSide(h.entries)), Step(NewSide(h.entries)));
            && Posix(s).oldStart
               == meant.oldStart + (if OldSide(s.entries) == [] && OldSide(h.entries) != [] then 1 else 0)
            && Posix(s).newStart
               == meant.newStart + (if NewSide(s.entries) == [] && NewSide(h.entries) != [] then 1 else 0)
            && OldSide(Posix(s).entries) == OldSide(meant.entries) == OldSide(s.entries)
            && NewSide(Posix(s).entries) == NewSide(meant.entries) == NewSide(s.entries)
  {
    hide Emitted, OldSide, NewSide, ShiftEntries;
    EmittedIdle(h, sel, s);
    ShiftSides(s.entries, Step(OldSide(h.entries)), Step(NewSide(h.entries)));
    ShiftSides(s.entries, Step(OldSide(s.entries)), Step(NewSide(s.entries)));
  }

  /** Two patches with the same sides and the same old starts. */
  predicate SameForward(a: seq<Hunk>, b: seq<Hunk>) {
    && |a| == |b|
    && forall k :: 0 <= k < |a| ==>
         a[k].oldStart == b[k].oldStart && OldSide(a[k].entries) == OldSide(b[k].entries)
         && NewSide(a[k].entries) == NewSide(b[k].entries)
  }

  predicate SameReverse(a: seq<Hunk>, b: seq<Hunk>) {
    && |a| == |b|
    && forall k :: 0 <= k < |a| ==>
         a[k].newStart == b[k].newStart && OldSide(a[k].entries) == OldSide(b[k].entries)
         && NewSide(a[k].entries) == NewSide(b[k].entries)
  }

  predicate NamesOldIn(h: Hunk, sel: Selection) {
    forall s :: s in Emitted(h, sel) && OldSide(s.entries) == [] ==> OldSide(h.entries) == []
  }

  predicate NamesNewIn(h: Hunk, sel: Selection) {
    forall s :: s in Emitted(h, sel) && NewSide(s.entries) == [] ==> NewSide(h.entries) == []
  }

  lemma NamedPart(h: Hunk, sel: Selection)
    ensures var d, m := Step(OldSide(h.entries)), Step(NewSide(h.entries));
            var named, meant := PosixAll(Emitted(h, sel)), ShiftHunks(Emitted(h, sel), d, m);
            && (SameForward(named, meant) <==> NamesOldIn(h, sel))
            && (SameReverse(named, meant) <==> NamesNewIn(h, sel))
            && (named == meant <==> NamesOldIn(h, sel) && NamesNewIn(h, sel))
  {
    hide Emitted, OldSide, NewSide, ShiftHunk, Step;
    var emitted := Emitted(h, sel);
    var d, m := Step(OldSide(h.entries)), Step(NewSide(h.entries));
    var named, meant := PosixAll(emitted), ShiftHunks(emitted, d, m);
    forall t | 0 <= t < |emitted|
      ensures named[t] == Posix(emitted[t]) && meant[t] == ShiftHunk(emitted[t], d, m)
      ensures OldSide(named[t].entries) == OldSide(meant[t].entries)
              && NewSide(named[t].entries) == NewSide(meant[t].entries)
      ensures named[t].oldStart == meant[t].oldStart <==>
                (OldSide(emitted[t].entries) == [] ==> OldSide(h.entries) == [])
      ensures named[t].newStart == meant[t].newStart <==>
                (NewSide(emitted[t].entries) == [] ==> NewSide(h.entries) == [])
      ensures named[t] == meant[t] <==> named[t].oldStart == meant[t].oldStart && named[t].newStart == meant[t].newStart
    {
      NamedHunk(h, sel, emitted[t]);
      SameShift(emitted[t], Step(OldSide(emitted[t].entries)), Step(NewSide(emitted[t].entries)), d, m);
    }
  }

  lemma SameShift(s: Hunk, d: nat, m: nat, d': nat, m': nat)
    ensures ShiftHunk(s, d, m) == ShiftHunk(s, d', m') <==>
            ShiftHunk(s, d, m).oldStart == ShiftHunk(s, d', m').oldStart
            && ShiftHunk(s, d, m).newStart == ShiftHunk(s, d', m').newStart
  {
  }

  lemma SameJoin(a: seq<Hunk>, b: seq<Hunk>, a': seq<Hunk>, b': seq<Hunk>)
    requires |a| == |a'|
    ensures SameForward(a + b, a' + b') <==> SameForward(a, a') && SameForward(b, b')
    ensures SameReverse(a + b, a' + b') <==> SameReverse(a, a') && SameReverse(b, b')
    ensures a + b == a' + b' <==> a == a' && b == b'
  {
    hide OldSide, NewSide;
    assert forall k :: 0 <= k < |a| ==> (a + b)[k] == a[k] && (a' + b')[k] == a'[k];
    assert forall k :: 0 <= k < |b| ==> (a + b)[|a| + k] == b[k];
    assert forall k :: 0 <= k < |b'| ==> (a' + b')[|a| + k] == b'[k];
  }

  lemma NamesSplit(hunks: seq<Hunk>, sel: Selection)
    requires hunks != []
    ensures NamesOld(hunks, sel) <==> NamesOldIn(hunks[0], sel) && NamesOld(hunks[1..], sel)
    ensures NamesNew(hunks, sel) <==> NamesNewIn(hunks[0], sel) && NamesNew(hunks[1..], sel)
  {
    hide Emitted, OldSide, NewSide;
    assert forall a :: 1 <= a < |hunks| ==> hunks[a] == hunks[1..][a - 1];
  }

  /**
   Read as POSIX has it, the printed patch is the one that is meant if and only if no printed
   hunk is without a line on a side on which its hunk of the diff has lines.
   */
  lemma {:induction false} NamesTheorem(hunks: seq<Hunk>, sel: Selection)
    ensures SameForward(Named(hunks, sel), Meant(hunks, sel)) <==> NamesOld(hunks, sel)
    ensures SameReverse(Named(hunks, sel), Meant(hunks, sel)) <==> NamesNew(hunks, sel)
    ensures Named(hunks, sel) == Meant(hunks, sel) <==> NamesOld(hunks, sel) && NamesNew(hunks, sel)
  {
    if hunks != [] {
      hide *;
      var h := hunks[0];
      MeantStep(hunks, sel);
      NamedPart(h, sel);
      NamesSplit(hunks, sel);
      NamesTheorem(hunks[1..], sel);
      SameJoin(PosixAll(Emitted(h, sel)), Named(hunks[1..], sel),
               ShiftHunks(Emitted(h, sel), Step(OldSide(h.entries)), Step(NewSide(h.entries))), Meant(hunks[1..], sel));
    }
  }
}
