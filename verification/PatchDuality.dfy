/**
 Stage and unstage are dual: swapping `-` and `+` together with old and new commutes
 with building the selected patch, so applying the patch for a selection forward to the
 old file equals applying the patch for the complementary selection in reverse to the
 new file (git_patch_selection.py:28-163; mcp_tgit.py:429-430 and 498-499 are the two uses).
 */
module PatchDuality {
  import opened Wrappers
  import opened PatchSelection
  import opened PatchReader
  import opened PatchStaging
  import opened PatchLaws

  // ------------------------------------------------------------------- swap

  function SwapKind(kind: Kind): Kind {
    match kind
    case Keep => Keep
    case Delete => Insert
    case Insert => Delete
  }

  function SwapEntry(e: Entry): Entry {
    Entry(SwapKind(e.kind), e.text, e.ended, e.newBefore, e.oldBefore)
  }

  function SwapEntries(entries: seq<Entry>): (swapped: seq<Entry>)
    ensures |swapped| == |entries|
  {
    seq(|entries|, i requires 0 <= i < |entries| => SwapEntry(entries[i]))
  }

  function SwapHunk(h: Hunk): Hunk {
    Hunk(h.newStart, h.oldStart, SwapEntries(h.entries))
  }

  function SwapHunks(hunks: seq<Hunk>): seq<Hunk> {
    if hunks == [] then [] else [SwapHunk(hunks[0])] + SwapHunks(hunks[1..])
  }

  function SwapSelection(sel: Selection): Selection {
    Selection(sel.newLines, sel.oldLines)
  }

  /** The diff read backwards, in printed form. */
  function SwapDiff(lines: seq<string>): seq<string> {
    var p := PreambleLength(lines);
    lines[..p] + PrintHunks(SwapHunks(ParseHunks(lines[p..])))
  }

  /** Reverse application: find every hunk's new side at its new start and put the old side there. */
  function ReverseFrom(file: seq<Line>, pos: nat, hunks: seq<Hunk>): Option<seq<Line>>
    requires 1 <= pos <= |file| + 1
    decreases |hunks|
  {
    if hunks == [] then Some(Lines(file, pos, |file| + 1))
    else
      var at := hunks[0].newStart;
      var end := at + |NewSide(hunks[0].entries)|;
      if pos <= at && end <= |file| + 1 && Lines(file, at, end) == NewSide(hunks[0].entries) then
        var rest :- ReverseFrom(file, end, hunks[1..]);
        Some(Lines(file, pos, at) + OldSide(hunks[0].entries) + rest)
      else None
  }

  function ApplyReverse(file: seq<Line>, hunks: seq<Hunk>): Option<seq<Line>> {
    ReverseFrom(file, 1, hunks)
  }

  // -------------------------------------------------- swap and the pipeline

  lemma {:induction false} SwapSides(entries: seq<Entry>)
    ensures OldSide(SwapEntries(entries)) == NewSide(entries)
    ensures NewSide(SwapEntries(entries)) == OldSide(entries)
  {
    if entries != [] {
      assert SwapEntries(entries)[1..] == SwapEntries(entries[1..]);
      SwapSides(entries[1..]);
    }
  }

  lemma SwapConcat(a: seq<Entry>, b: seq<Entry>)
    ensures SwapEntries(a + b) == SwapEntries(a) + SwapEntries(b)
  {
  }

  lemma {:induction false} SwapHunksAt(hunks: seq<Hunk>, i: nat)
    requires i < |hunks|
    ensures |SwapHunks(hunks)| == |hunks| && SwapHunks(hunks)[i] == SwapHunk(hunks[i])
  {
    if 0 < i {
      SwapHunksAt(hunks[1..], i - 1);
    } else if 1 < |hunks| {
      SwapHunksAt(hunks[1..], 0);
    }
  }

  lemma {:induction false} SwapHunksConcat(a: seq<Hunk>, b: seq<Hunk>)
    ensures SwapHunks(a + b) == SwapHunks(a) + SwapHunks(b)
  {
    if a == [] {
      assert a + b == b;
    } else {
      assert (a + b)[1..] == a[1..] + b;
      SwapHunksConcat(a[1..], b);
    }
  }

  lemma {:induction false} SwapStarts(segment: seq<Entry>, default: nat)
    ensures OldStartOf(SwapEntries(segment), default) == NewStartOf(segment, default)
    ensures NewStartOf(SwapEntries(segment), default) == OldStartOf(segment, default)
  {
    if segment != [] {
      assert SwapEntries(segment)[1..] == SwapEntries(segment[1..]);
      SwapStarts(segment[1..], default);
    }
  }

  lemma SwapFlags(entries: seq<Entry>, sel: Selection)
    ensures Flags(SwapEntries(entries), SwapSelection(sel)) == Flags(entries, sel)
  {
    var swapped, sel' := SwapEntries(entries), SwapSelection(sel);
    assert forall i :: 0 <= i < |entries| ==> swapped[i] == SwapEntry(entries[i]);
    assert forall e: Entry :: sel'.Picks(SwapEntry(e)) == sel.Picks(e);
    forall i | 0 <= i < |entries| ensures Included(swapped, sel', i) == Included(entries, sel, i) {
      assert i + 1 < |entries| ==> swapped[i + 1] == SwapEntry(entries[i + 1]);
      assert 0 < i ==> swapped[i - 1] == SwapEntry(entries[i - 1]);
    }
  }

  lemma {:induction false} SwapRuns(entries: seq<Entry>, inc: seq<bool>, i: nat)
    requires i <= |entries| == |inc|
    ensures HunksOf(RunsFrom(SwapEntries(entries), inc, i)) == SwapHunks(HunksOf(RunsFrom(entries, inc, i)))
    decreases |entries| - i
  {
    if i == |entries| {
    } else if !inc[i] {
      SwapRuns(entries, inc, i + 1);
    } else {
      var e := RunEnd(inc, i);
      SwapRuns(entries, inc, e);
      SwapSegment(entries[i..e]);
      assert SwapEntries(entries)[i..e] == SwapEntries(entries[i..e]);
      RunsCons(entries, inc, i);
      RunsCons(SwapEntries(entries), inc, i);
    }
  }

  lemma RunsCons(entries: seq<Entry>, inc: seq<bool>, i: nat)
    requires i < |entries| == |inc| && inc[i]
    ensures var e := RunEnd(inc, i);
            HunksOf(RunsFrom(entries, inc, i)) == [SegmentHunk(entries[i..e])] + HunksOf(RunsFrom(entries, inc, e))
  {
    var e := RunEnd(inc, i);
    var runs := RunsFrom(entries, inc, e);
    assert ([entries[i..e]] + runs)[1..] == runs;
  }

  lemma SwapSegment(segment: seq<Entry>)
    requires segment != []
    ensures SegmentHunk(SwapEntries(segment)) == SwapHunk(SegmentHunk(segment))
  {
    SwapStarts(segment, segment[0].oldBefore);
    SwapStarts(segment, segment[0].newBefore);
  }

  /** Selecting the swapped lines of swapped hunks is swapping the selected hunks. */
  lemma {:induction false} SwapCommutes(hunks: seq<Hunk>, sel: Selection)
    ensures SelectHunks(SwapHunks(hunks), SwapSelection(sel)) == SwapHunks(SelectHunks(hunks, sel))
  {
    if hunks != [] {
      var h := hunks[0];
      SwapCommutes(hunks[1..], sel);
      assert SwapHunks(hunks)[0] == SwapHunk(h) && SwapHunks(hunks)[1..] == SwapHunks(hunks[1..]);
      SwapFlags(h.entries, sel);
      SwapRuns(h.entries, Flags(h.entries, sel), 0);
      SwapHunksConcat(HunksOf(Segments(h.entries, sel)), SelectHunks(hunks[1..], sel));
    }
  }

  lemma {:induction false} SwapChained(entries: seq<Entry>, o: nat, n: nat)
    requires Chained(entries, o, n)
    ensures Chained(SwapEntries(entries), n, o)
  {
    if entries != [] {
      assert SwapEntries(entries)[1..] == SwapEntries(entries[1..]);
      SwapChained(entries[1..], entries[0].OldAfter(), entries[0].NewAfter());
    }
  }

  lemma SwapHunksChained(hunks: seq<Hunk>)
    requires ChainedHunks(hunks)
    ensures |SwapHunks(hunks)| == |hunks| && ChainedHunks(SwapHunks(hunks))
  {
    if hunks != [] {
      SwapHunksAt(hunks, 0);
    }
    forall i | 0 <= i < |hunks|
      ensures SwapHunks(hunks)[i] == SwapHunk(hunks[i])
      ensures Chained(SwapEntries(hunks[i].entries), hunks[i].newStart, hunks[i].oldStart)
    {
      SwapHunksAt(hunks, i);
      SwapChained(hunks[i].entries, hunks[i].oldStart, hunks[i].newStart);
    }
  }

  lemma SwapHunksEnded(hunks: seq<Hunk>)
    requires EndedHunks(hunks)
    ensures EndedHunks(SwapHunks(hunks))
  {
    if hunks != [] {
      SwapHunksAt(hunks, 0);
    }
    forall i | 0 <= i < |hunks| ensures AllEnded(SwapHunks(hunks)[i].entries) {
      SwapHunksAt(hunks, i);
    }
  }

  /** The same for whole diffs, as lines: swapping commutes with `build_selected_patch`. */
  lemma SwapCommutesOnLines(lines: seq<string>, sel: Selection)
    ensures SelectedPatch(SwapDiff(lines), SwapSelection(sel)) == SwapDiff(SelectedPatch(lines, sel))
  {
    hide ParseHunks, SelectHunks, SwapHunks, PrintHunks;
    var p := PreambleLength(lines);
    var parsed := ParseHunks(lines[p..]);
    ParseHunksChained(lines[p..]);
    ParseHunksEnded(lines[p..]);
    SwapHunksChained(parsed);
    SwapHunksEnded(parsed);
    SwapCommutes(parsed, sel);
    PrintedDiffParses(lines[..p], SwapHunks(parsed));
    var chosen := SelectHunks(parsed, sel);
    SelectHunksChained(parsed, sel);
    SelectHunksEnded(parsed, sel);
    SwapHunksChained(chosen);
    SwapHunksEnded(chosen);
    PrintedDiffParses(lines[..p], chosen);
    EmptyPrints();
  }

  lemma EmptyPrints()
    ensures PrintHunks([]) == [] && SwapHunks([]) == [] && ParseHunks([]) == []
  {
  }

  lemma PrintedDiffParses(preamble: seq<string>, hunks: seq<Hunk>)
    requires forall i :: 0 <= i < |preamble| ==> !IsHunkLine(preamble[i])
    requires ChainedHunks(hunks) && EndedHunks(hunks)
    ensures var lines := preamble + PrintHunks(hunks);
            var p := PreambleLength(lines);
            p == |preamble| && lines[..p] == preamble && ParseHunks(lines[p..]) == hunks
  {
    var lines := preamble + PrintHunks(hunks);
    if hunks != [] {
      PrintedStartsHunk(hunks);
    }
    PreambleOf(preamble, PrintHunks(hunks));
    PrintedParsesBack(hunks);
    assert lines[..|preamble|] == preamble && lines[|preamble|..] == PrintHunks(hunks);
  }

  // ------------------------------------------------------ swap and meaning

  lemma {:induction false} ReverseIsForward(file: seq<Line>, pos: nat, hunks: seq<Hunk>)
    requires 1 <= pos <= |file| + 1
    ensures ReverseFrom(file, pos, hunks) == ApplyFrom(file, pos, SwapHunks(hunks))
    decreases |hunks|
  {
    hide Lines, OldSide, NewSide, SwapEntries, SwapHunks;
    if hunks == [] {
      EmptyPrints();
    } else {
      var h := hunks[0];
      SwapSides(h.entries);
      SwapStep(hunks);
      var end := h.newStart + |NewSide(h.entries)|;
      if 1 <= end <= |file| + 1 {
        ReverseIsForward(file, end, hunks[1..]);
      }
    }
  }

  lemma {:induction false} SwapDescribes(hunks: seq<Hunk>, oldFile: seq<Line>, newFile: seq<Line>, o: nat, n: nat)
    requires Describes(hunks, oldFile, newFile, o, n)
    ensures Describes(SwapHunks(hunks), newFile, oldFile, n, o)
    decreases |hunks|
  {
    if hunks != [] {
      SwapDescribesMore(hunks, oldFile, newFile, o, n);
    }
  }

  lemma {:induction false} SwapDescribesMore(hunks: seq<Hunk>, oldFile: seq<Line>, newFile: seq<Line>, o: nat, n: nat)
    requires hunks != [] && Describes(hunks, oldFile, newFile, o, n)
    ensures Describes(SwapHunks(hunks), newFile, oldFile, n, o)
    decreases |hunks|, 0
  {
    hide *;
    var h := hunks[0];
    SwapSides(h.entries);
    SwapStep(hunks);
    DescribesStep(hunks, oldFile, newFile, o, n);
    SwapDescribes(hunks[1..], oldFile, newFile, h.oldStart + |OldSide(h.entries)|, h.newStart + |NewSide(h.entries)|);
    DescribesCons(SwapHunks(hunks), newFile, oldFile, n, o);
  }

  lemma {:induction false} SwapGap(context: seq<Line>, o: nat, n: nat)
    ensures SwapEntries(Gap(context, o, n)) == Gap(context, n, o)
  {
    if context != [] {
      SwapGap(context[1..], o + 1, n + 1);
      SwapConcat([Entry(Keep, context[0].text, context[0].ended, o, n)], Gap(context[1..], o + 1, n + 1));
    }
  }

  lemma SwapStep(hunks: seq<Hunk>)
    requires hunks != []
    ensures SwapHunks(hunks) != [] && SwapHunks(hunks)[1..] == SwapHunks(hunks[1..])
    ensures SwapHunks(hunks)[0]
            == Hunk(hunks[0].newStart, hunks[0].oldStart, SwapEntries(hunks[0].entries))
  {
  }

  /** The script of the swapped diff is the swapped script. */
  lemma {:induction false} SwapScript(hunks: seq<Hunk>, oldFile: seq<Line>, newFile: seq<Line>, o: nat, n: nat)
    requires Describes(hunks, oldFile, newFile, o, n)
    ensures Script(newFile, SwapHunks(hunks), n, o) == SwapEntries(Script(oldFile, hunks, o, n))
    decreases |hunks|
  {
    hide *;
    if hunks == [] {
      EmptyPrints();
      DescribesEnd(oldFile, newFile, o, n);
      ScriptEnd(oldFile, o, n);
      ScriptEnd(newFile, n, o);
      SwapGap(Lines(oldFile, o, |oldFile| + 1), o, n);
    } else {
      var h := hunks[0];
      var o', n' := h.oldStart + |OldSide(h.entries)|, h.newStart + |NewSide(h.entries)|;
      DescribesStep(hunks, oldFile, newFile, o, n);
      SwapScript(hunks[1..], oldFile, newFile, o', n');
      var rest := Script(oldFile, hunks[1..], o', n');
      ScriptStep(oldFile, hunks, o, n);
      SwapStep(hunks);
      SwapSides(h.entries);
      ScriptStep(newFile, SwapHunks(hunks), n, o);
      SwapGap(Lines(oldFile, o, h.oldStart), o, n);
      SwapConcat(Gap(Lines(oldFile, o, h.oldStart), o, n), h.entries + rest);
      SwapConcat(h.entries, rest);
    }
  }

  /** The changed lines of the script that `sel` leaves out. */
  function Complement(sel: Selection, script: seq<Entry>): Selection {
    Selection((set e | e in script && e.kind.Delete? :: e.oldBefore) - sel.oldLines,
              (set e | e in script && e.kind.Insert? :: e.newBefore) - sel.newLines)
  }

  lemma {:induction false} SwapStaged(script: seq<Entry>, sel: Selection, other: Selection)
    requires forall e :: e in script && !e.kind.Keep? ==> (sel.Picks(e) <==> !other.Picks(e))
    ensures Staged(SwapEntries(script), SwapSelection(other)) == Staged(script, sel)
  {
    if script != [] {
      assert SwapEntries(script)[1..] == SwapEntries(script[1..]);
      SwapStaged(script[1..], sel, other);
    }
  }

  // ------------------------------------------------------ swap and markers

  lemma {:induction false} SwapSeen(entries: seq<Entry>)
    ensures Seen(SwapEntries(entries)) == SwapEntries(Seen(entries))
  {
    if entries != [] {
      assert SwapEntries(entries)[1..] == SwapEntries(entries[1..]);
      SwapSeen(entries[1..]);
    }
  }

  lemma {:induction false} SwapSeenHunks(hunks: seq<Hunk>)
    ensures SeenHunks(SwapHunks(hunks)) == SwapHunks(SeenHunks(hunks))
  {
    hide Seen, SwapEntries;
    if hunks != [] {
      SwapSeen(hunks[0].entries);
      SwapSeenHunks(hunks[1..]);
      SwapStep(hunks);
      SwapStep(SeenHunks(hunks));
      assert SeenHunks(hunks)[1..] == SeenHunks(hunks[1..]);
    }
  }

  lemma SwapUnharmed(hunks: seq<Hunk>, sel: Selection)
    ensures UnharmedHunks(SwapHunks(hunks), SwapSelection(sel)) <==> UnharmedHunks(hunks, sel)
  {
    if hunks != [] {
      SwapHunksAt(hunks, 0);
    }
    forall a | 0 <= a < |hunks|
      ensures Unharmed(SwapHunks(hunks)[a].entries, SwapSelection(sel)) <==> Unharmed(hunks[a].entries, sel)
    {
      SwapHunksAt(hunks, a);
      SwapUnharmedEntries(hunks[a].entries, sel);
    }
  }

  lemma SwapUnharmedEntries(entries: seq<Entry>, sel: Selection)
    ensures Unharmed(SwapEntries(entries), SwapSelection(sel)) <==> Unharmed(entries, sel)
  {
    forall i, j | 0 <= i < |entries| && 0 <= j < |entries|
      ensures Harms(SwapEntries(entries), SwapSelection(sel), i, j) <==> Harms(entries, sel, i, j)
    {
    }
  }

  // ----------------------------------------------------------- main results

  /** The patch made from what the source sees of `read`, in reverse, undoes exactly the selected changes. */
  predicate HunksUnstage(read: seq<Hunk>, oldFile: seq<Line>, newFile: seq<Line>, sel: Selection) {
    ApplyReverse(newFile, SelectHunks(SeenHunks(read), sel))
    == Some(Staged(SwapEntries(Script(oldFile, read, 1, 1)), SwapSelection(sel)))
  }

  lemma SwapDiffers(read: seq<Hunk>, oldFile: seq<Line>, newFile: seq<Line>)
    requires Diff(read, oldFile, newFile)
    ensures Diff(SwapHunks(read), newFile, oldFile)
  {
    hide Describes, SwapHunks, IsFile;
    SwapHunksChained(read);
    SwapDescribes(read, oldFile, newFile, 1, 1);
  }

  /** Unstaging is exact under the same condition as staging. */
  lemma ReverseTheorem(read: seq<Hunk>, oldFile: seq<Line>, newFile: seq<Line>, sel: Selection)
    requires Diff(read, oldFile, newFile)
    ensures HunksUnstage(read, oldFile, newFile, sel) <==> UnharmedHunks(read, sel)
  {
    hide Describes, SelectHunks, SwapHunks, ApplyFrom, ReverseFrom, Staged, Script, UnharmedHunks, IsFile, SwapEntries;
    SwapDiffers(read, oldFile, newFile);
    HunksTheorem(SwapHunks(read), newFile, oldFile, SwapSelection(sel));
    SwapUnharmed(read, sel);
    SwapSeenHunks(read);
    SwapCommutes(SeenHunks(read), sel);
    ReverseIsForward(newFile, 1, SelectHunks(SeenHunks(read), sel));
    SwapScript(read, oldFile, newFile, 1, 1);
  }

  /** Staging a selection equals unstaging everything else. */
  lemma DualityOfHunks(read: seq<Hunk>, oldFile: seq<Line>, newFile: seq<Line>, sel: Selection)
    requires Diff(read, oldFile, newFile) && UnharmedHunks(read, sel)
    requires UnharmedHunks(read, Complement(sel, Script(oldFile, read, 1, 1)))
    ensures var other := Complement(sel, Script(oldFile, read, 1, 1));
            && ApplyForward(oldFile, SelectHunks(SeenHunks(read), sel)).Some?
            && ApplyForward(oldFile, SelectHunks(SeenHunks(read), sel))
               == ApplyReverse(newFile, SelectHunks(SeenHunks(read), other))
  {
    hide Diff, SelectHunks, ApplyFrom, ReverseFrom, Staged, Script, UnharmedHunks, SwapEntries;
    var script := Script(oldFile, read, 1, 1);
    var other := Complement(sel, script);
    HunksTheorem(read, oldFile, newFile, sel);
    ReverseTheorem(read, oldFile, newFile, other);
    SwapStaged(script, sel, other);
  }

  /**
   For every selection such that neither it nor its complement meets a marker, the patch for it
   forward gives what the patch for the complement gives in reverse; by `CleanTheorem` these
   are all selections if each marker follows a context line that is not next to a changed line.
   */
  lemma DualityTheorem(lines: seq<string>, oldFile: seq<Line>, newFile: seq<Line>, sel: Selection)
    requires WellFormed(lines, oldFile, newFile) && UnharmedHunks(ReadDiff(lines).value, sel)
    requires UnharmedHunks(ReadDiff(lines).value, Complement(sel, FileScript(lines, oldFile)))
    ensures var other := Complement(sel, FileScript(lines, oldFile));
            var staged, unstaged := ReadDiff(SelectedPatch(lines, sel)), ReadDiff(SelectedPatch(lines, other));
            && staged.Some? && unstaged.Some?
            && ApplyForward(oldFile, staged.value).Some?
            && ApplyForward(oldFile, staged.value) == ApplyReverse(newFile, unstaged.value)
  {
    hide Describes, SelectHunks, ApplyFrom, ReverseFrom, Script, UnharmedHunks, SelectedPatch, ReadDiff, IsFile,
         ChainedHunks;
    PatchSeen(lines, sel);
    PatchSeen(lines, Complement(sel, FileScript(lines, oldFile)));
    DualityOfHunks(ReadDiff(lines).value, oldFile, newFile, sel);
  }

  /** For a clean diff, every selection. */
  lemma CleanDuality(lines: seq<string>, oldFile: seq<Line>, newFile: seq<Line>, sel: Selection)
    requires WellFormed(lines, oldFile, newFile) && CleanDiff(lines)
    ensures var other := Complement(sel, FileScript(lines, oldFile));
            var staged, unstaged := ReadDiff(SelectedPatch(lines, sel)), ReadDiff(SelectedPatch(lines, other));
            && staged.Some? && unstaged.Some? && ApplyForward(oldFile, staged.value).Some?
            && ApplyForward(oldFile, staged.value) == ApplyReverse(newFile, unstaged.value)
  {
    hide Describes, UnharmedHunks, SelectedPatch, ReadDiff, ChainedHunks, Script, ApplyFrom, ReverseFrom;
    PatchSeen(lines, sel);
    CleanUnharmed(ReadDiff(lines).value, oldFile, newFile);
    DualityTheorem(lines, oldFile, newFile, sel);
  }
}
