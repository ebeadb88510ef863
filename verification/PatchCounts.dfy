/**
 What can be counted on a diff: how many lines a selection adds, how many of the lines lack
 their newline, and where in the two files the lines of a diff stand.
 */
module PatchCounts {
  import opened Wrappers
  import opened PatchSelection
  import opened PatchReader
  import opened PatchStaging

  /** All entries of a diff. */
  function Flat(hunks: seq<Hunk>): seq<Entry> {
    if hunks == [] then [] else hunks[0].entries + Flat(hunks[1..])
  }

  /** Picked additions minus picked deletions. */
  function Gain(entries: seq<Entry>, sel: Selection): int {
    if entries == [] then 0 else EntryGain(entries[0], sel) + Gain(entries[1..], sel)
  }

  function EntryGain(e: Entry, sel: Selection): int {
    if !sel.Picks(e) then 0 else if e.kind.Insert? then 1 else -1
  }

  /** The same, of lines without their newline. */
  function UnendedGain(entries: seq<Entry>, sel: Selection): int {
    if entries == [] then 0
    else (if entries[0].ended then 0 else EntryGain(entries[0], sel)) + UnendedGain(entries[1..], sel)
  }

  function Unended(lines: seq<Line>): nat {
    if lines == [] then 0 else (if lines[0].ended then 0 else 1) + Unended(lines[1..])
  }

  /** Lines that a patch adds, less those it removes. */
  function Growth(hunks: seq<Hunk>): int {
    if hunks == [] then 0 else |NewSide(hunks[0].entries)| - |OldSide(hunks[0].entries)| + Growth(hunks[1..])
  }

  // -------------------------------------------------------- concatenation

  lemma {:induction false} GainConcat(a: seq<Entry>, b: seq<Entry>, sel: Selection)
    ensures Gain(a + b, sel) == Gain(a, sel) + Gain(b, sel)
    ensures UnendedGain(a + b, sel) == UnendedGain(a, sel) + UnendedGain(b, sel)
  {
    if a == [] {
      assert a + b == b;
    } else {
      assert (a + b)[1..] == a[1..] + b;
      GainConcat(a[1..], b, sel);
    }
  }

  lemma {:induction false} UnendedConcat(a: seq<Line>, b: seq<Line>)
    ensures Unended(a + b) == Unended(a) + Unended(b)
  {
    if a == [] {
      assert a + b == b;
    } else {
      assert (a + b)[1..] == a[1..] + b;
      UnendedConcat(a[1..], b);
    }
  }

  lemma {:induction false} GrowthConcat(a: seq<Hunk>, b: seq<Hunk>)
    ensures Growth(a + b) == Growth(a) + Growth(b)
  {
    if a == [] {
      assert a + b == b;
    } else {
      assert (a + b)[1..] == a[1..] + b;
      GrowthConcat(a[1..], b);
    }
  }

  // ---------------------------------------------------- what staging counts

  /** Staging a script changes both counts by what is picked. */
  lemma {:induction false} StagedCounts(script: seq<Entry>, sel: Selection)
    ensures |Staged(script, sel)| == |OldSide(script)| + Gain(script, sel)
    ensures Unended(Staged(script, sel)) == Unended(OldSide(script)) + UnendedGain(script, sel)
  {
    if script != [] {
      var e := script[0];
      StagedCounts(script[1..], sel);
      UnendedConcat(Staged([e], sel), Staged(script[1..], sel));
      UnendedConcat(OldSide([e]), OldSide(script[1..]));
      assert [e][1..] == [] && Staged(script, sel) == Staged([e], sel) + Staged(script[1..], sel);
      assert OldSide(script) == OldSide([e]) + OldSide(script[1..]);
    }
  }

  lemma {:induction false} GapGain(context: seq<Line>, o: nat, n: nat, sel: Selection)
    ensures Gain(Gap(context, o, n), sel) == 0 && UnendedGain(Gap(context, o, n), sel) == 0
  {
    if context != [] {
      var e := Entry(Keep, context[0].text, context[0].ended, o, n);
      GapGain(context[1..], o + 1, n + 1, sel);
      GainConcat([e], Gap(context[1..], o + 1, n + 1), sel);
      assert [e][1..] == [];
    }
  }

  /** Only the hunks of a script count. */
  lemma {:induction false} ScriptGain(hunks: seq<Hunk>, oldFile: seq<Line>, o: nat, n: nat, sel: Selection)
    ensures Gain(Script(oldFile, hunks, o, n), sel) == Gain(Flat(hunks), sel)
    ensures UnendedGain(Script(oldFile, hunks, o, n), sel) == UnendedGain(Flat(hunks), sel)
    decreases |hunks|
  {
    hide Script, Gap, Lines, OldSide, NewSide, Gain, UnendedGain;
    if hunks == [] {
      ScriptEnd(oldFile, o, n);
      GapGain(Lines(oldFile, o, |oldFile| + 1), o, n, sel);
      NoGain(sel);
    } else {
      var h := hunks[0];
      var o', n' := h.oldStart + |OldSide(h.entries)|, h.newStart + |NewSide(h.entries)|;
      var rest := Script(oldFile, hunks[1..], o', n');
      ScriptStep(oldFile, hunks, o, n);
      ScriptGain(hunks[1..], oldFile, o', n', sel);
      GapGain(Lines(oldFile, o, h.oldStart), o, n, sel);
      GainConcat(Gap(Lines(oldFile, o, h.oldStart), o, n), h.entries + rest, sel);
      GainConcat(h.entries, rest, sel);
      GainConcat(h.entries, Flat(hunks[1..]), sel);
    }
  }

  lemma NoGain(sel: Selection)
    ensures Gain([], sel) == 0 && UnendedGain([], sel) == 0 && Growth([]) == 0
  {
  }

  // --------------------------------------------------- what a patch counts

  lemma {:induction false} EndedSides(entries: seq<Entry>)
    requires AllEnded(entries)
    ensures Unended(OldSide(entries)) == 0 && Unended(NewSide(entries)) == 0
  {
    if entries != [] {
      EndedSides(entries[1..]);
      assert entries[0].ended;
      var line := [entries[0].AsLine()];
      SidesUnfold(entries);
      assert line[1..] == [] && Unended(line) == 0;
      UnendedConcat(line, OldSide(entries[1..]));
      UnendedConcat(line, NewSide(entries[1..]));
      assert [] + OldSide(entries[1..]) == OldSide(entries[1..]) && [] + NewSide(entries[1..]) == NewSide(entries[1..]);
    }
  }

  /** A patch of ended lines that applies changes the length by its growth and no unended line. */
  lemma {:induction false} AppliedCounts(file: seq<Line>, pos: nat, hunks: seq<Hunk>)
    requires 1 <= pos <= |file| + 1 && EndedHunks(hunks) && ApplyFrom(file, pos, hunks).Some?
    ensures var result := ApplyFrom(file, pos, hunks).value;
            && |result| == |file| + 1 - pos + Growth(hunks)
            && Unended(result) == Unended(Lines(file, pos, |file| + 1))
    decreases |hunks|
  {
    hide Lines, OldSide, NewSide, Unended, AllEnded;
    LinesLength(file, pos, |file| + 1);
    if hunks != [] {
      var h := hunks[0];
      var at, end := h.oldStart, h.oldStart + |OldSide(h.entries)|;
      var rest := ApplyFrom(file, end, hunks[1..]).value;
      AppliedCounts(file, end, hunks[1..]);
      LinesLength(file, pos, at);
      LinesJoin(file, pos, at, |file| + 1);
      LinesJoin(file, at, end, |file| + 1);
      EndedSides(h.entries);
      UnendedConcat(Lines(file, pos, at), Lines(file, at, |file| + 1));
      UnendedConcat(Lines(file, at, end), Lines(file, end, |file| + 1));
      UnendedConcat(Lines(file, pos, at) + NewSide(h.entries), rest);
      UnendedConcat(Lines(file, pos, at), NewSide(h.entries));
    }
  }

  /** A run of included entries grows by what it picks. */
  lemma {:induction false} RunGrowth(segment: seq<Entry>, sel: Selection)
    requires forall i :: 0 <= i < |segment| ==> segment[i].kind.Keep? || sel.Picks(segment[i])
    ensures |NewSide(segment)| - |OldSide(segment)| == Gain(segment, sel)
  {
    if segment != [] {
      assert forall i :: 0 <= i < |segment[1..]| ==> segment[1..][i] == segment[i + 1];
      RunGrowth(segment[1..], sel);
    }
  }

  lemma {:induction false} RunsGrowth(entries: seq<Entry>, sel: Selection, i: nat)
    requires i <= |entries|
    ensures Growth(HunksOf(RunsFrom(entries, Flags(entries, sel), i))) == Gain(entries[i..], sel)
    decreases |entries| - i
  {
    hide OldSide, NewSide, SegmentHunk;
    var inc := Flags(entries, sel);
    if i == |entries| {
    } else if !inc[i] {
      assert !Included(entries, sel, i);
      RunsGrowth(entries, sel, i + 1);
      assert entries[i..][0] == entries[i] && entries[i..][1..] == entries[i + 1..];
    } else {
      var e := RunEnd(inc, i);
      var segment := entries[i..e];
      forall j | 0 <= j < |segment| ensures segment[j].kind.Keep? || sel.Picks(segment[j]) {
        assert inc[i + j];
      }
      RunGrowth(segment, sel);
      RunsGrowth(entries, sel, e);
      assert entries[i..] == segment + entries[e..];
      GainConcat(segment, entries[e..], sel);
      GrowthOfRuns(entries, inc, i);
    }
  }

  lemma GrowthOfRuns(entries: seq<Entry>, inc: seq<bool>, i: nat)
    requires i < |entries| == |inc| && inc[i]
    ensures var e := RunEnd(inc, i);
            Growth(HunksOf(RunsFrom(entries, inc, i)))
            == |NewSide(entries[i..e])| - |OldSide(entries[i..e])| + Growth(HunksOf(RunsFrom(entries, inc, e)))
  {
    var e := RunEnd(inc, i);
    var rest := HunksOf(RunsFrom(entries, inc, e));
    RunsFirst(entries, inc, i, []);
    assert HunksOf(RunsFrom(entries, inc, i)) == [SegmentHunk(entries[i..e])] + rest;
    assert ([SegmentHunk(entries[i..e])] + rest)[1..] == rest;
  }

  lemma {:induction false} SelectedGrowth(hunks: seq<Hunk>, sel: Selection)
    ensures Growth(SelectHunks(hunks, sel)) == Gain(Flat(hunks), sel)
  {
    hide OldSide, NewSide, RunsFrom;
    if hunks != [] {
      var h := hunks[0];
      RunsGrowth(h.entries, sel, 0);
      assert h.entries[0..] == h.entries;
      SelectedGrowth(hunks[1..], sel);
      GrowthConcat(HunksOf(Segments(h.entries, sel)), SelectHunks(hunks[1..], sel));
      GainConcat(h.entries, Flat(hunks[1..]), sel);
    }
  }

  // ------------------------------------------------------ where lines stand

  /** The line of entry `i` on each side it is on. */
  lemma {:induction false} SideAt(entries: seq<Entry>, o: nat, n: nat, i: nat)
    requires i < |entries| && Chained(entries, o, n)
    ensures var e := entries[i];
            && o <= e.oldBefore && e.OldAfter() <= o + |OldSide(entries)|
            && n <= e.newBefore && e.NewAfter() <= n + |NewSide(entries)|
            && (e.OnOld() ==> OldSide(entries)[e.oldBefore - o] == e.AsLine())
            && (e.OnNew() ==> NewSide(entries)[e.newBefore - n] == e.AsLine())
  {
    hide OldSide, NewSide;
    SidesUnfold(entries);
    if 0 < i {
      SideAt(entries[1..], entries[0].OldAfter(), entries[0].NewAfter(), i - 1);
    }
  }

  lemma SidesUnfold(entries: seq<Entry>)
    requires entries != []
    ensures OldSide(entries) == (if entries[0].OnOld() then [entries[0].AsLine()] else []) + OldSide(entries[1..])
    ensures NewSide(entries) == (if entries[0].OnNew() then [entries[0].AsLine()] else []) + NewSide(entries[1..])
  {
  }

  lemma ChainedBefore(entries: seq<Entry>, o: nat, n: nat, i: nat, j: nat)
    requires Chained(entries, o, n) && i < j < |entries|
    ensures entries[i].OldAfter() <= entries[j].oldBefore && entries[i].NewAfter() <= entries[j].newBefore
  {
    ChainedSplit(entries, j, o, n);
    assert entries[..j][i] == entries[i] && entries[j..][0] == entries[j];
    SideAt(entries[..j], o, n, i);
  }

  /** A patch that applies fits the file. */
  lemma {:induction false} AppliedFits(file: seq<Line>, pos: nat, hunks: seq<Hunk>)
    requires 1 <= pos <= |file| + 1 && ApplyFrom(file, pos, hunks).Some?
    ensures Fits(hunks, file, pos)
    decreases |hunks|
  {
    hide Lines, OldSide, NewSide;
    if hunks != [] {
      AppliedFits(file, hunks[0].oldStart + |OldSide(hunks[0].entries)|, hunks[1..]);
    }
  }

  /** Every entry of a described diff stands in both files, or between two of their lines. */
  lemma {:induction false} DescribedLine(hunks: seq<Hunk>, oldFile: seq<Line>, newFile: seq<Line>, o: nat, n: nat,
                                         e: Entry)
    requires Describes(hunks, oldFile, newFile, o, n) && ChainedHunks(hunks) && e in Flat(hunks)
    ensures o <= e.oldBefore && e.OldAfter() <= |oldFile| + 1 && n <= e.newBefore && e.NewAfter() <= |newFile| + 1
    ensures 1 <= o && 1 <= n
    ensures e.OnOld() ==> oldFile[e.oldBefore - 1] == e.AsLine()
    ensures e.OnNew() ==> newFile[e.newBefore - 1] == e.AsLine()
    decreases |hunks|
  {
    hide OldSide, NewSide, Chained, Describes;
    var h := hunks[0];
    DescribesStep(hunks, oldFile, newFile, o, n);
    ChainedStep(hunks);
    if e in h.entries {
      var i :| 0 <= i < |h.entries| && h.entries[i] == e;
      SideAt(h.entries, h.oldStart, h.newStart, i);
    } else {
      DescribedLine(hunks[1..], oldFile, newFile,
                    h.oldStart + |OldSide(h.entries)|, h.newStart + |NewSide(h.entries)|, e);
    }
  }

  /** Cursors never cross: what is further on in one file is not earlier in the other. */
  lemma {:induction false} NoCross(hunks: seq<Hunk>, oldFile: seq<Line>, newFile: seq<Line>, o: nat, n: nat, x: Entry,
                                   y: Entry)
    requires Describes(hunks, oldFile, newFile, o, n) && ChainedHunks(hunks) && x in Flat(hunks) && y in Flat(hunks)
    ensures !(y.oldBefore < x.oldBefore && x.newBefore < y.newBefore)
    decreases |hunks|
  {
    hide OldSide, NewSide, Chained, Describes;
    var h := hunks[0];
    var o', n' := h.oldStart + |OldSide(h.entries)|, h.newStart + |NewSide(h.entries)|;
    DescribesStep(hunks, oldFile, newFile, o, n);
    ChainedStep(hunks);
    if x in h.entries {
      var i :| 0 <= i < |h.entries| && h.entries[i] == x;
      SideAt(h.entries, h.oldStart, h.newStart, i);
      if y in h.entries {
        var j :| 0 <= j < |h.entries| && h.entries[j] == y;
        if i < j {
          ChainedBefore(h.entries, h.oldStart, h.newStart, i, j);
        } else if j < i {
          ChainedBefore(h.entries, h.oldStart, h.newStart, j, i);
        }
      } else {
        DescribedLine(hunks[1..], oldFile, newFile, o', n', y);
      }
    } else if y in h.entries {
      var j :| 0 <= j < |h.entries| && h.entries[j] == y;
      SideAt(h.entries, h.oldStart, h.newStart, j);
      DescribedLine(hunks[1..], oldFile, newFile, o', n', x);
    } else {
      NoCross(hunks[1..], oldFile, newFile, o', n', x, y);
    }
  }

  // ------------------------------------------------- what the source loses

  /** The entries after the first marked one. */
  function Lost(entries: seq<Entry>): seq<Entry> {
    if entries == [] then [] else if entries[0].ended then Lost(entries[1..]) else entries[1..]
  }

  function LostAll(hunks: seq<Hunk>): seq<Entry> {
    if hunks == [] then [] else Lost(hunks[0].entries) + LostAll(hunks[1..])
  }

  lemma {:induction false} SeenGain(entries: seq<Entry>, sel: Selection)
    ensures Gain(entries, sel) == Gain(Seen(entries), sel) + Gain(Lost(entries), sel)
  {
    if entries != [] {
      var e := entries[0].(ended := true);
      SeenGain(entries[1..], sel);
      assert ([e] + Seen(entries[1..]))[1..] == Seen(entries[1..]);
      assert [e] + [] == [e] && [e][1..] == [];
    }
  }

  lemma {:induction false} SeenHunksGain(hunks: seq<Hunk>, sel: Selection)
    ensures Gain(Flat(hunks), sel) == Gain(Flat(SeenHunks(hunks)), sel) + Gain(LostAll(hunks), sel)
  {
    if hunks != [] {
      var h := hunks[0];
      SeenGain(h.entries, sel);
      SeenHunksGain(hunks[1..], sel);
      GainConcat(h.entries, Flat(hunks[1..]), sel);
      GainConcat(Seen(h.entries), Flat(SeenHunks(hunks[1..])), sel);
      GainConcat(Lost(h.entries), LostAll(hunks[1..]), sel);
      assert SeenHunks(hunks)[1..] == SeenHunks(hunks[1..]);
    }
  }

  lemma {:induction false} SeenChained(entries: seq<Entry>, o: nat, n: nat)
    requires Chained(entries, o, n)
    ensures Chained(Seen(entries), o, n)
  {
    if entries != [] {
      var e := entries[0].(ended := true);
      SeenChained(entries[1..], e.OldAfter(), e.NewAfter());
      assert ([e] + Seen(entries[1..]))[1..] == Seen(entries[1..]) && [e] + [] == [e];
    }
  }

  lemma {:induction false} SeenEnded(entries: seq<Entry>)
    ensures AllEnded(Seen(entries))
  {
    if entries != [] {
      SeenEnded(entries[1..]);
    }
  }

  lemma SeenPrintable(hunks: seq<Hunk>)
    requires ChainedHunks(hunks)
    ensures ChainedHunks(SeenHunks(hunks)) && EndedHunks(SeenHunks(hunks))
  {
    forall i | 0 <= i < |hunks|
      ensures Chained(Seen(hunks[i].entries), hunks[i].oldStart, hunks[i].newStart) && AllEnded(Seen(hunks[i].entries))
    {
      SeenChained(hunks[i].entries, hunks[i].oldStart, hunks[i].newStart);
      SeenEnded(hunks[i].entries);
    }
  }

  /** What is lost comes after a marked entry of its hunk. */
  lemma {:induction false} LostAfter(entries: seq<Entry>, o: nat, n: nat, e: Entry) returns (mark: Entry)
    requires Chained(entries, o, n) && e in Lost(entries)
    ensures e in entries && mark in entries && !mark.ended
    ensures mark.OldAfter() <= e.oldBefore && mark.NewAfter() <= e.newBefore
  {
    if entries[0].ended {
      mark := LostAfter(entries[1..], entries[0].OldAfter(), entries[0].NewAfter(), e);
    } else {
      mark := entries[0];
      var i :| 0 <= i < |entries[1..]| && entries[1..][i] == e;
      assert entries[i + 1] == e;
      ChainedBefore(entries, o, n, 0, i + 1);
    }
  }

  lemma {:induction false} LostAllAfter(hunks: seq<Hunk>, e: Entry) returns (mark: Entry)
    requires ChainedHunks(hunks) && e in LostAll(hunks)
    ensures e in Flat(hunks) && mark in Flat(hunks) && !mark.ended
    ensures mark.OldAfter() <= e.oldBefore && mark.NewAfter() <= e.newBefore
  {
    hide Lost, Chained;
    ChainedStep(hunks);
    if e in Lost(hunks[0].entries) {
      mark := LostAfter(hunks[0].entries, hunks[0].oldStart, hunks[0].newStart, e);
    } else {
      mark := LostAllAfter(hunks[1..], e);
    }
  }

  /** A line of a file without its newline is the last one. */
  lemma UnendedLast(hunks: seq<Hunk>, oldFile: seq<Line>, newFile: seq<Line>, e: Entry)
    requires Describes(hunks, oldFile, newFile, 1, 1) && ChainedHunks(hunks) && IsFile(oldFile) && IsFile(newFile)
    requires e in Flat(hunks) && !e.ended
    ensures e.OnOld() ==> e.oldBefore == |oldFile|
    ensures e.OnNew() ==> e.newBefore == |newFile|
  {
    DescribedLine(hunks, oldFile, newFile, 1, 1, e);
  }

  /** Lost additions come after the old file's last line, lost deletions after the new one's. */
  lemma LostBeyond(hunks: seq<Hunk>, oldFile: seq<Line>, newFile: seq<Line>, e: Entry)
    requires Describes(hunks, oldFile, newFile, 1, 1) && ChainedHunks(hunks) && IsFile(oldFile) && IsFile(newFile)
    requires e in LostAll(hunks)
    ensures e in Flat(hunks) && !e.kind.Keep?
    ensures e.kind.Insert? ==> |oldFile| < e.oldBefore && e.newBefore <= |newFile|
    ensures e.kind.Delete? ==> |newFile| < e.newBefore && e.oldBefore <= |oldFile|
  {
    var mark := LostAllAfter(hunks, e);
    UnendedLast(hunks, oldFile, newFile, mark);
    DescribedLine(hunks, oldFile, newFile, 1, 1, e);
  }

  /** So a diff loses only additions or only deletions. */
  lemma LostOneKind(hunks: seq<Hunk>, oldFile: seq<Line>, newFile: seq<Line>, c: Entry, d: Entry)
    requires Describes(hunks, oldFile, newFile, 1, 1) && ChainedHunks(hunks) && IsFile(oldFile) && IsFile(newFile)
    requires c in LostAll(hunks) && d in LostAll(hunks)
    ensures c.kind == d.kind
  {
    LostBeyond(hunks, oldFile, newFile, c);
    LostBeyond(hunks, oldFile, newFile, d);
    NoCross(hunks, oldFile, newFile, 1, 1, c, d);
    NoCross(hunks, oldFile, newFile, 1, 1, d, c);
  }

  /** Changes of one kind that gain nothing are not picked. */
  lemma {:induction false} OneKindGain(entries: seq<Entry>, kind: Kind, sel: Selection)
    requires forall e :: e in entries && sel.Picks(e) ==> e.kind == kind
    ensures kind.Insert? ==> 0 <= Gain(entries, sel)
    ensures kind.Delete? ==> Gain(entries, sel) <= 0
    ensures Gain(entries, sel) == 0 ==> forall e :: e in entries ==> !sel.Picks(e)
  {
    if entries != [] {
      OneKindGain(entries[1..], kind, sel);
      assert forall e :: e in entries ==> e == entries[0] || e in entries[1..];
    }
  }

  /** Nor are unended additions, if no unended deletion is and none is gained. */
  lemma {:induction false} UnendedInserts(entries: seq<Entry>, sel: Selection)
    requires forall e :: e in entries && !e.ended && sel.Picks(e) ==> e.kind.Insert?
    ensures 0 <= UnendedGain(entries, sel)
    ensures UnendedGain(entries, sel) == 0 ==> forall e :: e in entries && !e.ended ==> !sel.Picks(e)
  {
    if entries != [] {
      UnendedInserts(entries[1..], sel);
      assert forall e :: e in entries ==> e == entries[0] || e in entries[1..];
    }
  }

  // ------------------------------------------------- what a patch contains

  lemma {:induction false} FlatConcat(a: seq<Hunk>, b: seq<Hunk>)
    ensures Flat(a + b) == Flat(a) + Flat(b)
  {
    if a == [] {
      assert a + b == b;
    } else {
      assert (a + b)[1..] == a[1..] + b;
      FlatConcat(a[1..], b);
    }
  }

  lemma {:induction false} RunsContain(entries: seq<Entry>, inc: seq<bool>, i: nat, j: nat)
    requires i <= j < |entries| == |inc| && inc[j]
    ensures entries[j] in Flat(HunksOf(RunsFrom(entries, inc, i)))
    decreases |entries| - i
  {
    if !inc[i] {
      RunsContain(entries, inc, i + 1, j);
    } else {
      var e := RunEnd(inc, i);
      RunsFirst(entries, inc, i, []);
      var rest := HunksOf(RunsFrom(entries, inc, e));
      assert HunksOf(RunsFrom(entries, inc, i)) == [SegmentHunk(entries[i..e])] + rest;
      assert ([SegmentHunk(entries[i..e])] + rest)[1..] == rest;
      if j < e {
        assert entries[i..e][j - i] == entries[j];
      } else {
        RunsContain(entries, inc, e, j);
      }
    }
  }

  /** Every included entry of a hunk is in the patch. */
  lemma {:induction false} SelectedContain(hunks: seq<Hunk>, sel: Selection, a: nat, i: nat)
    requires a < |hunks| && i < |hunks[a].entries| && Included(hunks[a].entries, sel, i)
    ensures hunks[a].entries[i] in Flat(SelectHunks(hunks, sel))
  {
    hide Included, RunsFrom;
    var first, rest := HunksOf(Segments(hunks[0].entries, sel)), SelectHunks(hunks[1..], sel);
    FlatConcat(first, rest);
    if a == 0 {
      RunsContain(hunks[0].entries, Flags(hunks[0].entries, sel), 0, i);
    } else {
      assert hunks[1..][a - 1] == hunks[a];
      SelectedContain(hunks[1..], sel, a - 1, i);
    }
  }

  lemma {:induction false} FlatContains(hunks: seq<Hunk>, a: nat, i: nat)
    requires a < |hunks| && i < |hunks[a].entries|
    ensures hunks[a].entries[i] in Flat(hunks)
  {
    if 0 < a {
      assert hunks[1..][a - 1] == hunks[a];
      FlatContains(hunks[1..], a - 1, i);
    }
  }

  lemma {:induction false} LostContains(hunks: seq<Hunk>, a: nat, e: Entry)
    requires a < |hunks| && e in Lost(hunks[a].entries)
    ensures e in LostAll(hunks)
  {
    if 0 < a {
      assert hunks[1..][a - 1] == hunks[a];
      LostContains(hunks[1..], a - 1, e);
    }
  }

  lemma {:induction false} FlatFrom(hunks: seq<Hunk>, e: Entry) returns (a: nat, i: nat)
    requires e in Flat(hunks)
    ensures a < |hunks| && i < |hunks[a].entries| && hunks[a].entries[i] == e
  {
    if e in hunks[0].entries {
      a := 0;
      i :| 0 <= i < |hunks[0].entries| && hunks[0].entries[i] == e;
    } else {
      a, i := FlatFrom(hunks[1..], e);
      a := a + 1;
    }
  }
}
