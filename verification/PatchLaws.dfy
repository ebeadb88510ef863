/**
 Staging: the patch for a selection, applied to the old file, gives exactly the old file
 with the selected deletions removed and the selected additions inserted, final newline
 included. The source drops "No newline at end of file" markers and stops reading a hunk at
 the first one (git_patch_selection.py:57-100, 141-158), so this holds for a selection if and
 only if no picked line is at or after a marked line, or right before a marked context line.
 */
module PatchLaws {
  import opened Wrappers
  import opened PatchSelection
  import opened PatchReader
  import opened PatchStaging
  import opened PatchCounts

  // ------------------------------------------------------ the exact condition

  /** Line `i` lacks its newline, and line `j` is picked where that matters. */
  predicate Harms(entries: seq<Entry>, sel: Selection, i: nat, j: nat)
    requires i < |entries| && j < |entries|
  {
    && !entries[i].ended && sel.Picks(entries[j])
    && (i <= j || (i == j + 1 && entries[i].kind.Keep?))
  }

  predicate Unharmed(entries: seq<Entry>, sel: Selection) {
    forall i, j :: 0 <= i < |entries| && 0 <= j < |entries| ==> !Harms(entries, sel, i, j)
  }

  predicate UnharmedHunks(hunks: seq<Hunk>, sel: Selection) {
    forall a :: 0 <= a < |hunks| ==> Unharmed(hunks[a].entries, sel)
  }

  /** Every marker follows a context line that is not next to a changed line. */
  predicate CleanEntries(entries: seq<Entry>) {
    forall i :: 0 <= i < |entries| && !entries[i].ended ==>
      && entries[i].kind.Keep?
      && (0 < i ==> entries[i - 1].kind.Keep?)
      && (i + 1 < |entries| ==> entries[i + 1].kind.Keep?)
  }

  predicate CleanHunks(hunks: seq<Hunk>) {
    forall a :: 0 <= a < |hunks| ==> CleanEntries(hunks[a].entries)
  }

  predicate CleanDiff(lines: seq<string>)
    requires ReadDiff(lines).Some?
  {
    CleanHunks(ReadDiff(lines).value)
  }

  // -------------------------------------------- unharmed selections are exact

  /** The first entry without its newline, or the end. */
  function Mark(entries: seq<Entry>, i: nat): (m: nat)
    requires i <= |entries|
    ensures i <= m <= |entries| && (forall k :: i <= k < m ==> entries[k].ended)
            && (m < |entries| ==> !entries[m].ended)
    decreases |entries| - i
  {
    if i == |entries| || !entries[i].ended then i else Mark(entries, i + 1)
  }

  lemma {:induction false} SeenFrom(entries: seq<Entry>, i: nat)
    requires i <= |entries|
    ensures var m := Mark(entries, i);
            Seen(entries[i..]) == if m < |entries| then entries[i..m] + [entries[m].(ended := true)] else entries[i..]
    decreases |entries| - i
  {
    hide Seen;
    if i < |entries| {
      var e, m := entries[i], Mark(entries, i);
      assert entries[i..] == [e] + entries[i + 1..];
      SeenCons(e, entries[i + 1..]);
      if e.ended {
        SeenFrom(entries, i + 1);
        assert entries[i..m] == [e] + entries[i + 1..m];
      } else {
        assert entries[i..m] == [];
      }
    } else {
      assert Seen([]) == [] by { SeenNothing(); }
    }
  }

  lemma SeenCons(e: Entry, rest: seq<Entry>)
    ensures Seen([e] + rest) == if e.ended then [e] + Seen(rest) else [e.(ended := true)]
  {
    assert ([e] + rest)[1..] == rest && (e.ended ==> e.(ended := true) == e);
    assert [e.(ended := true)] + [] == [e.(ended := true)];
  }

  lemma SeenNothing()
    ensures Seen([]) == []
  {
  }

  lemma FirstMark(entries: seq<Entry>) returns (m: nat)
    ensures m <= |entries| && AllEnded(entries[..m]) && forall i :: 0 <= i < m ==> entries[i].ended
    ensures m < |entries| ==> !entries[m].ended && Seen(entries) == entries[..m] + [entries[m].(ended := true)]
    ensures m == |entries| ==> Seen(entries) == entries
  {
    m := Mark(entries, 0);
    SeenFrom(entries, 0);
    assert entries[0..] == entries && entries[0..m] == entries[..m];
  }

  /** An unset flag and all later ones unset: the runs are those of the entries before. */
  lemma RunsBefore(entries: seq<Entry>, inc: seq<bool>, m: nat)
    requires m < |entries| == |inc| && forall k :: m <= k < |inc| ==> !inc[k]
    ensures RunsFrom(entries, inc, 0) == RunsFrom(entries[..m], inc[..m], 0)
  {
    hide RunsFrom;
    SplitRuns(entries, inc, 0, m, 0);
    assert entries[0..m] == entries[..m] && inc[0..m] == inc[..m];
    RunsSkip(entries, inc, m, |entries|);
    RunsEnd(entries, inc);
  }

  lemma SameFlags(entries: seq<Entry>, sel: Selection, m: nat)
    requires m < |entries| && !entries[m].ended && Unharmed(entries, sel)
    ensures var seen := entries[..m] + [entries[m].(ended := true)];
            && Flags(entries, sel)[..m] == Flags(seen, sel)[..m]
            && (forall k :: m <= k < |entries| ==> !Flags(entries, sel)[k])
            && !Flags(seen, sel)[m]
  {
    var seen := entries[..m] + [entries[m].(ended := true)];
    assert forall k :: 0 <= k <= m ==> sel.Picks(seen[k]) == sel.Picks(entries[k]) && seen[k].kind == entries[k].kind;
    forall k | m <= k < |entries| ensures !sel.Picks(entries[k]) {
      assert !Harms(entries, sel, m, k);
    }
    assert 0 < m ==> !Harms(entries, sel, m, m - 1);
    forall k | 0 <= k < m ensures Included(entries, sel, k) == Included(seen, sel, k) {
    }
  }

  lemma SegmentsSeen(entries: seq<Entry>, sel: Selection)
    requires Unharmed(entries, sel)
    ensures Segments(Seen(entries), sel) == Segments(entries, sel)
  {
    hide Unharmed, Seen, RunsFrom, Flags;
    var m := FirstMark(entries);
    if m < |entries| {
      var seen := entries[..m] + [entries[m].(ended := true)];
      SameFlags(entries, sel, m);
      RunsBefore(entries, Flags(entries, sel), m);
      RunsBefore(seen, Flags(seen, sel), m);
      assert seen[..m] == entries[..m];
    }
  }

  lemma {:induction false} SelectedSeen(hunks: seq<Hunk>, sel: Selection)
    requires UnharmedHunks(hunks, sel)
    ensures SelectHunks(SeenHunks(hunks), sel) == SelectHunks(hunks, sel)
  {
    hide Unharmed, Segments, HunksOf, Seen;
    if hunks != [] {
      SegmentsSeen(hunks[0].entries, sel);
      assert UnharmedHunks(hunks[1..], sel);
      SelectedSeen(hunks[1..], sel);
    }
  }

  // -------------------------------------------- exact selections are unharmed

  /** `patch` has the hunks of `chosen`, and starts them where `chosen` does if they have old lines. */
  predicate SameLines(patch: seq<Hunk>, chosen: seq<Hunk>) {
    && |patch| == |chosen|
    && forall k :: 0 <= k < |patch| ==>
         && OldSide(patch[k].entries) == OldSide(chosen[k].entries)
         && NewSide(patch[k].entries) == NewSide(chosen[k].entries)
         && (OldSide(patch[k].entries) != [] ==> patch[k].oldStart == chosen[k].oldStart)
  }

  lemma SameLinesStep(patch: seq<Hunk>, chosen: seq<Hunk>)
    requires SameLines(patch, chosen) && patch != []
    ensures SameLines(patch[1..], chosen[1..])
    ensures OldSide(patch[0].entries) == OldSide(chosen[0].entries)
            && NewSide(patch[0].entries) == NewSide(chosen[0].entries)
    ensures OldSide(patch[0].entries) != [] ==> patch[0].oldStart == chosen[0].oldStart
  {
    hide OldSide, NewSide;
  }

  lemma {:induction false} SameGrowth(patch: seq<Hunk>, chosen: seq<Hunk>)
    requires SameLines(patch, chosen)
    ensures Growth(patch) == Growth(chosen)
  {
    hide OldSide, NewSide;
    if patch != [] {
      SameLinesStep(patch, chosen);
      SameGrowth(patch[1..], chosen[1..]);
    }
  }

  /** The old lines of `chosen` stand in the file if `patch` fits it. */
  lemma {:induction false} SameFitsLine(patch: seq<Hunk>, chosen: seq<Hunk>, file: seq<Line>, o: nat, e: Entry)
    requires Fits(patch, file, o) && SameLines(patch, chosen) && ChainedHunks(chosen) && e in Flat(chosen) && e.OnOld()
    ensures 1 <= e.oldBefore <= |file| && file[e.oldBefore - 1] == e.AsLine()
    decreases |patch|
  {
    hide OldSide, NewSide, Chained, Fits;
    assert patch != [];
    var h := chosen[0];
    FitsStep(patch, file, o);
    ChainedStep(chosen);
    SameLinesStep(patch, chosen);
    if e in h.entries {
      var i :| 0 <= i < |h.entries| && h.entries[i] == e;
      SideAt(h.entries, h.oldStart, h.newStart, i);
    } else {
      SameFitsLine(patch[1..], chosen[1..], file, patch[0].oldStart + |OldSide(patch[0].entries)|, e);
    }
  }

  /** If a marked old line is emitted, the patch claims a newline the file does not have. */
  lemma MarkedEmitted(read: seq<Hunk>, oldFile: seq<Line>, newFile: seq<Line>, sel: Selection, patch: seq<Hunk>,
                      a: nat, m: nat)
    requires ChainedHunks(read) && Describes(read, oldFile, newFile, 1, 1)
    requires a < |read| && m < |read[a].entries| && m < |Seen(read[a].entries)|
    requires !read[a].entries[m].ended && read[a].entries[m].OnOld()
    requires Seen(read[a].entries)[m] == read[a].entries[m].(ended := true)
    requires Included(Seen(read[a].entries), sel, m) && SameLines(patch, SelectHunks(SeenHunks(read), sel))
    ensures ApplyForward(oldFile, patch).None?
  {
    hide Describes, Included, Seen, SelectHunks, Chained, ApplyFrom, Flat, SameLines;
    if ApplyForward(oldFile, patch).Some? {
      var x := Seen(read[a].entries)[m];
      SeenPrintable(read);
      SelectHunksChained(SeenHunks(read), sel);
      SelectedContain(SeenHunks(read), sel, a, m);
      AppliedFits(oldFile, 1, patch);
      SameFitsLine(patch, SelectHunks(SeenHunks(read), sel), oldFile, 1, x);
      FlatContains(read, a, m);
      DescribedLine(read, oldFile, newFile, 1, 1, read[a].entries[m]);
    }
  }

  /** The patch made from what the source sees of `read`, applied, makes exactly the selected changes. */
  predicate HunksStage(read: seq<Hunk>, oldFile: seq<Line>, sel: Selection) {
    ApplyForward(oldFile, SelectHunks(SeenHunks(read), sel)) == Some(Staged(Script(oldFile, read, 1, 1), sel))
  }

  /** `patch` has the lines of that patch and, applied, makes exactly the selected changes. */
  predicate StagedBy(patch: seq<Hunk>, read: seq<Hunk>, oldFile: seq<Line>, sel: Selection) {
    && SameLines(patch, SelectHunks(SeenHunks(read), sel)) && EndedHunks(patch)
    && ApplyForward(oldFile, patch) == Some(Staged(Script(oldFile, read, 1, 1), sel))
  }

  /** `read` is a diff of these two files. */
  predicate Diff(read: seq<Hunk>, oldFile: seq<Line>, newFile: seq<Line>) {
    ChainedHunks(read) && Describes(read, oldFile, newFile, 1, 1) && IsFile(oldFile) && IsFile(newFile)
  }

  /** Exact staging loses no picked line and gains no newline. */
  lemma ExactCounts(read: seq<Hunk>, oldFile: seq<Line>, newFile: seq<Line>, sel: Selection,
                    patch: seq<Hunk>)
    requires Diff(read, oldFile, newFile) && StagedBy(patch, read, oldFile, sel)
    ensures Gain(LostAll(read), sel) == 0 && UnendedGain(Flat(read), sel) == 0
  {
    hide Describes, SelectHunks, ApplyFrom, Staged, Script, Flat, Gain, UnendedGain, Unended, LostAll, Fits, SameLines;
    AppliedCounts(oldFile, 1, patch);
    SelectedGrowth(SeenHunks(read), sel);
    SameGrowth(patch, SelectHunks(SeenHunks(read), sel));
    SeenHunksGain(read, sel);
    var script := Script(oldFile, read, 1, 1);
    StagedCounts(script, sel);
    ScriptGain(read, oldFile, 1, 1, sel);
    DescribedFits(read, oldFile, newFile, 1, 1);
    ScriptOldSide(read, oldFile, 1, 1);
    assert Lines(oldFile, 1, |oldFile| + 1) == oldFile;
  }

  lemma NothingLostPicked(read: seq<Hunk>, oldFile: seq<Line>, newFile: seq<Line>, sel: Selection)
    requires Diff(read, oldFile, newFile) && Gain(LostAll(read), sel) == 0
    ensures forall e :: e in LostAll(read) ==> !sel.Picks(e)
  {
    hide Describes, Flat, Gain, LostAll;
    if c :| c in LostAll(read) && sel.Picks(c) {
      forall e | e in LostAll(read) && sel.Picks(e) ensures e.kind == c.kind {
        LostOneKind(read, oldFile, newFile, c, e);
      }
      OneKindGain(LostAll(read), c.kind, sel);
    }
  }

  /** The first marked entry of a hunk, if picked, is an addition; later ones are lost. */
  lemma UnendedPicked(read: seq<Hunk>, oldFile: seq<Line>, newFile: seq<Line>, sel: Selection,
                      patch: seq<Hunk>, e: Entry)
    requires Diff(read, oldFile, newFile) && StagedBy(patch, read, oldFile, sel)
    requires forall x :: x in LostAll(read) ==> !sel.Picks(x)
    requires e in Flat(read) && !e.ended && sel.Picks(e)
    ensures e.kind.Insert?
  {
    hide Describes, SelectHunks, ApplyFrom, Staged, Script, Flat, LostAll, Seen;
    var a, i := FlatFrom(read, e);
    var entries := read[a].entries;
    var m := FirstMark(entries);
    if m < i {
      LostFrom(entries, m, i);
      LostContains(read, a, e);
    } else if e.kind.Delete? {
      assert Included(Seen(entries), sel, m);
      MarkedEmitted(read, oldFile, newFile, sel, patch, a, m);
    }
  }

  lemma {:induction false} LostFrom(entries: seq<Entry>, m: nat, i: nat)
    requires m < i < |entries| && !entries[m].ended && AllEnded(entries[..m])
    ensures entries[i] in Lost(entries)
  {
    if m == 0 {
      assert entries[1..][i - 1] == entries[i];
    } else {
      assert entries[..m][0] == entries[0];
      assert entries[1..][..m - 1] == entries[..m][1..];
      LostFrom(entries[1..], m - 1, i - 1);
    }
  }

  lemma ExactUnharmed(read: seq<Hunk>, oldFile: seq<Line>, newFile: seq<Line>, sel: Selection,
                    patch: seq<Hunk>)
    requires Diff(read, oldFile, newFile) && StagedBy(patch, read, oldFile, sel)
    ensures UnharmedHunks(read, sel)
  {
    hide Describes, SelectHunks, ApplyFrom, Staged, Script, Flat, LostAll, Seen, Gain, UnendedGain, ChainedHunks;
    ExactCounts(read, oldFile, newFile, sel, patch);
    NothingLostPicked(read, oldFile, newFile, sel);
    forall e | e in Flat(read) && !e.ended && sel.Picks(e) ensures e.kind.Insert? {
      UnendedPicked(read, oldFile, newFile, sel, patch, e);
    }
    UnendedInserts(Flat(read), sel);
    forall a | 0 <= a < |read| ensures Unharmed(read[a].entries, sel) {
      forall i, j | 0 <= i < |read[a].entries| && 0 <= j < |read[a].entries|
        ensures !Harms(read[a].entries, sel, i, j)
      {
        if Harms(read[a].entries, sel, i, j) {
          NoHarm(read, oldFile, newFile, sel, patch, a, i, j);
        }
      }
    }
  }

  lemma NoHarm(read: seq<Hunk>, oldFile: seq<Line>, newFile: seq<Line>, sel: Selection,
               patch: seq<Hunk>, a: nat, i: nat, j: nat)
    requires Diff(read, oldFile, newFile) && StagedBy(patch, read, oldFile, sel)
    requires forall x :: x in LostAll(read) ==> !sel.Picks(x)
    requires forall e :: e in Flat(read) && !e.ended ==> !sel.Picks(e)
    requires a < |read| && i < |read[a].entries| && j < |read[a].entries|
    ensures !Harms(read[a].entries, sel, i, j)
  {
    hide Describes, SelectHunks, ApplyFrom, Staged, Script, Flat, LostAll, Seen, ChainedHunks;
    var entries := read[a].entries;
    if Harms(entries, sel, i, j) {
      var m := FirstMark(entries);
      FlatContains(read, a, m);
      if m < j {
        LostFrom(entries, m, j);
        LostContains(read, a, entries[j]);
      } else if j < m {
        assert entries[m].kind.Keep? && j == m - 1;
        assert Included(Seen(entries), sel, m);
        MarkedEmitted(read, oldFile, newFile, sel, patch, a, m);
      }
    }
  }

  // ----------------------------------------------------------- main results

  /** Exactly when the patch made from a diff's hunks stages what was selected. */
  lemma HunksTheorem(read: seq<Hunk>, oldFile: seq<Line>, newFile: seq<Line>, sel: Selection)
    requires Diff(read, oldFile, newFile)
    ensures HunksStage(read, oldFile, sel) <==> UnharmedHunks(read, sel)
  {
    hide Describes, SelectHunks, ApplyFrom, Staged, Script, UnharmedHunks, Fits;
    if HunksStage(read, oldFile, sel) {
      SeenPrintable(read);
      SelectHunksEnded(SeenHunks(read), sel);
      ExactUnharmed(read, oldFile, newFile, sel, SelectHunks(SeenHunks(read), sel));
    }
    if UnharmedHunks(read, sel) {
      SelectedSeen(read, sel);
      DescribedFits(read, oldFile, newFile, 1, 1);
      TurnsSelected(read, oldFile, 1, 1, sel);
    }
  }

  /** `lines` is a single-file diff that turns `oldFile` into `newFile`, numbered by the source's cursors. */
  predicate WellFormed(lines: seq<string>, oldFile: seq<Line>, newFile: seq<Line>) {
    && ReadDiff(lines).Some? && Describes(ReadDiff(lines).value, oldFile, newFile, 1, 1)
    && IsFile(oldFile) && IsFile(newFile)
  }

  /** The edit script the diff stands for. */
  function FileScript(lines: seq<string>, oldFile: seq<Line>): seq<Entry>
    requires ReadDiff(lines).Some?
  {
    Script(oldFile, ReadDiff(lines).value, 1, 1)
  }

  /** The patch for `sel`, read back and applied to the old file, makes exactly the selected changes. */
  predicate StagesExactly(lines: seq<string>, oldFile: seq<Line>, sel: Selection)
    requires ReadDiff(lines).Some?
  {
    var patch := ReadDiff(SelectedPatch(lines, sel));
    patch.Some? && ApplyForward(oldFile, patch.value) == Some(Staged(FileScript(lines, oldFile), sel))
  }

  /** On a readable diff the patch is what is selected from the hunks up to their first markers. */
  lemma PatchSeen(lines: seq<string>, sel: Selection)
    requires ReadDiff(lines).Some?
    ensures ReadDiff(SelectedPatch(lines, sel)) == Some(SelectHunks(SeenHunks(ReadDiff(lines).value), sel))
    ensures ChainedHunks(ReadDiff(lines).value)
  {
    hide SelectHunks, SelectedPatch, ParseHunks, ReadHunks, Chained;
    var body := lines[PreambleLength(lines)..];
    ParserSees(body);
    ReadHunksChained(body);
    SelectedPatchReads(lines, sel);
  }

  /**
   For every selection: staging is exact if and only if no picked line is at or after a marked
   line of its hunk, or right before a marked context line.
   */
  lemma StagingTheorem(lines: seq<string>, oldFile: seq<Line>, newFile: seq<Line>, sel: Selection)
    requires WellFormed(lines, oldFile, newFile)
    ensures StagesExactly(lines, oldFile, sel) <==> UnharmedHunks(ReadDiff(lines).value, sel)
  {
    hide Describes, SelectHunks, SelectedPatch, ReadDiff, ApplyFrom, Staged, Script, UnharmedHunks, ChainedHunks;
    PatchSeen(lines, sel);
    HunksTheorem(ReadDiff(lines).value, oldFile, newFile, sel);
  }

  /** The selection of the one change `e`. */
  function Only(e: Entry): Selection {
    if e.kind.Delete? then Selection({e.oldBefore}, {}) else Selection({}, {e.newBefore})
  }

  /** A context line without its newline is the last line of its hunk. */
  lemma MarkedContextLast(read: seq<Hunk>, oldFile: seq<Line>, newFile: seq<Line>, a: nat, i: nat)
    requires Diff(read, oldFile, newFile) && a < |read| && i < |read[a].entries|
    requires !read[a].entries[i].ended && read[a].entries[i].kind.Keep?
    ensures i == |read[a].entries| - 1
  {
    hide Describes, Flat;
    if i < |read[a].entries| - 1 {
      FlatContains(read, a, i);
      FlatContains(read, a, i + 1);
      UnendedLast(read, oldFile, newFile, read[a].entries[i]);
      DescribedLine(read, oldFile, newFile, 1, 1, read[a].entries[i + 1]);
      ChainedBefore(read[a].entries, read[a].oldStart, read[a].newStart, i, i + 1);
    }
  }

  /** All selections are unharmed exactly if every marker follows a context line not next to a changed one. */
  lemma CleanUnharmed(read: seq<Hunk>, oldFile: seq<Line>, newFile: seq<Line>)
    requires Diff(read, oldFile, newFile)
    ensures CleanHunks(read) <==> forall sel :: UnharmedHunks(read, sel)
  {
    hide Diff, CleanEntries;
    if CleanHunks(read) {
      forall sel, a, i, j | 0 <= a < |read| && 0 <= i < |read[a].entries| && 0 <= j < |read[a].entries|
        ensures !Harms(read[a].entries, sel, i, j)
      {
        if !read[a].entries[i].ended {
          CleanAt(read[a].entries, i);
          MarkedContextLast(read, oldFile, newFile, a, i);
        }
      }
    } else {
      var a :| 0 <= a < |read| && !CleanEntries(read[a].entries);
      var sel := HarmfulSelection(read[a].entries);
      assert !UnharmedHunks(read, sel);
    }
  }

  lemma CleanAt(entries: seq<Entry>, i: nat)
    requires CleanEntries(entries) && i < |entries| && !entries[i].ended
    ensures entries[i].kind.Keep? && (0 < i ==> entries[i - 1].kind.Keep?)
  {
  }

  lemma HarmfulSelection(entries: seq<Entry>) returns (sel: Selection)
    requires !CleanEntries(entries)
    ensures !Unharmed(entries, sel)
  {
    var i :| 0 <= i < |entries| && !entries[i].ended
             && !(entries[i].kind.Keep? && (0 < i ==> entries[i - 1].kind.Keep?)
                  && (i + 1 < |entries| ==> entries[i + 1].kind.Keep?));
    var j := if !entries[i].kind.Keep? then i else if 0 < i && !entries[i - 1].kind.Keep? then i - 1 else i + 1;
    sel := Only(entries[j]);
    assert Harms(entries, sel, i, j);
  }

  /**
   Staging is exact for every selection if and only if each marker follows a context line that
   is not next to a changed line.
   */
  lemma CleanTheorem(lines: seq<string>, oldFile: seq<Line>, newFile: seq<Line>)
    requires WellFormed(lines, oldFile, newFile)
    ensures CleanDiff(lines) <==> forall sel :: StagesExactly(lines, oldFile, sel)
  {
    hide Describes, ReadDiff, UnharmedHunks, StagesExactly, ChainedHunks;
    PatchSeen(lines, Selection({}, {}));
    CleanUnharmed(ReadDiff(lines).value, oldFile, newFile);
    forall sel ensures StagesExactly(lines, oldFile, sel) <==> UnharmedHunks(ReadDiff(lines).value, sel) {
      StagingTheorem(lines, oldFile, newFile, sel);
    }
  }

  /** Selecting every change of an unharmed selection stages the new file; selecting none leaves the old one. */
  lemma StageAllOrNothing(lines: seq<string>, oldFile: seq<Line>, newFile: seq<Line>, sel: Selection)
    requires WellFormed(lines, oldFile, newFile)
    ensures ReadDiff(SelectedPatch(lines, sel)).Some?
    ensures var staged := ApplyForward(oldFile, ReadDiff(SelectedPatch(lines, sel)).value);
            && ((forall e :: e in FileScript(lines, oldFile) ==> !sel.Picks(e)) ==> staged == Some(oldFile))
            && ((forall e :: e in FileScript(lines, oldFile) && !e.kind.Keep? ==> sel.Picks(e)) ==>
                  (staged == Some(newFile) <==> UnharmedHunks(ReadDiff(lines).value, sel)))
  {
    hide Describes, Fits, Script, SelectHunks, Staged, SelectedPatch, ReadDiff, ApplyFrom, UnharmedHunks, Flat;
    var read, script := ReadDiff(lines).value, FileScript(lines, oldFile);
    PatchSeen(lines, sel);
    StagingTheorem(lines, oldFile, newFile, sel);
    DescribedFits(read, oldFile, newFile, 1, 1);
    ScriptOldSide(read, oldFile, 1, 1);
    ScriptNewSide(read, oldFile, newFile, 1, 1);
    assert Lines(oldFile, 1, |oldFile| + 1) == oldFile && Lines(newFile, 1, |newFile| + 1) == newFile;
    if forall e :: e in script && !e.kind.Keep? ==> sel.Picks(e) {
      StagedAll(script, sel);
    }
    if forall e :: e in script ==> !sel.Picks(e) {
      StagedNone(script, sel);
      NonePicked(read, oldFile, sel);
    }
  }

  lemma NonePicked(read: seq<Hunk>, oldFile: seq<Line>, sel: Selection)
    requires forall e :: e in Script(oldFile, read, 1, 1) ==> !sel.Picks(e)
    ensures UnharmedHunks(read, sel)
  {
    hide Script, Flat;
    forall a, i | 0 <= a < |read| && 0 <= i < |read[a].entries| ensures !sel.Picks(read[a].entries[i]) {
      FlatContains(read, a, i);
      FlatInScript(read, oldFile, 1, 1, read[a].entries[i]);
    }
  }

  lemma {:induction false} FlatInScript(hunks: seq<Hunk>, oldFile: seq<Line>, o: nat, n: nat, e: Entry)
    requires e in Flat(hunks)
    ensures e in Script(oldFile, hunks, o, n)
    decreases |hunks|
  {
    hide Script, OldSide, NewSide;
    var h := hunks[0];
    ScriptStep(oldFile, hunks, o, n);
    if e !in h.entries {
      FlatInScript(hunks[1..], oldFile, h.oldStart + |OldSide(h.entries)|, h.newStart + |NewSide(h.entries)|, e);
    }
  }

  // ------------------------------------------------------- what fails, and how

  predicate Precedes(x: Entry, y: Entry) {
    x.OldAfter() <= y.oldBefore && x.NewAfter() <= y.newBefore
  }

  lemma {:induction false} SeenIn(entries: seq<Entry>, x: Entry) returns (i: nat)
    requires x in Seen(entries)
    ensures i < |entries| && x == entries[i].(ended := true) && forall k :: 0 <= k < i ==> entries[k].ended
  {
    if x == entries[0].(ended := true) {
      i := 0;
    } else {
      var k := SeenIn(entries[1..], x);
      i := k + 1;
      assert forall l :: 0 < l < i ==> entries[l] == entries[1..][l - 1];
    }
  }

  lemma {:induction false} LostIn(entries: seq<Entry>, e: Entry) returns (j: nat)
    requires e in Lost(entries)
    ensures j < |entries| && entries[j] == e && exists k :: 0 <= k < j && !entries[k].ended
  {
    if entries[0].ended {
      var l := LostIn(entries[1..], e);
      j := l + 1;
      var k :| 0 <= k < l && !entries[1..][k].ended;
      assert !entries[k + 1].ended;
    } else {
      var l :| 0 <= l < |entries[1..]| && entries[1..][l] == e;
      j := l + 1;
    }
  }

  /** A seen entry and a lost one are never at the same place. */
  lemma {:induction false} SeenApart(hunks: seq<Hunk>, oldFile: seq<Line>, newFile: seq<Line>, o: nat, n: nat,
                                     x: Entry, e: Entry)
    requires Describes(hunks, oldFile, newFile, o, n) && ChainedHunks(hunks)
    requires x in Flat(SeenHunks(hunks)) && e in LostAll(hunks)
    ensures Precedes(x, e) || Precedes(e, x)
    decreases |hunks|
  {
    hide Describes, Chained, Seen, Lost, OldSide, NewSide, ChainedHunks, Lines;
    var h, more := hunks[0], hunks[1..];
    var o', n' := h.oldStart + |OldSide(h.entries)|, h.newStart + |NewSide(h.entries)|;
    DescribesStep(hunks, oldFile, newFile, o, n);
    ChainedStep(hunks);
    assert SeenHunks(hunks)[1..] == SeenHunks(more);
    if x in Seen(h.entries) {
      var i := SeenIn(h.entries, x);
      SideAt(h.entries, h.oldStart, h.newStart, i);
      if e in Lost(h.entries) {
        var j := LostIn(h.entries, e);
        ChainedBefore(h.entries, h.oldStart, h.newStart, i, j);
      } else {
        var mark := LostAllAfter(more, e);
        DescribedLine(more, oldFile, newFile, o', n', e);
      }
    } else if e in Lost(h.entries) {
      var j := LostIn(h.entries, e);
      SideAt(h.entries, h.oldStart, h.newStart, j);
      var a, i := FlatFrom(SeenHunks(more), x);
      var k := SeenIn(more[a].entries, x);
      FlatContains(more, a, k);
      DescribedLine(more, oldFile, newFile, o', n', more[a].entries[k]);
    } else {
      SeenApart(more, oldFile, newFile, o', n', x, e);
    }
  }

  lemma {:induction false} NothingPicked(hunks: seq<Hunk>, sel: Selection)
    requires forall x :: x in Flat(hunks) ==> !sel.Picks(x)
    ensures SelectHunks(hunks, sel) == []
  {
    if hunks != [] {
      forall i | 0 <= i < |hunks[0].entries| ensures !sel.Picks(hunks[0].entries[i]) {
        assert hunks[0].entries[i] in Flat(hunks);
      }
      NoRuns(hunks[0].entries, sel);
      NothingPicked(hunks[1..], sel);
    }
  }

  /** A line after a marked line of its hunk cannot be staged: selecting it alone gives the empty patch. */
  lemma MarkerLosesChange(lines: seq<string>, oldFile: seq<Line>, newFile: seq<Line>, e: Entry)
    requires WellFormed(lines, oldFile, newFile) && e in LostAll(ReadDiff(lines).value)
    ensures !e.kind.Keep? && SelectedPatch(lines, Only(e)) == []
    ensures !StagesExactly(lines, oldFile, Only(e))
  {
    hide Describes, SelectHunks, ReadDiff, ParseHunks, Flat, LostAll, ChainedHunks, ApplyFrom, Staged, Script,
         UnharmedHunks;
    var read, sel := ReadDiff(lines).value, Only(e);
    PatchSeen(lines, sel);
    LostBeyond(read, oldFile, newFile, e);
    forall x | x in Flat(SeenHunks(read)) ensures !sel.Picks(x) {
      SeenApart(read, oldFile, newFile, 1, 1, x, e);
    }
    NothingPicked(SeenHunks(read), sel);
    EmptyPatch(lines, sel);
    StagingTheorem(lines, oldFile, newFile, sel);
    LostHarmed(read, e);
  }

  /** The patch is empty exactly when no hunk is selected. */
  lemma EmptyPatch(lines: seq<string>, sel: Selection)
    requires ReadDiff(lines).Some? && ReadDiff(SelectedPatch(lines, sel)) == Some([])
    ensures SelectedPatch(lines, sel) == []
  {
    hide ParseHunks, SelectHunks, ReadHunks;
    SelectedPatchReads(lines, sel);
  }

  lemma LostHarmed(read: seq<Hunk>, e: Entry)
    requires e in LostAll(read) && !e.kind.Keep?
    ensures !UnharmedHunks(read, Only(e))
  {
    var a := LostHunk(read, e);
    var j := LostIn(read[a].entries, e);
    var k :| 0 <= k < j && !read[a].entries[k].ended;
    assert Harms(read[a].entries, Only(e), k, j);
  }

  lemma {:induction false} LostHunk(hunks: seq<Hunk>, e: Entry) returns (a: nat)
    requires e in LostAll(hunks)
    ensures a < |hunks| && e in Lost(hunks[a].entries)
  {
    if e in Lost(hunks[0].entries) {
      a := 0;
    } else {
      a := LostHunk(hunks[1..], e);
      a := a + 1;
    }
  }

  // ---------------------------------------------------------------- witnesses

  lemma WholeFile(file: seq<Line>)
    ensures Lines(file, 1, |file| + 1) == file && Lines(file, 1, 1) == [] && Lines(file, |file| + 1, |file| + 1) == []
  {
  }

  lemma NothingLeft(oldFile: seq<Line>, newFile: seq<Line>)
    ensures Describes([], oldFile, newFile, |oldFile| + 1, |newFile| + 1)
  {
  }

  lemma OneHunkDescribes(h: Hunk, oldFile: seq<Line>, newFile: seq<Line>)
    requires h.oldStart == h.newStart == 1 && OldSide(h.entries) == oldFile && NewSide(h.entries) == newFile
    ensures Describes([h], oldFile, newFile, 1, 1)
  {
    hide *;
    WholeFile(oldFile);
    WholeFile(newFile);
    NothingLeft(oldFile, newFile);
    assert [h][0] == h && [h][1..] == [];
    DescribesCons([h], oldFile, newFile, 1, 1);
  }

  /** A one-hunk diff, from the entries of the hunk. */
  lemma OneHunk(h: Hunk, oldFile: seq<Line>, newFile: seq<Line>)
    requires Chained(h.entries, 1, 1) && h.oldStart == h.newStart == 1
    requires OldSide(h.entries) == oldFile && NewSide(h.entries) == newFile && IsFile(oldFile) && IsFile(newFile)
    ensures ReadDiff(MarkedDiff([h])) == Some([h]) && WellFormed(MarkedDiff([h]), oldFile, newFile)
  {
    hide ReadDiff, MarkedDiff, OldSide, NewSide, Chained, IsFile, Describes;
    MarkedDiffReads([h]);
    OneHunkDescribes(h, oldFile, newFile);
  }

  lemma TwoSides(e1: Entry, e2: Entry)
    ensures OldSide([e1, e2]) == (if e1.OnOld() then [e1.AsLine()] else []) + (if e2.OnOld() then [e2.AsLine()] else [])
    ensures NewSide([e1, e2]) == (if e1.OnNew() then [e1.AsLine()] else []) + (if e2.OnNew() then [e2.AsLine()] else [])
    ensures e2.oldBefore == e1.OldAfter() && e2.newBefore == e1.NewAfter() ==>
              Chained([e1, e2], e1.oldBefore, e1.newBefore)
  {
    hide OldSide, NewSide;
    assert [e1, e2][1..] == [e2] && [e2][1..] == [];
    SidesUnfold([e1, e2]);
    SidesUnfold([e2]);
    assert OldSide([]) == [] && NewSide([]) == [] by { NoSides(); }
    assert Chained([e2], e2.oldBefore, e2.newBefore);
  }

  lemma NoSides()
    ensures OldSide([]) == [] && NewSide([]) == []
  {
  }

  /** `a` becomes `b`, neither with a newline: the added line is lost. */
  lemma MarkerWitness()
    ensures var h := Hunk(1, 1, [Entry(Delete, "a", false, 1, 1), Entry(Insert, "b", false, 2, 1)]);
            var lines := MarkedDiff([h]);
            && WellFormed(lines, [Line("a", false)], [Line("b", false)]) && !CleanDiff(lines)
            && SelectedPatch(lines, Selection({}, {1})) == []
  {
    hide ReadDiff, MarkedDiff, SelectedPatch, OldSide, NewSide, Chained, Describes;
    var e1, e2 := Entry(Delete, "a", false, 1, 1), Entry(Insert, "b", false, 2, 1);
    var h := Hunk(1, 1, [e1, e2]);
    TwoSides(e1, e2);
    OneHunk(h, [Line("a", false)], [Line("b", false)]);
    assert !CleanEntries(h.entries) by {
      assert !h.entries[0].ended;
    }
    assert [e1, e2][1..] == [e2] && [h][1..] == [];
    assert e2 in Lost([e1, e2]) && LostAll([h]) == Lost([e1, e2]) + [];
    MarkerLosesChange(MarkedDiff([h]), [Line("a", false)], [Line("b", false)], e2);
    assert Only(e2) == Selection({}, {1});
  }

  /** Deleting a last line without a newline: nothing is lost, but the patch claims a newline. */
  lemma NewlineWitness()
    ensures var h := Hunk(1, 1, [Entry(Keep, "x", true, 1, 1), Entry(Delete, "a", false, 2, 2)]);
            var lines, oldFile := MarkedDiff([h]), [Line("x", true), Line("a", false)];
            && WellFormed(lines, oldFile, [Line("x", true)]) && !CleanDiff(lines)
            && LostAll([h]) == [] && !StagesExactly(lines, oldFile, Selection({2}, {}))
  {
    hide ReadDiff, MarkedDiff, SelectedPatch, OldSide, NewSide, Chained, Describes, StagesExactly;
    var e1, e2 := Entry(Keep, "x", true, 1, 1), Entry(Delete, "a", false, 2, 2);
    var h := Hunk(1, 1, [e1, e2]);
    var oldFile := [Line("x", true), Line("a", false)];
    TwoSides(e1, e2);
    OneHunk(h, oldFile, [Line("x", true)]);
    assert Harms(h.entries, Selection({2}, {}), 1, 1);
    StagingTheorem(MarkedDiff([h]), oldFile, [Line("x", true)], Selection({2}, {}));
    assert !CleanEntries(h.entries) by {
      assert !h.entries[1].ended;
    }
    assert [e1, e2][1..] == [e2] && [e2][1..] == [] && [h][1..] == [];
    assert Lost([e2]) == [] && Lost([e1, e2]) == [] && LostAll([h]) == [] + [];
  }

  /** The same changes with newlines are clean. */
  lemma CleanWitness()
    ensures var h := Hunk(1, 1, [Entry(Delete, "a", true, 1, 1), Entry(Insert, "b", true, 2, 1)]);
            var lines := MarkedDiff([h]);
            WellFormed(lines, [Line("a", true)], [Line("b", true)]) && CleanDiff(lines)
  {
    hide ReadDiff, MarkedDiff, OldSide, NewSide, Chained, Describes;
    var e1, e2 := Entry(Delete, "a", true, 1, 1), Entry(Insert, "b", true, 2, 1);
    TwoSides(e1, e2);
    OneHunk(Hunk(1, 1, [e1, e2]), [Line("a", true)], [Line("b", true)]);
  }
}
