/**
 What a patch means, and what the patch for a selection does to the old file.
 Patches are applied strictly: a hunk goes to the line its header names and its old
 side must be there.
 */
module PatchStaging {
  import opened Wrappers
  import opened PatchSelection
  import opened PatchReader

  /** Lines `from` to `to - 1` of a file, counted from 1; none when that is not a range of the file. */
  function Lines(file: seq<Line>, from: nat, to: nat): seq<Line> {
    if 1 <= from <= to <= |file| + 1 then file[from - 1..to - 1] else []
  }

  /** Only the last line of a file may lack its newline. */
  predicate IsFile(file: seq<Line>) {
    forall i :: 0 <= i < |file| - 1 ==> file[i].ended
  }

  lemma LinesLength(file: seq<Line>, a: nat, b: nat)
    requires 1 <= a <= b <= |file| + 1
    ensures |Lines(file, a, b)| == b - a
  {
  }

  /** Apply `hunks` to the part of `file` that starts at line `pos`. */
  function ApplyFrom(file: seq<Line>, pos: nat, hunks: seq<Hunk>): Option<seq<Line>>
    requires 1 <= pos <= |file| + 1
    decreases |hunks|
  {
    if hunks == [] then Some(Lines(file, pos, |file| + 1))
    else
      var at := hunks[0].oldStart;
      var end := at + |OldSide(hunks[0].entries)|;
      if pos <= at && end <= |file| + 1 && Lines(file, at, end) == OldSide(hunks[0].entries) then
        var rest :- ApplyFrom(file, end, hunks[1..]);
        Some(Lines(file, pos, at) + NewSide(hunks[0].entries) + rest)
      else None
  }

  function ApplyForward(file: seq<Line>, hunks: seq<Hunk>): Option<seq<Line>> {
    ApplyFrom(file, 1, hunks)
  }

  /** Lines outside every hunk, as context entries. */
  function Gap(context: seq<Line>, o: nat, n: nat): seq<Entry> {
    if context == [] then []
    else [Entry(Keep, context[0].text, context[0].ended, o, n)] + Gap(context[1..], o + 1, n + 1)
  }

  /**
   `hunks` is a diff of lines `o..` of the old file into lines `n..` of the new one: the
   stretches between hunks are equal, and every hunk's two sides are what the files hold
   at its two starts.
   */
  predicate Describes(hunks: seq<Hunk>, oldFile: seq<Line>, newFile: seq<Line>, o: nat, n: nat)
    decreases |hunks|
  {
    && 1 <= o <= |oldFile| + 1
    && 1 <= n <= |newFile| + 1
    && if hunks == [] then Lines(oldFile, o, |oldFile| + 1) == Lines(newFile, n, |newFile| + 1)
       else
         var h := hunks[0];
         var o', n' := h.oldStart + |OldSide(h.entries)|, h.newStart + |NewSide(h.entries)|;
         && o <= h.oldStart && n <= h.newStart
         && o' <= |oldFile| + 1 && n' <= |newFile| + 1
         && Lines(oldFile, o, h.oldStart) == Lines(newFile, n, h.newStart)
         && Lines(oldFile, h.oldStart, o') == OldSide(h.entries)
         && Lines(newFile, h.newStart, n') == NewSide(h.entries)
         && Describes(hunks[1..], oldFile, newFile, o', n')
  }

  /** The hunks lie one after the other in the old file, and their old sides are there. */
  predicate Fits(hunks: seq<Hunk>, oldFile: seq<Line>, o: nat)
    decreases |hunks|
  {
    && 1 <= o <= |oldFile| + 1
    && (hunks != [] ==>
          var h := hunks[0];
          var o' := h.oldStart + |OldSide(h.entries)|;
          && o <= h.oldStart && o' <= |oldFile| + 1
          && Lines(oldFile, h.oldStart, o') == OldSide(h.entries)
          && Fits(hunks[1..], oldFile, o'))
  }

  lemma {:induction false} DescribedFits(hunks: seq<Hunk>, oldFile: seq<Line>, newFile: seq<Line>, o: nat, n: nat)
    requires Describes(hunks, oldFile, newFile, o, n)
    ensures Fits(hunks, oldFile, o)
    decreases |hunks|
  {
    hide Lines, OldSide, NewSide;
    if hunks != [] {
      var h := hunks[0];
      DescribedFits(hunks[1..], oldFile, newFile,
                    h.oldStart + |OldSide(h.entries)|, h.newStart + |NewSide(h.entries)|);
    }
  }

  /** The first line of the first hunk, or the end of the file. */
  function NextHunk(oldFile: seq<Line>, hunks: seq<Hunk>): nat {
    if hunks == [] then |oldFile| + 1 else hunks[0].oldStart
  }

  /** The edit script of the whole file: the hunks' entries, with the stretches between them as context. */
  function Script(oldFile: seq<Line>, hunks: seq<Hunk>, o: nat, n: nat): seq<Entry>
    decreases |hunks|, 1
  {
    Gap(Lines(oldFile, o, NextHunk(oldFile, hunks)), o, n) + ScriptFromHunk(oldFile, hunks)
  }

  /** The script from the first hunk on. */
  function ScriptFromHunk(oldFile: seq<Line>, hunks: seq<Hunk>): seq<Entry>
    decreases |hunks|, 0
  {
    if hunks == [] then []
    else
      var h := hunks[0];
      h.entries
      + Script(oldFile, hunks[1..], h.oldStart + |OldSide(h.entries)|, h.newStart + |NewSide(h.entries)|)
  }

  /** The file with the picked deletions removed and the picked additions inserted where the script has them. */
  function Staged(script: seq<Entry>, sel: Selection): seq<Line> {
    if script == [] then []
    else
      var e := script[0];
      (if e.kind.Keep? || (e.kind.Delete? && !sel.Picks(e)) || (e.kind.Insert? && sel.Picks(e))
       then [e.AsLine()] else [])
      + Staged(script[1..], sel)
  }

  // ----------------------------------------------------------- small lemmas

  lemma {:induction false} StagedConcat(a: seq<Entry>, b: seq<Entry>, sel: Selection)
    ensures Staged(a + b, sel) == Staged(a, sel) + Staged(b, sel)
  {
    if a == [] {
      assert a + b == b;
    } else {
      assert (a + b)[1..] == a[1..] + b;
      StagedConcat(a[1..], b, sel);
    }
  }

  lemma {:induction false} StagedGap(context: seq<Line>, o: nat, n: nat, sel: Selection)
    ensures Staged(Gap(context, o, n), sel) == context
    ensures OldSide(Gap(context, o, n)) == context == NewSide(Gap(context, o, n))
  {
    if context != [] {
      StagedGap(context[1..], o + 1, n + 1, sel);
    }
  }

  /** Where every change is picked, staging gives the new side. */
  lemma {:induction false} StagedAll(entries: seq<Entry>, sel: Selection)
    requires forall i :: 0 <= i < |entries| && !entries[i].kind.Keep? ==> sel.Picks(entries[i])
    ensures Staged(entries, sel) == NewSide(entries)
  {
    if entries != [] {
      assert forall i :: 0 <= i < |entries[1..]| ==> entries[1..][i] == entries[i + 1];
      StagedAll(entries[1..], sel);
    }
  }

  /** Where no change is picked, staging gives the old side. */
  lemma {:induction false} StagedNone(entries: seq<Entry>, sel: Selection)
    requires forall i :: 0 <= i < |entries| ==> !sel.Picks(entries[i])
    ensures Staged(entries, sel) == OldSide(entries)
  {
    if entries != [] {
      assert forall i :: 0 <= i < |entries[1..]| ==> entries[1..][i] == entries[i + 1];
      StagedNone(entries[1..], sel);
    }
  }

  // -------------------------------------------------------------- application

  lemma LinesJoin(file: seq<Line>, a: nat, b: nat, c: nat)
    requires 1 <= a <= b <= c <= |file| + 1
    ensures Lines(file, a, c) == Lines(file, a, b) + Lines(file, b, c)
  {
  }

  /** From line `o` on, which no hunk precedes, `hunks` turns the rest of the file into `result`. */
  predicate Turns(file: seq<Line>, o: nat, hunks: seq<Hunk>, result: seq<Line>) {
    && 1 <= o <= |file| + 1
    && (hunks == [] || o <= hunks[0].oldStart)
    && ApplyFrom(file, o, hunks) == Some(result)
  }

  /** Lines before the first hunk are copied. */
  lemma TurnsSkip(file: seq<Line>, p: nat, q: nat, hunks: seq<Hunk>, result: seq<Line>)
    requires 1 <= p <= q && Turns(file, q, hunks, result)
    ensures Turns(file, p, hunks, Lines(file, p, q) + result)
  {
    LinesJoin(file, p, q, |file| + 1);
    if hunks != [] {
      var at := hunks[0].oldStart;
      var next := NewSide(hunks[0].entries);
      var rest := ApplyFrom(file, at + |OldSide(hunks[0].entries)|, hunks[1..]).value;
      LinesJoin(file, p, q, at);
      Reassociate(Lines(file, q, at), next, rest);
      Reassociate(Lines(file, p, at), next, rest);
      Reassociate(Lines(file, p, q), Lines(file, q, at), next + rest);
    }
  }

  lemma Reassociate<T>(a: seq<T>, b: seq<T>, c: seq<T>)
    ensures a + b + c == a + (b + c)
  {
  }

  /** A hunk that starts at line `o` itself and matches there. */
  lemma TurnsHere(file: seq<Line>, o: nat, h: Hunk, more: seq<Hunk>, result: seq<Line>)
    requires 1 <= o == h.oldStart && o - 1 + |OldSide(h.entries)| <= |file|
    requires file[o - 1..o - 1 + |OldSide(h.entries)|] == OldSide(h.entries)
    requires Turns(file, o + |OldSide(h.entries)|, more, result)
    ensures Turns(file, o, [h] + more, NewSide(h.entries) + result)
  {
    assert ([h] + more)[0] == h && ([h] + more)[1..] == more;
    assert file[o - 1..o - 1] + NewSide(h.entries) == NewSide(h.entries);
  }

  lemma PrefixOfSlice(file: seq<Line>, at: nat, a: seq<Line>, b: seq<Line>)
    requires 1 <= at && at - 1 + |a| + |b| <= |file|
    requires file[at - 1..at - 1 + |a| + |b|] == a + b
    ensures file[at - 1..at - 1 + |a|] == a
    ensures file[at + |a| - 1..at + |a| - 1 + |b|] == b
  {
    var slice := file[at - 1..at - 1 + |a| + |b|];
    assert slice[..|a|] == a && slice[|a|..] == b;
  }

  /** `entries[i..]` is the old text at line `o`, reached with cursors `o` and `n`. */
  predicate At(file: seq<Line>, entries: seq<Entry>, i: nat, o: nat, n: nat)
    requires i <= |entries|
  {
    && Chained(entries[i..], o, n)
    && 1 <= o && o - 1 + |OldSide(entries[i..])| <= |file|
    && file[o - 1..o - 1 + |OldSide(entries[i..])|] == OldSide(entries[i..])
  }

  /** The end of that text. */
  function End(entries: seq<Entry>, i: nat, o: nat): nat
    requires i <= |entries|
  {
    o + |OldSide(entries[i..])|
  }

  /** The runs of one hunk, followed by `more`, stage the hunk's entries from `i` on. */
  lemma {:induction false} TurnsRuns(file: seq<Line>, entries: seq<Entry>, sel: Selection, i: nat, o: nat, n: nat,
                                     more: seq<Hunk>, rest: seq<Line>)
    requires i <= |entries| && At(file, entries, i, o, n)
    requires Turns(file, End(entries, i, o), more, rest)
    ensures Turns(file, o, HunksOf(RunsFrom(entries, Flags(entries, sel), i)) + more, Staged(entries[i..], sel) + rest)
    decreases |entries| - i
  {
    var inc := Flags(entries, sel);
    if i == |entries| {
      assert entries[i..] == [];
      assert HunksOf(RunsFrom(entries, inc, i)) + more == more;
      assert Staged(entries[i..], sel) + rest == rest;
    } else if !inc[i] {
      var e := entries[i];
      AtNext(file, entries, sel, i, o, n);
      TurnsRuns(file, entries, sel, i + 1, e.OldAfter(), e.NewAfter(), more, rest);
      TurnsSkip(file, o, e.OldAfter(), HunksOf(RunsFrom(entries, inc, i + 1)) + more,
                Staged(entries[i + 1..], sel) + rest);
      Reassociate(Lines(file, o, e.OldAfter()), Staged(entries[i + 1..], sel), rest);
    } else {
      var e := RunEnd(inc, i);
      forall j | i <= j < e ensures Included(entries, sel, j) {
        assert inc[j];
      }
      TurnsRun(file, entries, sel, i, e, o, n, more, rest);
    }
  }

  /** The step for a run of included entries. */
  lemma {:induction false} TurnsRun(file: seq<Line>, entries: seq<Entry>, sel: Selection, i: nat, e: nat, o: nat,
                                    n: nat, more: seq<Hunk>, rest: seq<Line>)
    requires i < e <= |entries| && At(file, entries, i, o, n)
    requires Flags(entries, sel)[i] && e == RunEnd(Flags(entries, sel), i)
    requires forall j :: i <= j < e ==> Included(entries, sel, j)
    requires Turns(file, End(entries, i, o), more, rest)
    ensures Turns(file, o, HunksOf(RunsFrom(entries, Flags(entries, sel), i)) + more, Staged(entries[i..], sel) + rest)
    decreases |entries| - i, 0
  {
    hide *;
    var inc := Flags(entries, sel);
    var segment := entries[i..e];
    AtRun(file, entries, sel, i, e, o, n);
    TurnsRuns(file, entries, sel, e, o + |OldSide(segment)|, n + |NewSide(segment)|, more, rest);
    RunsFirst(entries, inc, i, more);
    var tail := HunksOf(RunsFrom(entries, inc, e)) + more;
    TurnsHere(file, o, SegmentHunk(segment), tail, Staged(entries[e..], sel) + rest);
    Reassociate(Staged(segment, sel), Staged(entries[e..], sel), rest);
  }

  lemma RunsFirst(entries: seq<Entry>, inc: seq<bool>, i: nat, more: seq<Hunk>)
    requires i < |entries| == |inc| && inc[i]
    ensures var e := RunEnd(inc, i);
            NonEmpty(RunsFrom(entries, inc, e)) && NonEmpty(RunsFrom(entries, inc, i)) &&
            HunksOf(RunsFrom(entries, inc, i)) + more
            == [SegmentHunk(entries[i..e])] + (HunksOf(RunsFrom(entries, inc, e)) + more)
  {
    var e := RunEnd(inc, i);
    var runs := RunsFrom(entries, inc, e);
    assert ([entries[i..e]] + runs)[1..] == runs;
  }

  /** Passing an entry that is not included: it is not picked, so its old line is copied. */
  lemma AtNext(file: seq<Line>, entries: seq<Entry>, sel: Selection, i: nat, o: nat, n: nat)
    requires i < |entries| && At(file, entries, i, o, n) && !Included(entries, sel, i)
    ensures var e := entries[i];
            && At(file, entries, i + 1, e.OldAfter(), e.NewAfter())
            && End(entries, i + 1, e.OldAfter()) == End(entries, i, o)
            && Staged(entries[i..], sel) == Lines(file, o, e.OldAfter()) + Staged(entries[i + 1..], sel)
  {
    var e := entries[i];
    assert entries[i..] == [e] + entries[i + 1..];
    OldSideConcat([e], entries[i + 1..]);
    StagedConcat([e], entries[i + 1..], sel);
    PrefixOfSlice(file, o, OldSide([e]), OldSide(entries[i + 1..]));
    assert OldSide([e]) == if e.OnOld() then [e.AsLine()] else [];
  }

  /** The facts about one run that `ApplyRuns` needs. */
  lemma AtRun(file: seq<Line>, entries: seq<Entry>, sel: Selection, i: nat, e: nat, o: nat, n: nat)
    requires i < e <= |entries| && At(file, entries, i, o, n)
    requires forall j :: i <= j < e ==> Included(entries, sel, j)
    ensures SegmentHunk(entries[i..e]) == Hunk(o, n, entries[i..e])
    ensures o - 1 + |OldSide(entries[i..e])| <= |file|
    ensures file[o - 1..o - 1 + |OldSide(entries[i..e])|] == OldSide(entries[i..e])
    ensures 1 <= o && At(file, entries, e, o + |OldSide(entries[i..e])|, n + |NewSide(entries[i..e])|)
    ensures End(entries, e, o + |OldSide(entries[i..e])|) == End(entries, i, o)
    ensures Staged(entries[i..e], sel) == NewSide(entries[i..e])
    ensures Staged(entries[i..], sel) == Staged(entries[i..e], sel) + Staged(entries[e..], sel)
  {
    var segment := entries[i..e];
    assert entries[i..] == segment + entries[e..];
    assert entries[i..][..e - i] == segment && entries[i..][e - i..] == entries[e..];
    ChainedSplit(entries[i..], e - i, o, n);
    StartsOfChained(segment, o, n);
    OldSideConcat(segment, entries[e..]);
    PrefixOfSlice(file, o, OldSide(segment), OldSide(entries[e..]));
    forall j | 0 <= j < |segment| && !segment[j].kind.Keep?
      ensures sel.Picks(segment[j])
    {
      assert Included(entries, sel, i + j);
    }
    StagedAll(segment, sel);
    StagedConcat(segment, entries[e..], sel);
  }

  /** Staging on parsed hunks: applying the selected hunks to the old file gives the staged script. */
  lemma {:induction false} TurnsSelected(hunks: seq<Hunk>, oldFile: seq<Line>, o: nat, n: nat, sel: Selection)
    requires ChainedHunks(hunks) && Fits(hunks, oldFile, o)
    ensures Turns(oldFile, o, SelectHunks(hunks, sel), Staged(Script(oldFile, hunks, o, n), sel))
    decreases |hunks|, 2
  {
    var q := NextHunk(oldFile, hunks);
    TurnsFromHunk(hunks, oldFile, o, sel);
    TurnsSkip(oldFile, o, q, SelectHunks(hunks, sel), Staged(ScriptFromHunk(oldFile, hunks), sel));
    StagedGap(Lines(oldFile, o, q), o, n, sel);
    StagedConcat(Gap(Lines(oldFile, o, q), o, n), ScriptFromHunk(oldFile, hunks), sel);
  }

  lemma {:induction false} TurnsFromHunk(hunks: seq<Hunk>, oldFile: seq<Line>, o: nat, sel: Selection)
    requires ChainedHunks(hunks) && Fits(hunks, oldFile, o)
    ensures Turns(oldFile, NextHunk(oldFile, hunks), SelectHunks(hunks, sel),
                  Staged(ScriptFromHunk(oldFile, hunks), sel))
    decreases |hunks|, 1
  {
    if hunks == [] {
      assert Lines(oldFile, |oldFile| + 1, |oldFile| + 1) == [];
    } else {
      TurnsMore(hunks, oldFile, o, sel);
    }
  }

  lemma {:induction false} TurnsMore(hunks: seq<Hunk>, oldFile: seq<Line>, o: nat, sel: Selection)
    requires hunks != [] && ChainedHunks(hunks) && Fits(hunks, oldFile, o)
    ensures Turns(oldFile, NextHunk(oldFile, hunks), SelectHunks(hunks, sel),
                  Staged(ScriptFromHunk(oldFile, hunks), sel))
    decreases |hunks|, 0
  {
    hide *;
    var h := hunks[0];
    var o', n' := h.oldStart + |OldSide(h.entries)|, h.newStart + |NewSide(h.entries)|;
    FitsStep(hunks, oldFile, o);
    ChainedStep(hunks);
    TurnsSelected(hunks[1..], oldFile, o', n', sel);
    TurnsHunk(h, oldFile, SelectHunks(hunks[1..], sel), Script(oldFile, hunks[1..], o', n'), sel);
    FirstHunkStep(oldFile, hunks, sel);
  }

  lemma ChainedStep(hunks: seq<Hunk>)
    requires hunks != [] && ChainedHunks(hunks)
    ensures Chained(hunks[0].entries, hunks[0].oldStart, hunks[0].newStart) && ChainedHunks(hunks[1..])
  {
  }

  lemma FirstHunkStep(oldFile: seq<Line>, hunks: seq<Hunk>, sel: Selection)
    requires hunks != []
    ensures NextHunk(oldFile, hunks) == hunks[0].oldStart
    ensures SelectHunks(hunks, sel) == HunksOf(Segments(hunks[0].entries, sel)) + SelectHunks(hunks[1..], sel)
    ensures ScriptFromHunk(oldFile, hunks)
            == hunks[0].entries
               + Script(oldFile, hunks[1..], hunks[0].oldStart + |OldSide(hunks[0].entries)|,
                        hunks[0].newStart + |NewSide(hunks[0].entries)|)
  {
  }

  lemma TurnsHunk(h: Hunk, oldFile: seq<Line>, more: seq<Hunk>, rest: seq<Entry>, sel: Selection)
    requires Chained(h.entries, h.oldStart, h.newStart)
    requires 1 <= h.oldStart && h.oldStart + |OldSide(h.entries)| <= |oldFile| + 1
    requires Lines(oldFile, h.oldStart, h.oldStart + |OldSide(h.entries)|) == OldSide(h.entries)
    requires Turns(oldFile, h.oldStart + |OldSide(h.entries)|, more, Staged(rest, sel))
    ensures Turns(oldFile, h.oldStart, HunksOf(Segments(h.entries, sel)) + more, Staged(h.entries + rest, sel))
  {
    assert h.entries[0..] == h.entries;
    TurnsRuns(oldFile, h.entries, sel, 0, h.oldStart, h.newStart, more, Staged(rest, sel));
    StagedConcat(h.entries, rest, sel);
  }

  lemma ScriptStep(oldFile: seq<Line>, hunks: seq<Hunk>, o: nat, n: nat)
    requires hunks != []
    ensures var h := hunks[0];
            Script(oldFile, hunks, o, n)
            == Gap(Lines(oldFile, o, h.oldStart), o, n)
               + (h.entries + Script(oldFile, hunks[1..], h.oldStart + |OldSide(h.entries)|,
                                     h.newStart + |NewSide(h.entries)|))
  {
    hide Gap, Lines, OldSide, NewSide;
  }

  lemma ScriptEnd(oldFile: seq<Line>, o: nat, n: nat)
    ensures Script(oldFile, [], o, n) == Gap(Lines(oldFile, o, |oldFile| + 1), o, n)
  {
  }

  lemma OldSideStep(gap: seq<Line>, o: nat, n: nat, entries: seq<Entry>, rest: seq<Entry>)
    ensures OldSide(Gap(gap, o, n) + (entries + rest)) == gap + (OldSide(entries) + OldSide(rest))
  {
    hide *;
    StagedGap(gap, o, n, Selection({}, {}));
    OldSideConcat(Gap(gap, o, n), entries + rest);
    OldSideConcat(entries, rest);
  }

  lemma NewSideStep(gap: seq<Line>, o: nat, n: nat, entries: seq<Entry>, rest: seq<Entry>)
    ensures NewSide(Gap(gap, o, n) + (entries + rest)) == gap + (NewSide(entries) + NewSide(rest))
  {
    hide *;
    StagedGap(gap, o, n, Selection({}, {}));
    NewSideConcat(Gap(gap, o, n), entries + rest);
    NewSideConcat(entries, rest);
  }

  lemma FitsStep(hunks: seq<Hunk>, oldFile: seq<Line>, o: nat)
    requires hunks != [] && Fits(hunks, oldFile, o)
    ensures var h := hunks[0];
            var o' := h.oldStart + |OldSide(h.entries)|;
            && 1 <= o <= h.oldStart <= o' <= |oldFile| + 1
            && Lines(oldFile, h.oldStart, o') == OldSide(h.entries)
            && Fits(hunks[1..], oldFile, o')
  {
    hide Lines, OldSide, NewSide;
  }

  lemma DescribesCons(hunks: seq<Hunk>, oldFile: seq<Line>, newFile: seq<Line>, o: nat, n: nat)
    requires hunks != []
    requires var h := hunks[0];
             var o', n' := h.oldStart + |OldSide(h.entries)|, h.newStart + |NewSide(h.entries)|;
             && 1 <= o <= h.oldStart && 1 <= n <= h.newStart
             && o' <= |oldFile| + 1 && n' <= |newFile| + 1
             && Lines(oldFile, o, h.oldStart) == Lines(newFile, n, h.newStart)
             && Lines(oldFile, h.oldStart, o') == OldSide(h.entries)
             && Lines(newFile, h.newStart, n') == NewSide(h.entries)
             && Describes(hunks[1..], oldFile, newFile, o', n')
    ensures Describes(hunks, oldFile, newFile, o, n)
  {
    hide Lines, OldSide, NewSide;
  }

  lemma DescribesStep(hunks: seq<Hunk>, oldFile: seq<Line>, newFile: seq<Line>, o: nat, n: nat)
    requires hunks != [] && Describes(hunks, oldFile, newFile, o, n)
    ensures var h := hunks[0];
            var o', n' := h.oldStart + |OldSide(h.entries)|, h.newStart + |NewSide(h.entries)|;
            && 1 <= o <= h.oldStart <= o' <= |oldFile| + 1
            && 1 <= n <= h.newStart <= n' <= |newFile| + 1
            && Lines(oldFile, o, h.oldStart) == Lines(newFile, n, h.newStart)
            && Lines(oldFile, h.oldStart, o') == OldSide(h.entries)
            && Lines(newFile, h.newStart, n') == NewSide(h.entries)
            && Describes(hunks[1..], oldFile, newFile, o', n')
  {
    hide Lines, OldSide, NewSide;
  }

  lemma ScriptEndSides(oldFile: seq<Line>, o: nat, n: nat)
    ensures OldSide(Script(oldFile, [], o, n)) == Lines(oldFile, o, |oldFile| + 1)
    ensures NewSide(Script(oldFile, [], o, n)) == Lines(oldFile, o, |oldFile| + 1)
  {
    ScriptEnd(oldFile, o, n);
    StagedGap(Lines(oldFile, o, |oldFile| + 1), o, n, Selection({}, {}));
  }

  /** The old side of the script is the old file. */
  lemma {:induction false} ScriptOldSide(hunks: seq<Hunk>, oldFile: seq<Line>, o: nat, n: nat)
    requires Fits(hunks, oldFile, o)
    ensures OldSide(Script(oldFile, hunks, o, n)) == Lines(oldFile, o, |oldFile| + 1)
    decreases |hunks|
  {
    hide *;
    if hunks == [] {
      ScriptEndSides(oldFile, o, n);
    } else {
      var h := hunks[0];
      var o', n' := h.oldStart + |OldSide(h.entries)|, h.newStart + |NewSide(h.entries)|;
      FitsStep(hunks, oldFile, o);
      ScriptOldSide(hunks[1..], oldFile, o', n');
      LinesJoin(oldFile, h.oldStart, o', |oldFile| + 1);
      LinesJoin(oldFile, o, h.oldStart, |oldFile| + 1);
      ScriptStep(oldFile, hunks, o, n);
      OldSideStep(Lines(oldFile, o, h.oldStart), o, n, h.entries, Script(oldFile, hunks[1..], o', n'));
    }
  }

  lemma DescribesEnd(oldFile: seq<Line>, newFile: seq<Line>, o: nat, n: nat)
    requires Describes([], oldFile, newFile, o, n)
    ensures Lines(oldFile, o, |oldFile| + 1) == Lines(newFile, n, |newFile| + 1)
  {
  }

  /** The new side of the script is the new file. */
  lemma {:induction false} ScriptNewSide(hunks: seq<Hunk>, oldFile: seq<Line>, newFile: seq<Line>, o: nat, n: nat)
    requires Describes(hunks, oldFile, newFile, o, n)
    ensures NewSide(Script(oldFile, hunks, o, n)) == Lines(newFile, n, |newFile| + 1)
    decreases |hunks|
  {
    hide *;
    if hunks == [] {
      ScriptEndSides(oldFile, o, n);
      DescribesEnd(oldFile, newFile, o, n);
    } else {
      var h := hunks[0];
      var o', n' := h.oldStart + |OldSide(h.entries)|, h.newStart + |NewSide(h.entries)|;
      DescribesStep(hunks, oldFile, newFile, o, n);
      ScriptNewSide(hunks[1..], oldFile, newFile, o', n');
      LinesJoin(newFile, h.newStart, n', |newFile| + 1);
      LinesJoin(newFile, n, h.newStart, |newFile| + 1);
      ScriptStep(oldFile, hunks, o, n);
      NewSideStep(Lines(oldFile, o, h.oldStart), o, n, h.entries, Script(oldFile, hunks[1..], o', n'));
    }
  }
}
