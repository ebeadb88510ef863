/**
 Selecting twice is selecting the intersection: for every input, well-formed or not,
 `build_selected_patch` with selection T on its own output for S prints the same text as
 one call with the intersection of S and T (git_patch_selection.py:33-163).
 */
module PatchComposition {
  import opened Wrappers
  import opened PatchFormat
  import opened PatchSelection
  import opened PatchReader

  lemma {:induction false} SelectHunksConcat(a: seq<Hunk>, b: seq<Hunk>, sel: Selection)
    ensures SelectHunks(a + b, sel) == SelectHunks(a, sel) + SelectHunks(b, sel)
  {
    if a == [] {
      assert a + b == b;
    } else {
      assert (a + b)[1..] == a[1..] + b;
      SelectHunksConcat(a[1..], b, sel);
    }
  }

  /** Inside a maximal run of S, what T includes is what the intersection includes in the whole hunk. */
  lemma FlagsInRun(entries: seq<Entry>, s: Selection, t: Selection, a: nat, e: nat)
    requires a < e <= |entries|
    requires forall j :: a <= j < e ==> Included(entries, s, j)
    requires 0 < a ==> !Included(entries, s, a - 1)
    requires e < |entries| ==> !Included(entries, s, e)
    ensures Flags(entries[a..e], t) == Flags(entries, s.Intersect(t))[a..e]
  {
    var part, both := entries[a..e], s.Intersect(t);
    forall j | a <= j < e ensures t.Picks(part[j - a]) == both.Picks(entries[j]) {
      assert Included(entries, s, j);
    }
    assert 0 < a ==> !both.Picks(entries[a - 1]);
    assert e < |entries| ==> !both.Picks(entries[e]);
    forall j | a <= j < e ensures Included(part, t, j - a) == Included(entries, both, j) {
    }
  }

  lemma IntersectIncludesLess(entries: seq<Entry>, s: Selection, t: Selection, i: nat)
    requires i < |entries| && Included(entries, s.Intersect(t), i)
    ensures Included(entries, s, i)
  {
  }

  /** No run of S is cut at `i`. */
  predicate AtBoundary(inc: seq<bool>, i: nat)
    requires i <= |inc|
  {
    i == 0 || i == |inc| || !inc[i - 1] || !inc[i]
  }

  lemma {:induction false} ComposeRuns(entries: seq<Entry>, s: Selection, t: Selection, i: nat)
    requires i <= |entries| && AtBoundary(Flags(entries, s), i)
    ensures SelectHunks(HunksOf(RunsFrom(entries, Flags(entries, s), i)), t)
            == HunksOf(RunsFrom(entries, Flags(entries, s.Intersect(t)), i))
    decreases |entries| - i
  {
    var inc, both := Flags(entries, s), Flags(entries, s.Intersect(t));
    if i == |entries| {
    } else if !inc[i] {
      if both[i] {
        IntersectIncludesLess(entries, s, t, i);
      }
      ComposeRuns(entries, s, t, i + 1);
    } else {
      ComposeRun(entries, s, t, i);
    }
  }

  lemma {:induction false} ComposeRun(entries: seq<Entry>, s: Selection, t: Selection, i: nat)
    requires i < |entries| && AtBoundary(Flags(entries, s), i) && Flags(entries, s)[i]
    ensures SelectHunks(HunksOf(RunsFrom(entries, Flags(entries, s), i)), t)
            == HunksOf(RunsFrom(entries, Flags(entries, s.Intersect(t)), i))
    decreases |entries| - i, 0
  {
    hide RunsFrom, HunksOf, SelectHunks, SegmentHunk, Segments;
    var inc, both := Flags(entries, s), Flags(entries, s.Intersect(t));
    var e := RunEnd(inc, i);
    var segment := entries[i..e];
    assert e != i;
    forall j | i <= j < e ensures Included(entries, s, j) {
      assert inc[j];
    }
    assert 0 < i ==> !inc[i - 1];
    FlagsInRun(entries, s, t, i, e);
    if e < |entries| && both[e] {
      IntersectIncludesLess(entries, s, t, e);
    }
    SplitRuns(entries, both, i, e, i);
    ComposeRuns(entries, s, t, e);
    RunsAt(entries, inc, i, e);
    OneSegment(segment, RunsFrom(entries, inc, e), t);
    HunksOfConcat(Segments(segment, t), RunsFrom(entries, both, e));
    SegmentsAre(segment, t);
  }

  lemma SegmentsAre(segment: seq<Entry>, t: Selection)
    ensures Segments(segment, t) == RunsFrom(segment, Flags(segment, t), 0)
  {
  }

  lemma OneSegment(segment: seq<Entry>, more: seq<seq<Entry>>, t: Selection)
    requires segment != [] && NonEmpty(more)
    ensures NonEmpty([segment] + more)
    ensures SelectHunks(HunksOf([segment] + more), t)
            == HunksOf(Segments(segment, t)) + SelectHunks(HunksOf(more), t)
  {
    assert ([segment] + more)[1..] == more;
    assert HunksOf([segment] + more)[1..] == HunksOf(more);
  }

  /** On hunks. */
  lemma {:induction false} ComposeHunks(hunks: seq<Hunk>, s: Selection, t: Selection)
    ensures SelectHunks(SelectHunks(hunks, s), t) == SelectHunks(hunks, s.Intersect(t))
  {
    if hunks != [] {
      ComposeRuns(hunks[0].entries, s, t, 0);
      SelectHunksConcat(HunksOf(Segments(hunks[0].entries, s)), SelectHunks(hunks[1..], s), t);
      ComposeHunks(hunks[1..], s, t);
    }
  }

  /** The output for `sel` has the preamble of the input and parses back to exactly the selected hunks. */
  lemma OutputParses(lines: seq<string>, sel: Selection)
    ensures var p := PreambleLength(lines);
            var chosen := SelectHunks(ParseHunks(lines[p..]), sel);
            var output := SelectedPatch(lines, sel);
            var q := PreambleLength(output);
            && ParseHunks(output[q..]) == chosen
            && (chosen != [] ==> output[..q] == lines[..p])
  {
    hide ParseHunks, SelectHunks, PrintHunks;
    var p := PreambleLength(lines);
    var chosen := SelectHunks(ParseHunks(lines[p..]), sel);
    if chosen == [] {
      NothingParses();
    } else {
      ParseHunksChained(lines[p..]);
      ParseHunksEnded(lines[p..]);
      SelectHunksChained(ParseHunks(lines[p..]), sel);
      SelectHunksEnded(ParseHunks(lines[p..]), sel);
      PrintedParsesBack(chosen);
      PrintedStartsHunk(chosen);
      PreambleOf(lines[..p], PrintHunks(chosen));
      var output := lines[..p] + PrintHunks(chosen);
      assert output[..p] == lines[..p] && output[p..] == PrintHunks(chosen);
    }
  }

  lemma NothingParses()
    ensures ParseHunks([]) == []
  {
  }

  /** On lines. */
  lemma CompositionOnLines(lines: seq<string>, s: Selection, t: Selection)
    ensures SelectedPatch(SelectedPatch(lines, s), t) == SelectedPatch(lines, s.Intersect(t))
  {
    hide ParseHunks, SelectHunks, PrintHunks;
    OutputParses(lines, s);
    ComposeHunks(ParseHunks(lines[PreambleLength(lines)..]), s, t);
    NothingSelects(t);
  }

  lemma NothingSelects(t: Selection)
    ensures SelectHunks([], t) == []
  {
  }

  // ------------------------------------------------------------------- text

  lemma {:induction false} RawsAreLines(entries: seq<Entry>)
    requires forall i :: 0 <= i < |entries| ==> IsLine(entries[i].text)
    ensures AreLines(Raws(entries))
  {
    if entries != [] {
      RawsAreLines(entries[1..]);
      assert IsLine(entries[0].Raw());
    }
  }

  ghost predicate LineTexts(hunks: seq<Hunk>) {
    forall i, j :: 0 <= i < |hunks| && 0 <= j < |hunks[i].entries| ==> IsLine(hunks[i].entries[j].text)
  }

  lemma {:induction false} PrintedAreLines(hunks: seq<Hunk>)
    requires LineTexts(hunks)
    ensures AreLines(PrintHunks(hunks))
  {
    if hunks != [] {
      HeaderIsLine(HeaderOf(hunks[0]));
      RawsAreLines(hunks[0].entries);
      assert forall i :: 0 <= i < |hunks[1..]| ==> hunks[1..][i] == hunks[i + 1];
      PrintedAreLines(hunks[1..]);
    }
  }

  lemma {:induction false} TakenAreLines(lines: seq<string>, o: nat, n: nat)
    requires AreLines(lines)
    ensures forall i :: 0 <= i < |TakeEntries(lines, o, n)| ==> IsLine(TakeEntries(lines, o, n)[i].text)
  {
    if lines != [] && IsBodyLine(lines[0]) {
      var e := EntryOf(lines[0], o, n);
      assert AreLines(lines[1..]);
      TakenAreLines(lines[1..], e.OldAfter(), e.NewAfter());
    }
  }

  lemma {:induction false} ParsedAreLines(lines: seq<string>)
    requires AreLines(lines)
    ensures LineTexts(ParseHunks(lines))
    decreases |lines|
  {
    if lines != [] {
      assert AreLines(lines[1..]);
      match ParseHeader(lines[0])
      case None => ParsedAreLines(lines[1..]);
      case Some(h) =>
        var entries := TakeEntries(lines[1..], h.oldStart, h.newStart);
        TakenAreLines(lines[1..], h.oldStart, h.newStart);
        ParsedAreLines(lines[1..][|entries|..]);
    }
  }

  lemma {:induction false} RunsAreLines(entries: seq<Entry>, inc: seq<bool>, i: nat)
    requires i <= |entries| == |inc|
    requires forall j :: 0 <= j < |entries| ==> IsLine(entries[j].text)
    ensures LineTexts(HunksOf(RunsFrom(entries, inc, i)))
    decreases |entries| - i
  {
    if i < |entries| && !inc[i] {
      RunsAreLines(entries, inc, i + 1);
    } else if i < |entries| {
      RunsAreLines(entries, inc, RunEnd(inc, i));
    }
  }

  lemma {:induction false} SelectedAreLines(hunks: seq<Hunk>, sel: Selection)
    requires LineTexts(hunks)
    ensures LineTexts(SelectHunks(hunks, sel))
  {
    if hunks != [] {
      RunsAreLines(hunks[0].entries, Flags(hunks[0].entries, sel), 0);
      assert LineTexts(hunks[1..]);
      SelectedAreLines(hunks[1..], sel);
    }
  }

  lemma PatchAreLines(lines: seq<string>, sel: Selection)
    requires AreLines(lines)
    ensures AreLines(SelectedPatch(lines, sel))
  {
    hide ParseHunks, SelectHunks, PrintHunks, LineTexts;
    var body := lines[PreambleLength(lines)..];
    ParsedAreLines(body);
    SelectedAreLines(ParseHunks(body), sel);
    PrintedAreLines(SelectHunks(ParseHunks(body), sel));
  }

  /** Composition on text; with S == T, building twice is building once. */
  lemma CompositionTheorem(diff: string, s: Selection, t: Selection)
    ensures SelectedText(SelectedText(diff, s), t) == SelectedText(diff, s.Intersect(t))
    ensures SelectedText(SelectedText(diff, s), s) == SelectedText(diff, s)
  {
    hide SelectedPatch, SplitLines, JoinLines;
    PatchAreLines(SplitLines(diff), s);
    SplitJoin(SelectedPatch(SplitLines(diff), s));
    CompositionOnLines(SplitLines(diff), s, t);
    CompositionOnLines(SplitLines(diff), s, s);
    assert s.Intersect(s) == s;
  }
}
