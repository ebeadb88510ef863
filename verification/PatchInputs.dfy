/**
 What the text of a diff means to `build_selected_patch`: which lines are body lines and on
 which sides, that only the two starts of a header matter, and when the result is empty
 (git_patch_selection.py:6-8, 33-109, 160-161).
 */
module PatchInputs {
  import opened Wrappers
  import opened PatchFormat
  import opened PatchSelection

  /** The first character of a line decides all: what it is, which cursor moves, and which numbers pick it. */
  lemma LineTheorem(raw: string, o: nat, n: nat, sel: Selection)
    ensures IsBodyLine(raw) <==> raw != "" && raw[0] in {' ', '-', '+'}
    ensures IsBodyLine(raw) ==>
              var e := EntryOf(raw, o, n);
              && e.Raw() == raw && e.AsLine() == Line(raw[1..], true)
              && (e.OnOld() <==> raw[0] != '+') && (e.OnNew() <==> raw[0] != '-')
              && e.OldAfter() == (if raw[0] == '+' then o else o + 1)
              && e.NewAfter() == (if raw[0] == '-' then n else n + 1)
              && (sel.Picks(e) <==> (raw[0] == '-' && o in sel.oldLines) || (raw[0] == '+' && n in sel.newLines))
  {
    if raw != "" {
      assert raw == [raw[0]] + raw[1..];
    }
  }

  // ------------------------------------------------------- only starts matter

  /** The same line, or two headers with the same starts. */
  predicate SameStarts(a: string, b: string) {
    || a == b
    || (ParseHeader(a).Some? && ParseHeader(b).Some?
        && ParseHeader(a).value.oldStart == ParseHeader(b).value.oldStart
        && ParseHeader(a).value.newStart == ParseHeader(b).value.newStart)
  }

  predicate AllSameStarts(a: seq<string>, b: seq<string>) {
    |a| == |b| && forall i :: 0 <= i < |a| ==> SameStarts(a[i], b[i])
  }

  lemma HeaderMarks(line: string)
    requires ParseHeader(line).Some?
    ensures IsHunkLine(line)
  {
    hide TakeNumber, TakeCount;
    assert line[..4] == "@@ -" && line[..3] == line[..4][..3] == "@@ ";
  }

  lemma SameMarks(a: string, b: string)
    requires SameStarts(a, b)
    ensures IsHunkLine(a) <==> IsHunkLine(b)
    ensures !IsHunkLine(a) ==> a == b
    ensures ParseHeader(a).Some? <==> ParseHeader(b).Some?
  {
    hide ParseHeader;
    if a != b {
      HeaderMarks(a);
      HeaderMarks(b);
    }
  }

  lemma SameTail(a: seq<string>, b: seq<string>)
    requires AllSameStarts(a, b) && a != []
    ensures AllSameStarts(a[1..], b[1..]) && SameStarts(a[0], b[0])
  {
    hide SameStarts;
  }

  lemma {:induction false} SamePreamble(a: seq<string>, b: seq<string>)
    requires AllSameStarts(a, b)
    ensures var p := PreambleLength(a);
            PreambleLength(b) == p && a[..p] == b[..p] && AllSameStarts(a[p..], b[p..])
  {
    hide SameStarts, IsHunkLine;
    if a != [] {
      SameTail(a, b);
      SameMarks(a[0], b[0]);
      if IsHunkLine(a[0]) {
        assert a[0..] == a && b[0..] == b;
      } else {
        SamePreamble(a[1..], b[1..]);
        var p := PreambleLength(a[1..]);
        assert a[..p + 1] == [a[0]] + a[1..][..p] && b[..p + 1] == [b[0]] + b[1..][..p];
        assert a[1..][p..] == a[p + 1..] && b[1..][p..] == b[p + 1..];
      }
    }
  }

  lemma {:induction false} SameEntries(a: seq<string>, b: seq<string>, o: nat, n: nat)
    requires AllSameStarts(a, b)
    ensures TakeEntries(a, o, n) == TakeEntries(b, o, n)
  {
    hide SameStarts, IsHunkLine, EntryOf;
    if a != [] {
      SameTail(a, b);
      SameMarks(a[0], b[0]);
      if IsBodyLine(a[0]) {
        var e := EntryOf(a[0], o, n);
        SameEntries(a[1..], b[1..], e.OldAfter(), e.NewAfter());
      }
    }
  }

  lemma {:induction false} SameHunks(a: seq<string>, b: seq<string>)
    requires AllSameStarts(a, b)
    ensures ParseHunks(a) == ParseHunks(b)
    decreases |a|
  {
    hide TakeEntries, ParseHeader;
    if a != [] {
      SameTail(a, b);
      SameMarks(a[0], b[0]);
      match ParseHeader(a[0])
      case None => SameHunks(a[1..], b[1..]);
      case Some(h) =>
        SameEntries(a[1..], b[1..], h.oldStart, h.newStart);
        var k := |TakeEntries(a[1..], h.oldStart, h.newStart)|;
        SameDrop(a[1..], b[1..], k);
        SameHunks(a[1..][k..], b[1..][k..]);
    }
  }

  lemma SameDrop(a: seq<string>, b: seq<string>, k: nat)
    requires AllSameStarts(a, b) && k <= |a|
    ensures AllSameStarts(a[k..], b[k..])
  {
    hide SameStarts;
  }

  /** Diffs whose headers have the same starts, whatever their counts and tails, give the same patch. */
  lemma StartsTheorem(a: seq<string>, b: seq<string>, sel: Selection)
    requires AllSameStarts(a, b)
    ensures SelectedPatch(a, sel) == SelectedPatch(b, sel)
  {
    hide AllSameStarts, ParseHunks, SelectHunks;
    SamePreamble(a, b);
    var p := PreambleLength(a);
    SameHunks(a[p..], b[p..]);
  }

  lemma {:induction false} JoinConcat(a: seq<string>, b: seq<string>)
    ensures JoinLines(a + b) == JoinLines(a) + JoinLines(b)
  {
    if a == [] {
      assert a + b == b;
    } else {
      assert (a + b)[1..] == a[1..] + b;
      JoinConcat(a[1..], b);
    }
  }

  lemma HeaderTextIsLine(o: nat, c: Option<nat>, n: nat, d: Option<nat>, tail: string)
    requires IsLine(tail)
    ensures IsLine(HeaderText(o, c, n, d, tail))
  {
    ShowIsLine(o);
    ShowIsLine(n);
    if c.Some? {
      ShowIsLine(c.value);
    }
    if d.Some? {
      ShowIsLine(d.value);
    }
  }

  lemma OneHeader(before: seq<string>, x: string, y: string, after: seq<string>)
    requires SameStarts(x, y)
    ensures AllSameStarts(before + [x] + after, before + [y] + after)
  {
    hide ParseHeader;
  }

  /** On text: a header written in any of its forms gives the patch that the printed form gives. */
  lemma FormsTheorem(before: seq<string>, o: nat, c: Option<nat>, n: nat, d: Option<nat>, tail: string,
                     after: seq<string>, h: Header, sel: Selection)
    requires AreLines(before) && AreLines(after) && IsLine(tail) && h.oldStart == o && h.newStart == n
    ensures SelectedText(JoinLines(before + [HeaderText(o, c, n, d, tail)] + after), sel)
            == SelectedText(JoinLines(before + [ShowHeader(h)] + after), sel)
  {
    hide ParseHeader, HeaderText, ShowHeader, SelectedPatch, SplitLines, JoinLines;
    var a := before + [HeaderText(o, c, n, d, tail)] + after;
    var b := before + [ShowHeader(h)] + after;
    HeaderTextIsLine(o, c, n, d, tail);
    HeaderIsLine(h);
    HeaderForms(o, c, n, d, tail);
    HeaderRoundTrip(h);
    SplitJoin(a);
    SplitJoin(b);
    OneHeader(before, HeaderText(o, c, n, d, tail), ShowHeader(h), after);
    StartsTheorem(a, b, sel);
  }

  // ------------------------------------------------------ what is printed

  /** Some picked line is this one, or is next to it if it is a context line. */
  predicate Wanted(entries: seq<Entry>, sel: Selection, i: nat)
    requires i < |entries|
  {
    exists j :: 0 <= j < |entries| && sel.Picks(entries[j])
                && (j == i || (entries[i].kind.Keep? && i - 1 <= j <= i + 1))
  }

  lemma WantedIncluded(entries: seq<Entry>, sel: Selection, i: nat)
    requires i < |entries|
    ensures Wanted(entries, sel, i) <==> Flags(entries, sel)[i]
  {
    if Included(entries, sel, i) {
      if !sel.Picks(entries[i]) {
        var j := if 0 < i && sel.Picks(entries[i - 1]) then i - 1 else i + 1;
        assert sel.Picks(entries[j]);
      }
    }
  }

  /** `segment` is a stretch of wanted entries that cannot be made longer. */
  ghost predicate MaximalRun(entries: seq<Entry>, sel: Selection, segment: seq<Entry>, i: nat, e: nat) {
    && i < e <= |entries| && segment == entries[i..e]
    && (forall j :: i <= j < e ==> Wanted(entries, sel, j))
    && (0 < i ==> !Wanted(entries, sel, i - 1)) && (e < |entries| ==> !Wanted(entries, sel, e))
  }

  lemma {:induction false} RunAt(entries: seq<Entry>, inc: seq<bool>, i: nat, k: nat) returns (a: nat, e: nat)
    requires i <= |entries| == |inc| && (0 < i ==> !inc[i - 1] || (i < |inc| ==> !inc[i]))
    requires k < |RunsFrom(entries, inc, i)|
    ensures i <= a < e <= |entries| && RunsFrom(entries, inc, i)[k] == entries[a..e]
    ensures (forall j :: a <= j < e ==> inc[j]) && (0 < a ==> !inc[a - 1]) && (e < |entries| ==> !inc[e])
    decreases |entries| - i
  {
    if !inc[i] {
      a, e := RunAt(entries, inc, i + 1, k);
    } else if k == 0 {
      a, e := i, RunEnd(inc, i);
    } else {
      a, e := RunAt(entries, inc, RunEnd(inc, i), k - 1);
    }
  }

  lemma {:induction false} RunOf(entries: seq<Entry>, inc: seq<bool>, i: nat, j: nat) returns (k: nat)
    requires i <= j < |entries| == |inc| && inc[j]
    ensures k < |RunsFrom(entries, inc, i)| && entries[j] in RunsFrom(entries, inc, i)[k]
    decreases |entries| - i
  {
    if !inc[i] {
      k := RunOf(entries, inc, i + 1, j);
    } else if j < RunEnd(inc, i) {
      k := 0;
      assert entries[i..RunEnd(inc, i)][j - i] == entries[j];
    } else {
      var l := RunOf(entries, inc, RunEnd(inc, i), j);
      k := l + 1;
    }
  }

  ghost predicate IsMaximalRun(entries: seq<Entry>, sel: Selection, segment: seq<Entry>) {
    exists i, e :: MaximalRun(entries, sel, segment, i, e)
  }

  /** What is printed of a hunk: maximal runs of wanted lines, each as one hunk, and every wanted line. */
  lemma SegmentsTheorem(entries: seq<Entry>, sel: Selection)
    ensures forall segment :: segment in Segments(entries, sel) ==> IsMaximalRun(entries, sel, segment)
    ensures forall j :: 0 <= j < |entries| && Wanted(entries, sel, j) ==>
              exists segment :: segment in Segments(entries, sel) && entries[j] in segment
  {
    hide Wanted, Flags, RunsFrom;
    var inc, segments := Flags(entries, sel), Segments(entries, sel);
    assert segments == RunsFrom(entries, inc, 0);
    forall i | 0 <= i < |entries| ensures Wanted(entries, sel, i) <==> inc[i] {
      WantedIncluded(entries, sel, i);
    }
    forall segment | segment in segments ensures IsMaximalRun(entries, sel, segment) {
      var k: nat :| k < |segments| && segments[k] == segment;
      var a, e := RunAt(entries, inc, 0, k);
      assert MaximalRun(entries, sel, segment, a, e);
    }
    forall j | 0 <= j < |entries| && Wanted(entries, sel, j)
      ensures exists segment :: segment in segments && entries[j] in segment
    {
      var k := RunOf(entries, inc, 0, j);
      assert segments[k] in segments;
    }
  }

  // ------------------------------------------------------- the empty patch

  predicate PicksNone(hunks: seq<Hunk>, sel: Selection) {
    forall a, i :: 0 <= a < |hunks| && 0 <= i < |hunks[a].entries| ==> !sel.Picks(hunks[a].entries[i])
  }

  lemma {:induction false} NoHunksSelected(hunks: seq<Hunk>, sel: Selection)
    ensures SelectHunks(hunks, sel) == [] <==> PicksNone(hunks, sel)
  {
    hide Segments;
    if hunks != [] {
      var entries := hunks[0].entries;
      NoHunksSelected(hunks[1..], sel);
      NoSegments(entries, sel);
      assert forall a :: 1 <= a < |hunks| ==> hunks[a] == hunks[1..][a - 1];
      if SelectHunks(hunks, sel) == [] {
        forall a, i | 0 <= a < |hunks| && 0 <= i < |hunks[a].entries| ensures !sel.Picks(hunks[a].entries[i]) {
          if 0 < a {
            assert hunks[1..][a - 1] == hunks[a];
          }
        }
      }
    }
  }

  lemma NoSegments(entries: seq<Entry>, sel: Selection)
    ensures HunksOf(Segments(entries, sel)) == [] <==> forall i :: 0 <= i < |entries| ==> !sel.Picks(entries[i])
  {
    hide RunsFrom;
    if forall i :: 0 <= i < |entries| ==> !sel.Picks(entries[i]) {
      NoRuns(entries, sel);
    } else {
      var i :| 0 <= i < |entries| && sel.Picks(entries[i]);
      assert Flags(entries, sel)[i];
      SomeRun(entries, Flags(entries, sel), 0, i);
    }
  }

  lemma {:induction false} SomeRun(entries: seq<Entry>, inc: seq<bool>, i: nat, j: nat)
    requires i <= j < |entries| == |inc| && inc[j]
    ensures RunsFrom(entries, inc, i) != []
    decreases j - i
  {
    if !inc[i] {
      SomeRun(entries, inc, i + 1, j);
    }
  }

  /** The patch is empty exactly when no line that was read is picked. */
  lemma EmptyTheorem(lines: seq<string>, sel: Selection)
    ensures SelectedPatch(lines, sel) == [] <==> PicksNone(ParseHunks(lines[PreambleLength(lines)..]), sel)
  {
    hide SelectHunks, ParseHunks, PicksNone;
    var hunks := ParseHunks(lines[PreambleLength(lines)..]);
    NoHunksSelected(hunks, sel);
    PrintsNothing(SelectHunks(hunks, sel));
    var printed := PrintHunks(SelectHunks(hunks, sel));
    assert |lines[..PreambleLength(lines)] + printed| == PreambleLength(lines) + |printed|;
  }

  lemma PrintsNothing(hunks: seq<Hunk>)
    ensures PrintHunks(hunks) == [] <==> hunks == []
  {
  }

  // ---------------------------------------------------------------- witness

  /** One changed line as `git diff -U0` shows it; its deletion alone is staged, with both counts written. */
  lemma OneLineWitness()
    ensures SelectedText("diff\n@@ -5 +5 @@\n-a\n+b\n", Selection({5}, {})) == "diff\n@@ -5,1 +5,0 @@\n-a\n"
  {
    hide ParseHeader, SelectHunks, SplitLines, JoinLines, TakeEntries, ShowHeader, Show;
    var sel := Selection({5}, {});
    var lines := ["diff", "@@ -5 +5 @@", "-a", "+b"];
    var e1, e2 := Entry(Delete, "a", true, 5, 5), Entry(Insert, "b", true, 6, 5);
    var h := Hunk(5, 5, [e1]);
    WitnessText();
    WitnessOutput();
    WitnessParses();
    assert lines[0][0] == 'd' && lines[1][..3] == "@@ " && IsHunkLine(lines[1]) && !IsHunkLine(lines[0]);
    assert PreambleLength(lines) == 1 && lines[1..] == ["@@ -5 +5 @@", "-a", "+b"];
    WitnessSelects(e1, e2, sel);
    WitnessPrints(h);
    assert lines[..1] == ["diff"];
    assert SelectedPatch(lines, sel) == ["diff", "@@ -5,1 +5,0 @@", "-a"];
  }

  lemma WitnessParses()
    ensures ParseHunks(["@@ -5 +5 @@", "-a", "+b"])
            == [Hunk(5, 5, [Entry(Delete, "a", true, 5, 5), Entry(Insert, "b", true, 6, 5)])]
  {
    hide ParseHeader, HeaderText;
    var lines := ["@@ -5 +5 @@", "-a", "+b"];
    ShortHeader();
    HeaderForms(5, None, 5, None, "");
    assert lines[1..] == ["-a", "+b"] && ["-a", "+b"][1..] == ["+b"] && ["+b"][1..] == [];
    LineTheorem("-a", 5, 5, Selection({}, {}));
    LineTheorem("+b", 6, 5, Selection({}, {}));
    assert "-a"[1..] == "a" && "+b"[1..] == "b";
    assert EntryOf("-a", 5, 5) == Entry(Delete, "a", true, 5, 5)
           && EntryOf("+b", 6, 5) == Entry(Insert, "b", true, 6, 5);
    assert TakeEntries([], 6, 6) == [];
    assert TakeEntries(["+b"], 6, 5) == [EntryOf("+b", 6, 5)] + [];
    assert TakeEntries(["-a", "+b"], 5, 5) == [EntryOf("-a", 5, 5)] + [EntryOf("+b", 6, 5)];
    var e1, e2 := Entry(Delete, "a", true, 5, 5), Entry(Insert, "b", true, 6, 5);
    assert TakeEntries(lines[1..], 5, 5) == [e1, e2];
    assert lines[1..][2..] == [] && ParseHunks([]) == [];
    assert ParseHeader(lines[0]) == Some(Header(5, 1, 5, 1));
    assert ParseHunks(lines) == [Hunk(5, 5, [e1, e2])] + [];
  }

  lemma ShortHeader()
    ensures HeaderText(5, None, 5, None, "") == "@@ -5 +5 @@"
    ensures ShowHeader(Header(5, 1, 5, 0)) == "@@ -5,1 +5,0 @@"
  {
    assert Show(5) == "5" && Show(1) == "1" && Show(0) == "0";
  }

  lemma WitnessSelects(e1: Entry, e2: Entry, sel: Selection)
    requires e1.kind.Delete? && e2.kind.Insert? && sel.Picks(e1) && !sel.Picks(e2)
    ensures SelectHunks([Hunk(5, 5, [e1, e2])], sel) == [SegmentHunk([e1])]
  {
    hide SegmentHunk, RunsFrom;
    var entries := [e1, e2];
    var inc := Flags(entries, sel);
    assert Included(entries, sel, 0) && !Included(entries, sel, 1);
    RunsAt(entries, inc, 0, 1);
    RunsSkip(entries, inc, 1, 2);
    RunsEnd(entries, inc);
    assert entries[0..1] == [e1] && [[e1]][1..] == [];
    assert Segments(entries, sel) == [[e1]] + [] == [[e1]];
    assert HunksOf([[e1]]) == [SegmentHunk([e1])] + [];
    assert [Hunk(5, 5, entries)][1..] == [] && SelectHunks([], sel) == [];
  }

  lemma WitnessPrints(h: Hunk)
    requires h == Hunk(5, 5, [Entry(Delete, "a", true, 5, 5)])
    ensures PrintHunks([h]) == ["@@ -5,1 +5,0 @@", "-a"] && SegmentHunk(h.entries) == h
  {
    var e := h.entries[0];
    ShortHeader();
    assert h.entries[1..] == [] && [h][1..] == [];
    assert OldSide(h.entries) == [e.AsLine()] + [] && NewSide(h.entries) == [] + [];
    assert e.Raw() == "-a" && Raws(h.entries) == ["-a"] + [];
  }

  lemma WitnessText()
    ensures SplitLines("diff\n@@ -5 +5 @@\n-a\n+b\n") == ["diff", "@@ -5 +5 @@", "-a", "+b"]
  {
    hide SplitLines, JoinLines;
    var lines := ["diff", "@@ -5 +5 @@", "-a", "+b"];
    FourLines(lines);
    assert "diff\n@@ -5 +5 @@\n-a\n+b\n" == "diff" + "\n" + ("@@ -5 +5 @@" + "\n" + ("-a" + "\n" + ("+b" + "\n" + "")));
    SplitJoin(lines);
  }

  lemma WitnessOutput()
    ensures JoinLines(["diff", "@@ -5,1 +5,0 @@", "-a"]) == "diff\n@@ -5,1 +5,0 @@\n-a\n"
  {
    hide JoinLines;
    var out := ["diff", "@@ -5,1 +5,0 @@", "-a"];
    FourLines(out + [""]);
    JoinConcat(out, [""]);
    LastEmpty();
    var text := "diff" + "\n" + ("@@ -5,1 +5,0 @@" + "\n" + ("-a" + "\n" + ("" + "\n" + "")));
    assert JoinLines(out) + "\n" == text;
    assert text == "diff\n@@ -5,1 +5,0 @@\n-a\n" + "\n";
    assert JoinLines(out) == text[..|text| - 1];
  }

  lemma LastEmpty()
    ensures JoinLines([""]) == "\n"
  {
    assert [""][1..] == [] && JoinLines([]) == "" && "" + "\n" + "" == "\n";
  }

  lemma FourLines(lines: seq<string>)
    requires |lines| == 4
    ensures JoinLines(lines) == lines[0] + "\n" + (lines[1] + "\n" + (lines[2] + "\n" + (lines[3] + "\n" + "")))
  {
    assert lines[1..][1..] == lines[2..] && lines[2..][1..] == lines[3..] && lines[3..][1..] == [];
    assert JoinLines([]) == "";
    assert JoinLines(lines[3..]) == lines[3] + "\n" + "";
    assert JoinLines(lines[2..]) == lines[2] + "\n" + JoinLines(lines[3..]);
    assert JoinLines(lines[1..]) == lines[1] + "\n" + JoinLines(lines[2..]);
  }
}
