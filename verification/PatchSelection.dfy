/**
 `build_selected_patch` of git_patch_selection.py (lines 28-163): parse a unified
 diff into an edit script with two running cursors, keep the selected changed
 lines and the context next to them, cut the result into maximal contiguous
 segments and print each segment as a hunk.

 Cursors follow the code's own convention: a hunk's `oldStart` is the next old line
 not yet consumed, also when the hunk has no old line at all.
 */
module PatchSelection {
  import opened Wrappers
  import opened PatchFormat

  // ------------------------------------------------------------ edit script

  datatype Kind = Keep | Delete | Insert

  function KindOf(raw: string): Option<Kind> {
    if raw == "" then None
    else if raw[0] == ' ' then Some(Keep)
    else if raw[0] == '-' then Some(Delete)
    else if raw[0] == '+' then Some(Insert)
    else None
  }

  function Prefix(kind: Kind): char {
    match kind
    case Keep => ' '
    case Delete => '-'
    case Insert => '+'
  }

  /** A line of a file; only the last one may lack its newline. */
  datatype Line = Line(text: string, ended: bool)

  /**
   One body line with the cursors before it; its `old_ref`/`new_ref` is the cursor of a side
   it is on. The source has no place for a missing newline: it takes every line as ended.
   */
  datatype Entry = Entry(kind: Kind, text: string, ended: bool, oldBefore: nat, newBefore: nat) {
    function Raw(): string {
      [Prefix(kind)] + text
    }

    function AsLine(): Line {
      Line(text, ended)
    }

    predicate OnOld() {
      !kind.Insert?
    }

    predicate OnNew() {
      !kind.Delete?
    }

    function OldAfter(): nat {
      if OnOld() then oldBefore + 1 else oldBefore
    }

    function NewAfter(): nat {
      if OnNew() then newBefore + 1 else newBefore
    }
  }

  /** The old and the new line numbers of the changed lines to keep. */
  datatype Selection = Selection(oldLines: set<int>, newLines: set<int>) {
    predicate Picks(e: Entry) {
      (e.kind.Delete? && e.oldBefore in oldLines) || (e.kind.Insert? && e.newBefore in newLines)
    }

    function Intersect(other: Selection): Selection {
      Selection(oldLines * other.oldLines, newLines * other.newLines)
    }
  }

  datatype Hunk = Hunk(oldStart: nat, newStart: nat, entries: seq<Entry>)

  /** The lines of the entries on the old side. */
  function OldSide(entries: seq<Entry>): seq<Line> {
    if entries == [] then []
    else (if entries[0].OnOld() then [entries[0].AsLine()] else []) + OldSide(entries[1..])
  }

  /** The lines of the entries on the new side. */
  function NewSide(entries: seq<Entry>): seq<Line> {
    if entries == [] then []
    else (if entries[0].OnNew() then [entries[0].AsLine()] else []) + NewSide(entries[1..])
  }

  // ---------------------------------------------------------------- parsing

  predicate IsHunkLine(line: string) {
    "@@ " <= line
  }

  /** Number of lines before the first one that starts with `@@ `. */
  function PreambleLength(lines: seq<string>): (p: nat)
    ensures p <= |lines|
    ensures forall i :: 0 <= i < p ==> !IsHunkLine(lines[i])
    ensures p < |lines| ==> IsHunkLine(lines[p])
  {
    if lines == [] || IsHunkLine(lines[0]) then 0 else 1 + PreambleLength(lines[1..])
  }

  predicate IsBodyLine(line: string) {
    !IsHunkLine(line) && KindOf(line).Some?
  }

  function EntryOf(raw: string, o: nat, n: nat): Entry
    requires IsBodyLine(raw)
  {
    Entry(KindOf(raw).value, raw[1..], true, o, n)
  }

  /** The body lines at the front of `lines`, read with cursors `o` and `n`. */
  function TakeEntries(lines: seq<string>, o: nat, n: nat): (entries: seq<Entry>)
    ensures |entries| <= |lines|
  {
    if lines == [] || !IsBodyLine(lines[0]) then []
    else
      var e := EntryOf(lines[0], o, n);
      [e] + TakeEntries(lines[1..], e.OldAfter(), e.NewAfter())
  }

  /** All hunks; a line that is neither a header nor in a body is skipped. */
  function ParseHunks(lines: seq<string>): seq<Hunk>
    decreases |lines|
  {
    if lines == [] then []
    else
      match ParseHeader(lines[0])
      case None => ParseHunks(lines[1..])
      case Some(h) =>
        var entries := TakeEntries(lines[1..], h.oldStart, h.newStart);
        [Hunk(h.oldStart, h.newStart, entries)] + ParseHunks(lines[1..][|entries|..])
  }

  // -------------------------------------------------------------- selection

  /** A picked line, or a context line next to a picked one. */
  predicate Included(entries: seq<Entry>, sel: Selection, i: nat)
    requires i < |entries|
  {
    || sel.Picks(entries[i])
    || (entries[i].kind.Keep?
        && ((0 < i && sel.Picks(entries[i - 1])) || (i + 1 < |entries| && sel.Picks(entries[i + 1]))))
  }

  function Flags(entries: seq<Entry>, sel: Selection): (flags: seq<bool>)
    ensures |flags| == |entries|
  {
    seq(|entries|, i requires 0 <= i < |entries| => Included(entries, sel, i))
  }

  /** End of the run of set flags that starts at `i`. */
  function RunEnd(inc: seq<bool>, i: nat): (e: nat)
    requires i <= |inc|
    ensures i <= e <= |inc|
    ensures forall j :: i <= j < e ==> inc[j]
    ensures e < |inc| ==> !inc[e]
    decreases |inc| - i
  {
    if i == |inc| || !inc[i] then i else RunEnd(inc, i + 1)
  }

  predicate NonEmpty(segments: seq<seq<Entry>>) {
    forall k :: 0 <= k < |segments| ==> segments[k] != []
  }

  /** The maximal runs of set flags at or after `i`, in order. */
  function RunsFrom(entries: seq<Entry>, inc: seq<bool>, i: nat): (segments: seq<seq<Entry>>)
    requires i <= |entries| == |inc|
    ensures NonEmpty(segments)
    decreases |inc| - i
  {
    if i == |entries| then []
    else if !inc[i] then RunsFrom(entries, inc, i + 1)
    else
      var e := RunEnd(inc, i);
      [entries[i..e]] + RunsFrom(entries, inc, e)
  }

  function Segments(entries: seq<Entry>, sel: Selection): (segments: seq<seq<Entry>>)
    ensures NonEmpty(segments)
  {
    RunsFrom(entries, Flags(entries, sel), 0)
  }

  // ---------------------------------------------------------------- hunks

  /** Old start of a printed segment: the first old-side entry's line, else the segment's first cursor. */
  function OldStartOf(segment: seq<Entry>, default: nat): nat {
    if segment == [] then default
    else if segment[0].OnOld() then segment[0].oldBefore
    else OldStartOf(segment[1..], default)
  }

  function NewStartOf(segment: seq<Entry>, default: nat): nat {
    if segment == [] then default
    else if segment[0].OnNew() then segment[0].newBefore
    else NewStartOf(segment[1..], default)
  }

  function SegmentHunk(segment: seq<Entry>): Hunk
    requires segment != []
  {
    Hunk(OldStartOf(segment, segment[0].oldBefore), NewStartOf(segment, segment[0].newBefore), segment)
  }

  function HunksOf(segments: seq<seq<Entry>>): seq<Hunk>
    requires NonEmpty(segments)
  {
    if segments == [] then [] else [SegmentHunk(segments[0])] + HunksOf(segments[1..])
  }

  function SelectHunks(hunks: seq<Hunk>, sel: Selection): seq<Hunk> {
    if hunks == [] then []
    else HunksOf(Segments(hunks[0].entries, sel)) + SelectHunks(hunks[1..], sel)
  }

  // --------------------------------------------------------------- printing

  function Raws(entries: seq<Entry>): seq<string> {
    if entries == [] then [] else [entries[0].Raw()] + Raws(entries[1..])
  }

  function HeaderOf(h: Hunk): Header {
    Header(h.oldStart, |OldSide(h.entries)|, h.newStart, |NewSide(h.entries)|)
  }

  function PrintHunk(h: Hunk): seq<string> {
    [ShowHeader(HeaderOf(h))] + Raws(h.entries)
  }

  function PrintHunks(hunks: seq<Hunk>): seq<string> {
    if hunks == [] then [] else PrintHunk(hunks[0]) + PrintHunks(hunks[1..])
  }

  /** The whole transformation on the lines of a diff; no selected line gives the empty patch. */
  function SelectedPatch(lines: seq<string>, sel: Selection): seq<string> {
    var p := PreambleLength(lines);
    var hunks := SelectHunks(ParseHunks(lines[p..]), sel);
    if hunks == [] then [] else lines[..p] + PrintHunks(hunks)
  }

  /** The same on text. */
  function SelectedText(diff: string, sel: Selection): string {
    JoinLines(SelectedPatch(SplitLines(diff), sel))
  }

  // ---------------------------------------------------------------- lemmas

  lemma {:induction false} HunksOfConcat(a: seq<seq<Entry>>, b: seq<seq<Entry>>)
    requires NonEmpty(a)
    requires NonEmpty(b)
    ensures HunksOf(a + b) == HunksOf(a) + HunksOf(b)
  {
    if a == [] {
      assert a + b == b;
    } else {
      assert (a + b)[1..] == a[1..] + b;
      HunksOfConcat(a[1..], b);
    }
  }

  lemma {:induction false} PrintHunksConcat(a: seq<Hunk>, b: seq<Hunk>)
    ensures PrintHunks(a + b) == PrintHunks(a) + PrintHunks(b)
  {
    if a == [] {
      assert a + b == b;
    } else {
      assert (a + b)[1..] == a[1..] + b;
      PrintHunksConcat(a[1..], b);
    }
  }

  lemma {:induction false} OldSideConcat(a: seq<Entry>, b: seq<Entry>)
    ensures OldSide(a + b) == OldSide(a) + OldSide(b)
  {
    if a == [] {
      assert a + b == b;
    } else {
      assert (a + b)[1..] == a[1..] + b;
      OldSideConcat(a[1..], b);
    }
  }

  lemma {:induction false} NewSideConcat(a: seq<Entry>, b: seq<Entry>)
    ensures NewSide(a + b) == NewSide(a) + NewSide(b)
  {
    if a == [] {
      assert a + b == b;
    } else {
      assert (a + b)[1..] == a[1..] + b;
      NewSideConcat(a[1..], b);
    }
  }

  /** Unset flags add no run. */
  lemma {:induction false} RunsSkip(entries: seq<Entry>, inc: seq<bool>, i: nat, k: nat)
    requires i <= k <= |entries| == |inc|
    requires forall j :: i <= j < k ==> !inc[j]
    ensures RunsFrom(entries, inc, i) == RunsFrom(entries, inc, k)
    decreases k - i
  {
    if i < k {
      RunsSkip(entries, inc, i + 1, k);
    }
  }

  lemma {:induction false} RunEndIs(inc: seq<bool>, i: nat, e: nat)
    requires i <= e <= |inc|
    requires forall j :: i <= j < e ==> inc[j]
    requires e < |inc| ==> !inc[e]
    ensures RunEnd(inc, i) == e
    decreases e - i
  {
    if i < e {
      RunEndIs(inc, i + 1, e);
    }
  }

  lemma RunsAt(entries: seq<Entry>, inc: seq<bool>, i: nat, e: nat)
    requires i < e <= |entries| == |inc|
    requires forall j :: i <= j < e ==> inc[j]
    requires e < |inc| ==> !inc[e]
    ensures RunsFrom(entries, inc, i) == [entries[i..e]] + RunsFrom(entries, inc, e)
  {
    RunEndIs(inc, i, e);
  }

  lemma RunsEnd(entries: seq<Entry>, inc: seq<bool>)
    requires |entries| == |inc|
    ensures RunsFrom(entries, inc, |entries|) == []
  {
  }

  /** Runs before and after an unset flag are cut separately. */
  lemma {:induction false} SplitRuns(entries: seq<Entry>, inc: seq<bool>, a: nat, e: nat, i: nat)
    requires a <= i <= e <= |entries| == |inc|
    requires e < |inc| ==> !inc[e]
    ensures RunsFrom(entries, inc, i) == RunsFrom(entries[a..e], inc[a..e], i - a) + RunsFrom(entries, inc, e)
    decreases e - i
  {
    hide RunsFrom;
    var part, flags := entries[a..e], inc[a..e];
    if i == e {
      RunsEnd(part, flags);
    } else if !inc[i] {
      SplitRuns(entries, inc, a, e, i + 1);
      RunsSkip(entries, inc, i, i + 1);
      RunsSkip(part, flags, i - a, i + 1 - a);
    } else {
      var end := RunEnd(inc, i);
      if e < |inc| {
        assert !inc[e];
        assert end <= e;
      }
      RunsAt(entries, inc, i, end);
      RunsAt(part, flags, i - a, end - a);
      SliceOfSlice(entries, a, e, i, end);
      SplitRuns(entries, inc, a, e, end);
    }
  }

  lemma SliceOfSlice<T>(s: seq<T>, a: nat, e: nat, i: nat, j: nat)
    requires a <= i <= j <= e <= |s|
    ensures s[a..e][i - a..j - a] == s[i..j]
  {
    var part := s[a..e];
    forall k | 0 <= k < j - i ensures part[i - a..j - a][k] == s[i..j][k] {
      assert part[i - a..j - a][k] == part[i - a + k] == s[i + k];
    }
  }

  // --------------------------------------------------------------- methods

  lemma TakeEntriesStep(lines: seq<string>, i: nat, o: nat, n: nat)
    requires i < |lines|
    ensures !IsBodyLine(lines[i]) ==> TakeEntries(lines[i..], o, n) == []
    ensures IsBodyLine(lines[i]) ==>
              var e := EntryOf(lines[i], o, n);
              TakeEntries(lines[i..], o, n) == [e] + TakeEntries(lines[i + 1..], e.OldAfter(), e.NewAfter())
  {
    assert lines[i..][0] == lines[i] && lines[i..][1..] == lines[i + 1..];
  }

  /** The inner loop of lines 57-102: read body lines and advance both cursors. */
  method CollectEntries(lines: seq<string>, start: nat, oldStart: nat, newStart: nat)
    returns (entries: seq<Entry>, i: nat)
    requires start <= |lines|
    ensures entries == TakeEntries(lines[start..], oldStart, newStart)
    ensures i == start + |entries| <= |lines|
  {
    hide TakeEntries;
    i := start;
    entries := [];
    var oldCur, newCur := oldStart, newStart;
    while i < |lines| && !IsHunkLine(lines[i])
      invariant start <= i <= |lines|
      invariant i == start + |entries|
      invariant TakeEntries(lines[start..], oldStart, newStart)
             == entries + TakeEntries(lines[i..], oldCur, newCur)
    {
      var raw := lines[i];
      TakeEntriesStep(lines, i, oldCur, newCur);
      match KindOf(raw) {
        case None =>
          break;
        case Some(kind) =>
          entries := entries + [Entry(kind, raw[1..], true, oldCur, newCur)];
          match kind {
            case Keep => oldCur, newCur := oldCur + 1, newCur + 1;
            case Delete => oldCur := oldCur + 1;
            case Insert => newCur := newCur + 1;
          }
      }
      i := i + 1;
    }
    TakeEntriesEnd(lines, i, oldCur, newCur);
  }

  lemma TakeEntriesEnd(lines: seq<string>, i: nat, o: nat, n: nat)
    requires i <= |lines| && (i < |lines| ==> !IsBodyLine(lines[i]))
    ensures TakeEntries(lines[i..], o, n) == []
  {
  }

  /** Lines 104-109. */
  method SelectIndexes(entries: seq<Entry>, sel: Selection) returns (selected: set<nat>)
    ensures forall i: nat :: i in selected <==> i < |entries| && sel.Picks(entries[i])
  {
    selected := {};
    for idx := 0 to |entries|
      invariant forall i: nat :: i in selected <==> i < idx && sel.Picks(entries[i])
    {
      if sel.Picks(entries[idx]) {
        selected := selected + {idx};
      }
    }
  }

  ghost predicate ContextAdded(entries: seq<Entry>, included: set<nat>, i: nat) {
    && (0 < i <= |entries| && entries[i - 1].kind.Keep? ==> i - 1 in included)
    && (i + 1 < |entries| && entries[i + 1].kind.Keep? ==> i + 1 in included)
  }

  /** Lines 114-123: the set is visited in an arbitrary order. */
  method IncludeContext(entries: seq<Entry>, sel: Selection, selected: set<nat>) returns (included: set<nat>)
    requires forall i: nat :: i in selected <==> i < |entries| && sel.Picks(entries[i])
    ensures forall i: nat :: i in included <==> i < |entries| && Included(entries, sel, i)
  {
    included := selected;
    var todo := selected;
    while todo != {}
      invariant todo <= selected <= included
      invariant forall i: nat :: i in included ==> i < |entries| && Included(entries, sel, i)
      invariant forall i: nat :: i in selected && i !in todo ==> ContextAdded(entries, included, i)
      decreases |todo|
    {
      var idx :| idx in todo;
      todo := todo - {idx};
      if 0 < idx && entries[idx - 1].kind.Keep? {
        included := included + {idx - 1};
      }
      if idx + 1 < |entries| && entries[idx + 1].kind.Keep? {
        included := included + {idx + 1};
      }
    }
    forall i: nat | i < |entries| && Included(entries, sel, i)
      ensures i in included
    {
      if !sel.Picks(entries[i]) {
        assert 0 < i && sel.Picks(entries[i - 1]) ==> ContextAdded(entries, included, i - 1);
        assert i + 1 < |entries| && sel.Picks(entries[i + 1]) ==> ContextAdded(entries, included, i + 1);
      }
    }
  }

  ghost predicate Increasing(order: seq<nat>) {
    forall i, j :: 0 <= i < j < |order| ==> order[i] < order[j]
  }

  /** `sorted(included_indexes)`. */
  method SortedIndexes(included: set<nat>, bound: nat) returns (order: seq<nat>)
    requires forall i: nat :: i in included ==> i < bound
    ensures Increasing(order)
    ensures forall i: nat :: i in order <==> i in included
  {
    order := [];
    for idx := 0 to bound
      invariant Increasing(order) && forall k :: 0 <= k < |order| ==> order[k] < idx
      invariant forall i: nat :: i in order <==> i in included && i < idx
    {
      if idx in included {
        order := order + [idx];
      }
    }
  }

  /** Lines 125-139: walk the sorted indexes and close a segment at every gap. */
  method CutSegments(entries: seq<Entry>, included: set<nat>, ghost inc: seq<bool>)
    returns (segments: seq<seq<Entry>>)
    requires |inc| == |entries|
    requires forall i: nat :: i in included <==> i < |entries| && inc[i]
    ensures segments == RunsFrom(entries, inc, 0)
  {
    hide RunsFrom, RunEnd;
    var order := SortedIndexes(included, |entries|);
    segments := [];
    var current: seq<Entry> := [];
    var previous: Option<nat> := None;
    ghost var s := 0;  // where the open segment starts
    for k := 0 to |order|
      invariant NonEmpty(segments)
      invariant s <= |entries|
      invariant RunsFrom(entries, inc, 0) == segments + RunsFrom(entries, inc, s)
      invariant k == 0 ==> previous == None && s == 0 && segments == [] && current == []
      invariant 0 < k ==> previous == Some(order[k - 1])
      invariant previous.Some? ==> s <= previous.value < |entries|
      invariant previous.Some? ==> current == entries[s..previous.value + 1]
      invariant previous.Some? ==> forall j :: s <= j <= previous.value ==> inc[j]
    {
      var idx := order[k];
      assert idx in order;
      ghost var from := if previous.Some? then previous.value + 1 else 0;
      SkipGap(entries, included, inc, order, k, from, idx);
      if previous.Some? && idx != previous.value + 1 && current != [] {
        RunsAt(entries, inc, s, from);
        segments := segments + [current];
        current := [];
        s := idx;
      } else if previous.None? {
        s := idx;
      }
      current := current + [entries[idx]];
      previous := Some(idx);
      assert current == entries[s..idx + 1];
    }
    ghost var from := if previous.Some? then previous.value + 1 else 0;
    SkipGap(entries, included, inc, order, |order|, from, |entries|);
    RunsEnd(entries, inc);
    if current != [] {
      RunsAt(entries, inc, s, from);
      segments := segments + [current];
    }
  }

  /** An index between two neighbours of an increasing sequence is not in it. */
  lemma NotBetween(order: seq<nat>, k: nat, j: nat)
    requires Increasing(order) && k <= |order|
    requires 0 < k ==> order[k - 1] < j
    requires k < |order| ==> j < order[k]
    ensures j !in order
  {
    forall i | 0 <= i < |order| ensures order[i] != j {
      if i < k {
        assert order[i] <= order[k - 1];
      } else {
        assert order[k] <= order[i];
      }
    }
  }

  /** Between two neighbours of the sorted indexes there is no run. */
  lemma SkipGap(entries: seq<Entry>, included: set<nat>, inc: seq<bool>, order: seq<nat>, k: nat, from: nat, to: nat)
    requires |inc| == |entries| && from <= to <= |entries|
    requires forall i: nat :: i in included <==> i < |entries| && inc[i]
    requires Increasing(order) && forall i: nat :: i in order <==> i in included
    requires k <= |order| && from == (if k == 0 then 0 else order[k - 1] + 1)
    requires to == if k == |order| then |entries| else order[k]
    ensures RunsFrom(entries, inc, from) == RunsFrom(entries, inc, to)
  {
    forall j | from <= j < to ensures !inc[j] {
      NotBetween(order, k, j);
    }
    RunsSkip(entries, inc, from, to);
  }

  /** Lines 141-158: one printed hunk per segment, both counts and starts computed from its entries. */
  method EmitHunks(segments: seq<seq<Entry>>) returns (printed: seq<string>)
    requires NonEmpty(segments)
    ensures printed == PrintHunks(HunksOf(segments))
  {
    printed := [];
    for k := 0 to |segments|
      invariant printed == PrintHunks(HunksOf(segments[..k]))
    {
      var segment := segments[k];
      assert segment in segments;
      var oldCount := CountOld(segment);
      var newCount := CountNew(segment);
      var h := SegmentHunk(segment);
      var header := ShowHeader(Header(h.oldStart, oldCount, h.newStart, newCount));
      printed := printed + ([header] + Raws(segment));
      assert segments[..k + 1] == segments[..k] + [segment];
      HunksOfConcat(segments[..k], [segment]);
      PrintHunksConcat(HunksOf(segments[..k]), HunksOf([segment]));
      assert PrintHunks(HunksOf([segment])) == PrintHunk(h);
    }
    assert segments[..|segments|] == segments;
  }

  /** `sum(1 for e in segment if e["kind"] in {" ", "-"})`. */
  method CountOld(segment: seq<Entry>) returns (count: nat)
    ensures count == |OldSide(segment)|
  {
    count := 0;
    for k := 0 to |segment|
      invariant count == |OldSide(segment[..k])|
    {
      if segment[k].kind in {Keep, Delete} {
        count := count + 1;
      }
      assert segment[..k + 1] == segment[..k] + [segment[k]];
      OldSideConcat(segment[..k], [segment[k]]);
    }
    assert segment[..|segment|] == segment;
  }

  method CountNew(segment: seq<Entry>) returns (count: nat)
    ensures count == |NewSide(segment)|
  {
    count := 0;
    for k := 0 to |segment|
      invariant count == |NewSide(segment[..k])|
    {
      if segment[k].kind in {Keep, Insert} {
        count := count + 1;
      }
      assert segment[..k + 1] == segment[..k] + [segment[k]];
      NewSideConcat(segment[..k], [segment[k]]);
    }
    assert segment[..|segment|] == segment;
  }

  lemma {:induction false} NoRuns(entries: seq<Entry>, sel: Selection)
    requires forall i :: 0 <= i < |entries| ==> !sel.Picks(entries[i])
    ensures Segments(entries, sel) == []
  {
    RunsSkip(entries, Flags(entries, sel), 0, |entries|);
  }

  /** Lines 104-158 for one hunk: the printed segments, none when no line is selected. */
  method SelectFromHunk(entries: seq<Entry>, sel: Selection) returns (printed: seq<string>)
    ensures printed == PrintHunks(HunksOf(Segments(entries, sel)))
  {
    var selected := SelectIndexes(entries, sel);
    if selected == {} {
      NoRuns(entries, sel);
      return [];
    }
    var included := IncludeContext(entries, sel, selected);
    var segments := CutSegments(entries, included, Flags(entries, sel));
    printed := EmitHunks(segments);
  }

  /** The printed hunks of every header at or after line `i`. */
  function PrintedFrom(lines: seq<string>, i: nat, sel: Selection): seq<string>
    requires i <= |lines|
  {
    PrintHunks(SelectHunks(ParseHunks(lines[i..]), sel))
  }

  /** One turn of the outer loop: skip a line, or read and print one hunk. */
  method PrintNext(lines: seq<string>, i: nat, sel: Selection) returns (printed: seq<string>, next: nat)
    requires i < |lines|
    ensures i < next <= |lines|
    ensures PrintedFrom(lines, i, sel) == printed + PrintedFrom(lines, next, sel)
  {
    assert lines[i..][0] == lines[i] && lines[i..][1..] == lines[i + 1..];
    var header := ParseHeader(lines[i]);
    if header.None? {
      return [], i + 1;
    }
    var entries;
    entries, next := CollectEntries(lines, i + 1, header.value.oldStart, header.value.newStart);
    assert lines[i + 1..][|entries|..] == lines[next..];
    printed := SelectFromHunk(entries, sel);
    PrintHunksConcat(HunksOf(Segments(entries, sel)), SelectHunks(ParseHunks(lines[next..]), sel));
  }

  /** The outer loop of lines 45-158. */
  method SelectFromLines(lines: seq<string>, first: nat, sel: Selection) returns (hunks: seq<string>)
    requires first <= |lines|
    ensures hunks == PrintedFrom(lines, first, sel)
  {
    hunks := [];
    var i := first;
    while i < |lines|
      invariant first <= i <= |lines|
      invariant PrintedFrom(lines, first, sel) == hunks + PrintedFrom(lines, i, sel)
    {
      var printed;
      printed, i := PrintNext(lines, i, sel);
      hunks := hunks + printed;
    }
    assert PrintedFrom(lines, i, sel) == [];
  }

  /** The whole function, on text. */
  method BuildSelectedPatch(diffText: string, selectedOldLines: set<int>, selectedNewLines: set<int>)
    returns (patch: string)
    ensures patch == SelectedText(diffText, Selection(selectedOldLines, selectedNewLines))
  {
    var sel := Selection(selectedOldLines, selectedNewLines);
    var lines := SplitLines(diffText);
    if lines == [] {
      return "";
    }
    var first := PreambleLength(lines);
    if first == |lines| {
      return "";
    }
    var hunks := SelectFromLines(lines, first, sel);
    if hunks == [] {
      return "";
    }
    return JoinLines(lines[..first] + hunks);
  }
}
