/**
 An independent reader of unified diffs. It is driven by the counts of each header,
 as the POSIX `diff` "Diff -u or -U Output Format" section describes a hunk, while the
 source is driven by line prefixes. A line that starts with a backslash ("No newline at
 end of file") says that the line before it lacks its newline on the sides it is on.
 */
module PatchReader {
  import opened Wrappers
  import opened PatchFormat
  import opened PatchSelection

  predicate IsMarker(line: string) {
    line != "" && line[0] == '\\'
  }

  datatype Body = Body(entries: seq<Entry>, rest: seq<string>)

  function Left(count: nat, consumed: bool): nat
    requires consumed ==> 0 < count
  {
    if consumed then count - 1 else count
  }

  /** What follows the first line and its marker, if it has one. */
  function AfterFirst(lines: seq<string>): seq<string>
    requires lines != []
  {
    if MarkedFirst(lines) then lines[2..] else lines[1..]
  }

  predicate MarkedFirst(lines: seq<string>) {
    1 < |lines| && IsMarker(lines[1])
  }

  /** The body of a hunk whose header still owes `oldLeft` and `newLeft` lines. */
  function ReadBody(lines: seq<string>, o: nat, n: nat, oldLeft: nat, newLeft: nat): (body: Option<Body>)
    ensures body.Some? ==> |body.value.rest| <= |lines|
    decreases |lines|
  {
    if oldLeft == 0 && newLeft == 0 then Some(Body([], lines))
    else if lines == [] || !IsBodyLine(lines[0]) then None
    else
      var e := EntryOf(lines[0], o, n).(ended := !MarkedFirst(lines));
      if (e.OnOld() && oldLeft == 0) || (e.OnNew() && newLeft == 0) then None
      else
        var body :- ReadBody(AfterFirst(lines), e.OldAfter(), e.NewAfter(),
                             Left(oldLeft, e.OnOld()), Left(newLeft, e.OnNew()));
        Some(Body([e] + body.entries, body.rest))
  }

  function ReadHunks(lines: seq<string>): Option<seq<Hunk>>
    decreases |lines|
  {
    if lines == [] then Some([])
    else
      var h :- ParseHeader(lines[0]);
      var body :- ReadBody(lines[1..], h.oldStart, h.newStart, h.oldCount, h.newCount);
      var hunks :- ReadHunks(body.rest);
      Some([Hunk(h.oldStart, h.newStart, body.entries)] + hunks)
  }

  /** The hunks of a single-file diff: free text, then hunks to the end. */
  function ReadDiff(lines: seq<string>): Option<seq<Hunk>> {
    ReadHunks(lines[PreambleLength(lines)..])
  }

  // ------------------------------------------------------- chained cursors

  /** Every entry records the cursors reached from `o` and `n`. */
  predicate Chained(entries: seq<Entry>, o: nat, n: nat) {
    entries == [] ||
    (entries[0].oldBefore == o && entries[0].newBefore == n
     && Chained(entries[1..], entries[0].OldAfter(), entries[0].NewAfter()))
  }

  predicate ChainedHunks(hunks: seq<Hunk>) {
    forall i :: 0 <= i < |hunks| ==> Chained(hunks[i].entries, hunks[i].oldStart, hunks[i].newStart)
  }

  lemma {:induction false} TakeEntriesChained(lines: seq<string>, o: nat, n: nat)
    ensures Chained(TakeEntries(lines, o, n), o, n)
  {
    if lines != [] && IsBodyLine(lines[0]) {
      var e := EntryOf(lines[0], o, n);
      TakeEntriesChained(lines[1..], e.OldAfter(), e.NewAfter());
    }
  }

  lemma {:induction false} ParseHunksChained(lines: seq<string>)
    ensures ChainedHunks(ParseHunks(lines))
    decreases |lines|
  {
    if lines != [] {
      match ParseHeader(lines[0])
      case None => ParseHunksChained(lines[1..]);
      case Some(h) =>
        var entries := TakeEntries(lines[1..], h.oldStart, h.newStart);
        TakeEntriesChained(lines[1..], h.oldStart, h.newStart);
        ParseHunksChained(lines[1..][|entries|..]);
    }
  }

  lemma {:induction false} ReadBodyChained(lines: seq<string>, o: nat, n: nat, oldLeft: nat, newLeft: nat)
    requires ReadBody(lines, o, n, oldLeft, newLeft).Some?
    ensures Chained(ReadBody(lines, o, n, oldLeft, newLeft).value.entries, o, n)
    decreases |lines|
  {
    if 0 < oldLeft || 0 < newLeft {
      var e := EntryOf(lines[0], o, n);
      ReadBodyChained(AfterFirst(lines), e.OldAfter(), e.NewAfter(), Left(oldLeft, e.OnOld()),
                      Left(newLeft, e.OnNew()));
    }
  }

  lemma {:induction false} ReadHunksChained(lines: seq<string>)
    requires ReadHunks(lines).Some?
    ensures ChainedHunks(ReadHunks(lines).value)
    decreases |lines|
  {
    if lines != [] {
      var h := ParseHeader(lines[0]).value;
      var body := ReadBody(lines[1..], h.oldStart, h.newStart, h.oldCount, h.newCount).value;
      ReadBodyChained(lines[1..], h.oldStart, h.newStart, h.oldCount, h.newCount);
      ReadHunksChained(body.rest);
    }
  }

  lemma {:induction false} ChainedSplit(entries: seq<Entry>, k: nat, o: nat, n: nat)
    requires k <= |entries| && Chained(entries, o, n)
    ensures Chained(entries[..k], o, n)
    ensures Chained(entries[k..], o + |OldSide(entries[..k])|, n + |NewSide(entries[..k])|)
  {
    if k == 0 {
      assert entries[..0] == [] && entries[0..] == entries;
    } else {
      var e := entries[0];
      ChainedSplit(entries[1..], k - 1, e.OldAfter(), e.NewAfter());
      assert entries[..k][1..] == entries[1..][..k - 1];
      assert entries[1..][k - 1..] == entries[k..];
    }
  }

  /** A chained segment starts, on both sides, at the cursors of its first entry. */
  lemma {:induction false} StartsOfChained(segment: seq<Entry>, o: nat, n: nat)
    requires Chained(segment, o, n)
    ensures OldStartOf(segment, o) == o && NewStartOf(segment, n) == n
  {
    if segment != [] {
      var e := segment[0];
      if !e.OnOld() {
        OldStartSkips(segment[1..], e.OldAfter(), e.NewAfter());
      }
      if !e.OnNew() {
        NewStartSkips(segment[1..], e.OldAfter(), e.NewAfter());
      }
    }
  }

  lemma {:induction false} OldStartSkips(segment: seq<Entry>, o: nat, n: nat)
    requires Chained(segment, o, n)
    ensures OldStartOf(segment, o) == o
  {
    if segment != [] && !segment[0].OnOld() {
      OldStartSkips(segment[1..], segment[0].OldAfter(), segment[0].NewAfter());
    }
  }

  lemma {:induction false} NewStartSkips(segment: seq<Entry>, o: nat, n: nat)
    requires Chained(segment, o, n)
    ensures NewStartOf(segment, n) == n
  {
    if segment != [] && !segment[0].OnNew() {
      NewStartSkips(segment[1..], segment[0].OldAfter(), segment[0].NewAfter());
    }
  }

  /** Cutting keeps the cursors: every segment is a chained slice and its hunk starts at its first cursors. */
  lemma {:induction false} RunsChained(entries: seq<Entry>, inc: seq<bool>, i: nat, o: nat, n: nat)
    requires i <= |entries| == |inc| && Chained(entries[i..], o, n)
    ensures ChainedHunks(HunksOf(RunsFrom(entries, inc, i)))
    decreases |entries| - i
  {
    if i == |entries| {
    } else if !inc[i] {
      assert entries[i..][1..] == entries[i + 1..];
      RunsChained(entries, inc, i + 1, entries[i].OldAfter(), entries[i].NewAfter());
    } else {
      var e := RunEnd(inc, i);
      var segment := entries[i..e];
      assert entries[i..][..e - i] == segment && entries[i..][e - i..] == entries[e..];
      ChainedSplit(entries[i..], e - i, o, n);
      StartsOfChained(segment, o, n);
      assert segment[0] == entries[i];
      RunsChained(entries, inc, e, o + |OldSide(segment)|, n + |NewSide(segment)|);
    }
  }

  lemma {:induction false} SelectHunksChained(hunks: seq<Hunk>, sel: Selection)
    requires ChainedHunks(hunks)
    ensures ChainedHunks(SelectHunks(hunks, sel))
  {
    if hunks != [] {
      var h := hunks[0];
      assert h.entries[0..] == h.entries;
      RunsChained(h.entries, Flags(h.entries, sel), 0, h.oldStart, h.newStart);
      SelectHunksChained(hunks[1..], sel);
    }
  }

  /** The source's parser takes every line as ended, and so are the lines it prints. */
  predicate AllEnded(entries: seq<Entry>) {
    forall i :: 0 <= i < |entries| ==> entries[i].ended
  }

  predicate EndedHunks(hunks: seq<Hunk>) {
    forall i :: 0 <= i < |hunks| ==> AllEnded(hunks[i].entries)
  }

  lemma {:induction false} TakeEntriesEnded(lines: seq<string>, o: nat, n: nat)
    ensures AllEnded(TakeEntries(lines, o, n))
  {
    if lines != [] && IsBodyLine(lines[0]) {
      var e := EntryOf(lines[0], o, n);
      TakeEntriesEnded(lines[1..], e.OldAfter(), e.NewAfter());
    }
  }

  lemma {:induction false} ParseHunksEnded(lines: seq<string>)
    ensures EndedHunks(ParseHunks(lines))
    decreases |lines|
  {
    if lines != [] {
      match ParseHeader(lines[0])
      case None => ParseHunksEnded(lines[1..]);
      case Some(h) =>
        var entries := TakeEntries(lines[1..], h.oldStart, h.newStart);
        TakeEntriesEnded(lines[1..], h.oldStart, h.newStart);
        ParseHunksEnded(lines[1..][|entries|..]);
    }
  }

  lemma {:induction false} RunsEnded(entries: seq<Entry>, inc: seq<bool>, i: nat)
    requires i <= |entries| == |inc| && AllEnded(entries)
    ensures EndedHunks(HunksOf(RunsFrom(entries, inc, i)))
    decreases |entries| - i
  {
    if i < |entries| {
      RunsEnded(entries, inc, if inc[i] then RunEnd(inc, i) else i + 1);
    }
  }

  lemma {:induction false} SelectHunksEnded(hunks: seq<Hunk>, sel: Selection)
    requires EndedHunks(hunks)
    ensures EndedHunks(SelectHunks(hunks, sel))
  {
    if hunks != [] {
      RunsEnded(hunks[0].entries, Flags(hunks[0].entries, sel), 0);
      SelectHunksEnded(hunks[1..], sel);
    }
  }

  // ----------------------------------------------- reading what is printed

  /** Nothing, or a line that ends a body for both readers. */
  predicate EndsBody(rest: seq<string>) {
    rest == [] || (!IsBodyLine(rest[0]) && !IsMarker(rest[0]))
  }

  lemma PrintedEndsBody(hunks: seq<Hunk>)
    ensures EndsBody(PrintHunks(hunks))
  {
    if hunks != [] {
      var line := ShowHeader(HeaderOf(hunks[0]));
      assert line[..3] == "@@ " && line[0] == '@';
      assert PrintHunks(hunks)[0] == line;
    }
  }

  lemma RawOf(e: Entry)
    ensures IsBodyLine(e.Raw()) && !IsMarker(e.Raw())
    ensures EntryOf(e.Raw(), e.oldBefore, e.newBefore) == e.(ended := true)
  {
    assert e.Raw()[1..] == e.text;
    assert e.Raw()[0] != '@';
  }

  /** One printed entry is read back in front of whatever follows. */
  lemma ReadOne(e: Entry, more: seq<string>, oldLeft: nat, newLeft: nat, body: Body)
    requires e.ended && (more == [] || !IsMarker(more[0]))
    requires ReadBody(more, e.OldAfter(), e.NewAfter(), oldLeft, newLeft) == Some(body)
    ensures ReadBody([e.Raw()] + more, e.oldBefore, e.newBefore,
                     if e.OnOld() then oldLeft + 1 else oldLeft, if e.OnNew() then newLeft + 1 else newLeft)
            == Some(Body([e] + body.entries, body.rest))
    ensures TakeEntries([e.Raw()] + more, e.oldBefore, e.newBefore)
            == [e] + TakeEntries(more, e.OldAfter(), e.NewAfter())
  {
    hide IsMarker, IsBodyLine, EntryOf;
    RawOf(e);
    var lines := [e.Raw()] + more;
    assert lines[1..] == more && (more != [] ==> lines[1] == more[0]);
  }

  lemma SidesStep(entries: seq<Entry>, o: nat, n: nat)
    requires entries != [] && Chained(entries, o, n)
    ensures var e := entries[0];
            && e.oldBefore == o && e.newBefore == n && Chained(entries[1..], e.OldAfter(), e.NewAfter())
            && |OldSide(entries)| == (if e.OnOld() then |OldSide(entries[1..])| + 1 else |OldSide(entries[1..])|)
            && |NewSide(entries)| == (if e.OnNew() then |NewSide(entries[1..])| + 1 else |NewSide(entries[1..])|)
            && Raws(entries) == [e.Raw()] + Raws(entries[1..])
  {
  }

  lemma ReadNone(o: nat, n: nat, rest: seq<string>)
    requires EndsBody(rest)
    ensures ReadBody(rest, o, n, 0, 0) == Some(Body([], rest))
    ensures TakeEntries(rest, o, n) == []
    ensures Raws([]) == [] && OldSide([]) == [] && NewSide([]) == []
  {
    hide IsMarker, IsBodyLine;
  }

  lemma RawsStart(entries: seq<Entry>, rest: seq<string>)
    requires EndsBody(rest)
    ensures var lines := Raws(entries) + rest; lines == [] || !IsMarker(lines[0])
  {
    if entries != [] {
      RawOf(entries[0]);
    }
  }

  lemma EndedTail(entries: seq<Entry>)
    requires entries != [] && AllEnded(entries)
    ensures entries[0].ended && AllEnded(entries[1..])
  {
  }

  lemma {:induction false} ReadRaws(entries: seq<Entry>, o: nat, n: nat, rest: seq<string>)
    requires Chained(entries, o, n) && AllEnded(entries) && EndsBody(rest)
    ensures ReadBody(Raws(entries) + rest, o, n, |OldSide(entries)|, |NewSide(entries)|) == Some(Body(entries, rest))
    ensures TakeEntries(Raws(entries) + rest, o, n) == entries
  {
    hide *;
    if entries == [] {
      ReadNone(o, n, rest);
      assert [] + rest == rest;
    } else {
      var e, more := entries[0], entries[1..];
      SidesStep(entries, o, n);
      EndedTail(entries);
      RawsStart(more, rest);
      ReadRaws(more, e.OldAfter(), e.NewAfter(), rest);
      ReadOne(e, Raws(more) + rest, |OldSide(more)|, |NewSide(more)|, Body(more, rest));
      assert Raws(entries) + rest == [e.Raw()] + (Raws(more) + rest);
      assert entries == [e] + more;
    }
  }

  lemma {:induction false} RawsLength(entries: seq<Entry>)
    ensures |Raws(entries)| == |entries|
  {
    if entries != [] {
      RawsLength(entries[1..]);
    }
  }

  /** Both readers take one hunk and go on, once its header and body are known to be read. */
  lemma HunkStep(h: Header, body: seq<string>, more: seq<string>, entries: seq<Entry>)
    requires ReadBody(body + more, h.oldStart, h.newStart, h.oldCount, h.newCount) == Some(Body(entries, more))
    requires TakeEntries(body + more, h.oldStart, h.newStart) == entries && |entries| == |body|
    requires ReadHunks(more).Some?
    ensures var hunk := Hunk(h.oldStart, h.newStart, entries);
            && ReadHunks([ShowHeader(h)] + body + more) == Some([hunk] + ReadHunks(more).value)
            && ParseHunks([ShowHeader(h)] + body + more) == [hunk] + ParseHunks(more)
  {
    hide ReadBody, TakeEntries, ShowHeader, ParseHeader;
    HeaderRoundTrip(h);
    var lines := [ShowHeader(h)] + body + more;
    assert lines[1..] == body + more;
    assert (body + more)[|entries|..] == more;
  }

  /** Both readers give back exactly the hunks that were printed, cursors included. */
  lemma {:induction false} PrintedParsesBack(hunks: seq<Hunk>)
    requires ChainedHunks(hunks) && EndedHunks(hunks)
    ensures ReadHunks(PrintHunks(hunks)) == Some(hunks)
    ensures ParseHunks(PrintHunks(hunks)) == hunks
  {
    hide ReadBody, TakeEntries, Raws, OldSide, NewSide, ShowHeader, EndsBody, Chained, AllEnded;
    if hunks == [] {
    } else {
      var h := hunks[0];
      var more := PrintHunks(hunks[1..]);
      PrintedEndsBody(hunks[1..]);
      ReadRaws(h.entries, h.oldStart, h.newStart, more);
      RawsLength(h.entries);
      PrintedParsesBack(hunks[1..]);
      HunkStep(HeaderOf(h), Raws(h.entries), more, h.entries);
      assert hunks == [h] + hunks[1..];
    }
  }

  lemma PrintedStartsHunk(hunks: seq<Hunk>)
    requires hunks != []
    ensures PrintHunks(hunks) != [] && IsHunkLine(PrintHunks(hunks)[0])
  {
    var line := ShowHeader(HeaderOf(hunks[0]));
    assert line[..3] == "@@ ";
    assert PrintHunks(hunks)[0] == line;
  }

  lemma {:induction false} PreambleOf(preamble: seq<string>, rest: seq<string>)
    requires forall i :: 0 <= i < |preamble| ==> !IsHunkLine(preamble[i])
    requires rest == [] || IsHunkLine(rest[0])
    ensures PreambleLength(preamble + rest) == |preamble|
  {
    if preamble == [] {
      assert preamble + rest == rest;
    } else {
      assert (preamble + rest)[1..] == preamble[1..] + rest;
      PreambleOf(preamble[1..], rest);
    }
  }

  /** The patch for `sel`, read by counts or by prefixes, is the selected hunks. */
  lemma SelectedPatchReads(lines: seq<string>, sel: Selection)
    ensures ReadDiff(SelectedPatch(lines, sel)) == Some(SelectHunks(ParseHunks(lines[PreambleLength(lines)..]), sel))
  {
    var p := PreambleLength(lines);
    var parsed := ParseHunks(lines[p..]);
    var hunks := SelectHunks(parsed, sel);
    if hunks != [] {
      ParseHunksChained(lines[p..]);
      SelectHunksChained(parsed, sel);
      ParseHunksEnded(lines[p..]);
      SelectHunksEnded(parsed, sel);
      PrintedParsesBack(hunks);
      PrintedStartsHunk(hunks);
      PreambleOf(lines[..p], PrintHunks(hunks));
      assert (lines[..p] + PrintHunks(hunks))[p..] == PrintHunks(hunks);
    }
  }

  // ---------------------------------------------- what the source's loop sees

  /** The entries up to and with the first that lacks its newline, which is taken as ended. */
  function Seen(entries: seq<Entry>): (seen: seq<Entry>)
    ensures |seen| <= |entries|
  {
    if entries == [] then []
    else [entries[0].(ended := true)] + (if entries[0].ended then Seen(entries[1..]) else [])
  }

  function SeenHunk(h: Hunk): Hunk {
    h.(entries := Seen(h.entries))
  }

  function SeenHunks(hunks: seq<Hunk>): (seen: seq<Hunk>)
    ensures |seen| == |hunks|
    ensures forall i :: 0 <= i < |hunks| ==> seen[i] == SeenHunk(hunks[i])
  {
    if hunks == [] then [] else [SeenHunk(hunks[0])] + SeenHunks(hunks[1..])
  }

  lemma NotHeader(line: string)
    requires IsBodyLine(line) || IsMarker(line)
    ensures ParseHeader(line).None?
  {
    assert line[0] != '@';
  }

  /** The lines of a body are no headers, so the source skips those it did not take. */
  lemma {:induction false} BodySkipped(lines: seq<string>, o: nat, n: nat, oldLeft: nat, newLeft: nat)
    requires ReadBody(lines, o, n, oldLeft, newLeft).Some?
    ensures ParseHunks(lines) == ParseHunks(ReadBody(lines, o, n, oldLeft, newLeft).value.rest)
    decreases |lines|
  {
    hide ParseHeader;
    if 0 < oldLeft || 0 < newLeft {
      var e := EntryOf(lines[0], o, n);
      NotHeader(lines[0]);
      if MarkedFirst(lines) {
        NotHeader(lines[1]);
        assert lines[1..][1..] == lines[2..];
      }
      BodySkipped(AfterFirst(lines), e.OldAfter(), e.NewAfter(), Left(oldLeft, e.OnOld()), Left(newLeft, e.OnNew()));
    }
  }

  lemma {:induction false} BodySeen(lines: seq<string>, o: nat, n: nat, oldLeft: nat, newLeft: nat)
    requires ReadBody(lines, o, n, oldLeft, newLeft).Some?
    requires var rest := ReadBody(lines, o, n, oldLeft, newLeft).value.rest; rest == [] || !IsBodyLine(rest[0])
    ensures var body := ReadBody(lines, o, n, oldLeft, newLeft).value;
            && TakeEntries(lines, o, n) == Seen(body.entries)
            && ParseHunks(lines[|Seen(body.entries)|..]) == ParseHunks(body.rest)
    decreases |lines|
  {
    hide ParseHeader, ParseHunks, ReadBody, TakeEntries, Seen, MarkedFirst, EntryOf, IsBodyLine;
    if oldLeft == 0 && newLeft == 0 {
      NoBody(lines, o, n);
      SeenNothing(lines, o, n);
    } else {
      BodyStep(lines, o, n, oldLeft, newLeft);
      var e := EntryOf(lines[0], o, n).(ended := !MarkedFirst(lines));
      var left, left' := Left(oldLeft, e.OnOld()), Left(newLeft, e.OnNew());
      var more := ReadBody(AfterFirst(lines), e.OldAfter(), e.NewAfter(), left, left').value;
      SeenFirst(e, more.entries);
      TakeFirst(lines, o, n);
      if MarkedFirst(lines) {
        BodySkipped(AfterFirst(lines), e.OldAfter(), e.NewAfter(), left, left');
        MarkerTaken(lines, e.OldAfter(), e.NewAfter());
      } else {
        BodySeen(lines[1..], e.OldAfter(), e.NewAfter(), left, left');
        assert lines[1..][|Seen(more.entries)|..] == lines[1 + |Seen(more.entries)|..];
      }
    }
  }

  lemma NoBody(lines: seq<string>, o: nat, n: nat)
    ensures ReadBody(lines, o, n, 0, 0) == Some(Body([], lines))
  {
  }

  lemma BodyStep(lines: seq<string>, o: nat, n: nat, oldLeft: nat, newLeft: nat)
    requires ReadBody(lines, o, n, oldLeft, newLeft).Some? && (0 < oldLeft || 0 < newLeft)
    ensures lines != [] && IsBodyLine(lines[0])
    ensures var e := EntryOf(lines[0], o, n).(ended := !MarkedFirst(lines));
            && (e.OnOld() ==> 0 < oldLeft) && (e.OnNew() ==> 0 < newLeft)
            && var more := ReadBody(AfterFirst(lines), e.OldAfter(), e.NewAfter(),
                                    Left(oldLeft, e.OnOld()), Left(newLeft, e.OnNew()));
               && more.Some?
               && ReadBody(lines, o, n, oldLeft, newLeft) == Some(Body([e] + more.value.entries, more.value.rest))
  {
    hide EntryOf, IsBodyLine, MarkedFirst, AfterFirst, Left;
  }

  /** No entry is seen where no line of a body is. */
  lemma SeenNothing(lines: seq<string>, o: nat, n: nat)
    ensures Seen([]) == [] && lines[0..] == lines
    ensures lines == [] || !IsBodyLine(lines[0]) ==> TakeEntries(lines, o, n) == []
  {
  }

  lemma SeenFirst(e: Entry, more: seq<Entry>)
    ensures Seen([e] + more) == [e.(ended := true)] + (if e.ended then Seen(more) else [])
  {
    assert ([e] + more)[1..] == more;
  }

  lemma TakeFirst(lines: seq<string>, o: nat, n: nat)
    requires lines != [] && IsBodyLine(lines[0])
    ensures var e := EntryOf(lines[0], o, n);
            e.ended && TakeEntries(lines, o, n) == [e] + TakeEntries(lines[1..], e.OldAfter(), e.NewAfter())
  {
  }

  lemma MarkerTaken(lines: seq<string>, o: nat, n: nat)
    requires MarkedFirst(lines)
    ensures TakeEntries(lines[1..], o, n) == [] && ParseHunks(lines[1..]) == ParseHunks(AfterFirst(lines))
  {
    hide ParseHunks;
    assert !IsBodyLine(lines[1]) && lines[1..][0] == lines[1];
    MarkerSkipped(lines[1..]);
    assert lines[1..][1..] == lines[2..];
  }

  lemma MarkerSkipped(lines: seq<string>)
    requires lines != [] && IsMarker(lines[0])
    ensures ParseHunks(lines) == ParseHunks(lines[1..])
  {
    NotHeader(lines[0]);
  }

  /** On a readable diff the source's parser sees every hunk up to its first marker. */
  lemma {:induction false} ParserSees(lines: seq<string>)
    requires ReadHunks(lines).Some?
    ensures ParseHunks(lines) == SeenHunks(ReadHunks(lines).value)
    decreases |lines|
  {
    if lines != [] {
      var h := ParseHeader(lines[0]).value;
      var body := ReadBody(lines[1..], h.oldStart, h.newStart, h.oldCount, h.newCount).value;
      if body.rest != [] && IsBodyLine(body.rest[0]) {
        NotHeader(body.rest[0]);
      }
      BodySeen(lines[1..], h.oldStart, h.newStart, h.oldCount, h.newCount);
      ParserSees(body.rest);
      var read := [Hunk(h.oldStart, h.newStart, body.entries)] + ReadHunks(body.rest).value;
      assert read[1..] == ReadHunks(body.rest).value;
    }
  }

  // -------------------------------------------------- diffs with their markers

  const MARKER := "\\ No newline at end of file"

  /** A body as a diff prints it: with a marker after every line that lacks its newline. */
  function MarkedRaws(entries: seq<Entry>): seq<string> {
    if entries == [] then []
    else [entries[0].Raw()] + (if entries[0].ended then [] else [MARKER]) + MarkedRaws(entries[1..])
  }

  function MarkedDiff(hunks: seq<Hunk>): seq<string> {
    if hunks == [] then []
    else [ShowHeader(HeaderOf(hunks[0]))] + MarkedRaws(hunks[0].entries) + MarkedDiff(hunks[1..])
  }

  lemma MarkedOne(e: Entry, more: seq<string>, oldLeft: nat, newLeft: nat, body: Body)
    requires more == [] || !IsMarker(more[0])
    requires ReadBody(more, e.OldAfter(), e.NewAfter(), oldLeft, newLeft) == Some(body)
    ensures ReadBody([e.Raw()] + (if e.ended then [] else [MARKER]) + more, e.oldBefore, e.newBefore,
                     if e.OnOld() then oldLeft + 1 else oldLeft, if e.OnNew() then newLeft + 1 else newLeft)
            == Some(Body([e] + body.entries, body.rest))
  {
    hide IsMarker, IsBodyLine, EntryOf;
    RawOf(e);
    var lines := [e.Raw()] + (if e.ended then [] else [MARKER]) + more;
    assert IsMarker(MARKER) by { IsTheMarker(); }
    if e.ended {
      assert lines[1..] == more && (more != [] ==> lines[1] == more[0]);
    } else {
      assert lines[1] == MARKER && lines[2..] == more;
    }
  }

  lemma IsTheMarker()
    ensures IsMarker(MARKER)
  {
  }

  lemma MarkedStart(entries: seq<Entry>, rest: seq<string>)
    requires EndsBody(rest)
    ensures var lines := MarkedRaws(entries) + rest; lines == [] || !IsMarker(lines[0])
  {
    if entries != [] {
      RawOf(entries[0]);
    }
  }

  lemma MarkedStep(entries: seq<Entry>)
    requires entries != []
    ensures MarkedRaws(entries)
            == [entries[0].Raw()] + (if entries[0].ended then [] else [MARKER]) + MarkedRaws(entries[1..])
  {
  }

  lemma {:induction false} MarkedReads(entries: seq<Entry>, o: nat, n: nat, rest: seq<string>)
    requires Chained(entries, o, n) && EndsBody(rest)
    ensures ReadBody(MarkedRaws(entries) + rest, o, n, |OldSide(entries)|, |NewSide(entries)|)
            == Some(Body(entries, rest))
  {
    hide *;
    if entries == [] {
      ReadNone(o, n, rest);
      assert MarkedRaws([]) + rest == rest by { MarkedNone(); }
    } else {
      var e, more := entries[0], entries[1..];
      SidesStep(entries, o, n);
      MarkedStep(entries);
      MarkedStart(more, rest);
      MarkedReads(more, e.OldAfter(), e.NewAfter(), rest);
      MarkedOne(e, MarkedRaws(more) + rest, |OldSide(more)|, |NewSide(more)|, Body(more, rest));
      var mark := if e.ended then [] else [MARKER];
      assert MarkedRaws(entries) + rest == [e.Raw()] + mark + (MarkedRaws(more) + rest);
      assert entries == [e] + more;
    }
  }

  lemma MarkedNone()
    ensures MarkedRaws([]) == [] && MarkedDiff([]) == []
  {
  }

  lemma MarkedHunkReads(h: Hunk, more: seq<string>)
    requires Chained(h.entries, h.oldStart, h.newStart) && EndsBody(more) && ReadHunks(more).Some?
    ensures ReadHunks([ShowHeader(HeaderOf(h))] + MarkedRaws(h.entries) + more) == Some([h] + ReadHunks(more).value)
  {
    hide ReadBody, MarkedRaws, ShowHeader, ParseHeader, OldSide, NewSide, Chained, EndsBody;
    HeaderRoundTrip(HeaderOf(h));
    MarkedReads(h.entries, h.oldStart, h.newStart, more);
    var lines := [ShowHeader(HeaderOf(h))] + MarkedRaws(h.entries) + more;
    assert lines[1..] == MarkedRaws(h.entries) + more;
  }

  lemma HeaderEndsBody(h: Header, more: seq<string>)
    ensures EndsBody([ShowHeader(h)] + more) && IsHunkLine(ShowHeader(h))
  {
    var line := ShowHeader(h);
    assert line[..3] == "@@ " && line[0] == '@';
  }

  /** Any hunks with chained cursors can be written as a diff that is read back, markers included. */
  lemma {:induction false} MarkedDiffReads(hunks: seq<Hunk>)
    requires ChainedHunks(hunks)
    ensures ReadHunks(MarkedDiff(hunks)) == Some(hunks) && ReadDiff(MarkedDiff(hunks)) == Some(hunks)
    ensures PreambleLength(MarkedDiff(hunks)) == 0 && EndsBody(MarkedDiff(hunks))
  {
    hide MarkedRaws, ReadBody, ShowHeader, OldSide, NewSide, Chained, EndsBody, IsHunkLine, ReadHunks;
    var lines := MarkedDiff(hunks);
    if hunks == [] {
      assert ReadHunks([]) == Some([]) && EndsBody([]) by { NothingReads(); }
    } else {
      var h, more := hunks[0], MarkedDiff(hunks[1..]);
      assert Chained(h.entries, h.oldStart, h.newStart) && ChainedHunks(hunks[1..]);
      MarkedDiffReads(hunks[1..]);
      MarkedHunkReads(h, more);
      HeaderEndsBody(HeaderOf(h), MarkedRaws(h.entries) + more);
      assert lines == [ShowHeader(HeaderOf(h))] + (MarkedRaws(h.entries) + more) && [h] + hunks[1..] == hunks;
    }
    assert lines[0..] == lines;
  }

  lemma NothingReads()
    ensures ReadHunks([]) == Some([]) && EndsBody([])
  {
  }
}
