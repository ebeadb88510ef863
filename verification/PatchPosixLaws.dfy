/**
 Staging with patches numbered and read as POSIX `diff` has it: exactly when the printed patch
 makes the selected changes, forward and in reverse. What goes wrong is that the source prints
 the line after an empty range where the line before is meant (git_patch_selection.py:145-154).
 */
module PatchPosixLaws {
  import opened Wrappers
  import opened PatchSelection
  import opened PatchReader
  import opened PatchStaging
  import opened PatchCounts
  import opened PatchLaws
  import opened PatchDuality
  import opened PatchHeaders
  import opened PatchPosix

  // -------------------------------------------------- what a late start does

  /** Hunk `k` of `named` is one line late, but it only repeats that line, and the next hunk comes after it. */
  predicate Slides(file: seq<Line>, meant: seq<Hunk>, named: seq<Hunk>, k: nat)
    requires |named| == |meant| && k < |meant|
  {
    var at := meant[k].oldStart;
    && 1 <= at <= |file|
    && (forall line :: line in NewSide(meant[k].entries) ==> line == file[at - 1])
    && (k + 1 < |named| ==> at < named[k + 1].oldStart)
  }

  predicate SlidesAll(file: seq<Line>, meant: seq<Hunk>, named: seq<Hunk>) {
    && |named| == |meant|
    && forall k :: 0 <= k < |meant| && named[k].oldStart != meant[k].oldStart ==> Slides(file, meant, named, k)
  }

  /** `named` is `meant`, with some hunks that have no old line one line late. */
  predicate Late(meant: seq<Hunk>, named: seq<Hunk>) {
    && SameLines(named, meant)
    && forall k :: 0 <= k < |meant| ==>
         named[k].oldStart == meant[k].oldStart || named[k].oldStart == meant[k].oldStart + 1
  }

  lemma LateStep(meant: seq<Hunk>, named: seq<Hunk>, file: seq<Line>)
    requires Late(meant, named) && meant != []
    ensures |named| == |meant| && Late(meant[1..], named[1..])
    ensures var m, n := meant[0], named[0];
            && OldSide(n.entries) == OldSide(m.entries) && NewSide(n.entries) == NewSide(m.entries)
            && (n.oldStart == m.oldStart || (OldSide(m.entries) == [] && n.oldStart == m.oldStart + 1))
            && (SlidesAll(file, meant, named) <==>
                  (n.oldStart != m.oldStart ==> Slides(file, meant, named, 0))
                  && SlidesAll(file, meant[1..], named[1..]))
  {
    hide OldSide, NewSide;
    forall k | 1 <= k < |meant|
      ensures named[k].oldStart != meant[k].oldStart ==>
                (Slides(file, meant, named, k) <==> Slides(file, meant[1..], named[1..], k - 1))
    {
      assert meant[1..][k - 1] == meant[k] && named[1..][k - 1] == named[k];
      assert k + 1 < |named| ==> named[1..][k] == named[k + 1];
    }
    if SlidesAll(file, meant, named) {
      forall k | 0 <= k < |meant[1..]| && named[1..][k].oldStart != meant[1..][k].oldStart
        ensures Slides(file, meant[1..], named[1..], k)
      {
        assert Slides(file, meant, named, k + 1);
      }
    }
    if (named[0].oldStart != meant[0].oldStart ==> Slides(file, meant, named, 0))
       && SlidesAll(file, meant[1..], named[1..])
    {
      forall k | 0 <= k < |meant| && named[k].oldStart != meant[k].oldStart ensures Slides(file, meant, named, k) {
        if 0 < k {
          assert Slides(file, meant[1..], named[1..], k - 1);
        }
      }
    }
  }

  /** A patch that starts after line `pos` keeps it. */
  lemma AppliedAfter(file: seq<Line>, pos: nat, hunks: seq<Hunk>)
    requires 1 <= pos <= |file| && (hunks != [] ==> pos < hunks[0].oldStart)
    ensures var here, after := ApplyFrom(file, pos, hunks), ApplyFrom(file, pos + 1, hunks);
            && (here.Some? <==> after.Some?)
            && (here.Some? ==> here.value == [file[pos - 1]] + after.value)
  {
    hide OldSide, NewSide, Lines;
    var at := if hunks == [] then |file| + 1 else hunks[0].oldStart;
    if at <= |file| + 1 {
      FirstLine(file, pos, at);
    }
    if hunks != [] && at <= |file| + 1 {
      var end := at + |OldSide(hunks[0].entries)|;
      if end <= |file| + 1 && ApplyFrom(file, end, hunks[1..]).Some? {
        var rest := NewSide(hunks[0].entries) + ApplyFrom(file, end, hunks[1..]).value;
        Reassociate([file[pos - 1]], Lines(file, pos + 1, at), rest);
        Reassociate(Lines(file, pos, at), NewSide(hunks[0].entries), ApplyFrom(file, end, hunks[1..]).value);
        Reassociate(Lines(file, pos + 1, at), NewSide(hunks[0].entries), ApplyFrom(file, end, hunks[1..]).value);
      }
    }
  }

  lemma FirstLine(file: seq<Line>, pos: nat, at: nat)
    requires 1 <= pos < at <= |file| + 1
    ensures Lines(file, pos, at) == [file[pos - 1]] + Lines(file, pos + 1, at)
  {
  }

  /** `x` slides over `lines` only if these repeat it. */
  lemma {:induction false} Repeats(lines: seq<Line>, x: Line, a: seq<Line>, b: seq<Line>)
    ensures lines + a == [x] + lines + b <==> (forall line :: line in lines ==> line == x) && a == [x] + b
  {
    if lines + a == [x] + lines + b {
      RepeatsOnly(lines, x, a, b);
    }
    if forall line :: line in lines ==> line == x {
      AllSame(lines, x);
      assert [x] + lines + b == lines + ([x] + b);
      assert lines + a == lines + ([x] + b) <==> a == [x] + b by {
        if lines + a == lines + ([x] + b) {
          assert (lines + a)[|lines|..] == a && (lines + ([x] + b))[|lines|..] == [x] + b;
        }
      }
    }
  }

  lemma {:induction false} RepeatsOnly(lines: seq<Line>, x: Line, a: seq<Line>, b: seq<Line>)
    requires lines + a == [x] + lines + b
    ensures forall line :: line in lines ==> line == x
  {
    if lines != [] {
      assert lines[0] == (lines + a)[0] == ([x] + lines + b)[0] == x;
      var rest := lines[1..];
      assert lines == [x] + rest;
      assert lines + a == [x] + (rest + a) && [x] + lines + b == [x] + ([x] + rest + b);
      assert ([x] + (rest + a))[1..] == rest + a && ([x] + ([x] + rest + b))[1..] == [x] + rest + b;
      RepeatsOnly(rest, x, a, b);
    }
  }

  lemma {:induction false} AllSame(lines: seq<Line>, x: Line)
    requires forall line :: line in lines ==> line == x
    ensures [x] + lines == lines + [x]
  {
    assert forall i :: 0 <= i < |lines| ==> lines[i] in lines;
  }

  lemma SameFront<T>(front: seq<T>, a: seq<T>, b: seq<T>)
    ensures front + a == front + b <==> a == b
  {
    if front + a == front + b {
      assert (front + a)[|front|..] == a && (front + b)[|front|..] == b;
    }
  }

  /** Applying a hunk that has no old line. */
  lemma AppliedInsert(file: seq<Line>, pos: nat, hunks: seq<Hunk>)
    requires 1 <= pos <= |file| + 1 && hunks != [] && OldSide(hunks[0].entries) == []
    ensures var at := hunks[0].oldStart;
            && (ApplyFrom(file, pos, hunks).Some? <==>
                  pos <= at <= |file| + 1 && ApplyFrom(file, at, hunks[1..]).Some?)
            && (ApplyFrom(file, pos, hunks).Some? ==>
                  ApplyFrom(file, pos, hunks).value
                  == Lines(file, pos, at) + (NewSide(hunks[0].entries) + ApplyFrom(file, at, hunks[1..]).value))
  {
    hide OldSide, NewSide, Lines;
    var at := hunks[0].oldStart;
    if pos <= at <= |file| + 1 {
      LinesLength(file, at, at);
      var rest := ApplyFrom(file, at, hunks[1..]);
      if rest.Some? {
        Reassociate(Lines(file, pos, at), NewSide(hunks[0].entries), rest.value);
      }
    }
  }

  /** One late hunk, before others of which the claim is known. */
  lemma SlideStep(file: seq<Line>, pos: nat, meant: seq<Hunk>, named: seq<Hunk>)
    requires 1 <= pos <= |file| + 1 && |named| == |meant| && meant != [] && ApplyFrom(file, pos, meant).Some?
    requires var m, n := meant[0], named[0];
             OldSide(m.entries) == OldSide(n.entries) == [] && NewSide(m.entries) == NewSide(n.entries)
             && n.oldStart == m.oldStart + 1
    ensures var at := meant[0].oldStart;
            pos <= at <= |file| + 1
            && (ApplyFrom(file, pos, named) == ApplyFrom(file, pos, meant) <==>
                  Slides(file, meant, named, 0)
                  && ApplyFrom(file, at, named[1..]) == ApplyFrom(file, at, meant[1..]))
  {
    hide OldSide, NewSide, ApplyFrom;
    var at, lines := meant[0].oldStart, NewSide(meant[0].entries);
    AppliedInsert(file, pos, meant);
    AppliedInsert(file, pos, named);
    if at <= |file| {
      var after := ApplyFrom(file, at + 1, named[1..]);
      if named[1..] == [] || at < named[1].oldStart {
        AppliedAfter(file, at, named[1..]);
      } else {
        AppliedLate(file, at + 1, named[1..]);
      }
      if after.Some? {
        SlideLines(file, pos, at, lines, ApplyFrom(file, at, meant[1..]).value, after.value);
      }
    }
  }

  lemma AppliedLate(file: seq<Line>, pos: nat, hunks: seq<Hunk>)
    requires 1 <= pos <= |file| + 1 && hunks != [] && hunks[0].oldStart < pos
    ensures ApplyFrom(file, pos, hunks).None?
  {
  }

  lemma SlideLines(file: seq<Line>, pos: nat, at: nat, lines: seq<Line>, a: seq<Line>, b: seq<Line>)
    requires 1 <= pos <= at <= |file|
    ensures var x := file[at - 1];
            Lines(file, pos, at + 1) + (lines + b) == Lines(file, pos, at) + (lines + a) <==>
            (forall line :: line in lines ==> line == x) && a == [x] + b
  {
    var front, x := Lines(file, pos, at), file[at - 1];
    assert Lines(file, pos, at + 1) == front + [x];
    assert front + [x] + (lines + b) == front + ([x] + lines + b);
    SameFront(front, lines + a, [x] + lines + b);
    Repeats(lines, x, a, b);
  }

  /** One hunk that is not late. */
  lemma AppliedSame(file: seq<Line>, pos: nat, meant: seq<Hunk>, named: seq<Hunk>)
    requires 1 <= pos <= |file| + 1 && |named| == |meant| && meant != [] && ApplyFrom(file, pos, meant).Some?
    requires var m, n := meant[0], named[0];
             OldSide(m.entries) == OldSide(n.entries) && NewSide(m.entries) == NewSide(n.entries)
             && n.oldStart == m.oldStart
    ensures var end := meant[0].oldStart + |OldSide(meant[0].entries)|;
            && 1 <= end <= |file| + 1
            && (ApplyFrom(file, pos, named) == ApplyFrom(file, pos, meant) <==>
                  ApplyFrom(file, end, named[1..]) == ApplyFrom(file, end, meant[1..]))
  {
    hide OldSide, NewSide, Lines;
    var m := meant[0];
    var end := m.oldStart + |OldSide(m.entries)|;
    var rest, rest' := ApplyFrom(file, end, meant[1..]), ApplyFrom(file, end, named[1..]);
    if rest'.Some? {
      SameFront(Lines(file, pos, m.oldStart) + NewSide(m.entries), rest.value, rest'.value);
    }
  }

  lemma AppliedRest(file: seq<Line>, pos: nat, hunks: seq<Hunk>)
    requires 1 <= pos <= |file| + 1 && hunks != [] && ApplyFrom(file, pos, hunks).Some?
    ensures var end := hunks[0].oldStart + |OldSide(hunks[0].entries)|;
            1 <= end <= |file| + 1 && ApplyFrom(file, end, hunks[1..]).Some?
  {
    hide OldSide, NewSide, Lines;
  }

  /** Late hunks are harmless if and only if they all slide. */
  lemma {:induction false} SlideTheorem(file: seq<Line>, pos: nat, meant: seq<Hunk>, named: seq<Hunk>)
    requires 1 <= pos <= |file| + 1 && Late(meant, named) && ApplyFrom(file, pos, meant).Some?
    ensures ApplyFrom(file, pos, named) == ApplyFrom(file, pos, meant) <==> SlidesAll(file, meant, named)
    decreases |meant|
  {
    hide *;
    if meant == [] {
      NoneLate(file, meant, named);
    } else {
      LateStep(meant, named, file);
      AppliedRest(file, pos, meant);
      SlideTheorem(file, meant[0].oldStart + |OldSide(meant[0].entries)|, meant[1..], named[1..]);
      if named[0].oldStart == meant[0].oldStart {
        AppliedSame(file, pos, meant, named);
      } else {
        SlideStep(file, pos, meant, named);
      }
    }
  }

  lemma NoneLate(file: seq<Line>, meant: seq<Hunk>, named: seq<Hunk>)
    requires Late(meant, named) && meant == []
    ensures named == [] && SlidesAll(file, meant, named)
  {
  }

  // --------------------------------------------------------- facts on hunks

  lemma PartLate(h: Hunk, sel: Selection)
    ensures Late(ShiftHunks(Emitted(h, sel), Step(OldSide(h.entries)), Step(NewSide(h.entries))),
                 PosixAll(Emitted(h, sel)))
  {
    hide Emitted, OldSide, NewSide, ShiftHunk;
    var emitted := Emitted(h, sel);
    forall t | 0 <= t < |emitted|
      ensures var meant := ShiftHunk(emitted[t], Step(OldSide(h.entries)), Step(NewSide(h.entries)));
              && OldSide(Posix(emitted[t]).entries) == OldSide(meant.entries)
              && NewSide(Posix(emitted[t]).entries) == NewSide(meant.entries)
              && (Posix(emitted[t]).oldStart == meant.oldStart
                  || (OldSide(meant.entries) == [] && Posix(emitted[t]).oldStart == meant.oldStart + 1))
    {
      NamedHunk(h, sel, emitted[t]);
    }
  }

  lemma LateJoin(meant: seq<Hunk>, named: seq<Hunk>, meant': seq<Hunk>, named': seq<Hunk>)
    requires Late(meant, named) && Late(meant', named')
    ensures Late(meant + meant', named + named')
  {
    hide OldSide, NewSide;
  }

  lemma {:induction false} NamedLate(hunks: seq<Hunk>, sel: Selection)
    ensures Late(Meant(hunks, sel), Named(hunks, sel))
  {
    if hunks != [] {
      hide *;
      var h := hunks[0];
      MeantStep(hunks, sel);
      PartLate(h, sel);
      NamedLate(hunks[1..], sel);
      LateJoin(ShiftHunks(Emitted(h, sel), Step(OldSide(h.entries)), Step(NewSide(h.entries))),
               PosixAll(Emitted(h, sel)), Meant(hunks[1..], sel), Named(hunks[1..], sel));
    }
  }

  lemma NamedEnded(hunks: seq<Hunk>, sel: Selection)
    requires ChainedHunks(hunks)
    ensures EndedHunks(Named(hunks, sel))
  {
    hide SelectHunks, SeenHunks, ChainedHunks;
    SeenPrintable(hunks);
    SelectHunksEnded(SeenHunks(hunks), sel);
    var printed := SelectHunks(SeenHunks(hunks), sel);
    assert forall a :: 0 <= a < |printed| ==> AllEnded(printed[a].entries);
  }

  lemma PosixChained(hunks: seq<Hunk>)
    requires ChainedHunks(hunks)
    ensures ChainedHunks(PosixAll(hunks))
  {
    hide Step, OldSide, NewSide, ShiftEntries;
    forall a | 0 <= a < |hunks|
      ensures Chained(PosixAll(hunks)[a].entries, PosixAll(hunks)[a].oldStart, PosixAll(hunks)[a].newStart)
    {
      var h := hunks[a];
      ShiftChained(h.entries, h.oldStart, h.newStart, Step(OldSide(h.entries)), Step(NewSide(h.entries)));
    }
  }

  lemma PosixUnharmed(hunks: seq<Hunk>, sel: Selection)
    ensures UnharmedHunks(PosixAll(hunks), sel) <==> UnharmedHunks(hunks, sel)
  {
    hide Unharmed;
    forall a | 0 <= a < |hunks| ensures Unharmed(PosixAll(hunks)[a].entries, sel) <==> Unharmed(hunks[a].entries, sel) {
      var entries := hunks[a].entries;
      ShiftUnharmed(entries, Step(OldSide(entries)), Step(NewSide(entries)), sel);
    }
  }

  lemma ShiftUnharmed(entries: seq<Entry>, d: nat, m: nat, sel: Selection)
    requires Idle(entries, d, m)
    ensures Unharmed(ShiftEntries(entries, d, m), sel) <==> Unharmed(entries, sel)
  {
    hide Idle, OldSide, NewSide;
    forall i, j | 0 <= i < |entries| && 0 <= j < |entries|
      ensures Harms(ShiftEntries(entries, d, m), sel, i, j) <==> Harms(entries, sel, i, j)
    {
      ShiftPicks(entries, d, m, sel, j);
    }
  }

  // ------------------------------------------------- exactly when it stages

  /** The header and body lines `read` are a diff of these two files, as POSIX has it. */
  predicate PosixDiff(read: seq<Hunk>, oldFile: seq<Line>, newFile: seq<Line>) {
    && ChainedHunks(read) && Describes(PosixAll(read), oldFile, newFile, 1, 1)
    && IsFile(oldFile) && IsFile(newFile)
  }

  /** The edit script it stands for. */
  function PosixScript(read: seq<Hunk>, oldFile: seq<Line>): seq<Entry> {
    Script(oldFile, PosixAll(read), 1, 1)
  }

  predicate StagedAsNamed(read: seq<Hunk>, oldFile: seq<Line>, sel: Selection) {
    ApplyForward(oldFile, Named(read, sel)) == Some(Staged(PosixScript(read, oldFile), sel))
  }

  /** Every printed insertion that lost the old lines of its hunk repeats the old line after it. */
  predicate SlidesNamed(read: seq<Hunk>, file: seq<Line>, sel: Selection) {
    SlidesAll(file, Meant(read, sel), Named(read, sel))
  }

  lemma PosixHunks(read: seq<Hunk>, oldFile: seq<Line>, newFile: seq<Line>, sel: Selection)
    requires PosixDiff(read, oldFile, newFile)
    ensures StagedAsNamed(read, oldFile, sel) <==> UnharmedHunks(read, sel) && SlidesNamed(read, oldFile, sel)
  {
    hide Describes, IsFile, PosixAll, SelectHunks, Staged, Script, UnharmedHunks, ApplyFrom, Named, SlidesAll,
         ChainedHunks, EndedHunks, SameLines, SeenHunks;
    var meant := PosixAll(read);
    PosixChained(read);
    PosixUnharmed(read, sel);
    NamedLate(read, sel);
    NamedEnded(read, sel);
    if StagedAsNamed(read, oldFile, sel) {
      assert StagedBy(Named(read, sel), meant, oldFile, sel);
      ExactUnharmed(meant, oldFile, newFile, sel, Named(read, sel));
    }
    if UnharmedHunks(read, sel) {
      HunksTheorem(meant, oldFile, newFile, sel);
      SlideTheorem(oldFile, 1, Meant(read, sel), Named(read, sel));
    }
  }

  /** No printed hunk is late if none lost the old lines of its hunk. */
  lemma NamesSlide(read: seq<Hunk>, file: seq<Line>, sel: Selection)
    requires NamesOld(read, sel)
    ensures SlidesNamed(read, file, sel)
  {
    hide NamesOld, Named, Meant;
    NamesTheorem(read, sel);
  }

  // ---------------------------------------------------------------- reverse

  lemma {:induction false} SwapPosix(hunks: seq<Hunk>)
    ensures PosixAll(SwapHunks(hunks)) == SwapHunks(PosixAll(hunks))
  {
    hide Posix;
    if hunks != [] {
      SwapStep(hunks);
      SwapStep(PosixAll(hunks));
      SwapPosix(hunks[1..]);
      SwapPosixHunk(hunks[0]);
    }
  }

  lemma SwapPosixHunk(h: Hunk)
    ensures Posix(SwapHunk(h)) == SwapHunk(Posix(h))
  {
    hide OldSide, NewSide;
    SwapSides(h.entries);
  }

  lemma SwapNamed(read: seq<Hunk>, sel: Selection)
    ensures Named(SwapHunks(read), SwapSelection(sel)) == SwapHunks(Named(read, sel))
    ensures Meant(SwapHunks(read), SwapSelection(sel)) == SwapHunks(Meant(read, sel))
  {
    hide SwapHunks, SelectHunks, PosixAll, SeenHunks, SwapSelection;
    SwapSeenHunks(read);
    SwapCommutes(SeenHunks(read), sel);
    SwapPosix(SelectHunks(SeenHunks(read), sel));
    SwapPosix(read);
    SwapSeenHunks(PosixAll(read));
    SwapCommutes(SeenHunks(PosixAll(read)), sel);
  }

  predicate UnstagedAsNamed(read: seq<Hunk>, oldFile: seq<Line>, newFile: seq<Line>, sel: Selection) {
    ApplyReverse(newFile, Named(read, sel)) == Some(Staged(SwapEntries(PosixScript(read, oldFile)), SwapSelection(sel)))
  }

  lemma SwapPosixDiff(read: seq<Hunk>, oldFile: seq<Line>, newFile: seq<Line>)
    requires PosixDiff(read, oldFile, newFile)
    ensures PosixDiff(SwapHunks(read), newFile, oldFile)
  {
    hide Describes, SwapHunks, IsFile, PosixAll;
    SwapHunksChained(read);
    SwapPosix(read);
    SwapDescribes(PosixAll(read), oldFile, newFile, 1, 1);
  }

  /** Unstaging is exact under the mirrored condition. */
  lemma PosixReverse(read: seq<Hunk>, oldFile: seq<Line>, newFile: seq<Line>, sel: Selection)
    requires PosixDiff(read, oldFile, newFile)
    ensures UnstagedAsNamed(read, oldFile, newFile, sel) <==>
            UnharmedHunks(read, sel) && SlidesNamed(SwapHunks(read), newFile, SwapSelection(sel))
  {
    hide Describes, SwapHunks, ApplyFrom, ReverseFrom, Staged, Script, UnharmedHunks, IsFile, SwapEntries, Named,
         SlidesNamed, PosixAll, ChainedHunks;
    SwapPosixDiff(read, oldFile, newFile);
    PosixHunks(SwapHunks(read), newFile, oldFile, SwapSelection(sel));
    SwapUnharmed(read, sel);
    SwapNamed(read, sel);
    ReverseIsForward(newFile, 1, Named(read, sel));
    SwapPosix(read);
    SwapScript(PosixAll(read), oldFile, newFile, 1, 1);
  }

  lemma SwapSame(a: seq<Hunk>, b: seq<Hunk>)
    requires SameReverse(a, b)
    ensures SameForward(SwapHunks(a), SwapHunks(b))
  {
    hide OldSide, NewSide, SwapEntries;
    if a != [] {
      SwapHunksAt(a, 0);
      SwapHunksAt(b, 0);
    }
    forall k | 0 <= k < |a|
      ensures SwapHunks(a)[k].oldStart == a[k].newStart && SwapHunks(b)[k].oldStart == b[k].newStart
      ensures OldSide(SwapHunks(a)[k].entries) == NewSide(a[k].entries)
      ensures NewSide(SwapHunks(a)[k].entries) == OldSide(a[k].entries)
      ensures OldSide(SwapHunks(b)[k].entries) == NewSide(b[k].entries)
      ensures NewSide(SwapHunks(b)[k].entries) == OldSide(b[k].entries)
    {
      SwapHunksAt(a, k);
      SwapHunksAt(b, k);
      SwapSides(a[k].entries);
      SwapSides(b[k].entries);
    }
  }

  lemma NamesSlideBack(read: seq<Hunk>, file: seq<Line>, sel: Selection)
    requires NamesNew(read, sel)
    ensures SlidesNamed(SwapHunks(read), file, SwapSelection(sel))
  {
    hide NamesNew, Named, Meant, SwapHunks, SwapSelection;
    NamesTheorem(read, sel);
    SwapSame(Named(read, sel), Meant(read, sel));
    SwapNamed(read, sel);
  }

  // ----------------------------------------------------------- main results

  /** `lines` is a single-file diff that turns `oldFile` into `newFile`, numbered as POSIX has it. */
  predicate WellFormedPosix(lines: seq<string>, oldFile: seq<Line>, newFile: seq<Line>) {
    && ReadDiff(lines).Some? && Describes(PosixAll(ReadDiff(lines).value), oldFile, newFile, 1, 1)
    && IsFile(oldFile) && IsFile(newFile)
  }

  /** The printed text, read as POSIX has it and applied to the old file, makes exactly the selected changes. */
  predicate StagesPosix(lines: seq<string>, oldFile: seq<Line>, sel: Selection)
    requires ReadDiff(lines).Some?
  {
    var patch := ReadDiff(SelectedPatch(lines, sel));
    && patch.Some?
    && ApplyForward(oldFile, PosixAll(patch.value)) == Some(Staged(PosixScript(ReadDiff(lines).value, oldFile), sel))
  }

  /** The same in reverse, on the new file. */
  predicate UnstagesPosix(lines: seq<string>, oldFile: seq<Line>, newFile: seq<Line>, sel: Selection)
    requires ReadDiff(lines).Some?
  {
    var patch := ReadDiff(SelectedPatch(lines, sel));
    && patch.Some?
    && ApplyReverse(newFile, PosixAll(patch.value))
       == Some(Staged(SwapEntries(PosixScript(ReadDiff(lines).value, oldFile)), SwapSelection(sel)))
  }

  /**
   Exactly when a selection is staged and unstaged: it meets no marker, and every printed hunk
   without a line on the side that is looked for, in a hunk of the diff that has lines there,
   repeats the line after it.
   */
  lemma PosixTheorem(lines: seq<string>, oldFile: seq<Line>, newFile: seq<Line>, sel: Selection)
    requires WellFormedPosix(lines, oldFile, newFile)
    ensures var read := ReadDiff(lines).value;
            && (StagesPosix(lines, oldFile, sel) <==> UnharmedHunks(read, sel) && SlidesNamed(read, oldFile, sel))
            && (UnstagesPosix(lines, oldFile, newFile, sel) <==>
                  UnharmedHunks(read, sel) && SlidesNamed(SwapHunks(read), newFile, SwapSelection(sel)))
  {
    hide Describes, SelectHunks, SelectedPatch, ReadDiff, ApplyFrom, ReverseFrom, Staged, PosixScript, UnharmedHunks,
         ChainedHunks, SlidesNamed, IsFile, PosixAll, SwapHunks, SwapEntries;
    PatchSeen(lines, sel);
    PosixHunks(ReadDiff(lines).value, oldFile, newFile, sel);
    PosixReverse(ReadDiff(lines).value, oldFile, newFile, sel);
  }

  /**
   Where no printed hunk lost all lines of a side, staging and unstaging are exact if and only
   if no marker is met.
   */
  lemma NamesEnough(lines: seq<string>, oldFile: seq<Line>, newFile: seq<Line>, sel: Selection)
    requires WellFormedPosix(lines, oldFile, newFile)
    ensures var read := ReadDiff(lines).value;
            && (NamesOld(read, sel) ==> (StagesPosix(lines, oldFile, sel) <==> UnharmedHunks(read, sel)))
            && (NamesNew(read, sel) ==> (UnstagesPosix(lines, oldFile, newFile, sel) <==> UnharmedHunks(read, sel)))
  {
    hide Describes, ReadDiff, UnharmedHunks, SlidesNamed, StagesPosix, UnstagesPosix, NamesOld, NamesNew, IsFile,
         PosixAll, SwapHunks;
    var read := ReadDiff(lines).value;
    PosixTheorem(lines, oldFile, newFile, sel);
    if NamesOld(read, sel) {
      NamesSlide(read, oldFile, sel);
    }
    if NamesNew(read, sel) {
      NamesSlideBack(read, newFile, sel);
    }
  }

  /** Every hunk only adds or only deletes lines. */
  predicate Pure(read: seq<Hunk>) {
    forall a :: 0 <= a < |read| ==> OldSide(read[a].entries) == [] || NewSide(read[a].entries) == []
  }

  lemma {:induction false} RunsFilled(entries: seq<Entry>, inc: seq<bool>, i: nat, s: Hunk)
    requires i <= |entries| == |inc| && s in HunksOf(RunsFrom(entries, inc, i))
    ensures s.entries != []
    decreases |entries| - i
  {
    hide SegmentHunk;
    if !inc[i] {
      RunsFilled(entries, inc, i + 1, s);
    } else {
      var e := RunEnd(inc, i);
      RunsCons(entries, inc, i);
      if s == SegmentHunk(entries[i..e]) {
        SegmentEntries(entries[i..e]);
      } else {
        RunsFilled(entries, inc, e, s);
      }
    }
  }

  /** A selection from hunks that only add or only delete never loses all lines of a side. */
  lemma PureNames(read: seq<Hunk>, sel: Selection)
    requires Pure(read)
    ensures NamesOld(read, sel) && NamesNew(read, sel)
  {
    hide OldSide, NewSide, RunsFrom;
    forall a, s | 0 <= a < |read| && s in Emitted(read[a], sel)
      ensures OldSide(s.entries) == [] ==> OldSide(read[a].entries) == []
      ensures NewSide(s.entries) == [] ==> NewSide(read[a].entries) == []
    {
      var seen := Seen(read[a].entries);
      EmittedIdle(read[a], sel, s);
      RunsFilled(seen, Flags(seen, sel), 0, s);
      SideHas(s.entries, 0);
    }
  }

  /** So for these, the diffs that are most often met, markers are all there is to it. */
  lemma PureTheorem(lines: seq<string>, oldFile: seq<Line>, newFile: seq<Line>, sel: Selection)
    requires WellFormedPosix(lines, oldFile, newFile) && Pure(ReadDiff(lines).value)
    ensures StagesPosix(lines, oldFile, sel) <==> UnharmedHunks(ReadDiff(lines).value, sel)
    ensures UnstagesPosix(lines, oldFile, newFile, sel) <==> UnharmedHunks(ReadDiff(lines).value, sel)
  {
    hide Describes, ReadDiff, UnharmedHunks, StagesPosix, UnstagesPosix, NamesOld, NamesNew, IsFile, PosixAll, Pure;
    PureNames(ReadDiff(lines).value, sel);
    NamesEnough(lines, oldFile, newFile, sel);
  }

  /** Staging a selection equals unstaging everything else, for a selection staged and a complement unstaged exactly. */
  lemma PosixDuality(lines: seq<string>, oldFile: seq<Line>, newFile: seq<Line>, sel: Selection)
    requires WellFormedPosix(lines, oldFile, newFile)
    requires var read := ReadDiff(lines).value;
             var other := Complement(sel, PosixScript(read, oldFile));
             && UnharmedHunks(read, sel) && UnharmedHunks(read, other)
             && SlidesNamed(read, oldFile, sel) && SlidesNamed(SwapHunks(read), newFile, SwapSelection(other))
    ensures var other := Complement(sel, PosixScript(ReadDiff(lines).value, oldFile));
            var staged, unstaged := ReadDiff(SelectedPatch(lines, sel)), ReadDiff(SelectedPatch(lines, other));
            && staged.Some? && unstaged.Some? && ApplyForward(oldFile, PosixAll(staged.value)).Some?
            && ApplyForward(oldFile, PosixAll(staged.value)) == ApplyReverse(newFile, PosixAll(unstaged.value))
  {
    hide Describes, SelectedPatch, ReadDiff, ApplyFrom, ReverseFrom, Staged, PosixScript, UnharmedHunks, SlidesNamed,
         IsFile, PosixAll, SwapHunks, SwapEntries;
    var script := PosixScript(ReadDiff(lines).value, oldFile);
    PosixTheorem(lines, oldFile, newFile, sel);
    PosixTheorem(lines, oldFile, newFile, Complement(sel, script));
    SwapStaged(script, sel, Complement(sel, script));
  }

  /** The header arithmetic of `PatchHeaders.HeaderTheorem` where all starts are named right. */
  lemma PosixHeaders(lines: seq<string>, oldFile: seq<Line>, newFile: seq<Line>, sel: Selection, k: nat)
    requires WellFormedPosix(lines, oldFile, newFile) && UnharmedHunks(ReadDiff(lines).value, sel)
    requires NamesOld(ReadDiff(lines).value, sel) && NamesNew(ReadDiff(lines).value, sel)
    ensures ReadDiff(SelectedPatch(lines, sel)).Some?
    ensures var patch := PosixAll(ReadDiff(SelectedPatch(lines, sel)).value);
            && Disjoint(patch, 1, 1) && ApplyForward(oldFile, patch).Some?
            && (k < |patch| ==>
                  HeaderOk(patch, k, ApplyForward(oldFile, patch).value, Flat(PosixAll(ReadDiff(lines).value)), sel))
  {
    hide Describes, SelectHunks, SelectedPatch, ReadDiff, UnharmedHunks, Disjoint, HeaderOk, Flat, ApplyFrom,
         ChainedHunks, PosixAll, NamesOld, NamesNew, SeenHunks;
    var read := ReadDiff(lines).value;
    PatchSeen(lines, sel);
    NamesTheorem(read, sel);
    PosixChained(read);
    PosixUnharmed(read, sel);
    SelectedSeen(PosixAll(read), sel);
    SelectedHeaders(PosixAll(read), oldFile, newFile, sel, k);
  }

  // ---------------------------------------------------------------- witnesses

  lemma OnlyHunk(h: Hunk)
    requires Chained(h.entries, h.oldStart, h.newStart)
    ensures ChainedHunks([h]) && PosixAll([h]) == [Posix(h)]
  {
    hide Chained, Posix;
    assert [h][1..] == [] && [Posix(h)] + [] == [Posix(h)];
  }

  lemma OnlyEntry(e: Entry)
    ensures OldSide([e]) == (if e.OnOld() then [e.AsLine()] else [])
    ensures NewSide([e]) == (if e.OnNew() then [e.AsLine()] else [])
    ensures Chained([e], e.oldBefore, e.newBefore) && SegmentHunk([e]) == Hunk(e.oldBefore, e.newBefore, [e])
  {
    SidesUnfold([e]);
    assert [e][1..] == [] && OldSide([]) == [] && NewSide([]) == [];
    assert Chained([], e.OldAfter(), e.NewAfter());
    StartsOfChained([e], e.oldBefore, e.newBefore);
  }

  /** A one-hunk diff whose hunk means `meant`. */
  lemma OneHunkPosix(h: Hunk, meant: Hunk, oldFile: seq<Line>, newFile: seq<Line>)
    requires Chained(h.entries, h.oldStart, h.newStart) && Posix(h) == meant && IsFile(oldFile) && IsFile(newFile)
    requires Describes([meant], oldFile, newFile, 1, 1)
    ensures ReadDiff(MarkedDiff([h])) == Some([h]) && WellFormedPosix(MarkedDiff([h]), oldFile, newFile)
    ensures PosixDiff([h], oldFile, newFile)
  {
    hide *;
    OnlyHunk(h);
    MarkedDiffReads([h]);
    OneHunkMeans(h, meant, oldFile, newFile);
  }

  lemma OneHunkMeans(h: Hunk, meant: Hunk, oldFile: seq<Line>, newFile: seq<Line>)
    requires ChainedHunks([h]) && PosixAll([h]) == [meant] && IsFile(oldFile) && IsFile(newFile)
    requires Describes([meant], oldFile, newFile, 1, 1) && ReadDiff(MarkedDiff([h])) == Some([h])
    ensures WellFormedPosix(MarkedDiff([h]), oldFile, newFile) && PosixDiff([h], oldFile, newFile)
  {
    hide ReadDiff, MarkedDiff, ChainedHunks, IsFile, Describes, PosixAll;
  }

  lemma AllUnharmed(read: seq<Hunk>, sel: Selection)
    requires EndedHunks(read)
    ensures UnharmedHunks(read, sel)
  {
  }

  /** What is selected from one hunk of which only the last entry is picked. */
  lemma LastPicked(h: Hunk, sel: Selection, last: Entry)
    requires AllEnded(h.entries) && |h.entries| == 3 && h.entries[2] == last && sel.Picks(last)
    requires !h.entries[0].kind.Keep? && !h.entries[1].kind.Keep?
    requires !sel.Picks(h.entries[0]) && !sel.Picks(h.entries[1])
    ensures SelectHunks(SeenHunks([h]), sel) == [SegmentHunk([last])]
  {
    hide SegmentHunk, Seen;
    var entries, inc := h.entries, Flags(h.entries, sel);
    var m := FirstMark(entries);
    assert inc == [false, false, true] by {
      assert !Included(entries, sel, 0) && !Included(entries, sel, 1) && Included(entries, sel, 2);
    }
    assert RunEnd(inc, 2) == 3 && entries[2..3] == [last];
    RunsCons(entries, inc, 2);
    RunsSkip(entries, inc, 0, 2);
    assert SeenHunks([h]) == [h] && [h][1..] == [];
  }

  /** `a` becomes `b`, `c`: the addition of `c` alone is put after line 2 of a file of one line. */
  lemma LateWitness()
    ensures var h := Hunk(1, 1, [Entry(Delete, "a", true, 1, 1), Entry(Insert, "b", true, 2, 1),
                                 Entry(Insert, "c", true, 2, 2)]);
            var lines, sel, oldFile := MarkedDiff([h]), Selection({}, {2}), [Line("a", true)];
            && WellFormedPosix(lines, oldFile, [Line("b", true), Line("c", true)])
            && UnharmedHunks(ReadDiff(lines).value, sel)
            && ReadDiff(SelectedPatch(lines, sel)) == Some([Hunk(2, 2, [Entry(Insert, "c", true, 2, 2)])])
            && !StagesPosix(lines, oldFile, sel)
  {
    hide ReadDiff, SelectedPatch, MarkedDiff, SelectHunks, SeenHunks, Describes, PosixScript, Staged, Chained;
    var e1, e2, e3 := Entry(Delete, "a", true, 1, 1), Entry(Insert, "b", true, 2, 1), Entry(Insert, "c", true, 2, 2);
    var h, sel := Hunk(1, 1, [e1, e2, e3]), Selection({}, {2});
    var oldFile, newFile := [Line("a", true)], [Line("b", true), Line("c", true)];
    ThreeSides(e1, e2, e3);
    assert ShiftEntries(h.entries, 0, 0) == h.entries;
    OneHunkDescribes(h, oldFile, newFile);
    OneHunkPosix(h, h, oldFile, newFile);
    AllUnharmed([h], sel);
    PatchSeen(MarkedDiff([h]), sel);
    LastPicked(h, sel, e3);
    OnlyEntry(e3);
    OnlyHunk(Hunk(2, 2, [e3]));
    assert Posix(Hunk(2, 2, [e3])).oldStart == 3;
  }

  lemma ThreeSides(e1: Entry, e2: Entry, e3: Entry)
    requires e1.kind.Delete? && e2.kind.Insert? && e3.kind.Insert?
    ensures OldSide([e1, e2, e3]) == [e1.AsLine()] && NewSide([e1, e2, e3]) == [e2.AsLine(), e3.AsLine()]
    ensures (e2.oldBefore == e1.OldAfter() && e2.newBefore == e1.NewAfter()
             && e3.oldBefore == e2.OldAfter() && e3.newBefore == e2.NewAfter())
            ==> Chained([e1, e2, e3], e1.oldBefore, e1.newBefore)
  {
    hide OldSide, NewSide;
    assert [e1, e2, e3][1..] == [e2, e3];
    SidesUnfold([e1, e2, e3]);
    TwoSides(e2, e3);
  }

  /** One line added after line 1, as every such diff without context is numbered. */
  lemma PureWitness()
    ensures var h := Hunk(1, 2, [Entry(Insert, "b", true, 1, 2)]);
            var lines, oldFile := MarkedDiff([h]), [Line("a", true)];
            && WellFormedPosix(lines, oldFile, [Line("a", true), Line("b", true)]) && Pure(ReadDiff(lines).value)
            && (forall sel :: StagesPosix(lines, oldFile, sel))
            && !WellFormed(lines, oldFile, [Line("a", true), Line("b", true)])
  {
    hide ReadDiff, MarkedDiff, StagesPosix, UnharmedHunks, Chained, Describes, OldSide, NewSide, ShiftEntries, PosixAll;
    var e, e' := Entry(Insert, "b", true, 1, 2), Entry(Insert, "b", true, 2, 2);
    var h := Hunk(1, 2, [e]);
    var oldFile, newFile := [Line("a", true)], [Line("a", true), Line("b", true)];
    OnlyEntry(e);
    OnlyEntry(e');
    OneShift(e);
    AddedDescribes(Hunk(2, 2, [e']), oldFile, newFile);
    OneHunkPosix(h, Hunk(2, 2, [e']), oldFile, newFile);
    forall sel ensures StagesPosix(MarkedDiff([h]), oldFile, sel) {
      AllUnharmed([h], sel);
      PureTheorem(MarkedDiff([h]), oldFile, newFile, sel);
    }
    LinesLength(newFile, 1, 2);
    LinesLength(oldFile, 1, 1);
    if Describes([h], oldFile, newFile, 1, 1) {
      DescribesStep([h], oldFile, newFile, 1, 1);
    }
  }

  lemma OneShift(e: Entry)
    ensures ShiftEntries([e], 1, 0) == [e.(oldBefore := e.oldBefore + 1)]
  {
  }

  lemma AddedDescribes(h: Hunk, oldFile: seq<Line>, newFile: seq<Line>)
    requires |oldFile| == 1 && |newFile| == 2 && newFile[0] == oldFile[0]
    requires h.oldStart == h.newStart == 2 && OldSide(h.entries) == [] && NewSide(h.entries) == newFile[1..]
    ensures Describes([h], oldFile, newFile, 1, 1)
  {
    hide Describes, OldSide, NewSide;
    NothingLeft(oldFile, newFile);
    assert [h][1..] == [];
    assert Lines(oldFile, 1, 2) == Lines(newFile, 1, 2) && Lines(oldFile, 2, 2) == []
           && Lines(newFile, 2, 3) == newFile[1..];
    DescribesCons([h], oldFile, newFile, 1, 1);
  }
}
