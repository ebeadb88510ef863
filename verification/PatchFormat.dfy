/**
 The text layer of a unified diff: lines, decimal numbers and hunk headers, as
 git_patch_selection.py reads them (line 6 and lines 33-63) and prints them
 (lines 151-163).
 */
module PatchFormat {
  import opened Wrappers

  // ---------------------------------------------------------------- lines

  /** A line is text without a line terminator. */
  predicate IsLine(s: string) {
    '\n' !in s
  }

  ghost predicate AreLines(lines: seq<string>) {
    forall i :: 0 <= i < |lines| ==> IsLine(lines[i])
  }

  /** Length of the first line of `s`, without its terminator. */
  function FirstLineLength(s: string): (k: nat)
    ensures k <= |s| && IsLine(s[..k])
    ensures k < |s| ==> s[k] == '\n'
  {
    if s == "" || s[0] == '\n' then 0 else 1 + FirstLineLength(s[1..])
  }

  /** `str.splitlines` with `\n` as the only terminator: a final terminator opens no new line. */
  function SplitLines(s: string): (lines: seq<string>)
    ensures AreLines(lines)
    decreases |s|
  {
    if s == "" then []
    else
      var k := FirstLineLength(s);
      [s[..k]] + SplitLines(if k < |s| then s[k + 1..] else "")
  }

  /** Every line followed by a terminator. */
  function JoinLines(lines: seq<string>): string {
    if lines == [] then "" else lines[0] + "\n" + JoinLines(lines[1..])
  }

  lemma {:induction false} FirstLineOf(line: string, rest: string)
    requires IsLine(line)
    ensures FirstLineLength(line + "\n" + rest) == |line|
  {
    if line == "" {
    } else {
      assert (line + "\n" + rest)[1..] == line[1..] + "\n" + rest;
      FirstLineOf(line[1..], rest);
    }
  }

  lemma SplitStep(line: string, rest: string)
    requires IsLine(line)
    ensures SplitLines(line + "\n" + rest) == [line] + SplitLines(rest)
  {
    var text := line + "\n" + rest;
    FirstLineOf(line, rest);
    assert text[..|line|] == line && text[|line| + 1..] == rest;
  }

  lemma {:induction false} SplitJoin(lines: seq<string>)
    requires AreLines(lines)
    ensures SplitLines(JoinLines(lines)) == lines
  {
    if lines == [] {
    } else {
      SplitStep(lines[0], JoinLines(lines[1..]));
      SplitJoin(lines[1..]);
    }
  }

  /** Text after the last terminator is a line of its own. */
  lemma {:induction false} SplitUnended(lines: seq<string>, last: string)
    requires AreLines(lines) && IsLine(last) && last != ""
    ensures SplitLines(JoinLines(lines) + last) == lines + [last]
  {
    hide SplitLines;
    if lines == [] {
      OneLine(last);
      assert JoinLines(lines) + last == last;
    } else {
      var rest := JoinLines(lines[1..]);
      SplitStep(lines[0], rest + last);
      SplitUnended(lines[1..], last);
      assert lines[0] + "\n" + rest + last == lines[0] + "\n" + (rest + last);
      assert lines + [last] == [lines[0]] + (lines[1..] + [last]);
    }
  }

  lemma OneLine(line: string)
    requires IsLine(line) && line != ""
    ensures SplitLines(line) == [line]
  {
    WholeLine(line);
    assert line[..|line|] == line;
  }

  lemma {:induction false} WholeLine(line: string)
    requires IsLine(line)
    ensures FirstLineLength(line) == |line|
  {
    if line != "" {
      WholeLine(line[1..]);
    }
  }

  // -------------------------------------------------------------- decimals

  predicate IsDigit(c: char) {
    '0' <= c <= '9'
  }

  predicate AllDigits(s: string) {
    forall i :: 0 <= i < |s| ==> IsDigit(s[i])
  }

  /** `str(n)` of a non-negative integer. */
  function Show(n: nat): (s: string)
    ensures |s| > 0 && AllDigits(s)
  {
    if n < 10 then [(n + '0' as int) as char] else Show(n / 10) + [(n % 10 + '0' as int) as char]
  }

  /** `int(s)` of a string of ASCII digits. */
  function Value(s: string): nat
    requires AllDigits(s)
  {
    if s == "" then 0 else 10 * Value(s[..|s| - 1]) + (s[|s| - 1] as int - '0' as int)
  }

  lemma {:induction false} ValueOfShow(n: nat)
    ensures Value(Show(n)) == n
  {
    if n < 10 {
      assert Show(n)[..0] == "";
    } else {
      ValueOfShow(n / 10);
      assert Show(n)[..|Show(n)| - 1] == Show(n / 10);
    }
  }

  function Power10(k: nat): nat {
    if k == 0 then 1 else 10 * Power10(k - 1)
  }

  /** Each digit counts by its place. */
  lemma {:induction false} ValueConcat(a: string, b: string)
    requires AllDigits(a) && AllDigits(b)
    ensures AllDigits(a + b) && Value(a + b) == Value(a) * Power10(|b|) + Value(b)
    decreases |b|
  {
    if b == "" {
      assert a + b == a;
    } else {
      var init := b[..|b| - 1];
      ValueConcat(a, init);
      assert (a + b)[..|a + b| - 1] == a + init;
      assert Value(a) * Power10(|b|) == 10 * (Value(a) * Power10(|init|));
    }
  }

  lemma ValueOfDigit(c: char)
    requires IsDigit(c)
    ensures AllDigits([c]) && Value([c]) == c as int - '0' as int
  {
    assert [c][..0] == "";
  }

  /** No zero stands in front. */
  lemma {:induction false} ShowShortest(n: nat)
    ensures Show(n)[0] == '0' <==> n == 0
  {
    if 10 <= n {
      ShowShortest(n / 10);
    }
  }

  /** Length of the longest prefix of digits. */
  function DigitRun(s: string): (k: nat)
    ensures k <= |s| && AllDigits(s[..k])
  {
    if s != "" && IsDigit(s[0]) then
      var k := 1 + DigitRun(s[1..]);
      assert s[..k] == [s[0]] + s[1..][..k - 1];
      k
    else 0
  }

  /** `\d+`, greedily. */
  function TakeNumber(s: string): Option<(nat, string)> {
    var k := DigitRun(s);
    if k == 0 then None else Some((Value(s[..k]), s[k..]))
  }

  lemma {:induction false} DigitRunOf(digits: string, rest: string)
    requires AllDigits(digits) && (rest == "" || !IsDigit(rest[0]))
    ensures DigitRun(digits + rest) == |digits|
  {
    if digits == "" {
      assert digits + rest == rest;
    } else {
      assert (digits + rest)[1..] == digits[1..] + rest;
      DigitRunOf(digits[1..], rest);
    }
  }

  lemma TakeNumberOf(n: nat, rest: string)
    requires rest == "" || !IsDigit(rest[0])
    ensures TakeNumber(Show(n) + rest) == Some((n, rest))
  {
    DigitRunOf(Show(n), rest);
    ValueOfShow(n);
    assert (Show(n) + rest)[..|Show(n)|] == Show(n);
    assert (Show(n) + rest)[|Show(n)|..] == rest;
  }

  // --------------------------------------------------------------- headers

  datatype Header = Header(oldStart: nat, oldCount: nat, newStart: nat, newCount: nat)

  function Expect(s: string, literal: string): Option<string> {
    if literal <= s then Some(s[|literal|..]) else None
  }

  /** `(?:,(\d+))?`: an absent count means 1. */
  function TakeCount(s: string): (nat, string) {
    if s != "" && s[0] == ',' && TakeNumber(s[1..]).Some? then TakeNumber(s[1..]).value else (1, s)
  }

  /** The header expression of line 6, anchored at the start and open at the end. */
  function ParseHeader(line: string): Option<Header> {
    var s1 :- Expect(line, "@@ -");
    var (oldStart, s2) :- TakeNumber(s1);
    var (oldCount, s3) := TakeCount(s2);
    var s4 :- Expect(s3, " +");
    var (newStart, s5) :- TakeNumber(s4);
    var (newCount, s6) := TakeCount(s5);
    var _ :- Expect(s6, " @@");
    Some(Header(oldStart, oldCount, newStart, newCount))
  }

  /** The header printed at line 154: both counts are always written. */
  function ShowHeader(h: Header): string {
    "@@ -" + Show(h.oldStart) + "," + Show(h.oldCount)
    + " +" + Show(h.newStart) + "," + Show(h.newCount) + " @@"
  }

  lemma ExpectOf(literal: string, rest: string)
    ensures Expect(literal + rest, literal) == Some(rest)
  {
    assert (literal + rest)[|literal|..] == rest;
  }

  lemma TakeCountOf(n: nat, rest: string)
    requires rest == "" || !IsDigit(rest[0])
    ensures TakeCount("," + (Show(n) + rest)) == (n, rest)
  {
    var s := "," + (Show(n) + rest);
    assert s[0] == ',' && s[1..] == Show(n) + rest;
    TakeNumberOf(n, rest);
  }

  /** Printed headers parse back to the same four numbers. */
  lemma HeaderRoundTrip(h: Header)
    ensures ParseHeader(ShowHeader(h)) == Some(h)
  {
    var s6 := " @@";
    var s5 := "," + (Show(h.newCount) + s6);
    var s4 := Show(h.newStart) + s5;
    var s3 := " +" + s4;
    var s2 := "," + (Show(h.oldCount) + s3);
    var s1 := Show(h.oldStart) + s2;
    assert ShowHeader(h) == "@@ -" + s1;
    ExpectOf("@@ -", s1);
    TakeNumberOf(h.oldStart, s2);
    TakeCountOf(h.oldCount, s3);
    ExpectOf(" +", s4);
    TakeNumberOf(h.newStart, s5);
    TakeCountOf(h.newCount, s6);
    ExpectOf(" @@", "");
    assert " @@" + "" == s6;
  }

  // ------------------------------------------------- what a header looks like

  /** One or more digits that stand for `n`. */
  predicate Numeral(s: string, n: nat) {
    s != "" && AllDigits(s) && Value(s) == n
  }

  /** A count as it is written, or nothing for the count 1. */
  predicate CountText(s: string, n: nat) {
    (s == "" && n == 1) || (s != "" && s[0] == ',' && Numeral(s[1..], n))
  }

  predicate WrittenAs(line: string, h: Header, o: string, c: string, n: string, d: string, tail: string) {
    && line == "@@ -" + (o + (c + (" +" + (n + (d + (" @@" + tail))))))
    && Numeral(o, h.oldStart) && CountText(c, h.oldCount) && Numeral(n, h.newStart) && CountText(d, h.newCount)
  }

  lemma TakeNumberIs(digits: string, n: nat, rest: string)
    requires Numeral(digits, n) && (rest == "" || !IsDigit(rest[0]))
    ensures TakeNumber(digits + rest) == Some((n, rest))
  {
    DigitRunOf(digits, rest);
    assert (digits + rest)[..|digits|] == digits && (digits + rest)[|digits|..] == rest;
  }

  lemma TakeCountIs(text: string, n: nat, rest: string)
    requires CountText(text, n) && rest != "" && !IsDigit(rest[0]) && rest[0] != ','
    ensures TakeCount(text + rest) == (n, rest)
  {
    if text == "" {
      assert text + rest == rest;
    } else {
      TakeNumberIs(text[1..], n, rest);
      assert (text + rest)[1..] == text[1..] + rest;
    }
  }

  lemma WrittenParses(line: string, h: Header, o: string, c: string, n: string, d: string, tail: string)
    requires WrittenAs(line, h, o, c, n, d, tail)
    ensures ParseHeader(line) == Some(h)
  {
    hide TakeNumber, TakeCount, Numeral, CountText;
    var s6 := " @@" + tail;
    var s5 := d + s6;
    var s4 := n + s5;
    var s3 := " +" + s4;
    var s2 := c + s3;
    ExpectOf("@@ -", o + s2);
    FirstOf(c, h.oldCount, s3);
    TakeNumberIs(o, h.oldStart, s2);
    TakeCountIs(c, h.oldCount, s3);
    ExpectOf(" +", s4);
    FirstOf(d, h.newCount, s6);
    TakeNumberIs(n, h.newStart, s5);
    TakeCountIs(d, h.newCount, s6);
    ExpectOf(" @@", tail);
  }

  lemma FirstOf(count: string, n: nat, rest: string)
    requires CountText(count, n) && rest != "" && rest[0] == ' '
    ensures count + rest != "" && !IsDigit((count + rest)[0])
  {
  }

  /** What was taken stood in front. */
  lemma TakenNumber(s: string) returns (digits: string)
    requires TakeNumber(s).Some?
    ensures Numeral(digits, TakeNumber(s).value.0) && s == digits + TakeNumber(s).value.1
  {
    digits := s[..DigitRun(s)];
  }

  lemma TakenCount(s: string) returns (text: string)
    ensures CountText(text, TakeCount(s).0) && s == text + TakeCount(s).1
  {
    if s != "" && s[0] == ',' && TakeNumber(s[1..]).Some? {
      var digits := TakenNumber(s[1..]);
      text := "," + digits;
      assert text[1..] == digits && s == "," + s[1..];
    } else {
      text := "";
      assert s == text + s;
    }
  }

  lemma Expected(s: string, literal: string)
    requires Expect(s, literal).Some?
    ensures s == literal + Expect(s, literal).value
  {
  }

  lemma ParsesWritten(line: string) returns (o: string, c: string, n: string, d: string, tail: string)
    requires ParseHeader(line).Some?
    ensures WrittenAs(line, ParseHeader(line).value, o, c, n, d, tail)
  {
    hide TakeNumber, TakeCount, Numeral, CountText, Expect;
    var s1 := Expect(line, "@@ -").value;
    Expected(line, "@@ -");
    o := TakenNumber(s1);
    var s2 := TakeNumber(s1).value.1;
    c := TakenCount(s2);
    var s3 := TakeCount(s2).1;
    Expected(s3, " +");
    var s4 := Expect(s3, " +").value;
    n := TakenNumber(s4);
    var s5 := TakeNumber(s4).value.1;
    d := TakenCount(s5);
    var s6 := TakeCount(s5).1;
    Expected(s6, " @@");
    tail := Expect(s6, " @@").value;
  }

  /**
   Exactly the lines that are written so are headers: two numbers, each with a count or, for
   the count 1, none, between the three marks, and any text after the last one.
   */
  lemma HeaderTheorem(line: string, h: Header)
    ensures ParseHeader(line) == Some(h) <==>
            exists o, c, n, d, tail :: WrittenAs(line, h, o, c, n, d, tail)
  {
    hide ParseHeader, WrittenAs;
    if ParseHeader(line) == Some(h) {
      var o, c, n, d, tail := ParsesWritten(line);
    }
    if o, c, n, d, tail :| WrittenAs(line, h, o, c, n, d, tail) {
      WrittenParses(line, h, o, c, n, d, tail);
    }
  }

  /** A printed count, or none. */
  function Given(count: Option<nat>): string {
    match count
    case None => ""
    case Some(n) => "," + Show(n)
  }

  /** The four ways to write a header, with any tail. */
  function HeaderText(o: nat, c: Option<nat>, n: nat, d: Option<nat>, tail: string): string {
    "@@ -" + (Show(o) + (Given(c) + (" +" + (Show(n) + (Given(d) + (" @@" + tail))))))
  }

  lemma GivenIs(count: Option<nat>)
    ensures CountText(Given(count), if count.Some? then count.value else 1)
  {
    if count.Some? {
      ValueOfShow(count.value);
      assert Given(count)[1..] == Show(count.value);
    }
  }

  /** All four parse, an absent count being 1. */
  lemma HeaderForms(o: nat, c: Option<nat>, n: nat, d: Option<nat>, tail: string)
    ensures ParseHeader(HeaderText(o, c, n, d, tail))
            == Some(Header(o, if c.Some? then c.value else 1, n, if d.Some? then d.value else 1))
  {
    hide ParseHeader, Given, CountText, Value, Show;
    var h := Header(o, if c.Some? then c.value else 1, n, if d.Some? then d.value else 1);
    ValueOfShow(o);
    ValueOfShow(n);
    GivenIs(c);
    GivenIs(d);
    WrittenParses(HeaderText(o, c, n, d, tail), h, Show(o), Given(c), Show(n), Given(d), tail);
  }

  lemma {:induction false} ShowIsLine(n: nat)
    ensures IsLine(Show(n))
  {
    forall c | c in Show(n) ensures c != '\n' {
      assert IsDigit(c);
    }
  }

  lemma HeaderIsLine(h: Header)
    ensures IsLine(ShowHeader(h))
  {
    ShowIsLine(h.oldStart);
    ShowIsLine(h.oldCount);
    ShowIsLine(h.newStart);
    ShowIsLine(h.newCount);
  }
}
