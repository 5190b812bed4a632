/** The Python string operations the dotenv editor and the code index rely on. */
module PyText {
  import opened Wrappers

  /** `str.isspace` for one character; also what `\s` matches and what `strip()` removes. */
  predicate IsSpace(c: char) {
    var n := c as int;
    || 9 <= n <= 13 || 28 <= n <= 32 || n == 0x85 || n == 0xA0 || n == 0x1680
    || 0x2000 <= n <= 0x200A || n == 0x2028 || n == 0x2029 || n == 0x202F || n == 0x205F || n == 0x3000
  }

  /** The characters `str.splitlines` breaks at. */
  predicate IsBoundary(c: char) {
    var n := c as int;
    10 <= n <= 13 || 28 <= n <= 30 || n == 0x85 || n == 0x2028 || n == 0x2029
  }

  /** Both as lists of code points. */
  lemma SpacesAndBoundaries(c: char)
    ensures var n := c as int;
      IsSpace(c) <==>
      (n in {9, 10, 11, 12, 13, 28, 29, 30, 31, 32, 133, 160, 5760, 8192, 8193, 8194, 8195, 8196, 8197, 8198, 8199,
             8200, 8201, 8202, 8232, 8233, 8239, 8287, 12288})
    ensures IsBoundary(c) <==> c as int in {10, 11, 12, 13, 28, 29, 30, 133, 8232, 8233}
  {
  }

  predicate NoBoundary(s: string) {
    forall c | c in s :: !IsBoundary(c)
  }

  function LStrip(s: string): string {
    if s != "" && IsSpace(s[0]) then LStrip(s[1..]) else s
  }

  function RStrip(s: string): string {
    if s != "" && IsSpace(s[|s| - 1]) then RStrip(s[..|s| - 1]) else s
  }

  function Strip(s: string): string {
    RStrip(LStrip(s))
  }

  /** `s.rstrip("\n")` */
  function RStripNewlines(s: string): string {
    if s != "" && s[|s| - 1] == '\n' then RStripNewlines(s[..|s| - 1]) else s
  }

  /** Length of the first line of `s`. */
  function FirstLine(s: string): (n: nat)
    ensures n <= |s| && (forall i | 0 <= i < n :: !IsBoundary(s[i])) && (n < |s| ==> IsBoundary(s[n]))
  {
    if s == "" || IsBoundary(s[0]) then 0 else 1 + FirstLine(s[1..])
  }

  /** A carriage return and line feed together are one break. */
  function BreakLength(s: string, n: nat): (k: nat)
    requires n < |s|
    ensures 0 < k && n + k <= |s|
  {
    if s[n] == '\r' && n + 1 < |s| && s[n + 1] == '\n' then 2 else 1
  }

  function SplitLines(s: string): seq<string>
    decreases |s|
  {
    if s == "" then []
    else
      var n := FirstLine(s);
      if n == |s| then [s] else [s[..n]] + SplitLines(s[n + BreakLength(s, n)..])
  }

  /** `"\n".join(lines)` */
  function JoinLines(lines: seq<string>): string {
    if lines == [] then "" else if |lines| == 1 then lines[0] else lines[0] + "\n" + JoinLines(lines[1..])
  }

  /** `s.replace(old, new)`: leftmost, non-overlapping. */
  function Replace(s: string, was: string, now: string): string
    requires was != ""
    decreases |s|
  {
    if |s| < |was| then s
    else if s[..|was|] == was then now + Replace(s[|was|..], was, now)
    else [s[0]] + Replace(s[1..], was, now)
  }

  predicate OccursAt(s: string, i: nat, sub: string) {
    i + |sub| <= |s| && s[i..i + |sub|] == sub
  }

  /** Index of the first occurrence of `sub`, if any. */
  function Find(s: string, sub: string): (r: Option<nat>)
    requires sub != ""
    ensures r.Some? ==> OccursAt(s, r.value, sub) && forall i: nat | i < r.value :: !OccursAt(s, i, sub)
    ensures r.None? ==> forall i: nat :: !OccursAt(s, i, sub)
    decreases |s|
  {
    if OccursAt(s, 0, sub) then Some(0)
    else if s == "" then None
    else
      assert forall i: nat | i > 0 :: OccursAt(s, i, sub) == OccursAt(s[1..], i - 1, sub) by { OccursShift(s, sub); }
      match Find(s[1..], sub)
      case None => None
      case Some(k) => Some(k + 1)
  }

  lemma OccursShift(s: string, sub: string)
    requires s != ""
    ensures forall i: nat | i > 0 :: OccursAt(s, i, sub) == OccursAt(s[1..], i - 1, sub)
  {
    forall i: nat | i > 0 && i + |sub| <= |s|
      ensures OccursAt(s, i, sub) == OccursAt(s[1..], i - 1, sub)
    {
      var a, b := s[i..i + |sub|], s[1..][i - 1..i - 1 + |sub|];
      assert forall k | 0 <= k < |sub| :: a[k] == b[k] == s[i + k];
      assert a == b;
    }
  }

  lemma {:induction false} StripKeeps(s: string)
    requires s == "" || (!IsSpace(s[0]) && !IsSpace(s[|s| - 1]))
    ensures Strip(s) == s
  {
  }

  lemma {:induction false} SplitIsBoundaryFree(s: string)
    ensures forall i | 0 <= i < |SplitLines(s)| :: NoBoundary(SplitLines(s)[i])
    decreases |s|
  {
    if s != "" {
      var n := FirstLine(s);
      assert NoBoundary(s[..n]);
      if n < |s| {
        SplitIsBoundaryFree(s[n + BreakLength(s, n)..]);
      } else {
        assert s[..n] == s;
      }
    }
  }

  lemma {:induction false} FirstLineOf(line: string, rest: string)
    requires NoBoundary(line) && rest != "" && IsBoundary(rest[0])
    ensures FirstLine(line + rest) == |line|
    decreases |line|
  {
    if line == "" {
      assert line + rest == rest;
    } else {
      assert (line + rest)[1..] == line[1..] + rest;
      assert line[0] in line;
      FirstLineOf(line[1..], rest);
    }
  }

  /** A boundary-free line and its line feed split off the front. */
  /** Every boundary ends a line, and a carriage return with the line feed after it ends one line, not two. */
  lemma {:induction false} LineEnds(line: string, c: char, rest: string)
    requires NoBoundary(line) && IsBoundary(c)
    ensures SplitLines(line + [c] + rest)
         == [line] + SplitLines(if c == '\r' && "\n" <= rest then rest[1..] else rest)
  {
    hide SplitLines, NoBoundary, IsBoundary;
    var text := line + [c] + rest;
    assert text == line + ([c] + rest);
    FirstLineOf(line, [c] + rest);
    SplitStep(text, |line|);
    assert text[..|line|] == line && text[|line|] == c && text[|line| + 1..] == rest;
    if rest != "" {
      assert text[|line| + 1] == rest[0] && text[|line| + 2..] == rest[1..];
    }
  }

  lemma {:induction false} SplitStep(text: string, n: nat)
    requires n == FirstLine(text) && n < |text|
    ensures SplitLines(text) == [text[..n]] + SplitLines(text[n + BreakLength(text, n)..])
  {
    hide FirstLine, BreakLength, IsBoundary;
  }

  lemma SplitFront(line: string, rest: string)
    requires NoBoundary(line)
    ensures SplitLines(line + "\n" + rest) == [line] + SplitLines(rest)
  {
    var text := line + "\n" + rest;
    assert text == line + ("\n" + rest);
    FirstLineOf(line, "\n" + rest);
    assert text[..|line|] == line && text[|line| + 1..] == rest;
  }

  /** Joining boundary-free lines and splitting the result gives the lines back. */
  lemma {:induction false} SplitOfJoin(lines: seq<string>)
    requires lines != [] && forall i | 0 <= i < |lines| :: NoBoundary(lines[i])
    ensures SplitLines(JoinLines(lines) + "\n") == lines
    decreases |lines|
  {
    hide NoBoundary;
    if |lines| == 1 {
      SplitFront(lines[0], "");
      assert SplitLines("") == [];
      assert lines[0] + "\n" + "" == lines[0] + "\n";
      assert lines == [lines[0]];
    } else {
      var rest := lines[1..];
      SplitOfJoin(rest);
      assert JoinLines(lines) + "\n" == lines[0] + "\n" + (JoinLines(rest) + "\n");
      SplitFront(lines[0], JoinLines(rest) + "\n");
      assert lines == [lines[0]] + rest;
    }
  }

  lemma {:induction false} JoinSnoc(lines: seq<string>, last: string)
    requires lines != []
    ensures JoinLines(lines + [last]) == JoinLines(lines) + "\n" + last
    decreases |lines|
  {
    assert (lines + [last])[1..] == lines[1..] + [last];
    if |lines| > 1 {
      JoinSnoc(lines[1..], last);
    }
  }

  function DropTrailingEmpty(lines: seq<string>): seq<string> {
    if lines != [] && lines[|lines| - 1] == "" then DropTrailingEmpty(lines[..|lines| - 1]) else lines
  }

  lemma {:induction false} StripIsDrop(lines: seq<string>)
    requires forall i | 0 <= i < |lines| :: NoBoundary(lines[i])
    ensures RStripNewlines(JoinLines(lines)) == JoinLines(DropTrailingEmpty(lines))
    ensures DropTrailingEmpty(lines) <= lines
    decreases |lines|
  {
    if lines != [] {
      var init, last := lines[..|lines| - 1], lines[|lines| - 1];
      assert lines == init + [last];
      if init == [] {
        assert last == "" || last[|last| - 1] in last;
      } else {
        JoinSnoc(init, last);
        var text := JoinLines(lines);
        if last == "" {
          assert text == JoinLines(init) + "\n" && text[..|text| - 1] == JoinLines(init);
          StripIsDrop(init);
        } else {
          assert text[|text| - 1] == last[|last| - 1] && last[|last| - 1] in last;
        }
      }
    }
  }

  lemma {:induction false} LastNotEmpty(lines: seq<string>)
    ensures var kept := DropTrailingEmpty(lines); kept != [] ==> kept[|kept| - 1] != "" && JoinLines(kept) != ""
    decreases |lines|
  {
    var kept := DropTrailingEmpty(lines);
    if lines != [] && lines[|lines| - 1] == "" {
      LastNotEmpty(lines[..|lines| - 1]);
    } else if |kept| > 1 {
      assert kept == kept[..|kept| - 1] + [kept[|kept| - 1]];
      JoinSnoc(kept[..|kept| - 1], kept[|kept| - 1]);
    }
  }

  // ---- stripping ----

  predicate Blanks(s: string) {
    forall c | c in s :: IsSpace(c)
  }

  /** Text without blanks at either end. */
  predicate Tight(t: string) {
    t == "" || (!IsSpace(t[0]) && !IsSpace(t[|t| - 1]))
  }

  lemma {:induction false} LStripBlanks(a: string, s: string)
    requires Blanks(a) && (s == "" || !IsSpace(s[0]))
    ensures LStrip(a + s) == s
    decreases |a|
  {
    if a == "" {
      assert a + s == s;
    } else {
      assert a[0] in a && (a + s)[1..] == a[1..] + s;
      LStripBlanks(a[1..], s);
    }
  }

  lemma {:induction false} RStripBlanks(s: string, b: string)
    requires Blanks(b) && (s == "" || !IsSpace(s[|s| - 1]))
    ensures RStrip(s + b) == s
    decreases |b|
  {
    if b == "" {
      assert s + b == s;
    } else {
      var n := |b| - 1;
      assert b[n] in b && (s + b)[..|s| + n] == s + b[..n];
      RStripBlanks(s, b[..n]);
    }
  }

  lemma {:induction false} LStripAll(a: string)
    requires Blanks(a)
    ensures LStrip(a) == ""
    decreases |a|
  {
    if a != "" {
      assert a[0] in a;
      LStripAll(a[1..]);
    }
  }

  /** Stripping takes off the blanks at both ends and nothing else. */
  lemma StripIs(a: string, t: string, b: string)
    requires Blanks(a) && Tight(t) && Blanks(b)
    ensures Strip(a + t + b) == t
  {
    if t == "" {
      assert a + t + b == a + b;
      LStripAll(a + b);
    } else {
      assert a + t + b == a + (t + b) && (t + b)[0] == t[0];
      LStripBlanks(a, t + b);
      RStripBlanks(t, b);
    }
  }
}
