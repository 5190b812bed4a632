/** Line-based chunks: fixed windows over a line range, and the gaps that symbol spans leave. */
module Chunks {
  import opened Wrappers
  import opened PyText

  const FIXED_CHUNK_LINES := 40
  const FIXED_CHUNK_OVERLAP := 5

  /** One embeddable piece of a file; lines count from one and both ends are included. */
  datatype Chunk = Chunk(path: string, start: int, end: int, symbol: Option<string>, language: string, content: string,
      kind: string)

  /** The lines of one file, with what every chunk of it repeats. */
  datatype Source = Source(path: string, language: string, lines: seq<string>)

  datatype Span = Span(start: int, end: int)

  predicate Within(n: int, s: Span) {
    s.start <= n <= s.end
  }

  predicate InRange(s: Span, total: nat) {
    1 <= s.start <= s.end <= total
  }

  predicate AllInRange(spans: seq<Span>, total: nat) {
    forall i | 0 <= i < |spans| :: InRange(spans[i], total)
  }

  predicate Blank(s: string) {
    forall i | 0 <= i < |s| :: IsSpace(s[i])
  }

  /** Line `n`, counted from one, holds text. */
  predicate HasText(lines: seq<string>, n: int) {
    1 <= n <= |lines| && !Blank(lines[n - 1])
  }

  /** The text of a line range. */
  function Body(lines: seq<string>, s: Span): string
    requires InRange(s, |lines|)
  {
    JoinLines(lines[s.start - 1..s.end])
  }

  function FixedChunk(src: Source, s: Span): Chunk
    requires InRange(s, |src.lines|)
  {
    Chunk(src.path, s.start, s.end, None, src.language, Body(src.lines, s), "fixed")
  }

  // ---- windows ----

  function Min(a: int, b: int): int {
    if a < b then a else b
  }

  /** Windows of 40 lines over `a..b`, each starting 35 lines after the one before. */
  function Windows(a: int, b: int): seq<Span>
    decreases b - a
  {
    if a > b then []
    else
      var step := FIXED_CHUNK_LINES - FIXED_CHUNK_OVERLAP;
      [Span(a, Min(a + FIXED_CHUNK_LINES - 1, b))] + if a + step > b then [] else Windows(a + step, b)
  }

  /** Every window lies in the range and has at most 40 lines. */
  lemma {:induction false} WindowsFit(a: int, b: int, i: nat)
    requires i < |Windows(a, b)|
    ensures var s := Windows(a, b)[i]; a <= s.start <= s.end <= b && s.end - s.start < 40
    decreases i
  {
    if i > 0 {
      WindowsFit(a + FIXED_CHUNK_LINES - FIXED_CHUNK_OVERLAP, b, i - 1);
    }
  }

  lemma WindowsInRange(a: int, b: int, total: nat)
    requires 1 <= a && b <= total
    ensures AllInRange(Windows(a, b), total)
  {
    forall i | 0 <= i < |Windows(a, b)| ensures InRange(Windows(a, b)[i], total) {
      WindowsFit(a, b, i);
    }
  }

  /** Every line of the range lies in a window. */
  lemma {:induction false} WindowsCover(a: int, b: int, n: int) returns (i: nat)
    requires a <= n <= b
    ensures i < |Windows(a, b)| && Within(n, Windows(a, b)[i])
    decreases b - a
  {
    if n <= Min(a + FIXED_CHUNK_LINES - 1, b) {
      i := 0;
    } else {
      var k := WindowsCover(a + FIXED_CHUNK_LINES - FIXED_CHUNK_OVERLAP, b, n);
      i := k + 1;
    }
  }

  /**
   Each window starts 35 lines after the one before. A full window shares its last five lines with
   the next; the next one adds nothing new exactly when at most 40 lines were left.
   */
  lemma {:induction false} WindowsOverlap(a: int, b: int, i: nat)
    requires i + 1 < |Windows(a, b)|
    ensures var s, t := Windows(a, b)[i], Windows(a, b)[i + 1];
            && t.start == s.start + 35
            && (s.end + 1 - t.start == 5 <==> s.end + 1 - s.start == 40)
            && (t.end <= s.end <==> b + 1 - s.start <= 40)
    decreases i
  {
    var next := a + FIXED_CHUNK_LINES - FIXED_CHUNK_OVERLAP;
    assert Windows(a, b)[1..] == Windows(next, b);
    if i == 0 {
      assert Windows(a, b)[1] == Windows(next, b)[0];
    } else {
      WindowsOverlap(next, b, i - 1);
    }
  }

  // ---- blank text ----

  lemma {:induction false} LStripKeepsText(s: string)
    ensures Blank(LStrip(s)) <==> Blank(s)
    decreases |s|
  {
    if s != "" {
      assert s == [s[0]] + s[1..];
      LStripKeepsText(s[1..]);
    }
  }

  lemma {:induction false} RStripBlank(s: string)
    ensures RStrip(s) == "" <==> Blank(s)
    decreases |s|
  {
    if s != "" {
      assert s == s[..|s| - 1] + [s[|s| - 1]];
      RStripBlank(s[..|s| - 1]);
    }
  }

  /** `s.strip()` is empty exactly when there is nothing but white space. */
  lemma StripBlank(s: string)
    ensures Strip(s) == "" <==> Blank(s)
  {
    LStripKeepsText(s);
    RStripBlank(LStrip(s));
  }

  lemma BlankConcat(a: string, b: string)
    ensures Blank(a + b) <==> Blank(a) && Blank(b)
  {
    assert forall i | 0 <= i < |a| :: (a + b)[i] == a[i];
    assert forall i | 0 <= i < |b| :: (a + b)[|a| + i] == b[i];
  }

  /** Joined lines are blank exactly when each of them is: the line breaks add no text. */
  lemma {:induction false} BlankJoin(lines: seq<string>)
    ensures Blank(JoinLines(lines)) <==> forall i | 0 <= i < |lines| :: Blank(lines[i])
    decreases |lines|
  {
    if |lines| > 1 {
      BlankJoin(lines[1..]);
      BlankConcat(lines[0] + "\n", JoinLines(lines[1..]));
      BlankConcat(lines[0], "\n");
      assert forall i | 1 <= i < |lines| :: lines[i] == lines[1..][i - 1];
    }
  }

  /** A range has a blank body exactly when none of its lines holds text. */
  lemma BlankBodyIff(lines: seq<string>, s: Span)
    requires InRange(s, |lines|)
    ensures Blank(Body(lines, s)) <==> forall n | Within(n, s) :: !HasText(lines, n)
  {
    var part := lines[s.start - 1..s.end];
    BlankJoin(part);
    assert forall i | 0 <= i < |part| :: part[i] == lines[s.start + i - 1];
    if forall n | Within(n, s) :: !HasText(lines, n) {
      forall i | 0 <= i < |part| ensures Blank(part[i]) {
        assert Within(s.start + i, s);
      }
    } else {
      var n :| Within(n, s) && HasText(lines, n);
      assert part[n - s.start] == lines[n - 1];
    }
  }

  // ---- chunks of one line range ----

  /** One chunk for each window that holds any text. */
  function Emitted(src: Source, spans: seq<Span>): seq<Chunk>
    requires AllInRange(spans, |src.lines|)
  {
    if spans == [] then []
    else (if Blank(Body(src.lines, spans[0])) then [] else [FixedChunk(src, spans[0])]) + Emitted(src, spans[1..])
  }

  /** Emitted chunks are the windows with text, and nothing else. */
  lemma {:induction false} EmittedIff(src: Source, spans: seq<Span>, c: Chunk)
    requires AllInRange(spans, |src.lines|)
    ensures c in Emitted(src, spans)
       <==> exists i :: 0 <= i < |spans| && !Blank(Body(src.lines, spans[i])) && c == FixedChunk(src, spans[i])
    decreases |spans|
  {
    if spans != [] {
      EmittedIff(src, spans[1..], c);
      assert forall i | 1 <= i < |spans| :: spans[i] == spans[1..][i - 1];
    }
  }

  lemma {:induction false} EmittedConcat(src: Source, a: seq<Span>, b: seq<Span>)
    requires AllInRange(a, |src.lines|) && AllInRange(b, |src.lines|)
    ensures AllInRange(a + b, |src.lines|) && Emitted(src, a + b) == Emitted(src, a) + Emitted(src, b)
    decreases |a|
  {
    if a == [] {
      assert a + b == b;
    } else {
      assert (a + b)[1..] == a[1..] + b;
      EmittedConcat(src, a[1..], b);
    }
  }

  lemma EmittedNone(src: Source)
    ensures AllInRange([], |src.lines|) && Emitted(src, []) == []
  {
  }

  lemma EmittedSnoc(src: Source, spans: seq<Span>, n: nat)
    requires AllInRange(spans, |src.lines|) && n < |spans|
    ensures AllInRange(spans[..n], |src.lines|) && AllInRange(spans[..n + 1], |src.lines|)
      && InRange(spans[n], |src.lines|)
    ensures Emitted(src, spans[..n + 1])
         == Emitted(src, spans[..n]) + if Blank(Body(src.lines, spans[n])) then [] else [FixedChunk(src, spans[n])]
  {
    assert spans[..n + 1] == spans[..n] + [spans[n]];
    assert [spans[n]][1..] == [];
    EmittedConcat(src, spans[..n], [spans[n]]);
  }

  lemma {:induction false} BlankRangeEmitsNothing(src: Source, spans: seq<Span>)
    requires AllInRange(spans, |src.lines|)
    requires forall i | 0 <= i < |spans| :: Blank(Body(src.lines, spans[i]))
    ensures Emitted(src, spans) == []
    decreases |spans|
  {
    if spans != [] {
      BlankRangeEmitsNothing(src, spans[1..]);
    }
  }

  /** Some line of the segment is more than white space. */
  method AnyText(segment: seq<string>) returns (any: bool)
    ensures any <==> !Blank(JoinLines(segment))
  {
    BlankJoin(segment);
    any := false;
    for i := 0 to |segment|
      invariant any <==> exists k :: 0 <= k < i && !Blank(segment[k])
    {
      StripBlank(segment[i]);
      if Strip(segment[i]) != "" { any := true; }
    }
  }

  lemma BlankParts(lines: seq<string>, whole: Span, part: Span)
    requires InRange(whole, |lines|) && whole.start <= part.start <= part.end <= whole.end && Blank(Body(lines, whole))
    ensures Blank(Body(lines, part))
  {
    BlankBodyIff(lines, whole);
    BlankBodyIff(lines, part);
    assert forall n | Within(n, part) :: Within(n, whole);
  }

  /** One turn of the window loop. */
  lemma NextWindow(windows: seq<Span>, seen: nat, a: int, b: int)
    requires a <= b && seen <= |windows| && windows[seen..] == Windows(a, b)
    ensures seen < |windows| && windows[seen] == Span(a, Min(a + FIXED_CHUNK_LINES - 1, b))
    ensures var next := a + FIXED_CHUNK_LINES - FIXED_CHUNK_OVERLAP;
            if next > b then windows[..seen + 1] == windows else windows[seen + 1..] == Windows(next, b)
  {
    assert windows[seen] == windows[seen..][0];
    assert windows[seen + 1..] == windows[seen..][1..];
  }

  lemma NoWindows(a: int, b: int, total: nat)
    requires a > b
    ensures Windows(a, b) == [] && AllInRange(Windows(a, b), total)
  {
  }

  lemma SliceOfSlice(lines: seq<string>, a: nat, b: nat, from: nat, to: nat)
    requires a <= b <= |lines| && from <= to <= b - a
    ensures lines[a..b][from..to] == lines[a + from..a + to]
  {
    var part, whole := lines[a..b][from..to], lines[a + from..a + to];
    assert forall i | 0 <= i < to - from :: part[i] == whole[i];
  }

  /** The chunks of lines `startLine..endLine`, window by window; a range without text gives none. */
  method ChunkLineRange(src: Source, startLine: int, endLine: int) returns (chunks: seq<Chunk>)
    requires 1 <= startLine <= endLine <= |src.lines|
    ensures AllInRange(Windows(startLine, endLine), |src.lines|)
    ensures chunks == Emitted(src, Windows(startLine, endLine))
  {
    hide Blank, Strip, JoinLines, HasText, Emitted, AllInRange, FixedChunk, Windows;
    var segment := src.lines[startLine - 1..endLine];
    ghost var windows := Windows(startLine, endLine);
    WindowsInRange(startLine, endLine, |src.lines|);
    var any := AnyText(segment);
    if !any {
      forall i | 0 <= i < |windows| ensures Blank(Body(src.lines, windows[i])) {
        WindowsFit(startLine, endLine, i);
        BlankParts(src.lines, Span(startLine, endLine), windows[i]);
      }
      BlankRangeEmitsNothing(src, windows);
      return [];
    }
    chunks := [];
    var offset := 0;
    ghost var seen := 0;
    EmittedNone(src);
    while offset < |segment|
      invariant 0 <= offset < |segment|
      invariant seen <= |windows| && windows[seen..] == Windows(startLine + offset, endLine)
      invariant AllInRange(windows[..seen], |src.lines|) && chunks == Emitted(src, windows[..seen])
      decreases |segment| - offset
    {
      var end := if offset + FIXED_CHUNK_LINES < |segment| then offset + FIXED_CHUNK_LINES else |segment|;
      var body := JoinLines(segment[offset..end]);
      var s := Span(startLine + offset, startLine + end - 1);
      SliceOfSlice(src.lines, startLine - 1, endLine, offset, end);
      NextWindow(windows, seen, startLine + offset, endLine);
      assert windows[seen] == s;
      EmittedSnoc(src, windows, seen);
      StripBlank(body);
      if Strip(body) != "" {
        chunks := chunks + [FixedChunk(src, s)];
      }
      seen := seen + 1;
      var step := FIXED_CHUNK_LINES - FIXED_CHUNK_OVERLAP;
      if offset + step >= |segment| { break; }
      offset := offset + step;
    }
  }

  // ---- the whole file in fixed windows ----

  /** `splitlines` over the whole file, cut into fixed windows whether blank or not. */
  method ChunkFixedSize(path: string, language: string, content: string) returns (chunks: seq<Chunk>)
    ensures var src := Source(path, language, SplitLines(content)); var windows := Windows(1, |src.lines|);
            && AllInRange(windows, |src.lines|)
            && |chunks| == |windows|
            && forall i | 0 <= i < |windows| :: chunks[i] == FixedChunk(src, windows[i])
  {
    hide SplitLines, JoinLines, Windows, AllInRange;
    var lines := SplitLines(content);
    ghost var src := Source(path, language, lines);
    ghost var windows := Windows(1, |lines|);
    WindowsInRange(1, |lines|, |lines|);
    NoWindows(1, 0, |lines|);
    if lines == [] { return []; }
    chunks := [];
    var start := 0;
    while start < |lines|
      invariant 0 <= start < |lines|
      invariant |chunks| <= |windows| && windows[|chunks|..] == Windows(start + 1, |lines|)
      invariant forall i | 0 <= i < |chunks| :: chunks[i] == FixedChunk(src, windows[i])
      decreases |lines| - start
    {
      var end := if start + FIXED_CHUNK_LINES < |lines| then start + FIXED_CHUNK_LINES else |lines|;
      NextWindow(windows, |chunks|, start + 1, |lines|);
      chunks := chunks + [Chunk(path, start + 1, end, None, language, JoinLines(lines[start..end]), "fixed")];
      var step := FIXED_CHUNK_LINES - FIXED_CHUNK_OVERLAP;
      if start + step >= |lines| { break; }
      start := start + step;
    }
  }
}
