/** Python files: one chunk for each top-level symbol, and windows over every line no symbol covers. */
module PythonChunks {
  import opened Wrappers
  import opened PyText
  import opened Chunks

  /** A definition as the parser reports it; an end line may be missing. */
  datatype Def = Def(name: string, start: int, end: Option<int>)

  /** A top-level node of the parsed module; the methods are a class's own function children, in order. */
  datatype Node = FunctionNode(def: Def) | ClassNode(def: Def, methods: seq<Def>) | OtherNode

  function SpanOf(def: Def, total: nat): Span {
    Span(def.start, match def.end case Some(end) => end case None => total)
  }

  /** The parser's spans lie in the file. */
  predicate Located(node: Node, total: nat) {
    match node
    case OtherNode => true
    case FunctionNode(def) => InRange(SpanOf(def, total), total)
    case ClassNode(def, methods) =>
      InRange(SpanOf(def, total), total) && forall i | 0 <= i < |methods| :: InRange(SpanOf(methods[i], total), total)
  }

  predicate AllLocated(nodes: seq<Node>, total: nat) {
    forall i | 0 <= i < |nodes| :: Located(nodes[i], total)
  }

  // ---- symbols ----

  function SymbolChunk(src: Source, def: Def, name: string, kind: string): Chunk
    requires InRange(SpanOf(def, |src.lines|), |src.lines|)
  {
    var s := SpanOf(def, |src.lines|);
    Chunk(src.path, s.start, s.end, Some(name), src.language, Body(src.lines, s), kind)
  }

  function NodeChunks(src: Source, node: Node): seq<Chunk>
    requires Located(node, |src.lines|)
  {
    match node
    case OtherNode => []
    case FunctionNode(def) => [SymbolChunk(src, def, def.name, "function")]
    case ClassNode(def, methods) =>
      [SymbolChunk(src, def, def.name, "class")]
      + seq(|methods|, i requires 0 <= i < |methods| =>
          SymbolChunk(src, methods[i], def.name + "." + methods[i].name, "method"))
  }

  function SymbolChunks(src: Source, nodes: seq<Node>): seq<Chunk>
    requires AllLocated(nodes, |src.lines|)
  {
    if nodes == [] then [] else SymbolChunks(src, nodes[..|nodes| - 1]) + NodeChunks(src, nodes[|nodes| - 1])
  }

  /** The lines of top-level functions and classes. */
  function CoveredSpans(nodes: seq<Node>, total: nat): seq<Span> {
    if nodes == [] then []
    else
      var last := nodes[|nodes| - 1];
      CoveredSpans(nodes[..|nodes| - 1], total) + if last.OtherNode? then [] else [SpanOf(last.def, total)]
  }

  lemma {:induction false} CoveredIff(nodes: seq<Node>, total: nat, s: Span)
    ensures s in CoveredSpans(nodes, total)
       <==> exists i :: 0 <= i < |nodes| && !nodes[i].OtherNode? && s == SpanOf(nodes[i].def, total)
    decreases |nodes|
  {
    if nodes != [] {
      var init := nodes[..|nodes| - 1];
      CoveredIff(init, total, s);
      assert nodes == init + [nodes[|nodes| - 1]];
    }
  }

  lemma CoveredInRange(nodes: seq<Node>, total: nat)
    requires AllLocated(nodes, total)
    ensures AllInRange(CoveredSpans(nodes, total), total)
  {
    var spans := CoveredSpans(nodes, total);
    forall i | 0 <= i < |spans| ensures InRange(spans[i], total) {
      assert spans[i] in spans;
      CoveredIff(nodes, total, spans[i]);
    }
  }

  // ---- sorting ----

  predicate TupleLeq(a: Span, b: Span) {
    a.start < b.start || (a.start == b.start && a.end <= b.end)
  }

  predicate Ordered(spans: seq<Span>) {
    forall i, j | 0 <= i < j < |spans| :: TupleLeq(spans[i], spans[j])
  }

  function Insert(s: Span, sorted: seq<Span>): seq<Span> {
    if sorted == [] || TupleLeq(s, sorted[0]) then [s] + sorted else [sorted[0]] + Insert(s, sorted[1..])
  }

  /** `sorted(covered)` on pairs. */
  function Sorted(spans: seq<Span>): seq<Span> {
    if spans == [] then [] else Insert(spans[0], Sorted(spans[1..]))
  }

  lemma {:induction false} InsertIsCons(s: Span, sorted: seq<Span>)
    ensures multiset(Insert(s, sorted)) == multiset{s} + multiset(sorted)
    decreases |sorted|
  {
    if sorted != [] && !TupleLeq(s, sorted[0]) {
      assert sorted == [sorted[0]] + sorted[1..];
      InsertIsCons(s, sorted[1..]);
    }
  }

  lemma {:induction false} InsertKeeps(s: Span, sorted: seq<Span>)
    requires Ordered(sorted)
    ensures Ordered(Insert(s, sorted))
    decreases |sorted|
  {
    if sorted != [] && !TupleLeq(s, sorted[0]) {
      var rest := sorted[1..];
      assert forall i | 0 <= i < |rest| :: rest[i] == sorted[i + 1];
      InsertKeeps(s, rest);
      InsertIsCons(s, rest);
      var grown := Insert(s, rest);
      forall j | 0 <= j < |grown| ensures TupleLeq(sorted[0], grown[j]) {
        assert grown[j] in multiset(grown);
      }
    }
  }

  lemma {:induction false} SortedSorts(spans: seq<Span>)
    ensures Ordered(Sorted(spans)) && multiset(Sorted(spans)) == multiset(spans)
    decreases |spans|
  {
    if spans != [] {
      SortedSorts(spans[1..]);
      InsertKeeps(spans[0], Sorted(spans[1..]));
      InsertIsCons(spans[0], Sorted(spans[1..]));
      assert spans == [spans[0]] + spans[1..];
    }
  }

  lemma SameMembers(spans: seq<Span>, s: Span)
    ensures s in Sorted(spans) <==> s in spans
  {
    SortedSorts(spans);
    assert s in multiset(Sorted(spans)) <==> s in multiset(spans);
  }

  lemma SortedInRange(spans: seq<Span>, total: nat)
    requires AllInRange(spans, total)
    ensures AllInRange(Sorted(spans), total)
  {
    var sorted := Sorted(spans);
    forall i | 0 <= i < |sorted| ensures InRange(sorted[i], total) {
      SameMembers(spans, sorted[i]);
    }
  }

  // ---- the gap sweep ----

  function Max(a: int, b: int): int {
    if a < b then b else a
  }

  /** The gap the cursor passes on its way to the next span. */
  function Passed(s: Span, cursor: int): seq<Span> {
    if s.start > cursor then [Span(cursor, s.start - 1)] else []
  }

  /** The ranges the cursor passes between the spans, and the one after the last. */
  function Gaps(spans: seq<Span>, cursor: int, total: int): seq<Span> {
    if spans == [] then if cursor <= total then [Span(cursor, total)] else []
    else
      Passed(spans[0], cursor) + Gaps(spans[1..], Max(cursor, spans[0].end + 1), total)
  }

  lemma {:induction false} GapsInRange(spans: seq<Span>, cursor: int, total: nat)
    requires AllInRange(spans, total) && 1 <= cursor
    ensures AllInRange(Gaps(spans, cursor, total), total)
    decreases |spans|
  {
    if spans != [] {
      GapsInRange(spans[1..], Max(cursor, spans[0].end + 1), total);
    }
  }

  /** Some gap holds line `n`. */
  predicate InGap(gaps: seq<Span>, n: int) {
    exists i :: 0 <= i < |gaps| && Within(n, gaps[i])
  }

  predicate InSpan(spans: seq<Span>, n: int) {
    exists i :: 0 <= i < |spans| && Within(n, spans[i])
  }

  /** The gaps hold exactly the lines from the cursor on that no span holds, however the spans overlap. */
  lemma {:induction false} GapsExact(spans: seq<Span>, cursor: int, total: nat, n: int)
    requires AllInRange(spans, total) && Ordered(spans)
    ensures InGap(Gaps(spans, cursor, total), n) <==> cursor <= n <= total && !InSpan(spans, n)
    decreases |spans|
  {
    if spans == [] {
      assert cursor <= total ==> Gaps(spans, cursor, total)[0] == Span(cursor, total);
    } else {
      var s, rest := spans[0], spans[1..];
      var next := Max(cursor, s.end + 1);
      var later := Gaps(rest, next, total);
      GapsExact(rest, next, total, n);
      InSpanCons(s, rest, n);
      assert spans == [s] + rest;
      if s.start > cursor {
        InSpanCons(Span(cursor, s.start - 1), later, n);
        assert Gaps(spans, cursor, total) == [Span(cursor, s.start - 1)] + later;
        if n < s.start {
          assert forall i | 1 <= i < |spans| :: TupleLeq(s, spans[i]) && spans[i] == rest[i - 1];
        }
      } else {
        assert Gaps(spans, cursor, total) == later;
      }
    }
  }

  lemma InSpanCons(s: Span, rest: seq<Span>, n: int)
    ensures InSpan([s] + rest, n) <==> Within(n, s) || InSpan(rest, n)
    ensures InGap([s] + rest, n) <==> Within(n, s) || InGap(rest, n)
  {
    var all := [s] + rest;
    assert all[0] == s;
    assert forall i | 0 <= i < |rest| :: all[i + 1] == rest[i];
    if InSpan(all, n) {
      var i :| 0 <= i < |all| && Within(n, all[i]);
      assert i > 0 ==> Within(n, rest[i - 1]);
    }
  }

  /** The chunks of every gap in turn. */
  function GapChunks(src: Source, gaps: seq<Span>): seq<Chunk>
    requires AllInRange(gaps, |src.lines|)
  {
    if gaps == [] then []
    else
      var last := gaps[|gaps| - 1];
      WindowsInRange(last.start, last.end, |src.lines|);
      GapChunks(src, gaps[..|gaps| - 1]) + Emitted(src, Windows(last.start, last.end))
  }

  /** A gap chunk is a window with text of some gap, and every such window is a gap chunk. */
  lemma {:induction false} GapChunksIff(src: Source, gaps: seq<Span>, c: Chunk)
    requires AllInRange(gaps, |src.lines|)
    ensures c in GapChunks(src, gaps) <==> exists i :: 0 <= i < |gaps| && FromGap(src, gaps[i], c)
    decreases |gaps|
  {
    hide FromGap, Emitted, Windows;
    if gaps != [] {
      var init, last := gaps[..|gaps| - 1], gaps[|gaps| - 1];
      GapChunksIff(src, init, c);
      FromGapIff(src, last, c);
      assert gaps == init + [last];
      assert forall i | 0 <= i < |init| :: gaps[i] == init[i];
    }
  }

  predicate FromGap(src: Source, gap: Span, c: Chunk)
    requires InRange(gap, |src.lines|)
  {
    WindowsInRange(gap.start, gap.end, |src.lines|);
    var windows := Windows(gap.start, gap.end);
    exists i :: 0 <= i < |windows| && !Blank(Body(src.lines, windows[i])) && c == FixedChunk(src, windows[i])
  }

  lemma FromGapIff(src: Source, gap: Span, c: Chunk)
    requires InRange(gap, |src.lines|)
    ensures AllInRange(Windows(gap.start, gap.end), |src.lines|)
    ensures c in Emitted(src, Windows(gap.start, gap.end)) <==> FromGap(src, gap, c)
  {
    WindowsInRange(gap.start, gap.end, |src.lines|);
    EmittedIff(src, Windows(gap.start, gap.end), c);
  }

  /** The gaps of a file: the lines outside every covered span. */
  function FileGaps(src: Source, covered: seq<Span>): (gaps: seq<Span>)
    requires AllInRange(covered, |src.lines|)
    ensures AllInRange(gaps, |src.lines|)
  {
    SortedInRange(covered, |src.lines|);
    GapsInRange(Sorted(covered), 1, |src.lines|);
    Gaps(Sorted(covered), 1, |src.lines|)
  }

  lemma SweepStep(sorted: seq<Span>, cursor: int, total: int, n: nat, before: seq<Span>)
    requires n < |sorted| && before + Gaps(sorted[n..], cursor, total) == Gaps(sorted, 1, total)
    ensures (before + Passed(sorted[n], cursor)) + Gaps(sorted[n + 1..], Max(cursor, sorted[n].end + 1), total)
      == Gaps(sorted, 1, total)
    ensures before + [] == before
  {
    var here, rest := Passed(sorted[n], cursor), Gaps(sorted[n + 1..], Max(cursor, sorted[n].end + 1), total);
    assert sorted[n..][1..] == sorted[n + 1..];
    assert Gaps(sorted[n..], cursor, total) == here + rest;
    assert (before + here) + rest == before + (here + rest);
  }

  lemma SweepEnds(sorted: seq<Span>, cursor: int, total: int, before: seq<Span>)
    requires before + Gaps(sorted[|sorted|..], cursor, total) == Gaps(sorted, 1, total)
    ensures Gaps(sorted, 1, total) == if cursor <= total then before + [Span(cursor, total)] else before
  {
    assert sorted[|sorted|..] == [];
  }

  lemma GapChunksSnoc(src: Source, gaps: seq<Span>, gap: Span)
    requires AllInRange(gaps, |src.lines|) && InRange(gap, |src.lines|)
    ensures AllInRange(gaps + [gap], |src.lines|) && AllInRange(Windows(gap.start, gap.end), |src.lines|)
    ensures GapChunks(src, gaps + [gap]) == GapChunks(src, gaps) + Emitted(src, Windows(gap.start, gap.end))
  {
    assert (gaps + [gap])[..|gaps|] == gaps;
    WindowsInRange(gap.start, gap.end, |src.lines|);
  }

  /** Fixed windows over the lines no symbol chunk covers. */
  method ChunkUncoveredRanges(src: Source, covered: seq<Span>) returns (chunks: seq<Chunk>)
    requires AllInRange(covered, |src.lines|)
    ensures chunks == GapChunks(src, FileGaps(src, covered))
  {
    hide Windows, Emitted, GapChunks, Sorted, Ordered, Gaps;
    var total := |src.lines|;
    var sorted := Sorted(covered);
    SortedInRange(covered, total);
    chunks := [];
    ghost var gaps := [];
    NoGaps(src);
    var cursor := 1;
    assert sorted[0..] == sorted;
    for i := 0 to |sorted|
      invariant 1 <= cursor <= total + 1
      invariant AllInRange(gaps, total) && chunks == GapChunks(src, gaps)
      invariant gaps + Gaps(sorted[i..], cursor, total) == Gaps(sorted, 1, total)
    {
      var start, end := sorted[i].start, sorted[i].end;
      SweepStep(sorted, cursor, total, i, gaps);
      if start > cursor {
        var some := ChunkLineRange(src, cursor, start - 1);
        GapChunksSnoc(src, gaps, Span(cursor, start - 1));
        chunks := chunks + some;
      }
      gaps := gaps + Passed(sorted[i], cursor);
      cursor := Max(cursor, end + 1);
    }
    SweepEnds(sorted, cursor, total, gaps);
    if cursor <= total {
      var some := ChunkLineRange(src, cursor, total);
      GapChunksSnoc(src, gaps, Span(cursor, total));
      chunks := chunks + some;
    }
  }

  lemma NoGaps(src: Source)
    ensures GapChunks(src, []) == []
  {
  }

  // ---- the whole file ----

  /** Symbol chunks first, then windows over the rest. */
  function PythonChunks(src: Source, nodes: seq<Node>): seq<Chunk>
    requires AllLocated(nodes, |src.lines|)
  {
    CoveredInRange(nodes, |src.lines|);
    SymbolChunks(src, nodes) + GapChunks(src, FileGaps(src, CoveredSpans(nodes, |src.lines|)))
  }

  /** `parsed` is None when the file has a syntax error, which falls back to fixed windows over the whole file. */
  method ChunkPython(path: string, language: string, content: string, parsed: Option<seq<Node>>)
                     returns (chunks: seq<Chunk>)
    requires parsed.Some? ==> AllLocated(parsed.value, |SplitLines(content)|)
    ensures parsed.Some? ==> chunks == PythonChunks(Source(path, "python", SplitLines(content)), parsed.value)
    ensures parsed.None? ==>
      var src := Source(path, language, SplitLines(content)); var windows := Windows(1, |src.lines|);
      && AllInRange(windows, |src.lines|)
      && |chunks| == |windows|
      && forall i | 0 <= i < |windows| :: chunks[i] == FixedChunk(src, windows[i])
  {
    hide SplitLines, JoinLines, Windows, GapChunks, FileGaps;
    if parsed.None? {
      chunks := ChunkFixedSize(path, language, content);
      return;
    }
    var nodes, lines := parsed.value, SplitLines(content);
    var src, total := Source(path, "python", lines), |lines|;
    chunks := [];
    var covered := [];
    for i := 0 to |nodes|
      invariant AllLocated(nodes[..i], total)
      invariant chunks == SymbolChunks(src, nodes[..i])
      invariant covered == CoveredSpans(nodes[..i], total)
    {
      assert nodes[..i + 1][..i] == nodes[..i];
      assert Located(nodes[i], total);
      var some := ChunkNode(src, nodes[i]);
      chunks := chunks + some;
      if !nodes[i].OtherNode? {
        covered := covered + [SpanOf(nodes[i].def, total)];
      }
    }
    assert nodes[..|nodes|] == nodes;
    CoveredInRange(nodes, total);
    var rest := ChunkUncoveredRanges(src, covered);
    chunks := chunks + rest;
  }

  /** The whole symbol, and each method of a class once more on its own. */
  method ChunkNode(src: Source, node: Node) returns (chunks: seq<Chunk>)
    requires Located(node, |src.lines|)
    ensures chunks == NodeChunks(src, node)
  {
    match node
    case OtherNode => chunks := [];
    case FunctionNode(def) => chunks := [SymbolChunk(src, def, def.name, "function")];
    case ClassNode(def, methods) =>
      chunks := [SymbolChunk(src, def, def.name, "class")];
      for i := 0 to |methods|
        invariant chunks == NodeChunks(src, node)[..i + 1]
      {
        chunks := chunks + [SymbolChunk(src, methods[i], def.name + "." + methods[i].name, "method")];
      }
  }

  // ---- what the chunks are for ----

  /** Line `n` is in this chunk, and the chunk's text is exactly its line range. */
  predicate Shows(src: Source, c: Chunk, n: int) {
    InRange(Span(c.start, c.end), |src.lines|) && Within(n, Span(c.start, c.end))
        && c.content == Body(src.lines, Span(c.start, c.end))
  }

  /** Every line with text is in some chunk that shows it whole. */
  lemma EveryLineIsShown(src: Source, nodes: seq<Node>, n: int)
    requires AllLocated(nodes, |src.lines|) && HasText(src.lines, n)
    ensures exists c :: c in PythonChunks(src, nodes) && Shows(src, c, n)
  {
    var total := |src.lines|;
    var covered := CoveredSpans(nodes, total);
    CoveredInRange(nodes, total);
    var gaps := FileGaps(src, covered);
    GapsMissSpans(src, covered, n);
    if InSpan(covered, n) {
      var i :| 0 <= i < |covered| && Within(n, covered[i]);
      assert covered[i] in covered;
      var c := CoveredIsShown(src, nodes, covered[i]);
      assert Shows(src, c, n);
    } else {
      assert InGap(gaps, n);
      var g :| 0 <= g < |gaps| && Within(n, gaps[g]);
      var gap := gaps[g];
      var w := WindowsCover(gap.start, gap.end, n);
      var window := Windows(gap.start, gap.end)[w];
      WindowsInRange(gap.start, gap.end, total);
      BlankBodyIff(src.lines, window);
      var c := FixedChunk(src, window);
      assert FromGap(src, gap, c);
      GapChunksIff(src, gaps, c);
      assert Shows(src, c, n);
    }
  }

  lemma {:induction false} CoveredIsShown(src: Source, nodes: seq<Node>, s: Span) returns (c: Chunk)
    requires AllLocated(nodes, |src.lines|) && s in CoveredSpans(nodes, |src.lines|)
    ensures c in SymbolChunks(src, nodes) && c.start == s.start && c.end == s.end
    ensures InRange(s, |src.lines|) && c.content == Body(src.lines, s)
    decreases |nodes|
  {
    var init, last := nodes[..|nodes| - 1], nodes[|nodes| - 1];
    if s in CoveredSpans(init, |src.lines|) {
      c := CoveredIsShown(src, init, s);
    } else {
      c := NodeChunks(src, last)[0];
    }
  }

  /** A symbol chunk is named, is no window, and its content is exactly its line range. */
  lemma {:induction false} SymbolChunksExact(src: Source, nodes: seq<Node>, c: Chunk)
    requires AllLocated(nodes, |src.lines|) && c in SymbolChunks(src, nodes)
    ensures InRange(Span(c.start, c.end), |src.lines|) && c.content == Body(src.lines, Span(c.start, c.end))
    ensures c.symbol.Some? && c.kind != "fixed" && c.path == src.path && c.language == src.language
    decreases |nodes|
  {
    hide Body;
    if nodes != [] {
      var init, last := nodes[..|nodes| - 1], nodes[|nodes| - 1];
      if c in SymbolChunks(src, init) {
        SymbolChunksExact(src, init, c);
      } else {
        var own := NodeChunks(src, last);
        var i :| 0 <= i < |own| && own[i] == c;
      }
    }
  }

  lemma PathsAreNamed(src: Source, nodes: seq<Node>, c: Chunk)
    requires AllLocated(nodes, |src.lines|) && c in PythonChunks(src, nodes)
    ensures c.path == src.path
  {
    CoveredInRange(nodes, |src.lines|);
    var gaps := FileGaps(src, CoveredSpans(nodes, |src.lines|));
    if c in SymbolChunks(src, nodes) {
      SymbolChunksExact(src, nodes, c);
    } else {
      GapChunksIff(src, gaps, c);
    }
  }

  /** The gaps of a file hold exactly the lines outside its spans, in whatever order and overlap they come. */
  lemma GapsMissSpans(src: Source, covered: seq<Span>, n: int)
    requires AllInRange(covered, |src.lines|)
    ensures InGap(FileGaps(src, covered), n) <==> 1 <= n <= |src.lines| && !InSpan(covered, n)
  {
    var sorted := Sorted(covered);
    SortedInRange(covered, |src.lines|);
    SortedSorts(covered);
    GapsExact(sorted, 1, |src.lines|, n);
    if i :| 0 <= i < |sorted| && Within(n, sorted[i]) {
      SameMembers(covered, sorted[i]);
    }
    if i :| 0 <= i < |covered| && Within(n, covered[i]) {
      SameMembers(covered, covered[i]);
    }
  }

  /**
   Window chunks hold no line of a top-level symbol, at most 40 lines, and some text; their content is
   their range.
   */
  lemma GapChunksAvoidSymbols(src: Source, nodes: seq<Node>, c: Chunk, n: int)
    requires AllLocated(nodes, |src.lines|)
    requires AllInRange(CoveredSpans(nodes, |src.lines|), |src.lines|)
    requires c in GapChunks(src, FileGaps(src, CoveredSpans(nodes, |src.lines|))) && c.start <= n <= c.end
    ensures !InSpan(CoveredSpans(nodes, |src.lines|), n)
    ensures c.kind == "fixed" && c.symbol == None && Shows(src, c, n) && !Blank(c.content)
    ensures c.end - c.start < 40
  {
    var covered := CoveredSpans(nodes, |src.lines|);
    var gaps := FileGaps(src, covered);
    GapChunksIff(src, gaps, c);
    var g :| 0 <= g < |gaps| && FromGap(src, gaps[g], c);
    var gap := gaps[g];
    var windows := Windows(gap.start, gap.end);
    WindowsInRange(gap.start, gap.end, |src.lines|);
    var i :| 0 <= i < |windows| && !Blank(Body(src.lines, windows[i])) && c == FixedChunk(src, windows[i]);
    WindowsFit(gap.start, gap.end, i);
    assert Within(n, gap) && InGap(gaps, n);
    GapsMissSpans(src, covered, n);
  }

  lemma {:induction false} NodesAreKept(src: Source, nodes: seq<Node>, i: nat, c: Chunk)
    requires AllLocated(nodes, |src.lines|) && i < |nodes| && c in NodeChunks(src, nodes[i])
    ensures c in PythonChunks(src, nodes) && c in SymbolChunks(src, nodes)
    decreases |nodes|
  {
    hide NodeChunks;
    CoveredInRange(nodes, |src.lines|);
    if i < |nodes| - 1 { NodesAreKept(src, nodes[..|nodes| - 1], i, c); }
  }

  /** Every top-level function and class has a chunk of its own that carries its name and is exactly its lines. */
  lemma EverySymbolIsThere(src: Source, nodes: seq<Node>, i: nat)
    requires AllLocated(nodes, |src.lines|) && i < |nodes| && !nodes[i].OtherNode?
    ensures var def := nodes[i].def; var end := if def.end.Some? then def.end.value else |src.lines|;
      InRange(Span(def.start, end), |src.lines|)
      && Chunk(src.path, def.start, end, Some(def.name), src.language, Body(src.lines, Span(def.start, end)),
               if nodes[i].ClassNode? then "class" else "function") in PythonChunks(src, nodes)
  {
    var c := NodeChunks(src, nodes[i])[0];
    assert c in NodeChunks(src, nodes[i]);
    NodesAreKept(src, nodes, i, c);
  }

  /** So has every method of a class, under the class's name and its own. */
  lemma EveryMethodIsThere(src: Source, nodes: seq<Node>, i: nat, j: nat)
    requires AllLocated(nodes, |src.lines|) && i < |nodes| && nodes[i].ClassNode? && j < |nodes[i].methods|
    ensures var def := nodes[i].methods[j]; var end := if def.end.Some? then def.end.value else |src.lines|;
      InRange(Span(def.start, end), |src.lines|)
      && Chunk(src.path, def.start, end, Some(nodes[i].def.name + "." + def.name), src.language,
               Body(src.lines, Span(def.start, end)), "method") in PythonChunks(src, nodes)
  {
    hide NodeChunks, PythonChunks, SymbolChunks, Body;
    var c := MethodChunk(src, nodes[i], j);
    NodesAreKept(src, nodes, i, c);
  }

  lemma MethodChunk(src: Source, node: Node, j: nat) returns (c: Chunk)
    requires Located(node, |src.lines|) && node.ClassNode? && j < |node.methods|
    ensures InRange(SpanOf(node.methods[j], |src.lines|), |src.lines|)
    ensures c == SymbolChunk(src, node.methods[j], node.def.name + "." + node.methods[j].name, "method")
    ensures c in NodeChunks(src, node)
  {
    hide Body;
    c := NodeChunks(src, node)[1 + j];
  }
}
