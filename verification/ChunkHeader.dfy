/** The metadata header line of an uploaded chunk: written, parsed back and stripped. */
module ChunkHeader {
  import opened Wrappers
  import opened PyText
  import opened Chunks

  const HEADER_PREFIX := "# henchmen-chunk|"
  const CHUNK_CONTENT_LIMIT := 4000

  datatype Header = Header(repo: string, path: string, start: int, end: int, symbol: string, language: string)

  // ---- splitting ----

  predicate Free(s: string, c: char) {
    forall i | 0 <= i < |s| :: s[i] != c
  }

  /** Length of `s` up to the first `c`, or all of it. */
  function Cut(s: string, c: char): (n: nat)
    ensures n <= |s| && Free(s[..n], c) && (n < |s| ==> s[n] == c)
  {
    if s == "" || s[0] == c then 0
    else
      var k := Cut(s[1..], c);
      assert s[..k + 1] == [s[0]] + s[1..][..k];
      k + 1
  }

  /** `s.split(c)` */
  function SplitOn(s: string, c: char): (parts: seq<string>)
    ensures parts != []
    decreases |s|
  {
    var n := Cut(s, c);
    if n == |s| then [s] else [s[..n]] + SplitOn(s[n + 1..], c)
  }

  lemma {:induction false} CutAt(a: string, c: char, rest: string)
    requires Free(a, c)
    ensures Cut(a, c) == |a| && Cut(a + [c] + rest, c) == |a|
    decreases |a|
  {
    if a != "" {
      assert (a + [c] + rest)[1..] == a[1..] + [c] + rest;
      CutAt(a[1..], c, rest);
    }
  }

  lemma SplitAt(a: string, c: char, rest: string)
    requires Free(a, c)
    ensures SplitOn(a + [c] + rest, c) == [a] + SplitOn(rest, c)
  {
    CutAt(a, c, rest);
    assert (a + [c] + rest)[..|a|] == a && (a + [c] + rest)[|a| + 1..] == rest;
  }

  lemma {:induction false} PiecesAreFree(s: string, c: char, d: char, i: nat)
    requires i < |SplitOn(s, c)|
    ensures Free(SplitOn(s, c)[i], c) && (Free(s, d) ==> Free(SplitOn(s, c)[i], d))
    decreases |s|
  {
    var n := Cut(s, c);
    if n == |s| {
      assert s[..n] == s;
    } else if i > 0 {
      PiecesAreFree(s[n + 1..], c, d, i - 1);
    }
  }

  // ---- decimal numbers ----

  function DigitChar(d: nat): char
    requires d < 10
  {
    '0' + d as char
  }

  function Digits(n: nat): (s: string)
    ensures s != ""
  {
    if n < 10 then [DigitChar(n)] else Digits(n / 10) + [DigitChar(n % 10)]
  }

  /** `str(n)` */
  function Decimal(n: int): string {
    if n < 0 then "-" + Digits(-n) else Digits(n)
  }

  predicate IsDigit(c: char) {
    '0' <= c <= '9'
  }

  /** Digits with single underscores between them, as `int` reads them. */
  function Natural(s: string): Option<nat>
    decreases |s|
  {
    if s == "" || !IsDigit(s[|s| - 1]) then None
    else
      var d := (s[|s| - 1] - '0') as nat;
      if |s| == 1 then Some(d)
      else
        match Natural(if s[|s| - 2] == '_' then s[..|s| - 2] else s[..|s| - 1])
        case None => None
        case Some(high) => Some(10 * high + d)
  }

  /** `int(s)`; None is the ValueError. */
  function ParseInt(s: string): Option<int> {
    var t := Strip(s);
    if t == "" then None
    else
      match Natural(if t[0] == '-' || t[0] == '+' then t[1..] else t)
      case None => None
      case Some(n) => Some(if t[0] == '-' then -(n as int) else n)
  }

  lemma {:induction false} DigitsRoundTrip(n: nat)
    ensures Natural(Digits(n)) == Some(n)
    ensures forall i | 0 <= i < |Digits(n)| :: IsDigit(Digits(n)[i])
    decreases n
  {
    if n >= 10 {
      DigitsRoundTrip(n / 10);
      var s := Digits(n);
      assert s[..|s| - 1] == Digits(n / 10);
    }
  }

  lemma DecimalRoundTrip(n: int)
    ensures ParseInt(Decimal(n)) == Some(n)
    ensures Free(Decimal(n), '|') && Free(Decimal(n), '\n')
  {
    var s := Decimal(n);
    DigitsRoundTrip(if n < 0 then -n else n);
    StripKeeps(s);
    assert n < 0 ==> s[1..] == Digits(-n);
  }

  // ---- the header ----

  function SymbolOf(c: Chunk): string {
    match c.symbol
    case None => ""
    case Some(name) => name
  }

  /** The header's fields in order; all but the last are read back. */
  function Fields(repo: string, c: Chunk): seq<string> {
    [repo, c.path, Decimal(c.start), Decimal(c.end), SymbolOf(c), c.language, c.kind]
  }

  function Joined(fields: seq<string>): string
    requires fields != []
  {
    if |fields| == 1 then fields[0] else fields[0] + ['|'] + Joined(fields[1..])
  }

  function HeaderLine(repo: string, c: Chunk): string {
    HEADER_PREFIX + Joined(Fields(repo, c))
  }

  function Clipped(content: string): string {
    if |content| > CHUNK_CONTENT_LIMIT then content[..CHUNK_CONTENT_LIMIT] else content
  }

  function BuildPayload(repo: string, c: Chunk): string {
    HeaderLine(repo, c) + "\n" + Clipped(c.content)
  }

  predicate StartsWith(s: string, prefix: string) {
    |prefix| <= |s| && s[..|prefix|] == prefix
  }

  function ParseHeader(text: string): Option<Header> {
    if text == "" then None
    else
      var line := text[..Cut(text, '\n')];
      if !StartsWith(line, HEADER_PREFIX) then None
      else
        var parts := SplitOn(line[|HEADER_PREFIX|..], '|');
        if |parts| < 6 then None
        else
          match (ParseInt(parts[2]), ParseInt(parts[3]))
          case (Some(start), Some(end)) => Some(Header(parts[0], parts[1], start, end, parts[4], parts[5]))
          case _ => None
  }

  function StripHeader(text: string): string {
    if StartsWith(text, HEADER_PREFIX) then
      var n := Cut(text, '\n');
      if n == |text| then "" else text[n + 1..]
    else text
  }

  function HeaderOf(repo: string, c: Chunk): Header {
    Header(repo, c.path, c.start, c.end, SymbolOf(c), c.language)
  }

  predicate Plain(s: string) {
    Free(s, '|') && Free(s, '\n')
  }

  /** Every header that parses has plain fields: they were cut from one line at its bars. */
  lemma ParsedIsPlain(text: string)
    ensures var r := ParseHeader(text);
            r.Some? ==> Plain(r.value.repo) && Plain(r.value.path) && Plain(r.value.symbol) && Plain(r.value.language)
  {
    if ParseHeader(text).Some? {
      var fields := text[..Cut(text, '\n')][|HEADER_PREFIX|..];
      PiecesAreFree(fields, '|', '\n', 0);
      PiecesAreFree(fields, '|', '\n', 1);
      PiecesAreFree(fields, '|', '\n', 4);
      PiecesAreFree(fields, '|', '\n', 5);
    }
  }

  lemma FreeConcat(a: string, b: string, c: char)
    ensures Free(a + b, c) <==> Free(a, c) && Free(b, c)
  {
    assert forall i | 0 <= i < |a| :: (a + b)[i] == a[i];
    assert forall i | 0 <= i < |b| :: (a + b)[|a| + i] == b[i];
  }

  lemma {:induction false} FreeJoined(fields: seq<string>, c: char)
    requires fields != [] && c != '|'
    ensures Free(Joined(fields), c) <==> forall i | 0 <= i < |fields| :: Free(fields[i], c)
    decreases |fields|
  {
    if |fields| > 1 {
      FreeJoined(fields[1..], c);
      FreeConcat(fields[0] + ['|'], Joined(fields[1..]), c);
      FreeConcat(fields[0], ['|'], c);
      assert forall i | 1 <= i < |fields| :: fields[i] == fields[1..][i - 1];
    }
  }

  lemma {:induction false} SplitJoined(fields: seq<string>)
    requires fields != [] && forall i | 0 <= i < |fields| - 1 :: Free(fields[i], '|')
    ensures SplitOn(Joined(fields), '|') == fields[..|fields| - 1] + SplitOn(fields[|fields| - 1], '|')
    decreases |fields|
  {
    hide SplitOn, Free;
    var last := |fields| - 1;
    if last > 0 {
      var rest := fields[1..];
      assert forall i | 0 <= i < |rest| - 1 :: rest[i] == fields[i + 1];
      SplitJoined(rest);
      SplitAt(fields[0], '|', Joined(rest));
      assert fields[..last] == [fields[0]] + rest[..last - 1];
      assert rest[last - 1] == fields[last];
    } else {
      assert fields[..last] == [];
    }
  }

  /** The fields before the last stay put when the last one grows. */
  lemma {:induction false} JoinedGrows(fields: seq<string>, more: string)
    requires fields != []
    ensures Joined(fields[|fields| - 1 := fields[|fields| - 1] + more]) == Joined(fields) + more
    decreases |fields|
  {
    if |fields| > 1 {
      var grown := fields[|fields| - 1 := fields[|fields| - 1] + more];
      assert grown[1..] == fields[1..][|fields| - 2 := fields[|fields| - 1] + more];
      JoinedGrows(fields[1..], more);
    }
  }

  lemma PlainLine(repo: string, c: Chunk)
    ensures Free(HeaderLine(repo, c), '\n')
       <==> (Free(repo, '\n') && Free(c.path, '\n') && Free(SymbolOf(c), '\n') && Free(c.language, '\n')
             && Free(c.kind, '\n'))
  {
    hide Joined, Decimal;
    var fields := Fields(repo, c);
    DecimalRoundTrip(c.start);
    DecimalRoundTrip(c.end);
    FreeJoined(fields, '\n');
    FreeConcat(HEADER_PREFIX, Joined(fields), '\n');
    assert Free(fields[0], '\n') == Free(repo, '\n') && Free(fields[1], '\n') == Free(c.path, '\n');
    assert Free(fields[4], '\n') == Free(SymbolOf(c), '\n') && Free(fields[5], '\n') == Free(c.language, '\n');
    assert Free(fields[6], '\n') == Free(c.kind, '\n');
  }

  predicate PlainFields(repo: string, c: Chunk) {
    Plain(repo) && Plain(c.path) && Plain(SymbolOf(c)) && Plain(c.language)
  }

  /** A payload is its header line as far as the first break in the kind, then the rest of the text. */
  lemma PayloadSplits(repo: string, c: Chunk, kind: string) returns (tail: string)
    requires kind <= c.kind && (kind < c.kind ==> c.kind[|kind|] == '\n')
    ensures BuildPayload(repo, c) == HeaderLine(repo, c.(kind := kind)) + ['\n'] + tail
  {
    hide Joined, Decimal, Clipped;
    var fields := Fields(repo, c.(kind := kind));
    var more := c.kind[|kind|..];
    assert c.kind == kind + more;
    assert Fields(repo, c) == fields[6 := kind + more];
    JoinedGrows(fields, more);
    var after := more + "\n" + Clipped(c.content);
    tail := after[1..];
    assert after == ['\n'] + tail;
    calc {
      BuildPayload(repo, c);
      HEADER_PREFIX + (Joined(fields) + more) + "\n" + Clipped(c.content);
      HEADER_PREFIX + Joined(fields) + after;
    }
  }

  /** The first line of a payload is the header line, cut at a break inside the kind if there is one. */
  lemma FirstLineOfPayload(repo: string, c: Chunk, kind: string)
    requires PlainFields(repo, c) && kind == c.kind[..Cut(c.kind, '\n')]
    ensures var text := BuildPayload(repo, c); text[..Cut(text, '\n')] == HeaderLine(repo, c.(kind := kind))
  {
    hide HeaderLine, BuildPayload;
    var tail := PayloadSplits(repo, c, kind);
    PlainLine(repo, c.(kind := kind));
    CutAt(HeaderLine(repo, c.(kind := kind)), '\n', tail);
  }

  /** What the parser finds in an unbroken header line. */
  lemma LineParses(repo: string, c: Chunk, text: string)
    requires PlainFields(repo, c) && text != "" && text[..Cut(text, '\n')] == HeaderLine(repo, c)
    ensures ParseHeader(text) == Some(HeaderOf(repo, c))
  {
    hide Joined, Decimal, SplitOn, ParseInt;
    var fields := Fields(repo, c);
    DecimalRoundTrip(c.start);
    DecimalRoundTrip(c.end);
    SplitJoined(fields);
    assert HeaderLine(repo, c)[|HEADER_PREFIX|..] == Joined(fields);
  }

  lemma PayloadStarts(repo: string, c: Chunk)
    ensures BuildPayload(repo, c) == HeaderLine(repo, c) + ['\n'] + Clipped(c.content)
    ensures StartsWith(BuildPayload(repo, c), HEADER_PREFIX) && BuildPayload(repo, c) != ""
  {
  }

  /**
   Parsing an uploaded chunk gives back its repository, path, line span, symbol and language exactly
   when none of those texts holds a bar or a line break, whatever the kind and the content hold.
   */
  lemma HeaderRoundTripIff(repo: string, c: Chunk)
    ensures ParseHeader(BuildPayload(repo, c)) == Some(HeaderOf(repo, c))
       <==> PlainFields(repo, c)
  {
    hide ParseHeader, BuildPayload;
    ParsedIsPlain(BuildPayload(repo, c));
    if PlainFields(repo, c) {
      var kind := c.kind[..Cut(c.kind, '\n')];
      FirstLineOfPayload(repo, c, kind);
      assert BuildPayload(repo, c) != "" by { PayloadStarts(repo, c); }
      LineParses(repo, c.(kind := kind), BuildPayload(repo, c));
    }
  }

  /**
   Stripping the header of an uploaded chunk gives back exactly the content cut at the limit, exactly
   when no header field holds a line break.
   */
  lemma BodyRoundTripIff(repo: string, c: Chunk)
    ensures StripHeader(BuildPayload(repo, c)) == Clipped(c.content)
       <==> (Free(repo, '\n') && Free(c.path, '\n') && Free(SymbolOf(c), '\n') && Free(c.language, '\n')
             && Free(c.kind, '\n'))
  {
    hide HeaderLine, BuildPayload, Clipped;
    var line, body := HeaderLine(repo, c), Clipped(c.content);
    var text := BuildPayload(repo, c);
    PlainLine(repo, c);
    PayloadStarts(repo, c);
    var n := Cut(text, '\n');
    if Free(line, '\n') {
      CutAt(line, '\n', body);
    } else {
      var i :| 0 <= i < |line| && line[i] == '\n';
      assert text[i] == '\n';
      assert n <= i by { assert Free(text[..n], '\n'); }
      assert |text[n + 1..]| > |body|;
    }
  }

  // ---- the text itself ----

  /** What is uploaded, written out: seven fields on one line, and below it at most 4000 characters of the chunk. */
  lemma PayloadText(repo: string, c: Chunk)
    ensures BuildPayload(repo, c) ==
            "# henchmen-chunk|" + (repo + "|" + (c.path + "|" + (Decimal(c.start) + "|" + (Decimal(c.end) + "|"
            + ((if c.symbol.Some? then c.symbol.value else "") + "|" + (c.language + "|" + c.kind)))))) + "\n"
            + (if |c.content| <= 4000 then c.content else c.content[..4000])
  {
    hide Decimal, Joined;
    var f := Fields(repo, c);
    SevenJoined(f);
  }

  lemma SevenJoined(f: seq<string>)
    requires |f| == 7
    ensures Joined(f) == f[0] + "|" + (f[1] + "|" + (f[2] + "|" + (f[3] + "|" + (f[4] + "|" + (f[5] + "|" + f[6])))))
  {
    hide Joined;
    LastJoined(f);
    JoinedStep(f, 0);
    JoinedStep(f, 1);
    JoinedStep(f, 2);
    assert f[0..] == f;
  }

  lemma LastJoined(f: seq<string>)
    requires |f| == 7
    ensures Joined(f[3..]) == f[3] + "|" + (f[4] + "|" + (f[5] + "|" + f[6]))
  {
    hide Joined;
    JoinedStep(f, 3);
    JoinedStep(f, 4);
    JoinedStep(f, 5);
    JoinedStep(f, 6);
  }

  lemma JoinedStep(f: seq<string>, i: nat)
    requires i < |f|
    ensures Joined(f[i..]) == if i + 1 == |f| then f[i] else f[i] + "|" + Joined(f[i + 1..])
  {
    assert f[i..][1..] == f[i + 1..];
  }

  /** Text without the marker at its front is no chunk of ours: no header is read from it and none is taken off. */
  lemma ForeignTextStays(text: string)
    requires !("# henchmen-chunk|" <= text)
    ensures ParseHeader(text) == None && StripHeader(text) == text
  {
    if text != "" {
      var line := text[..Cut(text, '\n')];
      assert |HEADER_PREFIX| <= |line| ==> text[..|HEADER_PREFIX|] == line[..|HEADER_PREFIX|];
    }
  }

  /** Any header line of plain fields, ours or not: six fields with two numbers parse, and the line is taken off. */
  lemma AnyHeaderParses(fields: seq<string>, body: string)
    requires fields != [] && (forall f | f in fields :: Plain(f)) && (body == "" || body[0] == '\n')
    ensures var text := "# henchmen-chunk|" + Joined(fields) + body;
      && StripHeader(text) == (if body == "" then "" else body[1..])
      && ParseHeader(text) ==
         if |fields| >= 6 && ParseInt(fields[2]).Some? && ParseInt(fields[3]).Some?
         then Some(Header(fields[0], fields[1], ParseInt(fields[2]).value, ParseInt(fields[3]).value, fields[4],
                          fields[5]))
         else None
  {
    hide Joined, SplitOn, ParseInt, Cut;
    var line := HEADER_PREFIX + Joined(fields);
    var text := line + body;
    assert forall i | 0 <= i < |fields| :: fields[i] in fields;
    FirstLineIs(fields, body);
    assert line[|HEADER_PREFIX|..] == Joined(fields) && text[..|HEADER_PREFIX|] == HEADER_PREFIX;
    SplitFields(fields);
  }

  lemma FirstLineIs(fields: seq<string>, body: string)
    requires fields != [] && (forall i | 0 <= i < |fields| :: Plain(fields[i])) && (body == "" || body[0] == '\n')
    ensures var line := HEADER_PREFIX + Joined(fields);
      Cut(line + body, '\n') == |line| && (line + body)[..|line|] == line
  {
    hide Joined;
    var line := HEADER_PREFIX + Joined(fields);
    FreeJoined(fields, '\n');
    FreeConcat(HEADER_PREFIX, Joined(fields), '\n');
    if body == "" {
      assert line + body == line;
      CutAt(line, '\n', "");
    } else {
      assert line + ['\n'] + body[1..] == line + body;
      CutAt(line, '\n', body[1..]);
    }
  }

  lemma SplitFields(fields: seq<string>)
    requires fields != [] && forall i | 0 <= i < |fields| :: Plain(fields[i])
    ensures SplitOn(Joined(fields), '|') == fields
  {
    hide Joined, SplitOn;
    var n := |fields| - 1;
    SplitJoined(fields);
    SplitFree(fields[n], '|');
    assert fields[..n] + [fields[n]] == fields;
  }

  lemma SplitFree(s: string, c: char)
    requires Free(s, c)
    ensures SplitOn(s, c) == [s]
  {
    CutAt(s, c, "");
  }

  /** A number is read through blanks, a sign and single underscores between its digits. */
  lemma SignsAreRead(a: string, s: string, b: string)
    requires Blanks(a) && Blanks(b) && Natural(s).Some?
    ensures ParseInt(a + s + b) == Some(Natural(s).value) == ParseInt(a + ("+" + s) + b)
    ensures ParseInt(a + ("-" + s) + b) == Some(-(Natural(s).value as int))
  {
    hide Natural, Strip;
    NaturalIsTight(s);
    StripIs(a, s, b);
    StripIs(a, "+" + s, b);
    StripIs(a, "-" + s, b);
    assert ("+" + s)[1..] == s && ("-" + s)[1..] == s;
  }

  lemma {:induction false} NaturalIsTight(s: string)
    requires Natural(s).Some?
    ensures s != "" && IsDigit(s[0]) && IsDigit(s[|s| - 1]) && Tight(s)
    decreases |s|
  {
    if |s| > 1 { NaturalIsTight(if s[|s| - 2] == '_' then s[..|s| - 2] else s[..|s| - 1]); }
  }

  lemma UnderscoresAreSkipped(s: string, d: nat)
    requires Natural(s).Some? && d < 10
    ensures var digit := "0123456789"[d];
      && Natural([digit]) == Some(d)
      && Natural(s + [digit]) == Natural(s + ['_', digit]) == Some(10 * Natural(s).value + d)
  {
    var digit := "0123456789"[d];
    NaturalIsTight(s);
    assert (s + [digit])[..|s|] == s && (s + ['_', digit])[..|s|] == s;
  }

  lemma OtherUnderscoresAreErrors(s: string, digit: char)
    ensures Natural(s + ['_', '_', digit]) == None == Natural(['_', digit]) && Natural(s + ['_']) == None
  {
    assert (s + ['_', '_', digit])[..|s| + 1] == s + ['_'] && ['_', digit][..0] == "";
  }

  lemma DecimalExamples()
    ensures Decimal(0) == "0" && Decimal(1207) == "1207" && Decimal(-35) == "-35"
  {
    assert Digits(12) == Digits(1) + [DigitChar(2)] == "12";
    assert Digits(120) == "120" && Digits(1207) == "1207" && Digits(35) == "35";
  }
}
