/** One line of a dotenv file: recognising an assignment, quoting a value and unquoting it. */
module EnvText {
  import opened Wrappers
  import opened PyText

  predicate IsKeyStart(c: char) {
    'A' <= c <= 'Z' || 'a' <= c <= 'z' || c == '_'
  }

  predicate IsKeyChar(c: char) {
    IsKeyStart(c) || '0' <= c <= '9'
  }

  predicate IsKey(s: string) {
    s != "" && IsKeyStart(s[0]) && forall c | c in s :: IsKeyChar(c)
  }

  /** What a name is made of, as ASCII codes: letters and the underscore, digits only after the first. */
  lemma NameCharacters(c: char)
    ensures var code := c as int;
      && (IsKeyStart(c) <==> 65 <= code <= 90 || 97 <= code <= 122 || code == 95)
      && (IsKeyChar(c) <==> IsKeyStart(c) || 48 <= code <= 57)
  {
  }

  /** Length of the longest run of key characters at the front. */
  function KeyRun(s: string): (n: nat)
    ensures n <= |s| && (forall c | c in s[..n] :: IsKeyChar(c)) && (n < |s| ==> !IsKeyChar(s[n]))
  {
    if s == "" || !IsKeyChar(s[0]) then 0
    else
      var n := KeyRun(s[1..]);
      assert s[..n + 1] == [s[0]] + s[1..][..n];
      n + 1
  }

  /** `KEY\s*=rest` at the front of `s`. */
  function ParseDirect(s: string): Option<(string, string)> {
    var n := KeyRun(s);
    if n == 0 || !IsKeyStart(s[0]) then None
    else
      var after := LStrip(s[n..]);
      if after != "" && after[0] == '=' then Some((s[..n], after[1..])) else None
  }

  const EXPORT := "export"

  /** The assignment pattern: leading blanks and an `export` prefix are optional. */
  function ParseAssignment(raw: string): Option<(string, string)> {
    var s := LStrip(raw);
    if |s| > 6 && s[..6] == EXPORT && IsSpace(s[6]) then
      var exported := ParseDirect(LStrip(s[6..]));
      if exported.Some? then exported else ParseDirect(s)
    else ParseDirect(s)
  }

  predicate NeedsQuotes(v: string) {
    exists c | c in v :: IsSpace(c) || c == '#' || c == '"' || c == '\'' || c == '\\' || c == '$' || c == '`'
  }

  function Escape(v: string): string {
    Replace(Replace(v, "\\", "\\\\"), "\"", "\\\"")
  }

  function QuoteValue(v: string): string {
    if v == "" then "\"\""
    else if !NeedsQuotes(v) then v
    else "\"" + Escape(v) + "\""
  }

  /** What is written for a value: itself if none of its characters needs quotes, escaped between quotes otherwise. */
  lemma QuotedText(v: string)
    ensures v != "" && (forall c | c in v :: !IsSpace(c) && c !in "#\"'\\$`") ==> QuoteValue(v) == v
    ensures v == "" || (exists c | c in v :: IsSpace(c) || c in "#\"'\\$`") ==>
              QuoteValue(v) == "\"" + Escape(v) + "\""
  {
  }

  function Unescape(inner: string): string {
    Replace(Replace(inner, "\\\"", "\""), "\\\\", "\\")
  }

  /** The value of a raw right-hand side: quotes stripped, or an unquoted value cut at a comment. */
  function Unquote(raw: string): string {
    var v := Strip(raw);
    if |v| >= 2 && v[0] == v[|v| - 1] && (v[0] == '\'' || v[0] == '"') then
      if v[0] == '"' then Unescape(v[1..|v| - 1]) else v[1..|v| - 1]
    else
      match Find(v, " #")
      case Some(k) => Strip(v[..k])
      case None => Strip(v)
  }

  datatype Line = Line(raw: string, key: Option<string>, value: string)

  function ParseLine(raw: string): Line {
    match ParseAssignment(raw)
    case Some((key, rest)) => Line(raw, Some(key), Unquote(rest))
    case None => Line(raw, None, "")
  }

  // ---- quoting round trip ----

  /** Escaping one character at a time. */
  function Escaped(v: string): string {
    if v == "" then ""
    else (if v[0] == '\\' then "\\\\" else if v[0] == '"' then "\\\"" else [v[0]]) + Escaped(v[1..])
  }

  /** Only the backslashes doubled. */
  function Doubled(v: string): string {
    if v == "" then "" else (if v[0] == '\\' then "\\\\" else [v[0]]) + Doubled(v[1..])
  }

  lemma {:induction false} ReplaceDoubles(v: string)
    ensures Replace(v, "\\", "\\\\") == Doubled(v)
    decreases |v|
  {
    if v != "" {
      ReplaceDoubles(v[1..]);
      assert v[..1] == [v[0]];
    }
  }

  lemma {:induction false} ReplaceQuotes(v: string)
    ensures Replace(Doubled(v), "\"", "\\\"") == Escaped(v)
    decreases |v|
  {
    if v != "" {
      ReplaceQuotes(v[1..]);
      var rest := Doubled(v[1..]);
      var d := Doubled(v);
      if v[0] == '\\' {
        assert d == ['\\'] + (['\\'] + rest);
        SkipOne('\\', ['\\'] + rest, "\"", "\\\"");
        SkipOne('\\', rest, "\"", "\\\"");
      } else if v[0] == '"' {
        assert d[..1] == "\"" && d[1..] == rest;
      } else {
        assert d == [v[0]] + rest;
        SkipOne(v[0], rest, "\"", "\\\"");
      }
    }
  }

  /** A replace whose pattern cannot start at the first character copies it. */
  lemma SkipOne(c: char, rest: string, was: string, now: string)
    requires was != "" && (c != was[0] || (|was| == 2 && (rest == "" || rest[0] != was[1])))
    ensures Replace([c] + rest, was, now) == [c] + Replace(rest, was, now)
  {
    var s := [c] + rest;
    assert s[0] == c && s[1..] == rest;
    if |s| >= |was| {
      assert s[..|was|][0] == c;
      assert |was| == 2 ==> s[..|was|][1] == rest[0];
    } else {
      assert |rest| < |was|;
    }
  }

  lemma TakePattern(s: string, rest: string, was: string, now: string)
    requires was != "" && s == was + rest
    ensures Replace(s, was, now) == now + Replace(rest, was, now)
  {
    assert s[..|was|] == was && s[|was|..] == rest;
  }

  lemma EscapedNeverStartsWithQuote(v: string)
    ensures Escaped(v) == "" || Escaped(v)[0] != '"'
  {
  }

  lemma SkipPair(s: string, rest: string, was: string, now: string)
    requires |was| == 2 && was[0] != was[1] && (rest == "" || rest[0] != was[1])
    requires s == [was[0]] + ([was[0]] + rest)
    ensures Replace(s, was, now) == [was[0]] + ([was[0]] + Replace(rest, was, now))
  {
    SkipOne(was[0], [was[0]] + rest, was, now);
    SkipOne(was[0], rest, was, now);
  }

  /** The first character of an escaped and of a doubled text. */
  lemma FirstPiece(v: string)
    requires v != ""
    ensures Escaped(v) == (if v[0] == '\\' then ['\\', '\\'] else if v[0] == '"' then ['\\', '"'] else [v[0]])
      + Escaped(v[1..])
    ensures Doubled(v) == (if v[0] == '\\' then ['\\', '\\'] else [v[0]]) + Doubled(v[1..])
  {
  }

  lemma UnescapeStep(v: string, escape: string, quote: string)
    requires v != "" && escape == ['\\', '"'] && quote == ['"']
    requires Replace(Escaped(v[1..]), escape, quote) == Doubled(v[1..])
    ensures Replace(Escaped(v), escape, quote) == Doubled(v)
  {
    hide Replace, Escaped, Doubled;
    var rest := Escaped(v[1..]);
    EscapedNeverStartsWithQuote(v[1..]);
    FirstPiece(v);
    if v[0] == '\\' {
      assert Escaped(v) == ['\\'] + (['\\'] + rest);
      SkipPair(Escaped(v), rest, escape, quote);
      assert Doubled(v) == ['\\'] + (['\\'] + Doubled(v[1..]));
    } else if v[0] == '"' {
      TakePattern(Escaped(v), rest, escape, quote);
    } else {
      SkipOne(v[0], rest, escape, quote);
    }
  }

  /** Undoing the escaped quotes leaves exactly the doubled backslashes. */
  lemma {:induction false} UnescapeQuotes(v: string)
    ensures Replace(Escaped(v), "\\\"", "\"") == Doubled(v)
    decreases |v|
  {
    if v != "" {
      UnescapeQuotes(v[1..]);
      UnescapeStep(v, "\\\"", "\"");
    }
  }

  lemma {:induction false} UndoubleBackslashes(v: string)
    ensures Replace(Doubled(v), "\\\\", "\\") == v
    decreases |v|
  {
    if v != "" {
      UndoubleBackslashes(v[1..]);
      var rest := Doubled(v[1..]);
      if v[0] == '\\' {
        TakePattern(Doubled(v), rest, "\\\\", "\\");
      } else {
        assert Doubled(v) == [v[0]] + rest;
        SkipOne(v[0], rest, "\\\\", "\\");
      }
    }
  }

  /** The two sequential replaces undo the escaping, whatever mix of backslashes and quotes. */
  lemma EscapeRoundTrip(v: string)
    ensures Unescape(Escape(v)) == v
  {
    ReplaceDoubles(v);
    ReplaceQuotes(v);
    UnescapeQuotes(v);
    UndoubleBackslashes(v);
  }

  lemma CommentHasSpace(v: string)
    ensures forall i: nat :: OccursAt(v, i, " #") ==> ' ' in v
  {
    forall i: nat | OccursAt(v, i, " #") ensures ' ' in v {
      assert v[i..i + 2][0] == v[i];
    }
  }

  /** Every string survives quoting and unquoting. */
  lemma QuoteRoundTrip(v: string)
    ensures Unquote(QuoteValue(v)) == v
  {
    var q := QuoteValue(v);
    if v == "" {
      assert q[1..1] == "";
      StripKeeps(q);
      EscapeRoundTrip("");
    } else if NeedsQuotes(v) {
      StripKeeps(q);
      assert q[1..|q| - 1] == Escape(v);
      EscapeRoundTrip(v);
    } else {
      assert forall c | c in v :: !IsSpace(c) && c != '#' && c != '"' && c != '\'';
      assert v[0] in v && v[|v| - 1] in v;
      StripKeeps(v);
      CommentHasSpace(v);
    }
  }

  // ---- parsing a rendered assignment ----

  lemma {:induction false} KeyRunOf(key: string, rest: string)
    requires (forall c | c in key :: IsKeyChar(c)) && (rest == "" || !IsKeyChar(rest[0]))
    ensures KeyRun(key + rest) == |key|
    decreases |key|
  {
    if key == "" {
      assert key + rest == rest;
    } else {
      assert key[0] in key;
      assert (key + rest)[1..] == key[1..] + rest;
      KeyRunOf(key[1..], rest);
    }
  }

  /** A key directly followed by `=` is not an `export` prefix, even when the key is `export`. */
  lemma NotExport(key: string, rest: string)
    requires IsKey(key)
    ensures var s := key + "=" + rest; !(|s| > 6 && s[..6] == EXPORT && IsSpace(s[6]))
  {
    var s := key + "=" + rest;
    if |s| > 6 {
      if |key| < 6 {
        assert s[..6][|key|] == '=' && EXPORT[|key|] != '=';
      } else if |key| > 6 {
        assert s[6] == key[6] && key[6] in key;
      }
    }
  }

  /** `KEY=rest` parses as an assignment of KEY. */
  lemma ParseRendered(key: string, rest: string)
    requires IsKey(key)
    ensures ParseAssignment(key + "=" + rest) == Some((key, rest))
  {
    var s := key + "=" + rest;
    assert s == key + ("=" + rest);
    assert s[0] == key[0];
    KeyRunOf(key, "=" + rest);
    assert s[..|key|] == key && s[|key|..] == "=" + rest;
    assert LStrip(s) == s;
    NotExport(key, rest);
    assert ("=" + rest)[1..] == rest;
  }

  lemma ParsedDirectKey(s: string)
    ensures ParseDirect(s).Some? ==> IsKey(ParseDirect(s).value.0)
  {
    var n := KeyRun(s);
    if n > 0 {
      assert s[..n][0] == s[0];
    }
  }

  lemma ParsedKey(raw: string)
    ensures ParseLine(raw).key.Some? ==> IsKey(ParseLine(raw).key.value)
  {
    var s := LStrip(raw);
    ParsedDirectKey(s);
    if |s| > 6 { ParsedDirectKey(LStrip(s[6..])); }
  }

  function Rendered(key: string, value: string): string {
    key + "=" + QuoteValue(value)
  }

  /** A rendered line reads back as the assignment it was rendered from exactly when the key is an identifier. */
  lemma RenderedLineReadsBack(key: string, value: string)
    ensures ParseLine(Rendered(key, value)) == Line(Rendered(key, value), Some(key), value) <==> IsKey(key)
  {
    if IsKey(key) {
      ParseRendered(key, QuoteValue(value));
      QuoteRoundTrip(value);
    } else {
      ParsedKey(Rendered(key, value));
    }
  }

  // ---- boundaries ----

  lemma {:induction false} ReplaceChars(s: string, was: string, now: string)
    requires was != "" && NoBoundary(s) && NoBoundary(now)
    ensures NoBoundary(Replace(s, was, now))
    decreases |s|
  {
    if |s| >= |was| {
      if s[..|was|] == was {
        ReplaceChars(s[|was|..], was, now);
      } else {
        assert s[0] in s;
        ReplaceChars(s[1..], was, now);
      }
    }
  }

  lemma {:induction false} LStripSub(s: string)
    requires NoBoundary(s)
    ensures NoBoundary(LStrip(s))
    decreases |s|
  {
    if s != "" && IsSpace(s[0]) { LStripSub(s[1..]); }
  }

  lemma {:induction false} RStripSub(s: string)
    requires NoBoundary(s)
    ensures NoBoundary(RStrip(s))
    decreases |s|
  {
    if s != "" && IsSpace(s[|s| - 1]) { RStripSub(s[..|s| - 1]); }
  }

  lemma StripSub(s: string)
    requires NoBoundary(s)
    ensures NoBoundary(Strip(s))
  {
    LStripSub(s);
    RStripSub(LStrip(s));
  }

  lemma UnquoteIsBoundaryFree(raw: string)
    requires NoBoundary(raw)
    ensures NoBoundary(Unquote(raw))
  {
    StripSub(raw);
    var v := Strip(raw);
    if |v| >= 2 && v[0] == v[|v| - 1] && (v[0] == '\'' || v[0] == '"') {
      var inner := v[1..|v| - 1];
      ReplaceChars(inner, "\\\"", "\"");
      ReplaceChars(Replace(inner, "\\\"", "\""), "\\\\", "\\");
    } else {
      StripSub(v);
      if Find(v, " #").Some? { StripSub(v[..Find(v, " #").value]); }
    }
  }

  lemma ParsedDirectRest(s: string)
    requires NoBoundary(s)
    ensures ParseDirect(s).Some? ==> NoBoundary(ParseDirect(s).value.1)
  {
    var n := KeyRun(s);
    LStripSub(s[n..]);
  }

  /** A value read from a line never contains a line boundary. */
  lemma ParsedValue(raw: string)
    requires NoBoundary(raw)
    ensures NoBoundary(ParseLine(raw).value)
  {
    LStripSub(raw);
    var s := LStrip(raw);
    ParsedDirectRest(s);
    if |s| > 6 {
      LStripSub(s[6..]);
      ParsedDirectRest(LStrip(s[6..]));
    }
    if ParseAssignment(raw).Some? { UnquoteIsBoundaryFree(ParseAssignment(raw).value.1); }
  }

  lemma RenderedIsBoundaryFree(key: string, value: string)
    requires IsKey(key) && NoBoundary(value)
    ensures NoBoundary(Rendered(key, value))
  {
    ReplaceChars(value, "\\", "\\\\");
    ReplaceChars(Replace(value, "\\", "\\\\"), "\"", "\\\"");
    assert forall c | c in key :: IsKeyChar(c) && !IsBoundary(c);
  }
}
