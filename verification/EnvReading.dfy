/**
 What a hand-written line of a dotenv file reads as, said without the parser: blanks around a value go, a
 trailing comment goes, quotes keep what is inside, and `export` and blanks around the key make no difference.
 */
module EnvReading {
  import opened Wrappers
  import opened PyText
  import opened EnvText
  import opened EnvFile

  predicate IsQuote(c: char) {
    c == '\'' || c == '"'
  }

  /** The text holds a blank followed by a hash. */
  ghost predicate HasComment(t: string) {
    exists i: nat :: OccursAt(t, i, " #")
  }

  // ---- values ----

  /** An unquoted value without a comment is what is written, without the blanks around it. */
  lemma PlainReads(a: string, t: string, b: string)
    requires Blanks(a) && Tight(t) && Blanks(b) && !HasComment(t)
    requires |t| < 2 || t[0] != t[|t| - 1] || !IsQuote(t[0])
    ensures Unquote(a + t + b) == t
  {
    StripIs(a, t, b);
    StripIs("", t, "");
    assert "" + t + "" == t;
  }

  /** The first comment of such a value starts right behind the text and its blanks. */
  lemma FirstComment(t: string, b: string, rest: string)
    requires t != "" && Tight(t) && Blanks(b) && !HasComment(t)
    ensures Find(t + b + " #" + rest, " #") == Some(|t| + |b|)
  {
    var v, k := t + b + " #" + rest, |t| + |b|;
    assert v[k..k + 2] == " #" && OccursAt(v, k, " #");
    forall i: nat | i < k ensures !OccursAt(v, i, " #") {
      assert v[i..i + 2][1] == v[i + 1];
      if i + 1 < |t| {
        assert t[i..i + 2] == v[i..i + 2];
        assert !OccursAt(t, i, " #");
      } else if i + 1 < k {
        assert v[i + 1] == b[i + 1 - |t|] && b[i + 1 - |t|] in b;
      }
    }
  }

  /** Text that does not start with a quote is cut before its first comment, whatever follows. */
  lemma CommentIsCut(a: string, t: string, b: string, rest: string)
    requires Blanks(a) && t != "" && Tight(t) && Blanks(b) && !HasComment(t) && !IsQuote(t[0])
    ensures Unquote(a + t + b + " #" + rest) == t
  {
    hide Unquote, RStrip, HasComment, Blanks, Tight;
    RStripSplits(rest);
    var k := |RStrip(rest)|;
    CommentStripped(a, t, b, rest[..k], rest[k..]);
    assert rest[..k] + rest[k..] == rest;
    FirstComment(t, b, rest[..k]);
    var v := t + b + " #" + rest[..k];
    assert v[0] == t[0];
    CutAtComment(a + t + b + " #" + rest, v, |t| + |b|);
    assert v[..|t| + |b|] == "" + t + b;
    NoBlanks();
    StripIs("", t, b);
  }

  lemma NoBlanks()
    ensures Blanks("")
  {
  }

  lemma CommentStripped(a: string, t: string, b: string, kept: string, tail: string)
    requires Blanks(a) && t != "" && Tight(t) && Blanks(tail) && (kept == "" || !IsSpace(kept[|kept| - 1]))
    ensures Strip(a + t + b + " #" + (kept + tail)) == t + b + " #" + kept
  {
    hide Strip, Blanks;
    var v := t + b + " #" + kept;
    assert v[0] == t[0];
    assert v[|v| - 1] == if kept != "" then kept[|kept| - 1] else '#';
    assert a + t + b + " #" + (kept + tail) == a + v + tail;
    StripIs(a, v, tail);
  }

  lemma CutAtComment(raw: string, v: string, k: nat)
    requires Strip(raw) == v && v != "" && !IsQuote(v[0]) && Find(v, " #") == Some(k)
    ensures Unquote(raw) == Strip(v[..k])
  {
  }

  lemma {:induction false} RStripSplits(s: string)
    ensures |RStrip(s)| <= |s| && RStrip(s) == s[..|RStrip(s)|] && Blanks(s[|RStrip(s)|..])
    ensures RStrip(s) == "" || !IsSpace(RStrip(s)[|RStrip(s)| - 1])
    decreases |s|
  {
    if s != "" && IsSpace(s[|s| - 1]) {
      var n := |s| - 1;
      RStripSplits(s[..n]);
      var k := |RStrip(s)|;
      assert s[k..] == s[..n][k..] + [s[n]];
    }
  }

  /** A hash right after the equals sign and blanks starts no comment: it is the value. */
  lemma BareCommentIsTheValue(a: string, rest: string)
    requires Blanks(a) && Tight("#" + rest) && !HasComment("#" + rest)
    ensures Unquote(a + "#" + rest) == "#" + rest
  {
    assert a + ("#" + rest) + "" == a + "#" + rest;
    PlainReads(a, "#" + rest, "");
  }

  /** Between single quotes everything stands for itself. */
  lemma SingleQuotedReads(a: string, s: string, b: string)
    requires Blanks(a) && Blanks(b)
    ensures Unquote(a + "'" + s + "'" + b) == s
  {
    var v := "'" + s + "'";
    assert a + "'" + s + "'" + b == a + v + b;
    StripIs(a, v, b);
    assert v[1..|v| - 1] == s;
  }

  lemma {:induction false} NothingReplaced(s: string, was: string, now: string)
    requires was != "" && was[0] !in s
    ensures Replace(s, was, now) == s
    decreases |s|
  {
    if |s| >= |was| {
      assert s[..|was|][0] == s[0] && s[0] in s;
      NothingReplaced(s[1..], was, now);
    }
  }

  /** Between double quotes everything but a backslash stands for itself. */
  lemma DoubleQuotedReads(a: string, s: string, b: string)
    requires Blanks(a) && Blanks(b) && '\\' !in s
    ensures Unquote(a + "\"" + s + "\"" + b) == s
  {
    var v := "\"" + s + "\"";
    assert a + "\"" + s + "\"" + b == a + v + b;
    StripIs(a, v, b);
    assert v[1..|v| - 1] == s;
    NothingReplaced(s, "\\\"", "\"");
    NothingReplaced(s, "\\\\", "\\");
  }

  // ---- lines ----

  lemma DirectReads(key: string, gap: string, rest: string)
    requires IsKey(key) && Blanks(gap)
    ensures ParseDirect(key + gap + "=" + rest) == Some((key, rest))
  {
    var s := key + gap + "=" + rest;
    assert s == key + (gap + "=" + rest) && gap + "=" + rest == gap + ("=" + rest);
    if gap != "" { assert gap[0] in gap && (gap + "=" + rest)[0] == gap[0]; }
    assert !IsKeyChar((gap + "=" + rest)[0]);
    KeyRunOf(key, gap + "=" + rest);
    assert s[..|key|] == key && s[|key|..] == gap + ("=" + rest);
    LStripBlanks(gap, "=" + rest);
    assert ("=" + rest)[1..] == rest && s[0] == key[0];
  }

  /** What stands before the key: blanks, and `export` with blanks behind it if the line has one. */
  function Before(pre: string, exported: bool, sep: string): string {
    if exported then pre + "export" + sep else pre
  }

  /** An assignment is read whatever blanks stand around the key, with or without `export`. */
  lemma AssignmentReads(pre: string, exported: bool, sep: string, key: string, gap: string, rest: string)
    requires Blanks(pre) && Blanks(sep) && sep != "" && IsKey(key) && Blanks(gap)
    ensures ParseAssignment(Before(pre, exported, sep) + key + gap + "=" + rest) == Some((key, rest))
  {
    hide ParseDirect, ParseAssignment, Blanks;
    var body := key + gap + "=" + rest;
    assert body[0] == key[0] && !IsSpace(key[0]);
    DirectReads(key, gap, rest);
    if exported {
      assert Before(pre, exported, sep) + key + gap + "=" + rest == pre + (EXPORT + sep + body);
      ExportedReads(pre, sep, body);
    } else {
      assert Before(pre, exported, sep) + key + gap + "=" + rest == pre + body;
      NoExportInKey(key, gap, rest);
      PlainLineReads(pre, body);
    }
  }

  lemma ExportedReads(pre: string, sep: string, body: string)
    requires Blanks(pre) && Blanks(sep) && sep != "" && body != "" && !IsSpace(body[0]) && ParseDirect(body).Some?
    ensures ParseAssignment(pre + (EXPORT + sep + body)) == ParseDirect(body)
  {
    hide ParseDirect;
    var s := EXPORT + sep + body;
    LStripBlanks(pre, s);
    assert sep[0] in sep && s[6] == sep[0] && s[..6] == EXPORT && s[6..] == sep + body;
    LStripBlanks(sep, body);
  }

  lemma PlainLineReads(pre: string, body: string)
    requires Blanks(pre) && body != "" && !IsSpace(body[0])
    requires |body| > 6 && body[..6] == EXPORT && IsSpace(body[6]) ==> ParseDirect(LStrip(body[6..])) == None
    ensures ParseAssignment(pre + body) == ParseDirect(body)
  {
    hide ParseDirect;
    LStripBlanks(pre, body);
  }

  /** Without the prefix, the longer reading finds no assignment: a key named `export` is a key. */
  lemma NoExportInKey(key: string, gap: string, rest: string)
    requires IsKey(key) && Blanks(gap)
    ensures var s := key + gap + "=" + rest;
      |s| > 6 && s[..6] == EXPORT && IsSpace(s[6]) ==> ParseDirect(LStrip(s[6..])) == None
  {
    var s := key + gap + "=" + rest;
    if |s| > 6 {
      if |key| < 6 {
        assert gap != "" ==> s[|key|] == gap[0] && gap[0] in gap;
        assert IsKeyChar(EXPORT[|key|]) && s[..6][|key|] == s[|key|];
      } else if |key| > 6 {
        assert s[6] == key[6] && key[6] in key;
      } else {
        assert s[6..] == gap + ("=" + rest);
        LStripBlanks(gap, "=" + rest);
      }
    }
  }

  /** A line whose first character after the blanks cannot start a key assigns nothing. */
  lemma CommentLineReads(pre: string, rest: string)
    requires Blanks(pre) && (rest == "" || (!IsSpace(rest[0]) && !IsKeyStart(rest[0])))
    ensures ParseLine(pre + rest).key == None
  {
    LStripBlanks(pre, rest);
    if |rest| > 6 { assert rest[..6][0] == rest[0] && EXPORT[0] == 'e'; }
  }

  // ---- files ----

  lemma {:induction false} LastAssignmentRules(lines: Lines, i: nat, key: string)
    requires i < |lines| && lines[i].key == Some(key) && forall j | i < j < |lines| :: lines[j].key != Some(key)
    ensures key in AsMap(lines) && AsMap(lines)[key] == lines[i].value
    decreases |lines|
  {
    var n := |lines| - 1;
    if i < n { LastAssignmentRules(lines[..n], i, key); }
  }

  /** A file written line by line reads as the last line that assigns the key. */
  lemma FileReads(raws: seq<string>, i: nat, key: string)
    requires raws != [] && forall k | 0 <= k < |raws| :: NoBoundary(raws[k])
    requires i < |raws| && ParseLine(raws[i]).key == Some(key)
    requires forall j | i < j < |raws| :: ParseLine(raws[j]).key != Some(key)
    ensures var m := AsMap(FromText(JoinLines(raws) + "\n")); key in m && m[key] == ParseLine(raws[i]).value
  {
    SplitOfJoin(raws);
    LastAssignmentRules(FromText(JoinLines(raws) + "\n"), i, key);
  }

  /** `  export KEY = text  # comment` reads as the text, wherever in a file it is the last to assign KEY. */
  lemma CommentedLineReads(raws: seq<string>, i: nat, pre: string, exported: bool, sep: string, key: string,
                           gap: string, a: string, t: string, b: string, rest: string)
    requires raws != [] && forall k | 0 <= k < |raws| :: NoBoundary(raws[k])
    requires Blanks(pre) && Blanks(sep) && sep != "" && IsKey(key) && Blanks(gap)
    requires Blanks(a) && t != "" && Tight(t) && Blanks(b) && !HasComment(t) && !IsQuote(t[0])
    requires i < |raws| && raws[i] == Before(pre, exported, sep) + key + gap + "=" + (a + t + b + " #" + rest)
    requires forall j | i < j < |raws| :: ParseLine(raws[j]).key != Some(key)
    ensures var m := AsMap(FromText(JoinLines(raws) + "\n")); key in m && m[key] == t
  {
    AssignmentReads(pre, exported, sep, key, gap, a + t + b + " #" + rest);
    CommentIsCut(a, t, b, rest);
    FileReads(raws, i, key);
  }
}
