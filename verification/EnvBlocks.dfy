/**
 Where edits put a setting: a key that is set under a section stands in the block below the section's
 first header.
 */
module EnvBlocks {
  import opened Wrappers
  import opened PyText
  import opened EnvText
  import opened EnvFile
  import opened EnvLines

  /** The assignments at the front. */
  function Keyed(lines: Lines): Lines {
    if lines == [] || lines[0].key.None? then [] else [lines[0]] + Keyed(lines[1..])
  }

  /** The assignments right below the section's first header. */
  function Block(lines: Lines, section: string): Lines {
    if lines == [] then []
    else if IsHeader(lines[0], section) then Keyed(lines[1..])
    else Block(lines[1..], section)
  }

  ghost predicate InBlock(lines: Lines, section: string, key: string) {
    exists l :: l in Block(lines, section) && Assigns(l, key)
  }

  /** No assignment reads as the section's header. */
  ghost predicate HeadersApart(lines: Lines, section: string) {
    forall i | 0 <= i < |lines| :: IsHeader(lines[i], section) ==> lines[i].key.None?
  }

  lemma ConsApart(lines: Lines, section: string)
    requires lines != [] && HeadersApart(lines, section)
    ensures HeadersApart(lines[1..], section)
  {
    assert forall i | 0 <= i < |lines| - 1 :: lines[1..][i] == lines[i + 1];
  }

  // ---- what later edits leave in a block ----

  lemma {:induction false} KeyedWithout(lines: Lines, key: string, l: Line)
    requires l in Keyed(lines) && !Assigns(l, key)
    ensures l in Keyed(Without(lines, key))
    decreases |lines|
  {
    if l in Keyed(lines[1..]) { KeyedWithout(lines[1..], key, l); }
    var rest := Without(lines[1..], key);
    if !Assigns(lines[0], key) { assert ([lines[0]] + rest)[1..] == rest; }
  }

  lemma {:induction false} BlockWithout(lines: Lines, section: string, key: string, l: Line)
    requires HeadersApart(lines, section) && l in Block(lines, section) && !Assigns(l, key)
    ensures l in Block(Without(lines, key), section)
    decreases |lines|
  {
    ConsApart(lines, section);
    var rest := Without(lines[1..], key);
    if IsHeader(lines[0], section) {
      assert !Assigns(lines[0], key) && ([lines[0]] + rest)[1..] == rest;
      KeyedWithout(lines[1..], key, l);
    } else {
      BlockWithout(lines[1..], section, key, l);
      if !Assigns(lines[0], key) { assert ([lines[0]] + rest)[1..] == rest; }
    }
  }

  lemma {:induction false} KeyedInsert(a: Lines, line: Line, b: Lines, l: Line)
    requires l in Keyed(a + b) && line.key.Some?
    ensures l in Keyed(a + [line] + b)
    decreases |a|
  {
    var all := a + [line] + b;
    if a == [] {
      assert a + b == b && all == [line] + b && all[1..] == b;
    } else {
      assert (a + b)[1..] == a[1..] + b && all[1..] == a[1..] + [line] + b && all[0] == a[0] == (a + b)[0];
      if l in Keyed(a[1..] + b) { KeyedInsert(a[1..], line, b, l); }
    }
  }

  /** An assignment added anywhere leaves the others of a block in it. */
  lemma {:induction false} BlockInsert(a: Lines, line: Line, b: Lines, section: string, l: Line)
    requires l in Block(a + b, section) && line.key.Some? && !IsHeader(line, section)
    ensures l in Block(a + [line] + b, section)
    decreases |a|
  {
    var all := a + [line] + b;
    if a == [] {
      assert a + b == b && all == [line] + b && all[1..] == b;
    } else {
      assert (a + b)[1..] == a[1..] + b && all[1..] == a[1..] + [line] + b && all[0] == a[0] == (a + b)[0];
      if IsHeader(a[0], section) { KeyedInsert(a[1..], line, b, l); } else { BlockInsert(a[1..], line, b, section, l); }
    }
  }

  lemma {:induction false} KeyedMore(lines: Lines, more: Lines, l: Line)
    requires l in Keyed(lines)
    ensures l in Keyed(lines + more)
    decreases |lines|
  {
    assert (lines + more)[1..] == lines[1..] + more;
    if l in Keyed(lines[1..]) { KeyedMore(lines[1..], more, l); }
  }

  lemma {:induction false} BlockMore(lines: Lines, more: Lines, section: string, l: Line)
    requires l in Block(lines, section)
    ensures l in Block(lines + more, section)
    decreases |lines|
  {
    assert (lines + more)[1..] == lines[1..] + more;
    if IsHeader(lines[0], section) { KeyedMore(lines[1..], more, l); } else { BlockMore(lines[1..], more, section, l); }
  }

  // ---- one edit ----

  lemma {:induction false} WithoutApart(lines: Lines, section: string, key: string)
    requires HeadersApart(lines, section)
    ensures HeadersApart(Without(lines, key), section)
    decreases |lines|
  {
    if lines != [] {
      ConsApart(lines, section);
      WithoutApart(lines[1..], section, key);
    }
  }

  lemma SpliceApart(a: Lines, b: Lines, section: string)
    ensures HeadersApart(a + b, section) <==> HeadersApart(a, section) && HeadersApart(b, section)
  {
    assert forall i | 0 <= i < |a| :: (a + b)[i] == a[i];
    assert forall i | 0 <= i < |b| :: (a + b)[|a| + i] == b[i];
  }

  /** A rendered assignment of an identifier is no header. */
  lemma RenderedIsNoHeader(key: string, value: string, section: string)
    requires IsKey(key)
    ensures !IsHeader(Line(Rendered(key, value), Some(key), value), section)
  {
    var raw := Rendered(key, value);
    assert raw[0] == key[0] && LStrip(raw) == raw;
    FirstStays(raw);
    assert Header(section)[0] == '#';
  }

  lemma {:induction false} FirstStays(s: string)
    requires s != "" && !IsSpace(s[0])
    ensures RStrip(s) != "" && RStrip(s)[0] == s[0]
    decreases |s|
  {
    if IsSpace(s[|s| - 1]) { FirstStays(s[..|s| - 1]); }
  }

  ghost predicate Proper(e: Edit) {
    IsKey(e.key)
  }

  lemma EditApart(was: Lines, now: Lines, e: Edit, section: string)
    requires HeadersApart(was, section) && Edited(was, now, e) && Proper(e)
    ensures HeadersApart(now, section)
  {
    hide HeadersApart, Without;
    match e
    case UnsetEdit(key) => WithoutApart(was, section, key);
    case SetEdit(key, value, under) =>
      var line := Line(Rendered(key, value), Some(key), value);
      OneApart(line, section);
      match FirstIndex(was, key) {
        case Some(i) =>
          assert was == was[..i] + was[i..] && was[i..] == [was[i]] + was[i + 1..];
          SpliceApart(was[..i], was[i..], section);
          SpliceApart([was[i]], was[i + 1..], section);
          WithoutApart(was[i + 1..], section, key);
          SpliceApart(was[..i], [line], section);
          SpliceApart(was[..i] + [line], Without(was[i + 1..], key), section);
        case None =>
          if under.Some? && under.value != "" {
            AddedApart(was, under.value, section);
            SpliceApart(was, SectionAdded(was, under.value), section);
            var a, b := InsertedWhere(was + SectionAdded(was, under.value), now, under.value, line);
            SpliceApart(a, b, section);
            SpliceApart(a, [line], section);
            SpliceApart(a + [line], b, section);
          } else {
            SpliceApart(was, [line], section);
          }
      }
  }

  lemma OneApart(line: Line, section: string)
    requires line.key.Some? && IsKey(line.key.value) && line.raw == Rendered(line.key.value, line.value)
    ensures HeadersApart([line], section) && !IsHeader(line, section)
  {
    RenderedIsNoHeader(line.key.value, line.value, section);
  }

  lemma AddedApart(was: Lines, under: string, section: string)
    ensures HeadersApart(SectionAdded(was, under), section)
  {
  }

  /** An edit leaves every other key of a block in it. */
  lemma EditKeepsBlock(was: Lines, now: Lines, e: Edit, section: string, l: Line)
    requires HeadersApart(was, section) && Edited(was, now, e) && Proper(e)
    requires l in Block(was, section) && !Assigns(l, e.key)
    ensures l in Block(now, section)
  {
    hide Block, Without;
    match e
    case UnsetEdit(key) => BlockWithout(was, section, key, l);
    case SetEdit(key, value, under) =>
      var line := Line(Rendered(key, value), Some(key), value);
      OneApart(line, section);
      match FirstIndex(was, key) {
        case Some(i) => UpdateKeepsBlock(was, i, line, section, key, l);
        case None =>
          if under.Some? && under.value != "" {
            BlockMore(was, SectionAdded(was, under.value), section, l);
            var a, b := InsertedWhere(was + SectionAdded(was, under.value), now, under.value, line);
            BlockInsert(a, line, b, section, l);
          } else {
            BlockMore(was, [line], section, l);
          }
      }
  }

  lemma UpdateKeepsBlock(was: Lines, i: nat, line: Line, section: string, key: string, l: Line)
    requires HeadersApart(was, section) && i < |was| && Assigns(was[i], key) && line.key.Some?
      && !IsHeader(line, section)
    requires FirstIndex(was, key) == Some(i) && l in Block(was, section) && !Assigns(l, key)
    ensures l in Block(was[..i] + [line] + Without(was[i + 1..], key), section)
  {
    hide Block, Without, FirstIndex;
    var a, old0, b := was[..i], was[i], was[i + 1..];
    assert was == a + [old0] + b;
    BlockWithout(was, section, key, l);
    UpdateSplits(a, old0, b, key);
    assert Without(was, key) == a + Without(b, key);
    BlockInsert(a, line, Without(b, key), section, l);
  }

  lemma UpdateSplits(a: Lines, first: Line, b: Lines, key: string)
    requires Assigns(first, key) && forall i | 0 <= i < |a| :: !Assigns(a[i], key)
    ensures Without(a + [first] + b, key) == a + Without(b, key)
  {
    WithoutConcat(a + [first], b, key);
    WithoutConcat(a, [first], key);
    WithoutNothing(a, key);
    assert Without([first], key) == [] by { assert [first][1..] == []; }
    assert a + [] == a;
  }

  /** A key that is set under a section and had no line goes into its block. */
  lemma {:induction false} InsertedInBlock(pre: Lines, header: Line, mid: Lines, line: Line, b: Lines, section: string)
    requires IsHeader(header, section) && forall i | 0 <= i < |pre| :: !IsHeader(pre[i], section)
    requires line.key.Some? && forall i | 0 <= i < |mid| :: mid[i].key.Some?
    ensures line in Block(pre + [header] + mid + [line] + b, section)
    decreases |pre|
  {
    var all := pre + [header] + mid + [line] + b;
    if pre == [] {
      assert all[0] == header && all[1..] == mid + [line] + b;
      KeyedReaches(mid, line, b);
    } else {
      assert all[0] == pre[0] && all[1..] == pre[1..] + [header] + mid + [line] + b;
      InsertedInBlock(pre[1..], header, mid, line, b, section);
    }
  }

  lemma {:induction false} KeyedReaches(mid: Lines, line: Line, b: Lines)
    requires line.key.Some? && forall i | 0 <= i < |mid| :: mid[i].key.Some?
    ensures line in Keyed(mid + [line] + b)
    decreases |mid|
  {
    var all := mid + [line] + b;
    if mid == [] {
      assert all[0] == line;
    } else {
      assert all[0] == mid[0] && all[1..] == mid[1..] + [line] + b;
      KeyedReaches(mid[1..], line, b);
    }
  }

  lemma NewKeyInBlock(was: Lines, now: Lines, key: string, value: string, section: string)
    requires Edited(was, now, SetEdit(key, value, Some(section))) && FirstIndex(was, key).None? && section != ""
    ensures InBlock(now, section, key)
  {
    hide Block, IsHeader, SectionAdded, Rendered;
    var line := Line(Rendered(key, value), Some(key), value);
    var grown := was + SectionAdded(was, section);
    var end: nat :| end <= |grown| && IsSectionEnd(grown, section, end) && now == InsertAt(grown, end, line);
    InsertedBelow(grown, end, line, section);
    assert line in Block(now, section) && Assigns(line, key);
  }

  lemma InsertedBelow(grown: Lines, end: nat, line: Line, section: string)
    requires IsSectionEnd(grown, section, end) && end <= |grown| && line.key.Some?
    ensures line in Block(InsertAt(grown, end, line), section)
  {
    hide Block, IsHeader;
    var start: nat :| start < end <= |grown| && IsHeader(grown[start], section)
      && (forall i | 0 <= i < start :: !IsHeader(grown[i], section))
      && (forall i | start < i < end :: grown[i].key.Some?);
    InsertedInBlock(grown[..start], grown[start], grown[start + 1..end], line, grown[end..], section);
    SplitBefore(grown, start, end);
  }

  lemma SplitBefore(grown: Lines, start: nat, end: nat)
    requires start < end <= |grown|
    ensures grown[..end] == grown[..start] + [grown[start]] + grown[start + 1..end]
  {
  }

  /** The first key of a new section: a blank line after text, the header and the assignment end the file. */
  lemma FreshSection(was: Lines, now: Lines, key: string, value: string, section: string)
    requires Edited(was, now, SetEdit(key, value, Some(section))) && FirstIndex(was, key).None?
    requires section != "" && forall i | 0 <= i < |was| :: !IsHeader(was[i], section)
    ensures was <= now
    ensures Raws(now[|was|..]) ==
            (if was != [] && Strip(was[|was| - 1].raw) != "" then [""] else [])
            + ["# ---- " + section + " ----", key + "=" + QuoteValue(value)]
  {
    hide IsHeader, Rendered, FirstIndex, Raws;
    var line, added := Line(Rendered(key, value), Some(key), value), SectionAdded(was, section);
    var grown := was + added;
    var end: nat :| end <= |grown| && IsSectionEnd(grown, section, end) && now == InsertAt(grown, end, line);
    LastIsHeader(was, section);
    EndsAtHeader(grown, section, end);
    assert now == was + (added + [line]) && now[|was|..] == added + [line];
    AddedRaws(was, line, section, key, value);
  }

  /** What is added ends in the section's one header. */
  lemma LastIsHeader(was: Lines, section: string)
    requires forall i | 0 <= i < |was| :: !IsHeader(was[i], section)
    ensures var grown := was + SectionAdded(was, section);
      grown != [] && forall i | 0 <= i < |grown| - 1 :: !IsHeader(grown[i], section)
  {
    BlankIsNoHeader(section);
    hide IsHeader;
    var grown := was + SectionAdded(was, section);
    assert forall i | 0 <= i < |was| :: grown[i] == was[i];
  }

  lemma EndsAtHeader(grown: Lines, section: string, end: nat)
    requires IsSectionEnd(grown, section, end) && grown != []
    requires forall i | 0 <= i < |grown| - 1 :: !IsHeader(grown[i], section)
    ensures end == |grown|
  {
  }

  lemma AddedRaws(was: Lines, line: Line, section: string, key: string, value: string)
    requires line.raw == Rendered(key, value) && forall i | 0 <= i < |was| :: !IsHeader(was[i], section)
    ensures Raws(SectionAdded(was, section) + [line]) ==
            (if was != [] && Strip(was[|was| - 1].raw) != "" then [""] else [])
            + ["# ---- " + section + " ----", key + "=" + QuoteValue(value)]
  {
    hide IsHeader, QuoteValue, Strip;
    var raws := Raws(SectionAdded(was, section) + [line]);
    assert |raws| == |SectionAdded(was, section)| + 1;
  }

  lemma BlankIsNoHeader(section: string)
    ensures !IsHeader(BLANK, section)
  {
    assert Strip("") == "" && Header(section)[0] == '#';
  }

  // ---- whole sessions ----

  /** From the edit that first sets a key under a section, and as long as it is not removed, it stands in that block. */
  lemma {:induction false} SessionKeepsBlock(history: seq<Lines>, edits: seq<Edit>, i: nat, section: string,
                                             key: string)
    requires Session(history, edits) && HeadersApart(history[0], section) && forall e | e in edits :: Proper(e)
    requires i < |edits| && edits[i].SetEdit? && edits[i].key == key && edits[i].section == Some(section)
      && section != ""
    requires FirstIndex(history[i], key).None?
    requires forall j | i < j < |edits| :: edits[j].key != key
    ensures InBlock(history[|edits|], section, key) && HeadersApart(history[|edits|], section)
    decreases |edits|
  {
    hide Block, FirstIndex, HeadersApart, Edited;
    var n := |edits| - 1;
    SessionShorter(history, edits);
    SessionApart(history, edits, n, section);
    SessionApart(history, edits, n + 1, section);
    assert Edited(history[n], history[n + 1], edits[n]) && edits[n] in edits;
    if i == n {
      NewKeyInBlock(history[n], history[n + 1], key, edits[n].value, section);
    } else {
      assert edits[..n][i] == edits[i] && history[..n + 1][i] == history[i] && history[..n + 1][n] == history[n];
      assert forall j | i < j < n :: edits[..n][j] == edits[j];
      SessionKeepsBlock(history[..n + 1], edits[..n], i, section, key);
      var l :| l in Block(history[n], section) && Assigns(l, key);
      EditKeepsBlock(history[n], history[n + 1], edits[n], section, l);
    }
  }

  lemma SessionShorter(history: seq<Lines>, edits: seq<Edit>)
    requires Session(history, edits) && edits != []
    ensures var n := |edits| - 1; Session(history[..n + 1], edits[..n]) && forall e | e in edits[..n] :: e in edits
  {
    hide Edited;
    var n := |edits| - 1;
    forall i | 0 <= i < n ensures Edited(history[..n + 1][i], history[..n + 1][i + 1], edits[..n][i]) {
      assert Edited(history[i], history[i + 1], edits[i]);
    }
  }

  lemma {:induction false} SessionApart(history: seq<Lines>, edits: seq<Edit>, n: nat, section: string)
    requires Session(history, edits) && HeadersApart(history[0], section) && forall e | e in edits :: Proper(e)
    requires n <= |edits|
    ensures HeadersApart(history[n], section)
    decreases n
  {
    hide HeadersApart, Edited;
    if n > 0 {
      SessionApart(history, edits, n - 1, section);
      assert Edited(history[n - 1], history[n], edits[n - 1]) && edits[n - 1] in edits;
      EditApart(history[n - 1], history[n], edits[n - 1], section);
    }
  }

  // ---- on disk ----

  lemma CleanApart(lines: Lines, section: string)
    requires Clean(lines)
    ensures HeadersApart(lines, section)
  {
    forall i | 0 <= i < |lines| && IsHeader(lines[i], section) ensures lines[i].key.None? {
      HeaderAssignsNothing(lines[i].raw, section);
    }
  }

  lemma HeaderAssignsNothing(raw: string, section: string)
    requires Strip(raw) == Header(section)
    ensures ParseLine(raw).key.None?
  {
    FirstOfStrip(raw);
    assert Header(section)[0] == '#';
  }

  lemma {:induction false} FirstOfStrip(raw: string)
    requires Strip(raw) != ""
    ensures LStrip(raw) != "" && LStrip(raw)[0] == Strip(raw)[0]
  {
    LStripStarts(raw);
    if LStrip(raw) != "" { FirstStays(LStrip(raw)); }
  }

  lemma {:induction false} LStripStarts(s: string)
    ensures LStrip(s) == "" || !IsSpace(LStrip(s)[0])
    decreases |s|
  {
    if s != "" && IsSpace(s[0]) { LStripStarts(s[1..]); }
  }

  lemma {:induction false} KeyedBeforeBlanks(lines: Lines, blanks: Lines)
    requires forall i | 0 <= i < |blanks| :: blanks[i].key.None?
    ensures Keyed(lines + blanks) == Keyed(lines)
    decreases |lines|
  {
    if lines == [] {
      assert lines + blanks == blanks;
    } else {
      assert (lines + blanks)[1..] == lines[1..] + blanks;
      KeyedBeforeBlanks(lines[1..], blanks);
    }
  }

  lemma {:induction false} BlockBeforeBlanks(lines: Lines, blanks: Lines, section: string)
    requires forall i | 0 <= i < |blanks| :: blanks[i].key.None? && !IsHeader(blanks[i], section)
    ensures Block(lines + blanks, section) == Block(lines, section)
    decreases |lines|
  {
    if lines == [] {
      assert lines + blanks == blanks;
      NoBlockInBlanks(blanks, section);
    } else {
      assert (lines + blanks)[1..] == lines[1..] + blanks;
      KeyedBeforeBlanks(lines[1..], blanks);
      BlockBeforeBlanks(lines[1..], blanks, section);
    }
  }

  lemma {:induction false} NoBlockInBlanks(blanks: Lines, section: string)
    requires forall i | 0 <= i < |blanks| :: !IsHeader(blanks[i], section)
    ensures Block(blanks, section) == []
    decreases |blanks|
  {
    if blanks != [] { NoBlockInBlanks(blanks[1..], section); }
  }

  /** Saving and reloading leaves every block as it is. */
  lemma SavedBlock(lines: Lines, section: string)
    requires Clean(lines)
    ensures Block(FromText(Render(lines)), section) == Block(lines, section)
  {
    RenderParses(lines);
    var blanks := TrimmedDropsBlanks(lines);
    assert Strip("") == "" && ParseLine("").key.None?;
    BlockBeforeBlanks(Trimmed(lines), blanks, section);
  }
}
