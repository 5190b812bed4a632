/**
 The comment-preserving dotenv editor. `Editor` is the source's object, editing its list of
 lines in place; the functions on line lists say what each edit does, and the lemmas show
 that editing, rendering and re-parsing refines a plain map.
 */
module EnvFile {
  import opened Wrappers
  import opened PyText
  import opened EnvText

  type Lines = seq<Line>

  function FromText(text: string): Lines {
    ParseLines(SplitLines(text))
  }

  function ParseLines(raws: seq<string>): (lines: Lines)
    ensures |lines| == |raws| && forall i | 0 <= i < |raws| :: lines[i] == ParseLine(raws[i])
  {
    if raws == [] then [] else [ParseLine(raws[0])] + ParseLines(raws[1..])
  }

  function Raws(lines: Lines): (raws: seq<string>)
    ensures |raws| == |lines| && forall i | 0 <= i < |lines| :: raws[i] == lines[i].raw
  {
    if lines == [] then [] else [lines[0].raw] + Raws(lines[1..])
  }

  /** Exactly one trailing newline, or nothing at all. */
  function Render(lines: Lines): string {
    var body := RStripNewlines(JoinLines(Raws(lines)));
    if body == "" then "" else body + "\n"
  }

  /** The map a list of lines denotes: the last assignment of a key wins. */
  function AsMap(lines: Lines): map<string, string> {
    if lines == [] then map[]
    else
      var init, last := lines[..|lines| - 1], lines[|lines| - 1];
      if last.key.Some? then AsMap(init)[last.key.value := last.value] else AsMap(init)
  }

  predicate Assigns(line: Line, key: string) {
    line.key == Some(key)
  }

  /** The lines that do not assign `key`, in order. */
  function Without(lines: Lines, key: string): Lines {
    if lines == [] then []
    else if Assigns(lines[0], key) then Without(lines[1..], key)
    else [lines[0]] + Without(lines[1..], key)
  }

  function FirstIndex(lines: Lines, key: string): (r: Option<nat>)
    ensures r.Some? ==> r.value < |lines| && Assigns(lines[r.value], key)
                        && forall i | 0 <= i < r.value :: !Assigns(lines[i], key)
    ensures r.None? ==> forall i | 0 <= i < |lines| :: !Assigns(lines[i], key)
  {
    if lines == [] then None
    else if Assigns(lines[0], key) then Some(0)
    else match FirstIndex(lines[1..], key)
      case None => None
      case Some(i) => Some(i + 1)
  }

  function Header(section: string): string {
    "# ---- " + section + " ----"
  }

  predicate IsHeader(line: Line, section: string) {
    Strip(line.raw) == Header(section)
  }

  predicate HasSection(lines: Lines, section: string) {
    exists i | 0 <= i < |lines| :: IsHeader(lines[i], section)
  }

  const BLANK: Line := Line("", None, "")

  /** What `_ensure_section` appends: nothing, the header, or a blank line and the header. */
  function SectionAdded(lines: Lines, section: string): Lines {
    if HasSection(lines, section) then []
    else (if lines != [] && Strip(lines[|lines| - 1].raw) != "" then [BLANK] else [])
         + [Line(Header(section), None, "")]
  }

  /** Just past the block of assignments under the section's first header. */
  predicate IsSectionEnd(lines: Lines, section: string, end: nat) {
    exists start: nat ::
      && start < end <= |lines| && IsHeader(lines[start], section)
      && (forall i | 0 <= i < start :: !IsHeader(lines[i], section))
      && (forall i | start < i < end :: lines[i].key.Some?)
      && (end < |lines| ==> lines[end].key.None?)
  }

  function InsertAt(lines: Lines, i: nat, line: Line): Lines
    requires i <= |lines|
  {
    lines[..i] + [line] + lines[i..]
  }

  /** The lines after `set(key, value, section=section)`. */
  ghost predicate IsSet(was: Lines, now: Lines, key: string, value: string, section: Option<string>) {
    var line := Line(Rendered(key, value), Some(key), value);
    match FirstIndex(was, key)
    case Some(i) => now == was[..i] + [line] + Without(was[i + 1..], key)
    case None =>
      if section.Some? && section.value != "" then
        IsInsertedUnder(was + SectionAdded(was, section.value), now, section.value, line)
      else now == was + [line]
  }

  ghost predicate IsInsertedUnder(grown: Lines, now: Lines, section: string, line: Line) {
    exists end: nat :: end <= |grown| && IsSectionEnd(grown, section, end) && now == InsertAt(grown, end, line)
  }

  lemma InsertedWhere(grown: Lines, now: Lines, section: string, line: Line) returns (a: Lines, b: Lines)
    requires IsInsertedUnder(grown, now, section, line)
    ensures grown == a + b && now == a + [line] + b
  {
    var end: nat :| end <= |grown| && IsSectionEnd(grown, section, end) && now == InsertAt(grown, end, line);
    assert grown == grown[..end] + grown[end..];
    a := grown[..end];
    b := grown[end..];
  }

  class Editor {
    var lines: Lines

    constructor FromString(text: string)
      ensures lines == FromText(text) && Raws(lines) == SplitLines(text) && Clean(lines)
    {
      lines := FromText(text);
      new;
      ParsedIsClean(text);
    }

    /** The value of `key`, scanning every line so that the last assignment wins. */
    method Get(key: string, default: string) returns (value: string)
      ensures value == if key in AsMap(lines) then AsMap(lines)[key] else default
    {
      value := default;
      var i := 0;
      while i < |lines|
        invariant 0 <= i <= |lines|
        invariant value == if key in AsMap(lines[..i]) then AsMap(lines[..i])[key] else default
      {
        assert lines[..i + 1][..i] == lines[..i] && lines[..i + 1][i] == lines[i];
        if Assigns(lines[i], key) {
          value := lines[i].value;
        }
        i := i + 1;
      }
      assert lines[..i] == lines;
    }

    /** The assigned keys, each once, in order of first appearance. */
    method Keys() returns (seen: seq<string>)
      ensures forall k :: k in seen <==> k in AsMap(lines)
      ensures forall a, b | 0 <= a < b < |seen| :: FirstAppearsBefore(lines, seen[a], seen[b])
    {
      seen := [];
      var i := 0;
      while i < |lines|
        invariant 0 <= i <= |lines|
        invariant IsKeyList(lines, i, seen)
      {
        var line := lines[i];
        ghost var before := seen;
        if line.key.Some? && line.key.value !in seen {
          seen := seen + [line.key.value];
        }
        KeyListGrows(lines, i, before, seen);
        i := i + 1;
      }
      KeyListIsDomain(lines, seen);
    }

    /** Updates the first assignment in place and drops later ones, or appends, under a section if one is named. */
    method Set(key: string, value: string, section: Option<string>)
      modifies this
      ensures IsSet(old(lines), lines, key, value, section)
    {
      var line := Line(Rendered(key, value), Some(key), value);
      var first := FirstIndex(lines, key);
      if first.Some? {
        var i := first.value;
        lines := lines[i := line];
        lines := lines[..i + 1] + Without(lines[i + 1..], key);
        assert lines == old(lines)[..i] + [line] + Without(old(lines)[i + 1..], key);
        return;
      }
      if section.Some? && section.value != "" {
        EnsureSection(section.value);
        var at := SectionEnd(section.value);
        lines := InsertAt(lines, at, line);
        return;
      }
      lines := lines + [line];
    }

    method EnsureSection(section: string)
      modifies this
      ensures lines == old(lines) + SectionAdded(old(lines), section)
      ensures HasSection(lines, section)
    {
      HeaderIsStripped(section);
      if HasSection(lines, section) {
        return;
      }
      if lines != [] && Strip(lines[|lines| - 1].raw) != "" {
        lines := lines + [BLANK];
      }
      lines := lines + [Line(Header(section), None, "")];
      assert IsHeader(lines[|lines| - 1], section);
    }

    method SectionEnd(section: string) returns (end: nat)
      requires HasSection(lines, section)
      ensures IsSectionEnd(lines, section, end)
    {
      var start := 0;
      while !IsHeader(lines[start], section)
        invariant start < |lines|
        invariant forall i | 0 <= i < start :: !IsHeader(lines[i], section)
        invariant exists i | start <= i < |lines| :: IsHeader(lines[i], section)
        decreases |lines| - start
      {
        start := start + 1;
      }
      end := start + 1;
      while end < |lines| && lines[end].key.Some?
        invariant start < end <= |lines|
        invariant forall i | start < i < end :: lines[i].key.Some?
      {
        end := end + 1;
      }
    }

    method Unset(key: string)
      modifies this
      ensures lines == Without(old(lines), key)
      ensures AsMap(lines) == AsMap(old(lines)) - {key} && FirstIndex(lines, key).None?
    {
      WithoutRefinesRemoval(lines, key);
      NoneLeft(lines, key);
      lines := Without(lines, key);
    }

    /** Sets every pair in order, under the section if one is named; `history` is the lines on the way. */
    method SetMany(values: seq<(string, string)>, section: Option<string>) returns (ghost history: seq<Lines>)
      modifies this
      ensures Session(history, SetEdits(values, section)) && |history| == |values| + 1
      ensures history[0] == old(lines) && history[|values|] == lines
      ensures AsMap(lines) == Overlaid(AsMap(old(lines)), values)
      ensures (forall p | p in values :: IsKey(p.0) && NoBoundary(p.1)) && SectionIsPlain(section) ==>
                Clean(old(lines)) ==> Clean(lines)
    {
      hide AsMap, IsSet, Clean, IsKey, NoBoundary, SectionIsPlain;
      var i := 0;
      history := [lines];
      while i < |values|
        invariant 0 <= i <= |values|
        invariant Session(history, SetEdits(values[..i], section)) && history[0] == old(lines) && history[i] == lines
        invariant AsMap(lines) == Overlaid(AsMap(old(lines)), values[..i])
        invariant (forall p | p in values :: IsKey(p.0) && NoBoundary(p.1)) && SectionIsPlain(section) ==>
                    Clean(old(lines)) ==> Clean(lines)
      {
        var (key, value) := values[i];
        assert values[..i + 1][..i] == values[..i];
        ghost var before := lines;
        Set(key, value, section);
        SessionGrows(history, SetEdits(values[..i], section), lines, SetEdit(key, value, section));
        assert SetEdits(values[..i + 1], section) == SetEdits(values[..i], section) + [SetEdit(key, value, section)];
        history := history + [lines];
        SetRefinesUpdate(before, lines, key, value, section);
        if IsKey(key) && NoBoundary(value) && SectionIsPlain(section) && Clean(before) {
          SetKeepsClean(before, lines, key, value, section);
        }
        i := i + 1;
      }
      assert values[..i] == values;
    }
  }

  function Overlaid(m: map<string, string>, values: seq<(string, string)>): map<string, string> {
    if values == [] then m
    else
      var last := values[|values| - 1];
      Overlaid(m, values[..|values| - 1])[last.0 := last.1]
  }

  predicate SectionIsPlain(section: Option<string>) {
    section.Some? ==> NoBoundary(section.value)
  }

  predicate FirstAppearsBefore(lines: Lines, a: string, b: string) {
    var i, j := FirstIndex(lines, a), FirstIndex(lines, b);
    i.Some? && j.Some? && i.value < j.value
  }

  /** Every listed key first appears before line `i`. */
  ghost predicate SeenBefore(lines: Lines, i: nat, seen: seq<string>) {
    forall a | 0 <= a < |seen| :: FirstIndex(lines, seen[a]).Some? && FirstIndex(lines, seen[a]).value < i
  }

  /** Every key assigned before line `i` is listed. */
  ghost predicate CoversUpTo(lines: Lines, i: nat, seen: seq<string>) {
    forall j | 0 <= j < i && j < |lines| && lines[j].key.Some? :: lines[j].key.value in seen
  }

  ghost predicate InFirstOrder(lines: Lines, seen: seq<string>) {
    forall a, b | 0 <= a < b < |seen| :: FirstAppearsBefore(lines, seen[a], seen[b])
  }

  /** The keys assigned in the first `i` lines, by first appearance. */
  ghost predicate IsKeyList(lines: Lines, i: nat, seen: seq<string>) {
    SeenBefore(lines, i, seen) && CoversUpTo(lines, i, seen) && InFirstOrder(lines, seen)
  }

  lemma KeyListGrows(lines: Lines, i: nat, before: seq<string>, seen: seq<string>)
    requires i < |lines| && IsKeyList(lines, i, before)
    requires seen
      == if lines[i].key.Some? && lines[i].key.value !in before then before + [lines[i].key.value] else before
    ensures IsKeyList(lines, i + 1, seen)
  {
    if lines[i].key.Some? && lines[i].key.value !in before {
      var key := lines[i].key.value;
      assert forall j | 0 <= j < i :: lines[..i][j] == lines[j] && !Assigns(lines[j], key);
      FirstOccurrence(lines, i, key);
      NewKeyOrder(lines, i, before, key);
      NewKeyCover(lines, i, before, key);
    }
  }

  lemma NewKeyOrder(lines: Lines, i: nat, before: seq<string>, key: string)
    requires SeenBefore(lines, i, before) && InFirstOrder(lines, before) && FirstIndex(lines, key) == Some(i)
    ensures SeenBefore(lines, i + 1, before + [key]) && InFirstOrder(lines, before + [key])
  {
  }

  lemma NewKeyCover(lines: Lines, i: nat, before: seq<string>, key: string)
    requires i < |lines| && CoversUpTo(lines, i, before) && lines[i].key == Some(key)
    ensures CoversUpTo(lines, i + 1, before + [key])
  {
    forall j | 0 <= j < i + 1 && lines[j].key.Some? ensures lines[j].key.value in before + [key] {
      if j < i {
        assert lines[j].key.value in before;
      } else {
        assert (before + [key])[|before|] == key;
      }
    }
  }

  lemma KeyListIsDomain(lines: Lines, seen: seq<string>)
    requires IsKeyList(lines, |lines|, seen)
    ensures forall k :: k in seen <==> k in AsMap(lines)
  {
    forall k ensures k in seen <==> k in AsMap(lines) {
      AbsentKey(lines, k);
      if FirstIndex(lines, k).Some? {
        assert lines[FirstIndex(lines, k).value].key.value in seen;
      }
    }
  }

  // ---- what the edits mean ----

  lemma {:induction false} AbsentKey(lines: Lines, key: string)
    ensures key in AsMap(lines) <==> FirstIndex(lines, key).Some?
    decreases |lines|
  {
    if lines != [] {
      var init, last := lines[..|lines| - 1], lines[|lines| - 1];
      AbsentKey(init, key);
      assert forall i | 0 <= i < |init| :: init[i] == lines[i];
      if FirstIndex(lines, key).Some? && !Assigns(last, key) {
        assert Assigns(init[FirstIndex(lines, key).value], key);
      }
    }
  }

  lemma FirstOccurrence(lines: Lines, i: nat, key: string)
    requires i < |lines| && Assigns(lines[i], key) && FirstIndex(lines[..i], key).None?
    ensures FirstIndex(lines, key) == Some(i)
  {
    assert forall k | 0 <= k < i :: lines[..i][k] == lines[k];
  }

  lemma {:induction false} AsMapConcat(a: Lines, b: Lines)
    ensures AsMap(a + b) == AsMap(a) + AsMap(b)
    decreases |b|
  {
    if b == [] {
      assert a + b == a;
    } else {
      assert (a + b)[..|a + b| - 1] == a + b[..|b| - 1];
      AsMapConcat(a, b[..|b| - 1]);
    }
  }

  lemma AsMapOne(line: Line)
    ensures AsMap([line]) == if line.key.Some? then map[line.key.value := line.value] else map[]
  {
    assert [line][..0] == [];
  }

  lemma {:induction false} WithoutRefinesRemoval(lines: Lines, key: string)
    ensures AsMap(Without(lines, key)) == AsMap(lines) - {key}
    decreases |lines|
  {
    if lines != [] {
      assert lines == [lines[0]] + lines[1..];
      AsMapConcat([lines[0]], lines[1..]);
      AsMapOne(lines[0]);
      WithoutRefinesRemoval(lines[1..], key);
      AsMapConcat([lines[0]], Without(lines[1..], key));
    }
  }

  lemma {:induction false} WithoutNothing(lines: Lines, key: string)
    requires FirstIndex(lines, key).None?
    ensures Without(lines, key) == lines
    decreases |lines|
  {
    if lines != [] {
      assert forall i | 0 <= i < |lines| - 1 :: lines[1..][i] == lines[i + 1];
      WithoutNothing(lines[1..], key);
    }
  }

  lemma {:induction false} WithoutConcat(a: Lines, b: Lines, key: string)
    ensures Without(a + b, key) == Without(a, key) + Without(b, key)
    decreases |a|
  {
    if a == [] {
      assert a + b == b;
    } else {
      assert (a + b)[1..] == a[1..] + b;
      WithoutConcat(a[1..], b, key);
    }
  }

  /** One line put between two blocks; later assignments of its key, if any, are in the second block. */
  lemma SpliceMap(a: Lines, line: Line, b: Lines)
    ensures AsMap(a + [line] + b) == AsMap(a) + AsMap([line]) + AsMap(b)
  {
    AsMapConcat(a + [line], b);
    AsMapConcat(a, [line]);
  }

  lemma ReplaceIsUpdate(head: Lines, earlier: Line, tail: Lines, line: Line, key: string)
    requires Assigns(earlier, key) && Assigns(line, key)
    ensures AsMap(head + [line] + Without(tail, key)) == AsMap(head + [earlier] + tail)[key := line.value]
  {
    SpliceMap(head, line, Without(tail, key));
    SpliceMap(head, earlier, tail);
    AsMapOne(line);
    AsMapOne(earlier);
    WithoutRefinesRemoval(tail, key);
  }

  lemma InsertIsUpdate(a: Lines, b: Lines, line: Line, key: string)
    requires Assigns(line, key) && key !in AsMap(a + b)
    ensures AsMap(a + [line] + b) == AsMap(a + b)[key := line.value]
  {
    SpliceMap(a, line, b);
    AsMapOne(line);
    AsMapConcat(a, b);
  }

  /** `set` is a map update, wherever the line goes. */
  lemma SetRefinesUpdate(was: Lines, now: Lines, key: string, value: string, section: Option<string>)
    requires IsSet(was, now, key, value, section)
    ensures AsMap(now) == AsMap(was)[key := value]
  {
    var line := Line(Rendered(key, value), Some(key), value);
    match FirstIndex(was, key)
    case Some(i) =>
      assert was == was[..i] + [was[i]] + was[i + 1..];
      ReplaceIsUpdate(was[..i], was[i], was[i + 1..], line, key);
    case None =>
      AbsentKey(was, key);
      if section.Some? && section.value != "" {
        var a, b := InsertedWhere(was + SectionAdded(was, section.value), now, section.value, line);
        SectionAddsNoKey(was, section.value);
        InsertIsUpdate(a, b, line, key);
      } else {
        assert was + [] == was && was + [line] + [] == now;
        InsertIsUpdate(was, [], line, key);
      }
  }

  lemma SectionAddsNoKey(lines: Lines, section: string)
    ensures AsMap(lines + SectionAdded(lines, section)) == AsMap(lines)
    ensures forall i | 0 <= i < |SectionAdded(lines, section)| :: SectionAdded(lines, section)[i].key.None?
  {
    hide AsMap, HasSection, Header, Strip;
    var added := SectionAdded(lines, section);
    var header := Line(Header(section), None, "");
    AsMapConcat(lines, added);
    AsMapOne(BLANK);
    AsMapOne(header);
    if added == [] {
      assert lines + added == lines;
    } else if |added| == 2 {
      assert added == [BLANK] + [header];
      AsMapConcat([BLANK], [header]);
      assert AsMap(lines) + AsMap(added) == AsMap(lines);
    } else {
      assert added == [header] && AsMap(lines) + AsMap(added) == AsMap(lines);
    }
  }

  lemma SpliceWithout(a: Lines, line: Line, b: Lines, key: string)
    requires Assigns(line, key)
    ensures Without(a + [line] + b, key) == Without(a + b, key) == Without(a, key) + Without(b, key)
  {
    WithoutConcat(a + [line], b, key);
    WithoutConcat(a, [line], key);
    WithoutConcat(a, b, key);
  }

  /**
   Every line that does not assign the key survives verbatim and in order; only section lines may be added,
   at the end.
   */
  lemma SetKeepsOtherLines(was: Lines, now: Lines, key: string, value: string, section: Option<string>)
    requires IsSet(was, now, key, value, section)
    ensures Without(now, key) == Without(was, key)
            || (section.Some? && Without(now, key) == Without(was, key) + SectionAdded(was, section.value))
    ensures FirstIndex(was, key).Some? ==>
      FirstIndex(now, key) == FirstIndex(was, key) && Without(now, key) == Without(was, key)
  {
    var line := Line(Rendered(key, value), Some(key), value);
    match FirstIndex(was, key)
    case Some(i) => UpdateKeepsOtherLines(was, now, i, line, key);
    case None =>
      WithoutNothing(was, key);
      if section.Some? && section.value != "" {
        var a, b := InsertedWhere(was + SectionAdded(was, section.value), now, section.value, line);
        SectionAddsNoKey(was, section.value);
        InsertKeepsOtherLines(was, SectionAdded(was, section.value), a, b, line, key);
      } else {
        WithoutConcat(was, [line], key);
      }
  }

  lemma InsertKeepsOtherLines(was: Lines, added: Lines, a: Lines, b: Lines, line: Line, key: string)
    requires a + b == was + added && Assigns(line, key)
    requires forall i | 0 <= i < |added| :: added[i].key.None?
    ensures Without(a + [line] + b, key) == Without(was, key) + added
  {
    WithoutNothing(added, key);
    WithoutConcat(was, added, key);
    SpliceWithout(a, line, b, key);
  }

  lemma UpdateKeepsOtherLines(was: Lines, now: Lines, i: nat, line: Line, key: string)
    requires FirstIndex(was, key) == Some(i) && Assigns(line, key)
    requires now == was[..i] + [line] + Without(was[i + 1..], key)
    ensures Without(now, key) == Without(was, key) && FirstIndex(now, key) == Some(i)
  {
    var head, tail := was[..i], was[i + 1..];
    assert was == head + [was[i]] + tail;
    SpliceWithout(head, was[i], tail, key);
    SpliceWithout(head, line, Without(tail, key), key);
    WithoutTwice(tail, key);
    assert now[..i] == head && now[i] == line;
    assert forall k | 0 <= k < i :: head[k] == was[k];
    FirstOccurrence(now, i, key);
  }

  lemma {:induction false} NoneLeft(lines: Lines, key: string)
    ensures FirstIndex(Without(lines, key), key).None?
    decreases |lines|
  {
    if lines != [] {
      NoneLeft(lines[1..], key);
      if !Assigns(lines[0], key) {
        assert Without(lines, key)[1..] == Without(lines[1..], key);
      }
    }
  }

  lemma {:induction false} WithoutTwice(lines: Lines, key: string)
    ensures Without(Without(lines, key), key) == Without(lines, key)
    decreases |lines|
  {
    if lines != [] { WithoutTwice(lines[1..], key); }
  }

  // ---- rendering and re-parsing ----

  /** Every line is what parsing its own text gives, and its text is one line. */
  ghost predicate Clean(lines: Lines) {
    forall i | 0 <= i < |lines| :: NoBoundary(lines[i].raw) && lines[i] == ParseLine(lines[i].raw)
  }

  lemma ParsedIsClean(text: string)
    ensures Clean(FromText(text))
  {
    SplitIsBoundaryFree(text);
  }

  lemma HeaderIsStripped(section: string)
    ensures Strip(Header(section)) == Header(section)
  {
    var h := Header(section);
    assert h[0] == '#' && h[|h| - 1] == '-';
    StripKeeps(h);
  }

  lemma HeaderIsNoAssignment(section: string)
    ensures ParseLine(Header(section)) == Line(Header(section), None, "")
  {
    var h := Header(section);
    assert h[0] == '#';
    assert LStrip(h) == h;
    assert |h| > 6 ==> h[..6][0] == '#' && EXPORT[0] == 'e';
  }

  lemma CleanConcat(a: Lines, b: Lines)
    requires Clean(a) && Clean(b)
    ensures Clean(a + b)
  {
  }

  lemma {:induction false} WithoutKeepsClean(lines: Lines, key: string)
    requires Clean(lines)
    ensures Clean(Without(lines, key))
    decreases |lines|
  {
    if lines != [] {
      assert Clean(lines[1..]) by { assert forall i | 0 <= i < |lines| - 1 :: lines[1..][i] == lines[i + 1]; }
      WithoutKeepsClean(lines[1..], key);
      assert Clean([lines[0]]);
      CleanConcat([lines[0]], Without(lines[1..], key));
    }
  }

  lemma SectionAddedIsClean(lines: Lines, section: string)
    requires NoBoundary(section)
    ensures Clean(SectionAdded(lines, section))
  {
    HeaderIsNoAssignment(section);
    assert ParseLine("") == BLANK;
    assert NoBoundary(Header(section));
  }

  lemma SpliceIsClean(a: Lines, line: Line, b: Lines)
    requires Clean(a) && Clean(b) && Clean([line])
    ensures Clean(a + [line] + b)
  {
    CleanConcat(a, [line]);
    CleanConcat(a + [line], b);
  }

  lemma SliceIsClean(lines: Lines, i: nat)
    requires Clean(lines) && i <= |lines|
    ensures Clean(lines[..i]) && Clean(lines[i..])
  {
    assert forall k | 0 <= k < i :: lines[..i][k] == lines[k];
    assert forall k | 0 <= k < |lines| - i :: lines[i..][k] == lines[i + k];
  }

  lemma RenderedLineIsClean(key: string, value: string)
    requires IsKey(key) && NoBoundary(value)
    ensures Clean([Line(Rendered(key, value), Some(key), value)])
  {
    RenderedLineReadsBack(key, value);
    RenderedIsBoundaryFree(key, value);
  }

  lemma SetKeepsClean(was: Lines, now: Lines, key: string, value: string, section: Option<string>)
    requires IsSet(was, now, key, value, section)
    requires Clean(was) && IsKey(key) && NoBoundary(value) && SectionIsPlain(section)
    ensures Clean(now)
  {
    hide Clean, Without, Rendered, SectionAdded, IsInsertedUnder, IsKey, NoBoundary;
    var line := Line(Rendered(key, value), Some(key), value);
    RenderedLineIsClean(key, value);
    match FirstIndex(was, key)
    case Some(i) =>
      SliceIsClean(was, i);
      SliceIsClean(was, i + 1);
      WithoutKeepsClean(was[i + 1..], key);
      SpliceIsClean(was[..i], line, Without(was[i + 1..], key));
    case None =>
      if section.Some? && section.value != "" {
        SectionAddedIsClean(was, section.value);
        CleanConcat(was, SectionAdded(was, section.value));
        var a, b := InsertedWhere(was + SectionAdded(was, section.value), now, section.value, line);
        SliceIsClean(a + b, |a|);
        assert (a + b)[..|a|] == a && (a + b)[|a|..] == b;
        SpliceIsClean(a, line, b);
      } else {
        CleanConcat(was, [line]);
      }
  }

  /** Trailing empty lines are what rendering gives up. */
  function Trimmed(lines: Lines): Lines {
    if lines != [] && lines[|lines| - 1].raw == "" then Trimmed(lines[..|lines| - 1]) else lines
  }

  lemma {:induction false} RawsSnoc(lines: Lines)
    requires lines != []
    ensures Raws(lines) == Raws(lines[..|lines| - 1]) + [lines[|lines| - 1].raw]
  {
    hide Raws;
    var all, init := Raws(lines), Raws(lines[..|lines| - 1]);
    assert |all| == |init| + 1 && all[|init|] == lines[|lines| - 1].raw;
    assert forall i | 0 <= i < |init| :: all[i] == init[i];
  }

  lemma {:induction false} TrimmedRaws(lines: Lines)
    ensures Raws(Trimmed(lines)) == DropTrailingEmpty(Raws(lines)) && Trimmed(lines) <= lines
    decreases |lines|
  {
    if lines != [] {
      RawsSnoc(lines);
      assert Raws(lines)[..|lines| - 1] == Raws(lines[..|lines| - 1]);
      if lines[|lines| - 1].raw == "" { TrimmedRaws(lines[..|lines| - 1]); }
    }
  }

  lemma {:induction false} TrimmedMap(lines: Lines)
    requires Clean(lines)
    ensures AsMap(Trimmed(lines)) == AsMap(lines)
    decreases |lines|
  {
    if lines != [] && lines[|lines| - 1].raw == "" {
      assert ParseLine("") == BLANK;
      assert Clean(lines[..|lines| - 1]);
      TrimmedMap(lines[..|lines| - 1]);
    }
  }

  lemma ParsesTo(raws: seq<string>, lines: Lines)
    requires |raws| == |lines| && forall i | 0 <= i < |raws| :: lines[i] == ParseLine(raws[i])
    ensures ParseLines(raws) == lines
  {
  }

  lemma SplitOfRender(lines: Lines)
    requires forall i | 0 <= i < |lines| :: NoBoundary(lines[i].raw)
    ensures SplitLines(Render(lines)) == DropTrailingEmpty(Raws(lines))
  {
    var raws := Raws(lines);
    var kept := DropTrailingEmpty(raws);
    StripIsDrop(raws);
    LastNotEmpty(raws);
    if kept != [] {
      SplitOfJoin(kept);
    }
  }

  /** Re-parsing a rendering gives back every line but the trailing empty ones. */
  lemma RenderParses(lines: Lines)
    requires Clean(lines)
    ensures FromText(Render(lines)) == Trimmed(lines)
  {
    SplitOfRender(lines);
    TrimmedRaws(lines);
    assert forall i | 0 <= i < |Trimmed(lines)| :: Trimmed(lines)[i] == lines[i];
    ParsesTo(DropTrailingEmpty(Raws(lines)), Trimmed(lines));
  }

  lemma {:induction false} TrimmedTwice(lines: Lines)
    ensures Trimmed(Trimmed(lines)) == Trimmed(lines)
    decreases |lines|
  {
    if lines != [] && lines[|lines| - 1].raw == "" { TrimmedTwice(lines[..|lines| - 1]); }
  }

  lemma TrimmedRenders(lines: Lines)
    requires Clean(lines)
    ensures Render(Trimmed(lines)) == Render(lines) && Clean(Trimmed(lines))
  {
    TrimmedRaws(lines);
    TrimmedRaws(Trimmed(lines));
    TrimmedTwice(lines);
    StripIsDrop(Raws(lines));
    assert forall i | 0 <= i < |Trimmed(lines)| :: Trimmed(lines)[i] == lines[i];
    StripIsDrop(Raws(Trimmed(lines)));
  }

  /** Rendering is a fixed point after one round, for every text whatsoever. */
  lemma RenderIsFixedPoint(text: string)
    ensures var once := Render(FromText(text)); Render(FromText(once)) == once
  {
    ParsedIsClean(text);
    RenderParses(FromText(text));
    TrimmedRenders(FromText(text));
  }

  // ---- whole edit sessions ----

  datatype Edit = SetEdit(key: string, value: string, section: Option<string>) | UnsetEdit(key: string)

  ghost predicate Edited(was: Lines, now: Lines, e: Edit) {
    match e
    case SetEdit(key, value, section) => IsSet(was, now, key, value, section)
    case UnsetEdit(key) => now == Without(was, key)
  }

  /** `history` is the editor's lines before, between and after the edits. */
  ghost predicate Session(history: seq<Lines>, edits: seq<Edit>) {
    |history| == |edits| + 1 && forall i | 0 <= i < |edits| :: Edited(history[i], history[i + 1], edits[i])
  }

  lemma SessionGrows(history: seq<Lines>, edits: seq<Edit>, now: Lines, e: Edit)
    requires Session(history, edits) && Edited(history[|edits|], now, e)
    ensures Session(history + [now], edits + [e])
  {
    hide Edited;
    var h, es := history + [now], edits + [e];
    forall i | 0 <= i < |es| ensures Edited(h[i], h[i + 1], es[i]) {
      if i < |edits| { assert Edited(history[i], history[i + 1], edits[i]); }
    }
  }

  function SetEdits(values: seq<(string, string)>, section: Option<string>): (edits: seq<Edit>)
    ensures |edits| == |values|
  {
    seq(|values|, i requires 0 <= i < |values| => SetEdit(values[i].0, values[i].1, section))
  }

  function UnsetEdits(keys: seq<string>): (edits: seq<Edit>)
    ensures |edits| == |keys|
  {
    seq(|keys|, i requires 0 <= i < |keys| => UnsetEdit(keys[i]))
  }

  function EditMap(m: map<string, string>, edits: seq<Edit>): map<string, string> {
    if edits == [] then m
    else
      var before := EditMap(m, edits[..|edits| - 1]);
      match edits[|edits| - 1]
      case SetEdit(key, value, _) => before[key := value]
      case UnsetEdit(key) => before - {key}
  }

  ghost predicate Storable(e: Edit) {
    e.SetEdit? ==> IsKey(e.key) && NoBoundary(e.value) && SectionIsPlain(e.section)
  }

  lemma {:induction false} SessionRefinesMap(history: seq<Lines>, edits: seq<Edit>)
    requires Session(history, edits)
    ensures AsMap(history[|edits|]) == EditMap(AsMap(history[0]), edits)
    ensures Clean(history[0]) && (forall e | e in edits :: Storable(e)) ==> Clean(history[|edits|])
    decreases |edits|
  {
    if edits != [] {
      var n := |edits| - 1;
      assert Session(history[..n + 1], edits[..n]) by {
        assert forall i | 0 <= i < n :: edits[..n][i] == edits[i] && history[..n + 1][i] == history[i];
      }
      SessionRefinesMap(history[..n + 1], edits[..n]);
      assert Edited(history[n], history[n + 1], edits[n]);
      match edits[n] {
        case SetEdit(key, value, section) =>
          SetRefinesUpdate(history[n], history[n + 1], key, value, section);
          if Clean(history[n]) && Storable(edits[n]) {
            SetKeepsClean(history[n], history[n + 1], key, value, section);
          }
        case UnsetEdit(key) =>
          WithoutRefinesRemoval(history[n], key);
          if Clean(history[n]) { WithoutKeepsClean(history[n], key); }
      }
      assert edits[n] in edits;
    }
  }

  /** Load any text, edit it any number of times, save and reload: the file is the edited map. */
  lemma EditingRefinesMap(text: string, history: seq<Lines>, edits: seq<Edit>)
    requires Session(history, edits) && history[0] == FromText(text)
    requires forall e | e in edits :: Storable(e)
    ensures AsMap(FromText(Render(history[|edits|]))) == EditMap(AsMap(FromText(text)), edits)
  {
    ParsedIsClean(text);
    SessionRefinesMap(history, edits);
    RenderParses(history[|edits|]);
    TrimmedMap(history[|edits|]);
  }

  lemma {:induction false} ValuesAreBoundaryFree(lines: Lines, key: string)
    requires Clean(lines) && key in AsMap(lines)
    ensures NoBoundary(AsMap(lines)[key])
    decreases |lines|
  {
    var init, last := lines[..|lines| - 1], lines[|lines| - 1];
    ParsedValue(last.raw);
    if !Assigns(last, key) {
      assert Clean(init);
      ValuesAreBoundaryFree(init, key);
    }
  }

  /** A stored value reads back after saving exactly when it contains no character `splitlines` breaks at. */
  lemma ValueReadsBackIff(text: string, now: Lines, key: string, value: string, section: Option<string>)
    requires IsSet(FromText(text), now, key, value, section) && IsKey(key) && SectionIsPlain(section)
    ensures var saved := AsMap(FromText(Render(now)));
      (key in saved && saved[key] == value) <==> NoBoundary(value)
  {
    ParsedIsClean(text);
    if NoBoundary(value) {
      SetKeepsClean(FromText(text), now, key, value, section);
      SetRefinesUpdate(FromText(text), now, key, value, section);
      RenderParses(now);
      TrimmedMap(now);
    } else {
      ParsedIsClean(Render(now));
      if key in AsMap(FromText(Render(now))) {
        ValuesAreBoundaryFree(FromText(Render(now)), key);
      }
    }
  }
}
