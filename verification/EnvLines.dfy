/** What an edit session leaves alone: the lines of every other key, comments and blank lines, verbatim and in order. */
module EnvLines {
  import opened EnvText
  import opened EnvFile

  /** The lines that assign none of the keys, in order. */
  function Others(lines: Lines, keys: set<string>): Lines {
    if lines == [] then []
    else (if lines[0].key.Some? && lines[0].key.value in keys then [] else [lines[0]]) + Others(lines[1..], keys)
  }

  ghost predicate Keyless(lines: Lines) {
    forall i | 0 <= i < |lines| :: lines[i].key.None?
  }

  ghost predicate AllBlank(lines: Lines) {
    forall i | 0 <= i < |lines| :: lines[i] == BLANK
  }

  lemma {:induction false} OthersConcat(a: Lines, b: Lines, keys: set<string>)
    ensures Others(a + b, keys) == Others(a, keys) + Others(b, keys)
    decreases |a|
  {
    if a == [] {
      assert a + b == b;
    } else {
      assert (a + b)[1..] == a[1..] + b;
      OthersConcat(a[1..], b, keys);
    }
  }

  lemma {:induction false} OthersWithout(lines: Lines, key: string, keys: set<string>)
    requires key in keys
    ensures Others(Without(lines, key), keys) == Others(lines, keys)
    decreases |lines|
  {
    if lines != [] {
      OthersWithout(lines[1..], key, keys);
      if !Assigns(lines[0], key) {
        assert Without(lines, key)[1..] == Without(lines[1..], key);
      }
    }
  }

  lemma {:induction false} KeylessStay(lines: Lines, keys: set<string>)
    requires Keyless(lines)
    ensures Others(lines, keys) == lines
    decreases |lines|
  {
    if lines != [] {
      KeylessStay(lines[1..], keys);
    }
  }

  /** One edit: nothing is lost, and only lines without a key are added, at the end. */
  lemma EditKeepsOthers(was: Lines, now: Lines, e: Edit, keys: set<string>) returns (added: Lines)
    requires Edited(was, now, e) && e.key in keys
    ensures Others(now, keys) == Others(was, keys) + added && Keyless(added)
  {
    added := [];
    OthersWithout(was, e.key, keys);
    match e
    case UnsetEdit(key) =>
    case SetEdit(key, value, section) =>
      SetKeepsOtherLines(was, now, key, value, section);
      OthersWithout(now, key, keys);
      if Without(now, key) != Without(was, key) {
        added := SectionAdded(was, section.value);
        SectionAddsNoKey(was, section.value);
        OthersConcat(Without(was, key), added, keys);
        KeylessStay(added, keys);
      }
  }

  /**
   Any number of edits: the lines of keys that were not edited, comments and blank lines are a prefix of
   what they are afterwards, and everything added has no key.
   */
  lemma {:induction false} SessionKeepsOtherLines(history: seq<Lines>, edits: seq<Edit>, keys: set<string>)
      returns (added: Lines)
    requires Session(history, edits) && forall e | e in edits :: e.key in keys
    ensures Others(history[|edits|], keys) == Others(history[0], keys) + added && Keyless(added)
    decreases |edits|
  {
    if edits == [] {
      added := [];
    } else {
      var n := |edits| - 1;
      assert Session(history[..n + 1], edits[..n]) by {
        assert forall i | 0 <= i < n :: edits[..n][i] == edits[i] && history[..n + 1][i] == history[i];
      }
      assert forall e | e in edits[..n] :: e in edits;
      var before := SessionKeepsOtherLines(history[..n + 1], edits[..n], keys);
      assert Edited(history[n], history[n + 1], edits[n]);
      assert edits[n] in edits;
      var last := EditKeepsOthers(history[n], history[n + 1], edits[n], keys);
      added := before + last;
    }
  }

  lemma {:induction false} TrimmedDropsBlanks(lines: Lines) returns (blanks: Lines)
    requires Clean(lines)
    ensures lines == Trimmed(lines) + blanks && AllBlank(blanks)
    decreases |lines|
  {
    if lines != [] && lines[|lines| - 1].raw == "" {
      var last := lines[|lines| - 1];
      assert last == ParseLine(last.raw) == BLANK;
      assert Clean(lines[..|lines| - 1]);
      var fewer := TrimmedDropsBlanks(lines[..|lines| - 1]);
      blanks := fewer + [last];
      assert lines == lines[..|lines| - 1] + [last];
    } else {
      blanks := [];
    }
  }

  /**
   Load a file, edit it any number of times, save and reload: every line of a key that was not edited,
   every comment and every blank line is there verbatim and in order, followed only by lines without a
   key; blank lines at the very end of the file are all that can be missing.
   */
  lemma SavedSessionKeepsOtherLines(text: string, history: seq<Lines>, edits: seq<Edit>, keys: set<string>)
    returns (added: Lines, blanks: Lines)
    requires Session(history, edits) && history[0] == FromText(text)
    requires forall e | e in edits :: Storable(e) && e.key in keys
    ensures Others(FromText(text), keys) + added == Others(FromText(Render(history[|edits|])), keys) + blanks
    ensures Keyless(added) && AllBlank(blanks)
  {
    ParsedIsClean(text);
    SessionRefinesMap(history, edits);
    added := SessionKeepsOtherLines(history, edits, keys);
    var last := history[|edits|];
    RenderParses(last);
    blanks := TrimmedDropsBlanks(last);
    OthersConcat(Trimmed(last), blanks, keys);
    KeylessStay(blanks, keys);
  }
}
