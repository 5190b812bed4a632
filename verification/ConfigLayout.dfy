/** What an update of the Console's settings leaves of the user's file besides the settings themselves. */
module ConfigLayout {
  import opened Wrappers
  import opened PyText
  import opened EnvText
  import opened EnvFile
  import opened EnvLines
  import opened EnvBlocks
  import opened ConfigStore

  function Touched(values: seq<(string, string)>, removals: seq<string>): set<string> {
    (set p | p in values :: p.0) + set k | k in removals
  }

  lemma EditsAreTouched(values: seq<(string, string)>, section: string, removals: seq<string>, e: Edit)
    requires e in UpdateEdits(values, section, removals)
    ensures e.key in Touched(values, removals)
    ensures e.SetEdit? ==> (e.key, e.value) in values && e.section == Some(section)
    ensures e.UnsetEdit? ==> e.key in removals
  {
    var edits, n := UpdateEdits(values, section, removals), |values|;
    var i :| 0 <= i < |edits| && edits[i] == e;
    if i < n {
      assert e == SetEdit(values[i].0, values[i].1, Some(section)) && values[i] in values;
    } else {
      assert e == UnsetEdit(removals[i - n]) && removals[i - n] in removals;
    }
  }

  /** The pairs can be stored, and no key is both set and removed. */
  ghost predicate CanStore(values: seq<(string, string)>, section: string, removals: seq<string>) {
    && IsDict(values) && NoBoundary(section)
    && (forall p | p in values :: IsKey(p.0) && NoBoundary(p.1) && p.0 !in removals)
    && (forall k | k in removals :: IsKey(k))
  }

  lemma EditsAreProper(values: seq<(string, string)>, section: string, removals: seq<string>)
    requires CanStore(values, section, removals)
    ensures forall e | e in UpdateEdits(values, section, removals) ::
              Storable(e) && Proper(e) && e.key in Touched(values, removals)
  {
    forall e | e in UpdateEdits(values, section, removals)
      ensures Storable(e) && Proper(e) && e.key in Touched(values, removals)
    {
      EditsAreTouched(values, section, removals, e);
    }
  }

  /**
   After an update is saved and the file read again, the lines of all other keys, the comments and the blank
   lines are there verbatim and in order, before lines without a key; only blank lines at the very end can be
   missing.
   */
  lemma UpdateKeepsTheRest(before: Option<string>, history: seq<Lines>, values: seq<(string, string)>, section: string,
                           removals: seq<string>) returns (added: Lines, blanks: Lines)
    requires IsEditOf(before, history, values, section, removals) && CanStore(values, section, removals)
    ensures var now := FromText(Render(history[|history| - 1]));
      Others(FromText(FileText(before)), Touched(values, removals)) + added
          == Others(now, Touched(values, removals)) + blanks
    ensures Keyless(added) && AllBlank(blanks)
  {
    EditsAreProper(values, section, removals);
    added, blanks := SavedSessionKeepsOtherLines(FileText(before), history, UpdateEdits(values, section, removals),
                                                 Touched(values, removals));
  }

  /** After an update is saved and the file read again, each new key stands below the section's first header. */
  lemma NewKeysUnderHeader(before: Option<string>, history: seq<Lines>, values: seq<(string, string)>, section: string,
                           removals: seq<string>, i: nat)
    requires IsEditOf(before, history, values, section, removals) && CanStore(values, section, removals)
    requires section != "" && i < |values| && values[i].0 !in Settings(before)
    ensures InBlock(FromText(Render(history[|history| - 1])), section, values[i].0)
  {
    hide Block, Clean, Session, AsMap, Edited;
    var edits, key := UpdateEdits(values, section, removals), values[i].0;
    SessionLength(history, edits);
    EditsAreProper(values, section, removals);
    ParsedIsClean(FileText(before));
    CleanApart(history[0], section);
    SessionRefinesMap(history, edits);
    assert values[i] in values;
    assert edits[i] == SetEdit(key, values[i].1, Some(section));
    OthersFirst(values, section, removals, i);
    StillAbsent(history, edits, i, key);
    SessionKeepsBlock(history, edits, i, section, key);
    SavedBlock(history[|edits|], section);
  }

  lemma SessionLength(history: seq<Lines>, edits: seq<Edit>)
    requires Session(history, edits)
    ensures |history| == |edits| + 1
  {
  }

  /** No other edit of an update is of the same key. */
  lemma OthersFirst(values: seq<(string, string)>, section: string, removals: seq<string>, i: nat)
    requires CanStore(values, section, removals) && i < |values|
    ensures var edits := UpdateEdits(values, section, removals);
      forall j | 0 <= j < |edits| && j != i :: edits[j].key != values[i].0
  {
    var edits := UpdateEdits(values, section, removals);
    assert values[i] in values;
    forall j | 0 <= j < |edits| && j != i ensures edits[j].key != values[i].0 {
      if j < |values| {
        assert edits[j].key == values[j].0;
      } else {
        assert edits[j].key == removals[j - |values|] && removals[j - |values|] in removals;
      }
    }
  }

  lemma {:induction false} StillAbsent(history: seq<Lines>, edits: seq<Edit>, n: nat, key: string)
    requires Session(history, edits) && n <= |edits| && key !in AsMap(history[0])
    requires forall j | 0 <= j < n :: edits[j].key != key
    ensures key !in AsMap(history[n]) && FirstIndex(history[n], key).None?
    decreases n
  {
    hide Edited, AsMap;
    if n > 0 {
      StillAbsent(history, edits, n - 1, key);
      assert Edited(history[n - 1], history[n], edits[n - 1]);
      OneEditElsewhere(history[n - 1], history[n], edits[n - 1], key);
    }
    AbsentKey(history[n], key);
  }

  lemma OneEditElsewhere(was: Lines, now: Lines, e: Edit, key: string)
    requires Edited(was, now, e) && e.key != key && key !in AsMap(was)
    ensures key !in AsMap(now)
  {
    match e
    case SetEdit(k, value, section) => SetRefinesUpdate(was, now, k, value, section);
    case UnsetEdit(k) => WithoutRefinesRemoval(was, k);
  }
}
