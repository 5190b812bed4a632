/** The single writer of Console configuration over the dotenv file: checked, all-or-nothing updates. */
module ConfigStore {
  import opened Wrappers
  import opened PyText
  import opened EnvText
  import opened EnvFile
  import AtomicWrite

  datatype Refusal =
    | NotWritable(key: string)
    | BadValue(key: string)
    | SetAndRemoved
    | WriteFailed
    | Stopped
  {
    /** The write itself went wrong or was cut off, after every check had passed. */
    predicate OnDisk() {
      WriteFailed? || Stopped?
    }
  }

  /** How a write ends: the file is replaced, an error is raised, or the process dies in the middle. */
  datatype Ending = Written | Raised | Died

  /** The file-system calls a write is made of. */
  function WriteJob(file: Option<string>, backup: Option<string>, lines: Lines): AtomicWrite.Job {
    AtomicWrite.Job(true, file, backup, Render(lines))
  }

  function EndingOf(s: AtomicWrite.State): Ending {
    if s.stage.Done? then Written else if s.stage.Failed? then Raised else Died
  }

  predicate IsForbidden(c: char) {
    c == '\n' || c == '\r' || c as int == 0
  }

  predicate HasForbidden(value: string) {
    exists c | c in value :: IsForbidden(c)
  }

  function FileText(file: Option<string>): string {
    if file.Some? then file.value else ""
  }

  /** The map a config file denotes; a missing file denotes the empty map. */
  function Settings(file: Option<string>): map<string, string> {
    AsMap(FromText(FileText(file)))
  }

  /** A dictionary argument: pairs with distinct keys. */
  ghost predicate IsDict(values: seq<(string, string)>) {
    forall i, j | 0 <= i < j < |values| :: values[i].0 != values[j].0
  }

  function KeySet(keys: seq<string>): set<string> {
    set k | k in keys
  }

  /** First occurrences only. */
  function Unique(keys: seq<string>): (u: seq<string>)
    ensures forall k :: k in u <==> k in keys
  {
    if keys == [] then []
    else
      var init, last := Unique(keys[..|keys| - 1]), keys[|keys| - 1];
      if last in init then init else init + [last]
  }

  /** Every check `update` makes before touching the file. */
  predicate Acceptable(writable: set<string>, values: seq<(string, string)>, removals: seq<string>) {
    && (forall p | p in values :: p.0 in writable && !HasForbidden(p.1))
    && (forall k | k in removals :: k in writable)
    && (forall p | p in values :: p.0 !in removals)
  }

  class Store {
    const writable: set<string>
    var file: Option<string>
    var backup: Option<string>

    constructor (writable: set<string>, file: Option<string>)
      ensures this.writable == writable && this.file == file && this.backup == None
    {
      this.writable := writable;
      this.file := file;
      this.backup := None;
    }

    /**
     Writes the editor's lines through the calls of an atomic write; `calls` says what becomes of each of
     them, and may end anywhere. The file is replaced as a whole or not at all, never before its complete
     previous content is the backup.
     */
    method Write(lines: Lines, calls: seq<AtomicWrite.Action>) returns (end: Ending)
      modifies this
      ensures var s := AtomicWrite.After(WriteJob(old(file), old(backup), lines),
                                     AtomicWrite.Init(WriteJob(old(file), old(backup), lines)), calls);
              && file == s.main && backup == s.bak
              && (end == Written <==> s.stage.Done?) && (end == Raised <==> s.stage.Failed?)
      ensures AtomicWrite.Smooth(calls) ==> end == Written
      ensures end == Written ==>
                file == Some(Render(lines)) && backup == if old(file).Some? then old(file) else old(backup)
      ensures end != Written ==>
                file == old(file) && (backup == old(backup) || (old(file).Some? && backup == old(file)))
    {
      var job := WriteJob(file, backup, lines);
      AtomicWrite.StoppedIsAllowed(job, calls);
      AtomicWrite.StoppedWriteIsComplete(job, calls);
      if AtomicWrite.Smooth(calls) { AtomicWrite.SmoothWriteCompletes(job, calls); }
      var s := AtomicWrite.After(job, AtomicWrite.Init(job), calls);
      file, backup := s.main, s.bak;
      end := EndingOf(s);
    }

    /** The checks, in the source's order; the first failing one names the refusal. */
    method Check(values: seq<(string, string)>, removals: seq<string>) returns (r: Option<Refusal>)
      ensures r.None? <==> Acceptable(writable, values, removals)
      ensures r.Some? ==> !r.value.OnDisk()
      ensures r.Some? && r.value.NotWritable? ==>
                r.value.key !in writable && ((exists p :: p in values && p.0 == r.value.key) || r.value.key in removals)
      ensures r.Some? && r.value.BadValue? ==>
                exists p :: p in values && p.0 == r.value.key && ('\n' in p.1 || '\r' in p.1 || '\0' in p.1)
      ensures r == Some(SetAndRemoved) ==> exists p :: p in values && p.0 in removals
    {
      var i := 0;
      while i < |values|
        invariant 0 <= i <= |values|
        invariant forall j | 0 <= j < i :: values[j].0 in writable && !HasForbidden(values[j].1)
      {
        if values[i].0 !in writable {
          return Some(NotWritable(values[i].0));
        }
        if HasForbidden(values[i].1) {
          return Some(BadValue(values[i].0));
        }
        i := i + 1;
      }
      i := 0;
      while i < |removals|
        invariant 0 <= i <= |removals|
        invariant forall j | 0 <= j < i :: removals[j] in writable
      {
        if removals[i] !in writable {
          return Some(NotWritable(removals[i]));
        }
        i := i + 1;
      }
      if exists p | p in values :: p.0 in removals {
        return Some(SetAndRemoved);
      }
      r := None;
    }

    /**
     Sets every pair and removes every key in one write. `Ok(false)` means there was nothing
     to do. An update that is refused, fails or is cut off anywhere leaves the file as it was.
     */
    method Update(values: seq<(string, string)>, section: string, unset: seq<string>, calls: seq<AtomicWrite.Action>)
      returns (r: Result<bool, Refusal>)
      modifies this
      ensures r.Err? ==> file == old(file) && (backup == old(backup) || (old(file).Some? && backup == old(file)))
      ensures r.Err? && !r.error.OnDisk() <==> !Acceptable(writable, values, unset)
      ensures r.Err? && !r.error.OnDisk() ==> backup == old(backup)
      ensures r == Ok(false) ==> file == old(file) && backup == old(backup)
      ensures r == Ok(false) <==> Acceptable(writable, values, unset) && NothingToDo(old(file), values, unset)
      ensures Acceptable(writable, values, unset) && !NothingToDo(old(file), values, unset) && AtomicWrite.Smooth(calls)
              ==> r == Ok(true)
      ensures r == Ok(true) ==> file.Some? && backup == if old(file).Some? then old(file) else old(backup)
      ensures r == Ok(true) ==> exists lines: Lines ::
        file == Some(Render(lines)) && IsUpdated(old(file), lines, values, section, unset)
      ensures r == Ok(true) ==> exists history ::
        IsEditOf(old(file), history, values, section, Unique(unset)) && file == Some(Render(history[|history| - 1]))
    {
      var removals := Unique(unset);
      var refusal := Check(values, removals);
      if refusal.Some? {
        return Err(refusal.value);
      }
      if values == [] && removals == [] {
        return Ok(false);
      }
      var env := new Editor.FromString(FileText(file));
      var present := env.Keys();
      if values == [] && !(file.Some? && exists k | k in removals :: k in present) {
        NothingPresent(file, present, removals, unset);
        return Ok(false);
      }
      SomethingToDo(file, present, values, removals, unset);
      var lines;
      ghost var history;
      lines, history := Edited(env, values, section, removals);
      UniqueUpdated(file, lines, values, section, removals, unset);
      var end := Write(lines, calls);
      r := match end case Written => Ok(true) case Raised => Err(WriteFailed) case Died => Err(Stopped);
    }

    /** Removes the keys in one write; a missing file or keys it does not have are left untouched. */
    method Unset(keys: seq<string>, calls: seq<AtomicWrite.Action>) returns (r: Result<bool, Refusal>)
      modifies this
      ensures r.Err? ==> file == old(file) && (backup == old(backup) || (old(file).Some? && backup == old(file)))
      ensures r.Err? && !r.error.OnDisk() <==> exists k | k in keys :: k !in writable
      ensures r.Err? && !r.error.OnDisk() ==> backup == old(backup)
      ensures r == Ok(false) ==> file == old(file) && backup == old(backup)
      ensures r == Ok(false) <==> (forall k | k in keys :: k in writable) && NothingToDo(old(file), [], keys)
      ensures (forall k | k in keys :: k in writable) && !NothingToDo(old(file), [], keys) && AtomicWrite.Smooth(calls)
              ==> r == Ok(true)
      ensures r == Ok(true) ==> backup == old(file) && Settings(file) == Settings(old(file)) - KeySet(keys)
      ensures r == Ok(true) ==> exists history ::
        IsEditOf(old(file), history, [], "", keys) && file == Some(Render(history[|history| - 1]))
    {
      var refusal := Check([], keys);
      if refusal.Some? {
        return Err(refusal.value);
      }
      var env := new Editor.FromString(FileText(file));
      var present := env.Keys();
      if file.None? || !exists k | k in keys :: k in present {
        return Ok(false);
      }
      var lines;
      ghost var history;
      lines, history := Edited(env, [], "", keys);
      RemovalReloads(file, lines, keys);
      var end := Write(lines, calls);
      r := match end case Written => Ok(true) case Raised => Err(WriteFailed) case Died => Err(Stopped);
    }

    /** Sets the pairs, then removes the keys, in the loaded editor. */
    method Edited(env: Editor, values: seq<(string, string)>, section: string, removals: seq<string>)
                  returns (lines: Lines, ghost history: seq<Lines>)
      requires env.lines == FromText(FileText(file))
      modifies env
      ensures IsUpdated(file, lines, values, section, removals)
      ensures IsEditOf(file, history, values, section, removals) && history[|history| - 1] == lines
    {
      hide Session, IsUpdated, Without, AsMap;
      ParsedIsClean(FileText(file));
      history := env.SetMany(values, Some(section));
      ghost var edits := SetEdits(values, Some(section));
      var i := 0;
      assert KeySet(removals[..0]) == {};
      assert edits + UnsetEdits(removals[..0]) == edits;
      SetsUpdate(file, env.lines, values, section);
      while i < |removals|
        invariant 0 <= i <= |removals|
        invariant IsUpdated(file, env.lines, values, section, removals[..i])
        invariant |history| == |values| + i + 1
        invariant history[0] == FromText(FileText(file)) && history[|values| + i] == env.lines
        invariant Session(history, edits + UnsetEdits(removals[..i]))
      {
        ghost var before := env.lines;
        env.Unset(removals[i]);
        UnsetStep(file, before, env.lines, values, section, removals, i);
        SessionGrows(history, edits + UnsetEdits(removals[..i]), env.lines, UnsetEdit(removals[i]));
        OneMoreUnset(edits, removals, i);
        history := history + [env.lines];
        i := i + 1;
      }
      assert removals[..i] == removals;
      lines := env.lines;
    }
  }

  lemma OneMoreUnset(edits: seq<Edit>, removals: seq<string>, i: nat)
    requires i < |removals|
    ensures (edits + UnsetEdits(removals[..i])) + [UnsetEdit(removals[i])] == edits + UnsetEdits(removals[..i + 1])
  {
    assert UnsetEdits(removals[..i + 1]) == UnsetEdits(removals[..i]) + [UnsetEdit(removals[i])];
  }

  lemma SetsUpdate(file: Option<string>, lines: Lines, values: seq<(string, string)>, section: string)
    requires AsMap(lines) == Overlaid(Settings(file), values)
    requires (forall p | p in values :: IsKey(p.0) && NoBoundary(p.1)) && SectionIsPlain(Some(section)) ==> Clean(lines)
    ensures IsUpdated(file, lines, values, section, [])
  {
    assert KeySet([]) == {};
  }

  function UpdateEdits(values: seq<(string, string)>, section: string, removals: seq<string>): seq<Edit> {
    SetEdits(values, Some(section)) + UnsetEdits(removals)
  }

  /** The editor's session of an update: every pair is set under the section, and then every key is removed. */
  ghost predicate IsEditOf(file: Option<string>, history: seq<Lines>, values: seq<(string, string)>, section: string,
                           removals: seq<string>) {
    && Session(history, UpdateEdits(values, section, removals))
    && history[0] == FromText(FileText(file))
  }

  /** No pair to set, and no key to remove that the file has. */
  ghost predicate NothingToDo(file: Option<string>, values: seq<(string, string)>, unset: seq<string>) {
    values == [] && (file.None? || forall k | k in unset :: k !in Settings(file))
  }

  /**
   The editor's lines denote the old map with the pairs set and then the keys removed, and stay clean for
   storable pairs.
   */
  ghost predicate IsUpdated(file: Option<string>, lines: Lines, values: seq<(string, string)>, section: string,
                            removals: seq<string>) {
    && AsMap(lines) == Overlaid(Settings(file), values) - KeySet(removals)
    && ((forall p | p in values :: IsKey(p.0) && NoBoundary(p.1)) && NoBoundary(section) ==> Clean(lines))
  }

  lemma NothingPresent(file: Option<string>, present: seq<string>, removals: seq<string>, unset: seq<string>)
    requires forall k :: k in present <==> k in Settings(file)
    requires forall k :: k in removals <==> k in unset
    requires !(file.Some? && exists k | k in removals :: k in present)
    ensures NothingToDo(file, [], unset)
  {
  }

  lemma SomethingToDo(file: Option<string>, present: seq<string>, values: seq<(string, string)>, removals: seq<string>,
                      unset: seq<string>)
    requires forall k :: k in present <==> k in Settings(file)
    requires forall k :: k in removals <==> k in unset
    requires values != [] || (file.Some? && exists k | k in removals :: k in present)
    ensures !NothingToDo(file, values, unset)
  {
  }

  lemma UnsetStep(file: Option<string>, before: Lines, lines: Lines, values: seq<(string, string)>, section: string,
                  removals: seq<string>, i: nat)
    requires i < |removals| && IsUpdated(file, before, values, section, removals[..i])
      && lines == Without(before, removals[i])
    ensures IsUpdated(file, lines, values, section, removals[..i + 1])
  {
    hide AsMap, Without, Overlaid, Clean, KeySet, IsKey, NoBoundary;
    WithoutRefinesRemoval(before, removals[i]);
    OneMoreKey(removals, i);
    if Clean(before) { WithoutKeepsClean(before, removals[i]); }
  }

  lemma OneMoreKey(removals: seq<string>, i: nat)
    requires i < |removals|
    ensures KeySet(removals[..i + 1]) == KeySet(removals[..i]) + {removals[i]}
  {
    assert removals[..i + 1] == removals[..i] + [removals[i]];
  }

  /** Without new values there is nothing that could fail to read back. */
  lemma RemovalReloads(before: Option<string>, lines: Lines, keys: seq<string>)
    requires IsUpdated(before, lines, [], "", keys)
    ensures Settings(Some(Render(lines))) == Settings(before) - KeySet(keys)
  {
    RenderParses(lines);
    TrimmedMap(lines);
  }

  lemma UniqueUpdated(file: Option<string>, lines: Lines, values: seq<(string, string)>, section: string,
                      removals: seq<string>, unset: seq<string>)
    requires IsUpdated(file, lines, values, section, removals) && forall k :: k in removals <==> k in unset
    ensures IsUpdated(file, lines, values, section, unset)
  {
    assert KeySet(removals) == KeySet(unset);
  }

  lemma {:induction false} OverlaidValue(m: map<string, string>, values: seq<(string, string)>, p: (string, string))
    requires IsDict(values) && p in values
    ensures p.0 in Overlaid(m, values) && Overlaid(m, values)[p.0] == p.1
    decreases |values|
  {
    var last := values[|values| - 1];
    if p != last {
      assert p in values[..|values| - 1];
      OverlaidValue(m, values[..|values| - 1], p);
    }
  }

  /**
   What a completed update leaves on disk: reloading gives the old settings with the pairs
   set and the keys removed, exactly when no new value contains a character `splitlines`
   breaks at. The write guard refuses only some of those characters.
   */
  lemma ReloadAfterUpdate(writable: set<string>, before: Option<string>, lines: Lines,
                          values: seq<(string, string)>, section: string, unset: seq<string>)
    requires IsDict(values) && Acceptable(writable, values, unset) && (forall k | k in writable :: IsKey(k))
      && NoBoundary(section)
    requires IsUpdated(before, lines, values, section, unset)
    ensures Settings(Some(Render(lines))) == Overlaid(Settings(before), values) - KeySet(unset)
            <==> forall p | p in values :: NoBoundary(p.1)
  {
    if forall p | p in values :: NoBoundary(p.1) {
      assert Clean(lines);
      RenderParses(lines);
      TrimmedMap(lines);
    } else {
      var p :| p in values && !NoBoundary(p.1);
      OverlaidValue(Settings(before), values, p);
      ParsedIsClean(Render(lines));
      if p.0 in Settings(Some(Render(lines))) {
        ValuesAreBoundaryFree(FromText(Render(lines)), p.0);
      }
    }
  }

  /** The guard lets such a value through: a vertical tab is a line boundary but is not refused. */
  lemma GuardMissesABoundary(value: string)
    requires value == ['a', 0x0B as char, 'b']
    ensures !HasForbidden(value) && !NoBoundary(value)
  {
    assert value[1] in value && IsBoundary(value[1]);
  }

  /** Exactly the values with a line feed, a carriage return or a NUL are refused. */
  lemma ForbiddenIff(value: string)
    ensures HasForbidden(value) <==> '\n' in value || '\r' in value || '\0' in value
  {
    assert '\0' as int == 0;
    if c :| c in value && IsForbidden(c) { assert c == '\n' || c == '\r' || c == '\0'; }
    if '\n' in value { assert IsForbidden('\n'); }
    if '\r' in value { assert IsForbidden('\r'); }
    if '\0' in value { assert IsForbidden('\0'); }
  }
}
