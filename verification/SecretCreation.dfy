/**
 First creation of a secret file by any number of concurrent `read_or_create_secret` callers
 with one common size. Each writes a private temp file and publishes it with an exclusive link;
 where the filesystem has no hard links it creates the final name directly and writes into it.
 Callers may write in pieces, stall or die; a dead caller's temp file may be swept.
 */
module SecretCreation {
  import opened Wrappers

  type Byte = x: int | 0 <= x < 256
  type Data = seq<Byte>
  type OpId = nat

  const MIN_SECRET_BYTES := 32
  const RACE_RETRY_ATTEMPTS := 5

  function Minimum(nbytes: nat): nat {
    if nbytes < MIN_SECRET_BYTES then MIN_SECRET_BYTES else nbytes
  }

  /** The common minimum length, and whether the filesystem has hard links. */
  datatype Setting = Setting(min: nat, links: bool)

  datatype Op =
    | Read
    | Create(mine: Data)
    | Fill(mine: Data)
    | Link(mine: Data)
    | Direct(mine: Data)
    | DirectFill(mine: Data)
    | Reread(mine: Data, attempt: nat)
    | Regenerate(mine: Data)
    | ReadBack(mine: Data)
    | Unlink(result: Data)
    | Returned(result: Data)
    | Dead

  /** What the secret's name refers to: a complete file, or the one caller `p` writes in place. */
  datatype Entry = Whole(data: Data) | Draft(p: OpId)

  /** The secret's name, the drafts written in place, each caller's temp file, and the callers. */
  datatype State = State(path: Option<Entry>, drafts: map<OpId, Data>, temps: map<OpId, Data>, ops: seq<Op>)
  {
    /** What reading the secret's name gives. */
    function File(): Option<Data> {
      match path
      case None => None
      case Some(Whole(data)) => Some(data)
      case Some(Draft(p)) => Some(if p in drafts then drafts[p] else [])
    }
  }

  datatype Action =
    | Start
    | Draw(p: OpId, mine: Data)   // the initial read, and the bytes generated if it finds nothing usable
    | Step(p: OpId)
    | WritePart(p: OpId, n: nat)
    | Die(p: OpId)
    | Sweep(p: OpId)

  function Init(start: Option<Data>): State {
    State(match start case None => None case Some(data) => Some(Whole(data)), map[], map[], [])
  }

  predicate Enough(file: Option<Data>, min: nat) {
    file.Some? && |file.value| >= min
  }

  function Goto(s: State, p: OpId, op: Op): State
    requires p < |s.ops|
  {
    s.(ops := s.ops[p := op])
  }

  predicate Enabled(s: State, a: Action, fs: Setting) {
    match a
    case Start => true
    case Draw(p, mine) => p < |s.ops| && s.ops[p].Read? && |mine| == fs.min
    case Step(p) => p < |s.ops| && !s.ops[p].Read? && !s.ops[p].Returned? && !s.ops[p].Dead?
    case WritePart(p, n) => p < |s.ops| && (s.ops[p].Fill? || s.ops[p].DirectFill?) && n <= |s.ops[p].mine|
    case Die(p) => p < |s.ops| && !s.ops[p].Returned?
    case Sweep(p) => p < |s.ops| && s.ops[p].Dead?
  }

  function StepOf(s: State, p: OpId, fs: Setting): State
    requires p < |s.ops|
  {
    match s.ops[p]
    case Create(mine) => Goto(s.(temps := s.temps[p := []]), p, Fill(mine))
    case Fill(mine) => Goto(s.(temps := s.temps[p := mine]), p, Link(mine))
    case Link(mine) =>
      if !fs.links then Goto(s, p, Direct(mine))
      else if s.path.None? && p in s.temps then Goto(s.(path := Some(Whole(s.temps[p]))), p, Unlink(mine))
      else Goto(s, p, Reread(mine, 0))
    case Direct(mine) =>
      if s.path.None? then Goto(s.(path := Some(Draft(p)), drafts := s.drafts[p := []]), p, DirectFill(mine))
      else Goto(s, p, Reread(mine, 0))
    case DirectFill(mine) => Goto(s.(drafts := s.drafts[p := mine]), p, Unlink(mine))
    case Reread(mine, attempt) =>
      if Enough(s.File(), fs.min) then Goto(s, p, Unlink(s.File().value))
      else if attempt < RACE_RETRY_ATTEMPTS - 1 then Goto(s, p, Reread(mine, attempt + 1))
      else Goto(s, p, Regenerate(mine))
    case Regenerate(mine) =>
      if p in s.temps then Goto(s.(path := Some(Whole(s.temps[p])), temps := s.temps - {p}), p, ReadBack(mine))
          else Goto(s, p, Dead)
    case ReadBack(mine) => Goto(s, p, Unlink(if Enough(s.File(), fs.min) then s.File().value else mine))
    case Unlink(result) => Goto(s.(temps := s.temps - {p}), p, Returned(result))
    case _ => s
  }

  function Do(s: State, a: Action, fs: Setting): State
    requires Enabled(s, a, fs)
  {
    match a
    case Start => s.(ops := s.ops + [Read])
    case Draw(p, mine) => Goto(s, p, if Enough(s.File(), fs.min) then Returned(s.File().value) else Create(mine))
    case Step(p) => StepOf(s, p, fs)
    case WritePart(p, n) =>
      if s.ops[p].Fill? then s.(temps := s.temps[p := s.ops[p].mine[..n]])
          else s.(drafts := s.drafts[p := s.ops[p].mine[..n]])
    case Die(p) => Goto(s, p, Dead)
    case Sweep(p) => s.(temps := s.temps - {p})
  }

  /** Call `p` alone for `n` steps. */
  function Steps(s: State, p: OpId, n: nat, fs: Setting): (t: State)
    requires p < |s.ops|
    ensures |t.ops| == |s.ops|
  {
    if n == 0 then s else StepOf(Steps(s, p, n - 1, fs), p, fs)
  }

  /** A loser that finds a short file gives it five reads before it writes its own secret over it. */
  lemma {:induction false} ShortFileIsReadFiveTimes(s: State, p: OpId, mine: Data, n: nat, fs: Setting)
    requires p < |s.ops| && s.ops[p] == Reread(mine, 0) && !Enough(s.File(), fs.min) && n <= 5
    ensures Steps(s, p, n, fs) == s.(ops := s.ops[p := if n < 5 then Reread(mine, n) else Regenerate(mine)])
    decreases n
  {
    if n > 0 {
      ShortFileIsReadFiveTimes(s, p, mine, n - 1, fs);
      assert Steps(s, p, n - 1, fs).File() == s.File();
    }
  }

  /** A short write to a temp file shows nothing; without links it shows at once under the name. */
  lemma PartialWrites(s: State, p: OpId, n: nat, fs: Setting)
    requires Enabled(s, WritePart(p, n), fs)
    ensures var t := Do(s, WritePart(p, n), fs);
      && t.path == s.path && t.ops == s.ops
      && (s.ops[p].Fill? ==> t.File() == s.File() && t.temps == s.temps[p := s.ops[p].mine[..n]])
      && (s.ops[p].DirectFill? ==>
            t.temps == s.temps && (s.path == Some(Draft(p)) ==> t.File() == Some(s.ops[p].mine[..n])))
  {
  }

  predicate Run(s: State, run: seq<Action>, fs: Setting)
    decreases |run|
  {
    run == [] || (Enabled(s, run[0], fs) && Run(Do(s, run[0], fs), run[1..], fs))
  }

  function After(s: State, run: seq<Action>, fs: Setting): State
    requires Run(s, run, fs)
    decreases |run|
  {
    if run == [] then s else After(Do(s, run[0], fs), run[1..], fs)
  }

  // ---- what every caller gets, anywhere ----

  predicate Long(op: Op, min: nat) {
    match op
    case Read => true
    case Dead => true
    case Unlink(result) => |result| >= min
    case Returned(result) => |result| >= min
    case op => |op.mine| == min
  }

  /** The minimum length holds of everything a caller may still return. */
  ghost predicate LongEnough(s: State, fs: Setting) {
    forall p: OpId | p < |s.ops| :: Long(s.ops[p], fs.min)
  }

  lemma StepLong(s: State, p: OpId, fs: Setting)
    requires p < |s.ops| && Long(s.ops[p], fs.min)
    ensures var t := StepOf(s, p, fs);
      && |t.ops| == |s.ops| && Long(t.ops[p], fs.min)
      && forall q: OpId | q < |s.ops| && q != p :: t.ops[q] == s.ops[q]
  {
  }

  lemma DoLongEnough(s: State, a: Action, fs: Setting)
    requires LongEnough(s, fs) && Enabled(s, a, fs)
    ensures LongEnough(Do(s, a, fs), fs)
  {
    hide StepOf;
    if a.Step? { StepLong(s, a.p, fs); }
  }

  lemma {:induction false} RunLongEnough(s: State, run: seq<Action>, fs: Setting)
    requires LongEnough(s, fs) && Run(s, run, fs)
    ensures LongEnough(After(s, run, fs), fs)
    decreases |run|
  {
    if run != [] {
      hide LongEnough;
      DoLongEnough(s, run[0], fs);
      RunLongEnough(Do(s, run[0], fs), run[1..], fs);
    }
  }

  /**
   Whatever the filesystem and whatever was there before, no caller ever returns a secret shorter than the
   minimum.
   */
  lemma ResultsAreLongEnough(start: Option<Data>, run: seq<Action>, nbytes: nat, links: bool, p: OpId)
    requires Run(Init(start), run, Setting(Minimum(nbytes), links))
    requires var s := After(Init(start), run, Setting(Minimum(nbytes), links)); p < |s.ops| && s.ops[p].Returned?
    ensures |After(Init(start), run, Setting(Minimum(nbytes), links)).ops[p].result|
              >= if nbytes < 32 then 32 else nbytes
  {
    RunLongEnough(Init(start), run, Setting(Minimum(nbytes), links));
  }

  // ---- agreement ----

  /** Callers can rely on agreeing: the file is complete already, or absent on a filesystem with hard links. */
  predicate Dependable(start: Option<Data>, fs: Setting) {
    Enough(start, fs.min) || (start.None? && fs.links)
  }

  /** What a caller's progress says about the file and its own temp. */
  ghost predicate OpOk(s: State, p: OpId, fs: Setting)
    requires p < |s.ops|
  {
    match s.ops[p]
    case Create(mine) => |mine| == fs.min
    case Fill(mine) => |mine| == fs.min
    case Link(mine) => |mine| == fs.min && p in s.temps && s.temps[p] == mine
    case Direct(_) => s.path.Some?
    case DirectFill(_) => false
    case Reread(_, attempt) => attempt == 0 && s.path.Some?
    case Regenerate(_) => false
    case ReadBack(_) => false
    case Unlink(result) => s.File() == Some(result)
    case Returned(result) => s.File() == Some(result)
    case _ => true
  }

  ghost predicate PathOk(s: State, fs: Setting) {
    && (s.path.Some? ==> s.path.value.Whole? && |s.path.value.data| >= fs.min)
    && (s.path.None? ==> fs.links)
  }

  /** The file is never short, a linking caller's temp is complete, and every result is the file's content. */
  ghost predicate Inv(s: State, fs: Setting) {
    PathOk(s, fs) && forall p: OpId | p < |s.ops| :: OpOk(s, p, fs)
  }

  lemma StepInv(s: State, p: OpId, fs: Setting)
    requires PathOk(s, fs) && p < |s.ops| && OpOk(s, p, fs) && !s.ops[p].Read?
    ensures var t := StepOf(s, p, fs);
      && |t.ops| == |s.ops| && PathOk(t, fs) && OpOk(t, p, fs) && (s.path.Some? ==> t.path == s.path)
      && (forall q: OpId | q < |s.ops| && q != p ::
          t.ops[q] == s.ops[q] && (q in s.temps ==> q in t.temps && t.temps[q] == s.temps[q]))
  {
  }

  /** The others notice at most that the file has appeared. */
  lemma OthersOk(s: State, t: State, p: OpId, fs: Setting)
    requires PathOk(s, fs) && p < |s.ops| <= |t.ops| && OpOk(s, p, fs) && t.ops[p] == s.ops[p]
    requires s.path.Some? ==> t.path == s.path
    requires p in s.temps ==> p in t.temps && t.temps[p] == s.temps[p]
    ensures OpOk(t, p, fs)
  {
  }

  lemma DoInv(s: State, a: Action, fs: Setting)
    requires Inv(s, fs) && Enabled(s, a, fs)
    ensures Inv(Do(s, a, fs), fs) && (s.path.Some? ==> Do(s, a, fs).path == s.path)
  {
    if a.Step? {
      hide StepOf, OpOk, PathOk;
      var t := Do(s, a, fs);
      StepInv(s, a.p, fs);
      forall q: OpId | q < |t.ops| && q != a.p ensures OpOk(t, q, fs) { OthersOk(s, t, q, fs); }
    } else {
      forall q: OpId | q < |Do(s, a, fs).ops| ensures OpOk(Do(s, a, fs), q, fs) {
        if q < |s.ops| { assert OpOk(s, q, fs); }
      }
    }
  }

  lemma {:induction false} RunInv(s: State, run: seq<Action>, fs: Setting)
    requires Inv(s, fs) && Run(s, run, fs)
    ensures Inv(After(s, run, fs), fs) && (s.path.Some? ==> After(s, run, fs).path == s.path)
    decreases |run|
  {
    if run != [] {
      hide Inv;
      DoInv(s, run[0], fs);
      RunInv(Do(s, run[0], fs), run[1..], fs);
    }
  }

  /**
   From a complete file, or from none on a filesystem with hard links, every caller that returns
   gets the bytes now in the file, all callers get the same bytes, and no state has a file shorter
   than the minimum.
   */
  lemma CallersAgree(start: Option<Data>, run: seq<Action>, fs: Setting, p: OpId, q: OpId)
    requires Dependable(start, fs) && Run(Init(start), run, fs)
    ensures var s := After(Init(start), run, fs);
      && (s.path.Some? ==> Enough(s.File(), fs.min))
      && (start.Some? ==> s.File() == start)
      && (p < |s.ops| && s.ops[p].Returned? ==> s.File() == Some(s.ops[p].result))
      && (p < |s.ops| && q < |s.ops| && s.ops[p].Returned? && s.ops[q].Returned? ==> s.ops[p].result == s.ops[q].result)
  {
    RunInv(Init(start), run, fs);
    var s := After(Init(start), run, fs);
    assert p < |s.ops| ==> OpOk(s, p, fs);
    assert q < |s.ops| ==> OpOk(s, q, fs);
  }

  /** Once published the file never changes, so a caller's result stays the file's content for good. */
  lemma PublishedForGood(start: Option<Data>, run: seq<Action>, more: seq<Action>, fs: Setting)
    requires Dependable(start, fs) && Run(Init(start), run, fs) && Run(After(Init(start), run, fs), more, fs)
    requires After(Init(start), run, fs).path.Some?
    ensures After(After(Init(start), run, fs), more, fs).File() == After(Init(start), run, fs).File()
  {
    RunInv(Init(start), run, fs);
    RunInv(After(Init(start), run, fs), more, fs);
  }

  // ---- the premise is needed ----

  lemma {:induction false} Extend(s: State, run: seq<Action>, a: Action, fs: Setting)
    requires Run(s, run, fs) && Enabled(After(s, run, fs), a, fs)
    ensures Run(s, run + [a], fs) && After(s, run + [a], fs) == Do(After(s, run, fs), a, fs)
    decreases |run|
  {
    if run == [] {
      assert run + [a] == [a] && [a][1..] == [];
      assert Run(Do(s, a, fs), [], fs);
    } else {
      assert (run + [a])[0] == run[0] && (run + [a])[1..] == run[1..] + [a];
      Extend(Do(s, run[0], fs), run[1..], a, fs);
    }
  }

  lemma Then(start: Option<Data>, run: seq<Action>, s: State, a: Action, fs: Setting) returns (longer: seq<Action>)
    requires Run(Init(start), run, fs) && After(Init(start), run, fs) == s && Enabled(s, a, fs)
    ensures Run(Init(start), longer, fs) && After(Init(start), longer, fs) == Do(s, a, fs)
  {
    Extend(Init(start), run, a, fs);
    longer := run + [a];
  }

  predicate Short(file: Option<Data>, fs: Setting) {
    file.Some? && |file.value| < fs.min
  }

  /** A new caller as far as its attempt to link. */
  lemma NewCallerToLink(start: Option<Data>, run: seq<Action>, s: State, mine: Data, fs: Setting)
                        returns (longer: seq<Action>)
    requires Run(Init(start), run, fs) && After(Init(start), run, fs) == s
    requires !Enough(s.File(), fs.min) && |mine| == fs.min
    ensures Run(Init(start), longer, fs)
    ensures After(Init(start), longer, fs) == s.(temps := s.temps[|s.ops| := mine], ops := s.ops + [Link(mine)])
  {
    var p := |s.ops|;
    longer := Then(start, run, s, Start, fs);
    var s1 := s.(ops := s.ops + [Read]);
    longer := Then(start, longer, s1, Draw(p, mine), fs);
    var s2 := s.(ops := s.ops + [Create(mine)]);
    assert After(Init(start), longer, fs) == s2;
    longer := Then(start, longer, s2, Step(p), fs);
    var s3 := s.(temps := s.temps[p := []], ops := s.ops + [Fill(mine)]);
    assert After(Init(start), longer, fs) == s3;
    longer := Then(start, longer, s3, Step(p), fs);
    assert s3.temps[p := mine] == s.temps[p := mine];
  }

  /** From there to rereading, with something short under the name. */
  lemma LinkToReread(start: Option<Data>, run: seq<Action>, s: State, p: OpId, fs: Setting)
                     returns (longer: seq<Action>)
    requires Run(Init(start), run, fs) && After(Init(start), run, fs) == s
    requires Short(s.File(), fs) && p < |s.ops| && s.ops[p].Link?
    ensures Run(Init(start), longer, fs) && After(Init(start), longer, fs) == Goto(s, p, Reread(s.ops[p].mine, 0))
  {
    var mine := s.ops[p].mine;
    longer := Then(start, run, s, Step(p), fs);
    if !fs.links {
      longer := Then(start, longer, Goto(s, p, Direct(mine)), Step(p), fs);
      assert Goto(Goto(s, p, Direct(mine)), p, Reread(mine, 0)) == Goto(s, p, Reread(mine, 0));
    }
  }

  lemma RereadToRegenerate(start: Option<Data>, run: seq<Action>, s: State, p: OpId, fs: Setting)
                           returns (longer: seq<Action>)
    requires Run(Init(start), run, fs) && After(Init(start), run, fs) == s
    requires Short(s.File(), fs) && p < |s.ops| && s.ops[p].Reread? && s.ops[p].attempt < RACE_RETRY_ATTEMPTS
    ensures Run(Init(start), longer, fs) && After(Init(start), longer, fs) == Goto(s, p, Regenerate(s.ops[p].mine))
    decreases RACE_RETRY_ATTEMPTS - s.ops[p].attempt
  {
    longer := Then(start, run, s, Step(p), fs);
    if s.ops[p].attempt < RACE_RETRY_ATTEMPTS - 1 {
      var t := Goto(s, p, Reread(s.ops[p].mine, s.ops[p].attempt + 1));
      longer := RereadToRegenerate(start, longer, t, p, fs);
      assert Goto(t, p, Regenerate(s.ops[p].mine)) == Goto(s, p, Regenerate(s.ops[p].mine));
    }
  }

  lemma RegenerateToReturn(start: Option<Data>, run: seq<Action>, s: State, p: OpId, fs: Setting)
                           returns (longer: seq<Action>)
    requires Run(Init(start), run, fs) && After(Init(start), run, fs) == s
    requires p < |s.ops| && s.ops[p].Regenerate? && p in s.temps && s.temps[p] == s.ops[p].mine
      && |s.ops[p].mine| == fs.min
    ensures Run(Init(start), longer, fs)
    ensures After(Init(start), longer, fs)
         == Goto(s.(path := Some(Whole(s.ops[p].mine)), temps := s.temps - {p}), p, Returned(s.ops[p].mine))
  {
    var mine := s.ops[p].mine;
    var t := s.(path := Some(Whole(mine)), temps := s.temps - {p});
    longer := Then(start, run, s, Step(p), fs);
    longer := Then(start, longer, Goto(t, p, ReadBack(mine)), Step(p), fs);
    assert After(Init(start), longer, fs) == Goto(t, p, Unlink(mine));
    longer := Then(start, longer, Goto(t, p, Unlink(mine)), Step(p), fs);
    assert t.temps - {p} == t.temps;
    assert After(Init(start), longer, fs) == Goto(t, p, Returned(mine));
  }

  /** From a file already shorter than the minimum, two callers can return any two different secrets. */
  lemma ShortFileSplitsCallers(start: Option<Data>, fs: Setting, a: Data, b: Data) returns (run: seq<Action>)
    requires Short(start, fs) && |a| == |b| == fs.min && a != b
    ensures Run(Init(start), run, fs)
    ensures After(Init(start), run, fs).ops == [Returned(a), Returned(b)]
  {
    var s0 := Init(start);
    run := NewCallerToLink(start, [], s0, a, fs);
    var s1 := s0.(temps := map[0 := a], ops := [Link(a)]);
    run := LinkToReread(start, run, s1, 0, fs);
    var s2 := s0.(temps := map[0 := a], ops := [Reread(a, 0)]);
    run := NewCallerToLink(start, run, s2, b, fs);
    var s3 := s0.(temps := map[0 := a, 1 := b], ops := [Reread(a, 0), Link(b)]);
    run := LinkToReread(start, run, s3, 1, fs);
    var s4 := s0.(temps := map[0 := a, 1 := b], ops := [Reread(a, 0), Reread(b, 0)]);
    run := RereadToRegenerate(start, run, s4, 0, fs);
    var s5 := s0.(temps := map[0 := a, 1 := b], ops := [Regenerate(a), Reread(b, 0)]);
    run := RereadToRegenerate(start, run, s5, 1, fs);
    var s6 := s0.(temps := map[0 := a, 1 := b], ops := [Regenerate(a), Regenerate(b)]);
    assert After(Init(start), run, fs) == s6;
    run := RegenerateToReturn(start, run, s6, 0, fs);
    var s7 := s0.(path := Some(Whole(a)), temps := map[1 := b], ops := [Returned(a), Regenerate(b)]);
    assert After(Init(start), run, fs) == s7;
    run := RegenerateToReturn(start, run, s7, 1, fs);
  }

  /**
   Without hard links even an absent file lets callers disagree: one stalls while it writes in place, the
   other takes its file for corrupt and replaces it, and each returns its own bytes.
   */
  lemma NoLinksSplitCallers(fs: Setting, a: Data, b: Data) returns (run: seq<Action>)
    requires !fs.links && fs.min > 0 && |a| == |b| == fs.min && a != b
    ensures Run(Init(None), run, fs)
    ensures After(Init(None), run, fs).ops == [Returned(a), Returned(b)]
  {
    run := NewCallerToLink(None, [], Init(None), a, fs);
    var s1 := State(None, map[], map[0 := a], [Link(a)]);
    run := Then(None, run, s1, Step(0), fs);
    var s2 := State(None, map[], map[0 := a], [Direct(a)]);
    run := Then(None, run, s2, Step(0), fs);
    var s3 := State(Some(Draft(0)), map[0 := []], map[0 := a], [DirectFill(a)]);
    assert After(Init(None), run, fs) == s3;
    run := NewCallerToLink(None, run, s3, b, fs);
    var s4 := s3.(temps := map[0 := a, 1 := b], ops := [DirectFill(a), Link(b)]);
    run := LinkToReread(None, run, s4, 1, fs);
    var s5 := s4.(ops := [DirectFill(a), Reread(b, 0)]);
    run := RereadToRegenerate(None, run, s5, 1, fs);
    var s6 := s4.(ops := [DirectFill(a), Regenerate(b)]);
    assert After(Init(None), run, fs) == s6;
    run := RegenerateToReturn(None, run, s6, 1, fs);
    var s7 := State(Some(Whole(b)), map[0 := []], map[0 := a], [DirectFill(a), Returned(b)]);
    assert After(Init(None), run, fs) == s7;
    run := DirectToReturn(None, run, s7, 0, fs);
  }

  lemma DirectToReturn(start: Option<Data>, run: seq<Action>, s: State, p: OpId, fs: Setting)
                       returns (longer: seq<Action>)
    requires Run(Init(start), run, fs) && After(Init(start), run, fs) == s && p < |s.ops| && s.ops[p].DirectFill?
    ensures Run(Init(start), longer, fs) && After(Init(start), longer, fs).ops == s.ops[p := Returned(s.ops[p].mine)]
  {
    var mine := s.ops[p].mine;
    longer := Then(start, run, s, Step(p), fs);
    longer := Then(start, longer, Goto(s.(drafts := s.drafts[p := mine]), p, Unlink(mine)), Step(p), fs);
  }

  ghost predicate Agreed(s: State) {
    forall p, q | 0 <= p < |s.ops| && 0 <= q < |s.ops| && s.ops[p].Returned? && s.ops[q].Returned? ::
      s.ops[p].result == s.ops[q].result
  }

  /** From its attempt to link, a caller that finds nothing under the name puts its own bytes there. */
  lemma LinkToReturn(start: Option<Data>, run: seq<Action>, u: State, p: OpId, fs: Setting)
                     returns (longer: seq<Action>)
    requires Run(Init(start), run, fs) && After(Init(start), run, fs) == u
    requires u.path.None? && p < |u.ops| && u.ops[p].Link? && p in u.temps && u.temps[p] == u.ops[p].mine
    ensures Run(Init(start), longer, fs)
    ensures var t := After(Init(start), longer, fs); var mine := u.ops[p].mine;
      t.ops == u.ops[p := Returned(mine)] && t.File() == Some(mine)
  {
    var mine := u.ops[p].mine;
    longer := Then(start, run, u, Step(p), fs);
    if fs.links {
      var v := Goto(u.(path := Some(Whole(mine))), p, Unlink(mine));
      longer := Then(start, longer, v, Step(p), fs);
    } else {
      longer := Then(start, longer, Goto(u, p, Direct(mine)), Step(p), fs);
      longer := DirectAlone(start, longer, u, p, fs);
    }
  }

  lemma DirectAlone(start: Option<Data>, run: seq<Action>, u: State, p: OpId, fs: Setting) returns (longer: seq<Action>)
    requires Run(Init(start), run, fs) && u.path.None? && p < |u.ops| && u.ops[p].Link?
    requires After(Init(start), run, fs) == StepOf(Goto(u, p, Direct(u.ops[p].mine)), p, fs)
    ensures Run(Init(start), longer, fs)
    ensures var t := After(Init(start), longer, fs); var mine := u.ops[p].mine;
      t.ops == u.ops[p := Returned(mine)] && t.File() == Some(mine)
  {
    var mine := u.ops[p].mine;
    var v := u.(path := Some(Draft(p)), drafts := u.drafts[p := []], ops := u.ops[p := DirectFill(mine)]);
    assert After(Init(start), run, fs) == v;
    longer := Then(start, run, v, Step(p), fs);
    var w := v.(drafts := u.drafts[p := mine], ops := u.ops[p := Unlink(mine)]);
    assert After(Init(start), longer, fs) == w;
    longer := Then(start, longer, w, Step(p), fs);
  }

  /** From there, a caller that finds too little replaces it by its own bytes. */
  lemma LinkToReplaced(start: Option<Data>, run: seq<Action>, u: State, p: OpId, fs: Setting)
                       returns (longer: seq<Action>)
    requires Run(Init(start), run, fs) && After(Init(start), run, fs) == u
    requires Short(u.File(), fs) && p < |u.ops| && u.ops[p].Link? && |u.ops[p].mine| == fs.min
    requires p in u.temps && u.temps[p] == u.ops[p].mine
    ensures Run(Init(start), longer, fs)
    ensures var t := After(Init(start), longer, fs); var mine := u.ops[p].mine;
      t.ops == u.ops[p := Returned(mine)] && t.File() == Some(mine)
  {
    hide StepOf, Do, Run, After;
    var mine := u.ops[p].mine;
    longer := LinkToReread(start, run, u, p, fs);
    var v := Goto(u, p, Reread(mine, 0));
    longer := RereadToRegenerate(start, longer, v, p, fs);
    longer := RegenerateToReturn(start, longer, Goto(v, p, Regenerate(mine)), p, fs);
  }

  /**
   A caller that runs alone, from wherever the others have come: it returns what is under the name if that is
   enough, and otherwise its own bytes, which are under the name from then on.
   */
  lemma CallerAlone(start: Option<Data>, run: seq<Action>, s: State, mine: Data, fs: Setting)
                    returns (longer: seq<Action>)
    requires Run(Init(start), run, fs) && After(Init(start), run, fs) == s && |mine| == fs.min
    ensures Run(Init(start), longer, fs)
    ensures var t := After(Init(start), longer, fs);
      var result := if Enough(s.File(), fs.min) then s.File().value else mine;
      t.ops == s.ops + [Returned(result)] && t.File() == Some(result)
  {
    if Enough(s.File(), fs.min) {
      longer := Then(start, run, s, Start, fs);
      longer := Then(start, longer, s.(ops := s.ops + [Read]), Draw(|s.ops|, mine), fs);
    } else {
      longer := FreshAlone(start, run, s, mine, fs);
    }
  }

  lemma FreshAlone(start: Option<Data>, run: seq<Action>, s: State, mine: Data, fs: Setting)
                   returns (longer: seq<Action>)
    requires Run(Init(start), run, fs) && After(Init(start), run, fs) == s && |mine| == fs.min
    requires !Enough(s.File(), fs.min)
    ensures Run(Init(start), longer, fs)
    ensures var t := After(Init(start), longer, fs); t.ops == s.ops + [Returned(mine)] && t.File() == Some(mine)
  {
    hide StepOf, Do, Run, After;
    var p := |s.ops|;
    longer := NewCallerToLink(start, run, s, mine, fs);
    var u := s.(temps := s.temps[p := mine], ops := s.ops + [Link(mine)]);
    assert u.File() == s.File() && u.ops[p := Returned(mine)] == s.ops + [Returned(mine)];
    if s.path.Some? {
      longer := LinkToReplaced(start, longer, u, p, fs);
    } else {
      longer := LinkToReturn(start, longer, u, p, fs);
    }
  }

  lemma InvAgrees(s: State, fs: Setting)
    requires Inv(s, fs)
    ensures Agreed(s)
  {
    assert forall p: OpId | p < |s.ops| :: OpOk(s, p, fs);
    forall p, q | 0 <= p < |s.ops| && 0 <= q < |s.ops| && s.ops[p].Returned? && s.ops[q].Returned?
      ensures s.ops[p].result == s.ops[q].result
    {
      assert OpOk(s, p, fs) && OpOk(s, q, fs);
    }
  }

  /** Exactly when all callers of every run agree: the file was complete, or absent on a filesystem with hard links. */
  lemma AgreementIff(start: Option<Data>, nbytes: nat, links: bool)
    ensures var fs := Setting(Minimum(nbytes), links);
            (forall run | Run(Init(start), run, fs) :: Agreed(After(Init(start), run, fs))) <==> Dependable(start, fs)
  {
    var fs := Setting(Minimum(nbytes), links);
    if Dependable(start, fs) {
      forall run | Run(Init(start), run, fs) ensures Agreed(After(Init(start), run, fs)) {
        RunInv(Init(start), run, fs);
        InvAgrees(After(Init(start), run, fs), fs);
      }
    } else {
      var zeros: Data := seq(fs.min, _ => 0);
      var ones: Data := seq(fs.min, _ => 1);
      assert zeros[0] != ones[0];
      var run := SplitRun(start, fs, zeros, ones);
      var s := After(Init(start), run, fs);
      assert s.ops[0].result != s.ops[1].result;
    }
  }

  lemma SplitRun(start: Option<Data>, fs: Setting, a: Data, b: Data) returns (run: seq<Action>)
    requires !Dependable(start, fs) && fs.min > 0 && |a| == |b| == fs.min && a != b
    ensures Run(Init(start), run, fs) && After(Init(start), run, fs).ops == [Returned(a), Returned(b)]
  {
    if start.Some? {
      run := ShortFileSplitsCallers(start, fs, a, b);
    } else {
      run := NoLinksSplitCallers(fs, a, b);
    }
  }
}
