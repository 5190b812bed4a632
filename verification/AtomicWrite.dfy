/**
 `EnvFile.write` as a sequence of file-system calls: the backup and then the main file are
 each written to a private temp file, piece by piece, and renamed into place with a bounded
 retry. A crash may stop the sequence after any call; a call may fail.
 */
module AtomicWrite {
  import opened Wrappers

  const REPLACE_RETRY_ATTEMPTS := 5

  datatype Target = Backup | Main

  datatype Stage =
    | Begin
    | Create(target: Target)
    | Write(target: Target, done: nat)
    | Rename(target: Target, attempt: nat)
    | Cleanup
    | Done
    | Failed

  /** `backup` asks for a backup; `before` and `bakBefore` are the files as the write found them. */
  datatype Job = Job(backup: bool, before: Option<string>, bakBefore: Option<string>, text: string)
  {
    predicate WantsBackup() {
      backup && before.Some?
    }

    /** What a stage writes: the complete previous content to the backup, the new text to the main file. */
    function Data(target: Target): string {
      if target == Backup then (if before.Some? then before.value else "") else text
    }
  }

  datatype State = State(main: Option<string>, bak: Option<string>, temp: Option<string>, stage: Stage)

  function Init(job: Job): State {
    State(job.before, job.bakBefore, None, Begin)
  }

  datatype Action =
    | Next                 // the next call succeeds
    | WritePart(n: nat)    // a short write of n more characters
    | Busy                 // the rename is refused for now
    | Error                // the next call fails for good

  function Step(job: Job, s: State): State {
    match s.stage
    case Begin => s.(stage := Create(if job.WantsBackup() then Backup else Main))
    case Create(target) => s.(temp := Some(""), stage := Write(target, 0))
    case Write(target, _) => s.(temp := Some(job.Data(target)), stage := Rename(target, 0))
    case Rename(Backup, _) => s.(bak := s.temp, temp := None, stage := Create(Main))
    case Rename(Main, _) => s.(main := s.temp, temp := None, stage := Done)
    case Cleanup => s.(temp := None, stage := Failed)
    case _ => s
  }

  function Do(job: Job, s: State, a: Action): State {
    match a
    case Next => Step(job, s)
    case WritePart(n) =>
      if s.stage.Write? && s.stage.done + n <= |job.Data(s.stage.target)|
      then s.(temp := Some(job.Data(s.stage.target)[..s.stage.done + n]),
          stage := Write(s.stage.target, s.stage.done + n))
      else s
    case Busy =>
      if s.stage.Rename? then
        if s.stage.attempt + 1 < REPLACE_RETRY_ATTEMPTS
        then s.(stage := Rename(s.stage.target, s.stage.attempt + 1))
        else s.(stage := Cleanup)
      else s
    case Error =>
      match s.stage
      case Begin => s.(stage := Failed)
      case Create(_) => s.(stage := Failed)
      case Write(_, _) => s.(stage := Cleanup)
      case Rename(_, _) => s.(stage := Cleanup)
      case Cleanup => s.(stage := Failed)
      case _ => s
  }

  function After(job: Job, s: State, run: seq<Action>): State
    decreases |run|
  {
    if run == [] then s else After(job, Do(job, s, run[0]), run[1..])
  }

  /** The main file has been replaced. */
  predicate Replaced(s: State) {
    s.stage.Done?
  }

  predicate PastBackup(s: State) {
    (s.stage.Create? || s.stage.Write? || s.stage.Rename?) && s.stage.target == Main
  }

  ghost predicate Inv(job: Job, s: State) {
    && (if Replaced(s) then s.main == Some(job.text) else s.main == job.before)
    && (s.bak == job.bakBefore || (job.WantsBackup() && s.bak == job.before))
    && (job.WantsBackup() && (Replaced(s) || PastBackup(s)) ==> s.bak == job.before)
    && (s.stage.Rename? ==> s.temp == Some(job.Data(s.stage.target)))
    && ((s.stage.Create? || s.stage.Write? || s.stage.Rename?) && s.stage.target == Backup ==> job.WantsBackup())
    && (!job.WantsBackup() ==> s.bak == job.bakBefore)
  }

  lemma {:induction false} RunInv(job: Job, s: State, run: seq<Action>)
    requires Inv(job, s)
    ensures Inv(job, After(job, s, run))
    decreases |run|
  {
    if run != [] {
      RunInv(job, Do(job, s, run[0]), run[1..]);
    }
  }

  /**
   Wherever the write stops, the main file is the complete old or the complete new content,
   the backup is complete too, and once the main file is new the backup is exactly the old
   content if one was wanted and otherwise untouched.
   */
  lemma StoppedWriteIsComplete(job: Job, run: seq<Action>)
    ensures var s := After(job, Init(job), run);
      && s.main == (if Replaced(s) then Some(job.text) else job.before)
      && (s.bak == job.bakBefore || s.bak == job.before)
      && (Replaced(s) ==> s.bak == if job.WantsBackup() then job.before else job.bakBefore)
  {
    RunInv(job, Init(job), run);
  }

  /**
   Where a stopped write can leave the two files: both old, the old file with its copy as backup, or the
   new one with it.
   */
  ghost predicate Allowed(job: Job, main: Option<string>, bak: Option<string>) {
    || (main == job.before && bak == job.bakBefore)
    || (main == job.before && job.WantsBackup() && bak == job.before)
    || (main == Some(job.text) && bak == if job.WantsBackup() then job.before else job.bakBefore)
  }

  lemma StoppedIsAllowed(job: Job, run: seq<Action>)
    ensures var s := After(job, Init(job), run); Allowed(job, s.main, s.bak)
    ensures var s := After(job, Init(job), run); !Replaced(s) ==> s.main == job.before
  {
    RunInv(job, Init(job), run);
  }

  /** Each of them is reached by stopping a write in which nothing fails. */
  lemma AllowedIsReached(job: Job, main: Option<string>, bak: Option<string>) returns (run: seq<Action>)
    requires Allowed(job, main, bak)
    ensures var s := After(job, Init(job), run); s.main == main && s.bak == bak
  {
    if main == job.before && bak == job.bakBefore {
      run := [];
    } else if main == job.before && job.WantsBackup() && bak == job.before {
      run := [Next, Next, Next, Next];
      FourNext(job, Init(job));
    } else {
      run := [Next, Next, Next, Next, Next, Next, Next];
      CompletesAlone(job);
      RunInv(job, Init(job), run);
    }
  }

  lemma FourNext(job: Job, s: State)
    ensures After(job, s, [Next, Next, Next, Next]) == Step(job, Step(job, Step(job, Step(job, s))))
  {
    var four := [Next, Next, Next, Next];
    assert four[1..] == [Next, Next, Next] && four[1..][1..] == [Next, Next];
    assert [Next, Next][1..] == [Next] && [Next][1..] == [];
    var t := Step(job, Step(job, s));
    assert After(job, s, four) == After(job, t, [Next, Next]);
    assert After(job, t, [Next, Next]) == After(job, Step(job, t), [Next]);
    assert After(job, Step(job, t), [Next]) == After(job, Step(job, Step(job, t)), []);
  }

  /** With no failure the write completes, whatever the short writes. */
  lemma CompletesAlone(job: Job)
    ensures Replaced(After(job, Init(job), [Next, Next, Next, Next, Next, Next, Next]))
  {
    var all := [Next, Next, Next, Next, Next, Next, Next];
    var s1 := Do(job, Init(job), Next);
    var s2 := Do(job, s1, Next);
    var s3 := Do(job, s2, Next);
    var s4 := Do(job, s3, Next);
    assert After(job, Init(job), all) == After(job, s1, all[1..]) == After(job, s2, all[1..][1..]);
    assert all[1..][1..] == [Next, Next, Next, Next, Next];
    FiveMore(job, s2);
  }

  lemma FiveMore(job: Job, s: State)
    ensures After(job, s, [Next, Next, Next, Next, Next])
            == Step(job, Step(job, Step(job, Step(job, Step(job, s)))))
  {
    var five := [Next, Next, Next, Next, Next];
    assert five[1..] == [Next, Next, Next, Next] && five[1..][1..] == [Next, Next, Next];
    assert [Next, Next, Next][1..] == [Next, Next] && [Next, Next][1..] == [Next] && [Next][1..] == [];
    var s1 := Step(job, s);
    var s2 := Step(job, s1);
    assert After(job, s, five) == After(job, s2, [Next, Next, Next]);
    var s3 := Step(job, s2);
    var s4 := Step(job, s3);
    assert After(job, s2, [Next, Next, Next]) == After(job, s4, [Next]);
    assert After(job, s4, [Next]) == After(job, Step(job, s4), []);
  }

  // ---- retries and clean-up ----

  /** A rename that is refused for now is tried again, five times in all, with nothing else changed. */
  lemma {:induction false} BusyRename(job: Job, s: State, n: nat)
    requires s.stage.Rename? && s.stage.attempt == 0 && n <= 5
    ensures After(job, s, seq(n, i => Busy))
         == s.(stage := if n < 5 then Rename(s.stage.target, n) else Cleanup)
  {
    if n > 0 {
      BusyRename(job, s, n - 1);
      var fewer := seq(n - 1, i => Busy);
      assert seq(n, i => Busy) == fewer + [Busy];
      AfterOneMore(job, s, fewer, Busy);
    } else {
      assert seq(0, i => Busy) == [];
    }
  }

  lemma {:induction false} AfterOneMore(job: Job, s: State, run: seq<Action>, a: Action)
    ensures After(job, s, run + [a]) == Do(job, After(job, s, run), a)
    decreases |run|
  {
    if run == [] {
      assert [] + [a] == [a] && [a][1..] == [];
      assert After(job, Do(job, s, a), []) == Do(job, s, a);
    } else {
      assert (run + [a])[0] == run[0] && (run + [a])[1..] == run[1..] + [a];
      AfterOneMore(job, Do(job, s, run[0]), run[1..], a);
    }
  }

  /** Up to four refusals of each rename cost nothing: the write still completes. */
  lemma CompletesThroughBusy(job: Job, s: State, n: nat)
    requires s.stage == Rename(Main, 0) && s.temp == Some(job.text) && n <= 4
    ensures After(job, s, seq(n, i => Busy) + [Next]) == s.(main := Some(job.text), temp := None, stage := Done)
  {
    BusyRename(job, s, n);
    AfterOneMore(job, s, seq(n, i => Busy), Next);
  }

  /** How many calls have to succeed before the main file is replaced. */
  function Remaining(stage: Stage): nat {
    match stage
    case Begin => 7
    case Create(target) => if target == Backup then 6 else 3
    case Write(target, _) => if target == Backup then 5 else 2
    case Rename(target, _) => if target == Backup then 4 else 1
    case _ => 0
  }

  function Count(run: seq<Action>, a: Action): nat {
    multiset(run)[a]
  }

  /** No error, at most four busy renames in all, and as many successful calls as the write has. */
  predicate Smooth(run: seq<Action>) {
    Error !in run && Count(run, Busy) <= 4 && Count(run, Next) >= 7
  }

  /** In whatever pieces the text is written, such a write completes. */
  lemma SmoothWriteCompletes(job: Job, run: seq<Action>)
    requires Smooth(run)
    ensures var s := After(job, Init(job), run);
      s.stage == Done && s.main == Some(job.text) && (job.WantsBackup() ==> s.bak == job.before)
  {
    SmoothCompletes(job, Init(job), run);
    StoppedWriteIsComplete(job, run);
  }

  lemma {:induction false} SmoothCompletes(job: Job, s: State, run: seq<Action>)
    requires Error !in run && !s.stage.Cleanup? && !s.stage.Failed?
    requires Count(run, Busy) + (if s.stage.Rename? then s.stage.attempt else 0) <= 4
    requires Count(run, Next) >= Remaining(s.stage)
    ensures After(job, s, run).stage == Done
    decreases |run|
  {
    if run != [] {
      assert run == [run[0]] + run[1..];
      SmoothCompletes(job, Do(job, s, run[0]), run[1..]);
    }
  }

  /** The temp file never holds anything but the front of what is being written. */
  ghost predicate TempIsAFront(job: Job, s: State) {
    match s.stage
    case Write(target, done) => done <= |job.Data(target)| && s.temp == Some(job.Data(target)[..done])
    case Rename(target, attempt) => attempt < 5 && s.temp == Some(job.Data(target))
    case _ => true
  }

  lemma {:induction false} TempStaysAFront(job: Job, s: State, run: seq<Action>)
    requires TempIsAFront(job, s)
    ensures TempIsAFront(job, After(job, s, run))
    decreases |run|
  {
    if run != [] {
      TempStaysAFront(job, Do(job, s, run[0]), run[1..]);
    }
  }

  ghost predicate TempOnlyWhileWriting(s: State) {
    s.stage.Begin? || s.stage.Create? || s.stage.Done? || s.stage.Failed? ==> s.temp == None
  }

  /** Removing the temp file is itself what fails, in some step of the run. */
  predicate CleanupFails(job: Job, s: State, run: seq<Action>)
    decreases |run|
  {
    run != [] && ((s.stage.Cleanup? && run[0] == Error) || CleanupFails(job, Do(job, s, run[0]), run[1..]))
  }

  lemma {:induction false} TempsAreTidy(job: Job, s: State, run: seq<Action>)
    requires TempOnlyWhileWriting(s) && !CleanupFails(job, s, run)
    ensures TempOnlyWhileWriting(After(job, s, run))
    decreases |run|
  {
    if run != [] { TempsAreTidy(job, Do(job, s, run[0]), run[1..]); }
  }

  /** However a write goes, when it returns or raises its temp file is gone, unless removing it is what failed. */
  lemma NoTempLeft(job: Job, run: seq<Action>)
    requires !CleanupFails(job, Init(job), run)
    ensures var s := After(job, Init(job), run); s.stage.Done? || s.stage.Failed? ==> s.temp == None
  {
    TempsAreTidy(job, Init(job), run);
  }

  /** An error of any call leads to a raise, after removing the temp file if there is one. */
  lemma ErrorRaises(job: Job, s: State)
    requires !s.stage.Done? && !s.stage.Failed?
    ensures var t := Do(job, s, Error);
      t.main == s.main && t.bak == s.bak && (t.stage == Failed
          || (t.stage == Cleanup && Do(job, t, Next).stage == Failed))
  {
  }
}
