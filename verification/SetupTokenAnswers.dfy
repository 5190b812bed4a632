/**
 What the calls of the sign-in token protocol answer. In every run without faults the rotate that made the
 permanent marker returns the seed it was given and every other one a fresh token; and from any reachable
 state, a call that runs to its end while the others stand still answers exactly as the live file says.
 */
module SetupTokenAnswers {
  import opened Wrappers
  import opened SetupToken
  import opened SetupTokenSafety
  import opened SetupTokenRestore

  // ---- a consume that runs alone ----

  /** The live file is written to its end and carries this token, or it is cut off and this is what is there of it. */
  predicate LiveReads(s: State, c: Token) {
    && Live in s.dir && s.dir[Live] < |s.files|
    && var file := s.files[s.dir[Live]];
    (file.fill == Full && file.token == c) || (file.fill == Partial && c == Torn(s.dir[Live]))
  }

  /** Starting call `p` with `a` and letting it take `n` steps. */
  function Alone(a: Action, p: OpId, n: nat): seq<Action> {
    if n == 0 then [a] else Alone(a, p, n - 1) + [Step(p)]
  }

  function Steps(s: State, p: OpId, n: nat): State {
    if n == 0 then s else Do(Steps(s, p, n - 1), Step(p))
  }

  lemma {:induction false} AfterConcat(s: State, run: seq<Action>, more: seq<Action>)
    ensures After(s, run + more) == After(After(s, run), more)
    decreases |run|
  {
    if run == [] {
      assert run + more == more;
    } else {
      assert (run + more)[0] == run[0] && (run + more)[1..] == run[1..] + more;
      AfterConcat(Do(s, run[0]), run[1..], more);
    }
  }

  lemma {:induction false} AloneIsSteps(s: State, a: Action, p: OpId, n: nat)
    ensures After(s, Alone(a, p, n)) == Steps(Do(s, a), p, n)
  {
    hide Do;
    if n == 0 {
      assert [a][1..] == [] && After(Do(s, a), []) == Do(s, a);
    } else {
      AloneIsSteps(s, a, p, n - 1);
      AfterConcat(s, Alone(a, p, n - 1), [Step(p)]);
      var t := After(s, Alone(a, p, n - 1));
      assert [Step(p)][1..] == [] && After(Do(t, Step(p)), []) == Do(t, Step(p));
    }
  }

  lemma {:induction false} StepsSplit(s: State, p: OpId, n: nat, m: nat)
    ensures Steps(s, p, n + m) == Steps(Steps(s, p, n), p, m)
  {
    hide Do;
    if m > 0 { StepsSplit(s, p, n, m - 1); }
  }

  /** A finished call takes no further step. */
  lemma {:induction false} Finished(s: State, p: OpId, n: nat)
    requires p < |s.ops| && (s.ops[p].Consumed? || s.ops[p].Rotated?)
    ensures Steps(s, p, n) == s
  {
    hide Do;
    if n > 0 {
      Finished(s, p, n - 1);
      FinishedStands(s, p);
    }
  }

  lemma FinishedStands(s: State, p: OpId)
    requires p < |s.ops| && (s.ops[p].Consumed? || s.ops[p].Rotated?)
    ensures Do(s, Step(p)) == s
  {
  }

  /**
   From every reachable state, whatever failed or died before and wherever the other calls stand: a consume
   that runs alone and meets no fault is accepted if and only if the live file reads as its candidate. An
   accepted one leaves a complete fresh token under the live name; a refused one leaves every name as it was.
   */
  lemma ConsumeAlone(run: seq<Action>, c: Token)
    ensures var s := After(Init, run);
      var p := |s.ops|;
      var t := After(s, Alone(StartConsume(c), p, 6));
      && |t.ops| == p + 1 && t.ops[..p] == s.ops && t.ops[p] == Consumed(c, LiveReads(s, c))
      && t.marker == s.marker
      && (LiveReads(s, c) ==>
            && t.dir == s.dir[Live := |s.files|]
            && t.files == s.files + [File(Random(|s.files|), Full, p)])
      && (!LiveReads(s, c) ==> t.dir == s.dir && t.files == s.files)
  {
    RunInv(Init, run);
    ConsumeAloneFrom(After(Init, run), c);
  }

  lemma ConsumeAloneFrom(s: State, c: Token)
    requires Names(s)
    ensures var p := |s.ops|;
      var t := After(s, Alone(StartConsume(c), p, 6));
      && |t.ops| == p + 1 && t.ops[..p] == s.ops && t.ops[p] == Consumed(c, LiveReads(s, c))
      && t.marker == s.marker
      && (LiveReads(s, c) ==>
            && t.dir == s.dir[Live := |s.files|]
            && t.files == s.files + [File(Random(|s.files|), Full, p)])
      && (!LiveReads(s, c) ==> t.dir == s.dir && t.files == s.files)
  {
    hide After, Alone, Do;
    var p, a := |s.ops|, StartConsume(c);
    var start := Do(s, a);
    AloneIsSteps(s, a, p, 6);
    StepsSplit(start, p, 1, 5);
    var t1 := Steps(start, p, 1);
    assert t1 == Do(Steps(start, p, 0), Step(p));
    if LiveReads(s, c) {
      LookTakes(s, c, t1);
      StepsSplit(t1, p, 2, 3);
      TwoSteps(t1, p);
      ClaimMatches(s, t1, c, Steps(t1, p, 2));
      ThreeSteps(Steps(t1, p, 2), p);
      MatchReplaces(s, Steps(t1, p, 2), c, Steps(t1, p, 5));
    } else {
      LookRefuses(s, c, t1);
      Finished(t1, p, 5);
    }
  }

  lemma TwoSteps(s: State, p: OpId)
    ensures Steps(s, p, 2) == Do(Do(s, Step(p)), Step(p))
  {
    hide Do;
    assert Steps(s, p, 1) == Do(Steps(s, p, 0), Step(p));
  }

  lemma ThreeSteps(s: State, p: OpId)
    ensures Steps(s, p, 3) == Do(Do(Do(s, Step(p)), Step(p)), Step(p))
  {
    hide Do;
    TwoSteps(s, p);
  }

  lemma LookTakes(s: State, c: Token, t: State)
    requires Names(s) && LiveReads(s, c) && t == Do(Do(s, StartConsume(c)), Step(|s.ops|))
    ensures t == s.(ops := s.ops + [Take(c)])
  {
  }

  lemma LookRefuses(s: State, c: Token, t: State)
    requires Names(s) && !LiveReads(s, c) && t == Do(Do(s, StartConsume(c)), Step(|s.ops|))
    ensures t == s.(ops := s.ops + [Consumed(c, false)])
  {
  }

  lemma ClaimMatches(s: State, u: State, c: Token, t: State)
    requires LiveReads(s, c) && u == s.(ops := s.ops + [Take(c)]) && t == Do(Do(u, Step(|s.ops|)), Step(|s.ops|))
    ensures t == s.(ops := s.ops + [Replace(c)], dir := (s.dir - {Live})[Claim(|s.ops|) := s.dir[Live]],
                    source := s.source[|s.ops| := s.dir[Live]])
  {
    var p := |s.ops|;
    var v := Do(u, Step(p));
    assert v == s.(ops := s.ops + [Inspect(c)], dir := (s.dir - {Live})[Claim(p) := s.dir[Live]]);
  }

  lemma MatchReplaces(s: State, u: State, c: Token, t: State)
    requires Live in s.dir && Claim(|s.ops|) !in s.dir
    requires u == s.(ops := s.ops + [Replace(c)], dir := (s.dir - {Live})[Claim(|s.ops|) := s.dir[Live]],
                     source := s.source[|s.ops| := s.dir[Live]])
    requires t == Do(Do(Do(u, Step(|s.ops|)), Step(|s.ops|)), Step(|s.ops|))
    ensures t.ops == s.ops + [Consumed(c, true)] && t.marker == s.marker
    ensures t.dir == s.dir[Live := |s.files|] && t.files == s.files + [File(Random(|s.files|), Full, |s.ops|)]
  {
    var p, i := |s.ops|, |s.files|;
    var v := Do(u, Step(p));
    assert v.ops == s.ops + [ReplaceWrite(c, i)] && v.dir == u.dir[Live := i];
    var w := Do(v, Step(p));
    assert w.ops == s.ops + [Drop(c, Accept)] && w.dir == v.dir;
    assert w.files == s.files + [File(Random(i), Full, p)];
  }

  // ---- a rotate that runs alone ----

  /** The token a rotate is to issue in a file: the seed for the first ever, and otherwise a fresh one. */
  function Due(first: bool, seed: Option<nat>, i: Ino): Token {
    if first && seed.Some? then Seed(seed.value) else Random(i)
  }

  /**
   From every reachable state, a rotate that runs alone and meets no fault puts a complete new file under the
   live name: with its seed if the marker was not there yet, and with a fresh token otherwise.
   */
  lemma RotateAlone(run: seq<Action>, seed: Option<nat>)
    ensures var s := After(Init, run);
      var p, i := |s.ops|, |s.files|;
      var t := After(s, Alone(StartRotate(seed), p, 5));
      && t.ops == s.ops + [Rotated(i)]
      && t.files == s.files + [File(Due(s.marker.None?, seed, i), Full, p)]
      && t.dir == s.dir[Live := i] && t.marker == (if s.marker.None? then Some(p) else s.marker)
  {
    RunInv(Init, run);
    RotateAloneFrom(After(Init, run), seed);
  }

  lemma RotateAloneFrom(s: State, seed: Option<nat>)
    requires Names(s)
    ensures var p, i := |s.ops|, |s.files|;
      var t := After(s, Alone(StartRotate(seed), p, 5));
      && t.ops == s.ops + [Rotated(i)]
      && t.files == s.files + [File(Due(s.marker.None?, seed, i), Full, p)]
      && t.dir == s.dir[Live := i] && t.marker == (if s.marker.None? then Some(p) else s.marker)
  {
    hide After, Alone, Do;
    var p, a := |s.ops|, StartRotate(seed);
    var start := Do(s, a);
    AloneIsSteps(s, a, p, 5);
    var use: Option<nat> := if s.marker.None? then seed else None;
    var u := s.(ops := s.ops + [TempCreate(use)], marker := if s.marker.None? then Some(p) else s.marker);
    ThreeSteps(u, p);
    WritesToken(s, u, use, Steps(u, p, 3));
    if s.marker.None? {
      StepsSplit(start, p, 2, 3);
      TwoSteps(start, p);
      FirstMarks(s, seed, u);
    } else {
      StepsSplit(start, p, 1, 4);
      StepsSplit(u, p, 3, 1);
      assert Steps(start, p, 1) == Do(Steps(start, p, 0), Step(p));
      LaterSkipsMark(s, seed, u);
      Finished(Steps(u, p, 3), p, 1);
    }
  }

  lemma LaterSkipsMark(s: State, seed: Option<nat>, u: State)
    requires s.marker.Some? && u == s.(ops := s.ops + [TempCreate(None)])
    ensures Do(Do(s, StartRotate(seed)), Step(|s.ops|)) == u
  {
  }

  lemma FirstMarks(s: State, seed: Option<nat>, u: State)
    requires s.marker.None? && u == s.(ops := s.ops + [TempCreate(seed)], marker := Some(|s.ops|))
    ensures Do(Do(Do(s, StartRotate(seed)), Step(|s.ops|)), Step(|s.ops|)) == u
  {
    var v := Do(Do(s, StartRotate(seed)), Step(|s.ops|));
    assert v == s.(ops := s.ops + [MarkWrite(seed)], marker := Some(|s.ops|));
  }

  lemma WritesToken(s: State, u: State, use: Option<nat>, t: State)
    requires Temp(|s.files|) !in s.dir && u.files == s.files && u.dir == s.dir && u.ops == s.ops + [TempCreate(use)]
    requires t == Do(Do(Do(u, Step(|s.ops|)), Step(|s.ops|)), Step(|s.ops|))
    ensures t.ops == s.ops + [Rotated(|s.files|)] && t.marker == u.marker
    ensures t.files == s.files + [File(if use.Some? then Seed(use.value) else Random(|s.files|), Full, |s.ops|)]
    ensures t.dir == s.dir[Live := |s.files|]
  {
    var p, i := |s.ops|, |s.files|;
    var v := Do(u, Step(p));
    assert v.ops == s.ops + [TempWrite(i)] && v.dir == s.dir[Temp(i) := i] && |v.files| == i + 1;
    var w := Do(v, Step(p));
    assert w.ops == s.ops + [Publish(i)] && w.dir == v.dir && w.files[..i] == s.files;
  }

  /**
   Signing in works, once: from every reachable state, the token a rotate returns is accepted by the next
   consume of it, and refused by the one after that.
   */
  lemma IssuedTokenSignsInOnce(run: seq<Action>, seed: Option<nat>)
    ensures var s := After(Init, run);
      var c := Due(s.marker.None?, seed, |s.files|);
      var p := |s.ops|;
      var t := After(s, Alone(StartRotate(seed), p, 5));
      var u := After(t, Alone(StartConsume(c), p + 1, 6));
      var v := After(u, Alone(StartConsume(c), p + 2, 6));
      && u.ops == s.ops + [Rotated(|s.files|), Consumed(c, true)]
      && v.ops == s.ops + [Rotated(|s.files|), Consumed(c, true), Consumed(c, false)]
  {
    hide After, Alone, LiveReads;
    var s := After(Init, run);
    var c := Due(s.marker.None?, seed, |s.files|);
    var first := Alone(StartRotate(seed), |s.ops|, 5);
    RotateAlone(run, seed);
    AfterConcat(Init, run, first);
    var t := After(s, first);
    IssuedReads(s, t, c);
    ConsumeAlone(run + first, c);
    var second := Alone(StartConsume(c), |t.ops|, 6);
    AfterConcat(Init, run + first, second);
    var u := After(t, second);
    assert u.ops == t.ops + [Consumed(c, true)];
    SpentReadsNot(s, t, u, c);
    ConsumeAlone(run + first + second, c);
    assert After(u, Alone(StartConsume(c), |u.ops|, 6)).ops == u.ops + [Consumed(c, false)];
  }

  lemma IssuedReads(s: State, t: State, c: Token)
    requires t.files == s.files + [File(c, Full, |s.ops|)] && t.dir == s.dir[Live := |s.files|]
    ensures LiveReads(t, c)
  {
  }

  lemma SpentReadsNot(s: State, t: State, u: State, c: Token)
    requires |t.files| == |s.files| + 1 && (c.Seed? || c == Random(|s.files|))
    requires u.files == t.files + [File(Random(|t.files|), Full, |t.ops|)] && u.dir == t.dir[Live := |t.files|]
    ensures !LiveReads(u, c)
  {
  }

  // ---- one fault ----

  /** A call meets one fault and then runs on alone for `n` steps. */
  function AfterFault(s: State, p: OpId, n: nat): State {
    Steps(Do(s, Fault(p)), p, n)
  }

  /** A seeded rotate whose write fails is not lost: it goes on to issue a fresh token. */
  lemma SeededWriteFallsBack(s: State, p: OpId)
    requires Names(s) && OpFiles(s) && p < |s.ops| && (s.ops[p].TempWrite? || s.ops[p].Publish?)
      && IsSeeded(s, s.ops[p].ino)
    ensures var i, t := |s.files|, AfterFault(s, p, 4);
      && t.ops == s.ops[p := Rotated(i)] && t.files == s.files + [File(Random(i), Full, p)]
      && t.dir == (s.dir - {Temp(s.ops[p].ino)})[Live := i] && t.marker == s.marker
  {
    hide Do;
    var u := Do(s, Fault(p));
    StepsSplit(u, p, 1, 3);
    assert Steps(u, p, 1) == Do(Steps(u, p, 0), Step(p));
    WriteUndone(s, p);
    ThreeSteps(Steps(u, p, 1), p);
    FreshWritten(s, Steps(u, p, 1), p, Steps(u, p, 4));
  }

  lemma WriteUndone(s: State, p: OpId)
    requires OpFiles(s) && p < |s.ops| && (s.ops[p].TempWrite? || s.ops[p].Publish?)
    ensures var seeded := IsSeeded(s, s.ops[p].ino);
      Do(Do(s, Fault(p)), Step(p))
      == s.(ops := s.ops[p := if seeded then TempCreate(None) else Raised], dir := s.dir - {Temp(s.ops[p].ino)})
  {
    assert Do(s, Fault(p)) == s.(ops := s.ops[p := TempUndo(s.ops[p].ino)]);
  }

  lemma FreshWritten(s: State, u: State, p: OpId, t: State)
    requires Names(s) && p < |s.ops| && (s.ops[p].TempWrite? || s.ops[p].Publish?)
    requires u == s.(ops := s.ops[p := TempCreate(None)], dir := s.dir - {Temp(s.ops[p].ino)})
    requires t == Do(Do(Do(u, Step(p)), Step(p)), Step(p))
    ensures t.ops == s.ops[p := Rotated(|s.files|)] && t.files == s.files + [File(Random(|s.files|), Full, p)]
    ensures t.dir == u.dir[Live := |s.files|] && t.marker == s.marker
  {
    var i := |s.files|;
    var v := Do(u, Step(p));
    assert v.ops == s.ops[p := TempWrite(i)] && v.dir == u.dir[Temp(i) := i] && v.files[..i] == s.files;
    var w := Do(v, Step(p));
    assert w.ops == s.ops[p := Publish(i)] && w.dir == v.dir && w.files[..i] == s.files;
  }

  /** A rotate without a seed whose write fails raises, and leaves no temp file and the live name as it was. */
  lemma PlainWriteFails(s: State, p: OpId)
    requires OpFiles(s) && p < |s.ops| && (s.ops[p].TempWrite? || s.ops[p].Publish?) && !IsSeeded(s, s.ops[p].ino)
    ensures AfterFault(s, p, 1) == s.(ops := s.ops[p := Raised], dir := s.dir - {Temp(s.ops[p].ino)})
  {
    hide Do;
    assert AfterFault(s, p, 1) == Do(Steps(Do(s, Fault(p)), p, 0), Step(p));
    WriteUndone(s, p);
  }

  /** A marker that could not be written is withdrawn, so a later rotate can still use its seed. */
  lemma MarkIsWithdrawn(s: State, p: OpId)
    requires p < |s.ops| && s.ops[p].MarkWrite?
    ensures AfterFault(s, p, 1) == s.(ops := s.ops[p := Raised], marker := None)
  {
    assert AfterFault(s, p, 1) == Do(Steps(Do(s, Fault(p)), p, 0), Step(p));
  }

  /** A claim that cannot be read is refused and, unless a newer token has come, put back. */
  lemma UnreadClaimIsRestored(s: State, p: OpId)
    requires p < |s.ops| && s.ops[p].Inspect? && Claim(p) in s.dir
    ensures var t := AfterFault(s, p, 2);
      && t.ops == s.ops[p := Consumed(s.ops[p].c, false)] && t.files == s.files
      && t.dir == (if Live in s.dir then s.dir else s.dir[Live := s.dir[Claim(p)]]) - {Claim(p)}
  {
    hide Steps;
    var u, c := Do(s, Fault(p)), s.ops[p].c;
    TwoSteps(u, p);
    assert u == s.(ops := s.ops[p := Restore(c)]);
    RestoreStep(u, p, c);
    var v := Do(u, Step(p));
    assert v.ops == s.ops[p := Drop(c, Reject)];
    RejectStep(v, p, c);
  }

  lemma RestoreStep(u: State, p: OpId, c: Token)
    requires p < |u.ops| && u.ops[p] == Restore(c) && Claim(p) in u.dir
    ensures Do(u, Step(p)) == u.(ops := u.ops[p := Drop(c, Reject)],
                                 dir := if Live in u.dir then u.dir else u.dir[Live := u.dir[Claim(p)]])
  {
  }

  lemma RejectStep(v: State, p: OpId, c: Token)
    requires p < |v.ops| && v.ops[p] == Drop(c, Reject)
    ensures Do(v, Step(p)) == v.(ops := v.ops[p := Consumed(c, false)], dir := v.dir - {Claim(p)})
  {
  }

  /** A replacement that cannot be written is removed with the claim, and the consume raises. */
  lemma FailedReplacementIsRemoved(s: State, p: OpId)
    requires p < |s.ops| && s.ops[p].ReplaceWrite? && Live in s.dir && s.dir[Live] == s.ops[p].ino
    ensures AfterFault(s, p, 3) == s.(ops := s.ops[p := Raised], dir := s.dir - {Live, Claim(p)})
  {
    var u := Do(s, Fault(p));
    ThreeSteps(u, p);
    var c := s.ops[p].c;
    assert u == s.(ops := s.ops[p := ReplaceUndo(c, s.ops[p].ino)]);
    var v := Do(u, Step(p));
    assert v == s.(ops := s.ops[p := ReplaceUnlink(c)]);
    var w := Do(v, Step(p));
    assert w == s.(ops := s.ops[p := Drop(c, Fail)], dir := s.dir - {Live});
    assert (s.dir - {Live}) - {Claim(p)} == s.dir - {Live, Claim(p)};
  }

  /** A matched claim that cannot be replaced makes the consume raise, and the claim goes all the same. */
  lemma UnreplacedClaimRaises(s: State, p: OpId)
    requires p < |s.ops| && s.ops[p].Replace?
    ensures AfterFault(s, p, 1) == s.(ops := s.ops[p := Raised], dir := s.dir - {Claim(p)})
  {
    hide Steps;
    OneStep(Do(s, Fault(p)), p);
  }

  /** A consume that fails before it has claimed anything is refused and changes nothing. */
  lemma UnclaimedIsRefused(s: State, p: OpId)
    requires p < |s.ops| && (s.ops[p].Look? || s.ops[p].Take?)
    ensures Do(s, Fault(p)) == s.(ops := s.ops[p := Consumed(s.ops[p].c, false)])
  {
  }

  /** A claim that cannot be put back is dropped and refused. */
  lemma UnrestoredIsRefused(s: State, p: OpId)
    requires p < |s.ops| && s.ops[p].Restore?
    ensures AfterFault(s, p, 1)
         == s.(ops := s.ops[p := Consumed(s.ops[p].c, false)], dir := s.dir - {Claim(p)})
  {
    hide Steps;
    OneStep(Do(s, Fault(p)), p);
  }

  /** A claim file that cannot be removed changes no answer. */
  lemma LeftClaimKeepsTheAnswer(s: State, p: OpId)
    requires p < |s.ops| && s.ops[p].Drop?
    ensures Do(s, Fault(p)).ops == Do(s, Step(p)).ops && Do(s, Fault(p)).dir == s.dir
    ensures Do(s, Step(p)).dir == s.dir - {Claim(p)}
    ensures Do(s, Step(p)).ops[p] == match s.ops[p].verdict
                                     case Accept => Consumed(s.ops[p].c, true)
                                     case Reject => Consumed(s.ops[p].c, false)
                                     case Fail => Raised
  {
  }

  /** A rotate that cannot create its marker raises; without a temp file it raises too, or gives up its seed. */
  lemma UncreatedFilesChangeNothing(s: State, p: OpId)
    requires p < |s.ops| && (s.ops[p].Mark? || s.ops[p].TempCreate?)
    ensures Do(s, Fault(p)) == s.(ops := s.ops[p := if s.ops[p].TempCreate? && s.ops[p].use.Some?
                                                    then TempCreate(None) else Raised])
  {
  }

  /** When taking back a failed write fails as well, the file stays and the answer is the one of the failed write. */
  lemma FailedUndoKeepsTheAnswer(s: State, p: OpId)
    requires p < |s.ops| && (s.ops[p].MarkUndo? || s.ops[p].TempUndo?)
    ensures Do(s, Fault(p)) == s.(ops := s.ops[p := if s.ops[p].TempUndo? && IsSeeded(s, s.ops[p].ino)
                                                    then TempCreate(None) else Raised])
    ensures Do(s, Fault(p)).ops == Do(s, Step(p)).ops
  {
  }

  /** The same for a replacement: the consume still raises, and still removes its claim. */
  lemma FailedReplaceUndoRaises(s: State, p: OpId)
    requires p < |s.ops| && (s.ops[p].ReplaceUndo? || s.ops[p].ReplaceUnlink?)
    ensures AfterFault(s, p, 1) == s.(ops := s.ops[p := Raised], dir := s.dir - {Claim(p)})
  {
    hide Steps;
    OneStep(Do(s, Fault(p)), p);
  }

  lemma OneStep(s: State, p: OpId)
    ensures Steps(s, p, 1) == Do(s, Step(p))
  {
    hide Do;
    assert Steps(s, p, 0) == s;
  }

  // ---- rotates among other calls ----

  /** What each call of a run was started with, in the order of the calls. */
  function Starts(run: seq<Action>): seq<Action> {
    if run == [] then []
    else (if run[0].StartRotate? || run[0].StartConsume? then [run[0]] else []) + Starts(run[1..])
  }

  /** The token call `p` is to put into a file: its seed if it made the marker. */
  function DueOf(s: State, started: seq<Action>, p: OpId, i: Ino): Token
    requires p < |started| && started[p].StartRotate?
  {
    Due(s.marker == Some(p), started[p].seed, i)
  }

  predicate InTemp(s: State, started: seq<Action>, p: OpId, i: Ino)
    requires p < |started| && started[p].StartRotate?
  {
    Temp(i) in s.dir && i < |s.files| && s.files[i].token == DueOf(s, started, p, i)
  }

  /** How far a call has come agrees with what it was started with. */
  predicate OnCourse(s: State, started: seq<Action>, p: OpId)
    requires p < |s.ops| == |started|
  {
    if started[p].StartConsume? then s.ops[p].Consuming() || s.ops[p].Consumed?
    else
      && started[p].StartRotate?
      && match s.ops[p]
         case Mark(seed) => seed == started[p].seed && s.marker != Some(p)
         case MarkWrite(seed) => seed == started[p].seed && s.marker == Some(p)
         case TempCreate(use) => s.marker.Some? && use == if s.marker == Some(p) then started[p].seed else None
         case TempWrite(i) => s.marker.Some? && InTemp(s, started, p, i)
         case Publish(i) => s.marker.Some? && InTemp(s, started, p, i)
         case Rotated(i) => s.marker.Some? && i < |s.files| && s.files[i].token == DueOf(s, started, p, i)
         case _ => false
  }

  ghost predicate AllOnCourse(s: State, started: seq<Action>) {
    && |started| == |s.ops| && (s.marker.Some? ==> s.marker.value < |s.ops|)
    && forall p: OpId | p < |s.ops| :: OnCourse(s, started, p)
  }

  /** A step of one call leaves the others on course: it adds files, and unlinks no temp name but its own. */
  lemma OthersOnCourse(s: State, t: State, started: seq<Action>, p: OpId)
    requires AllOnCourse(s, started) && |t.ops| == |s.ops| && (s.marker.Some? ==> t.marker == s.marker)
    requires t.marker == s.marker || t.marker == Some(p)
    requires |s.files| <= |t.files| && forall i | 0 <= i < |s.files| :: t.files[i].token == s.files[i].token
    requires forall q: OpId | q < |s.ops| && q != p :: t.ops[q] == s.ops[q]
    requires forall q: OpId, i: Ino | q < |s.ops| && q != p && Holds(s, ByOp(q), i) && Temp(i) in s.dir ::
      Temp(i) in t.dir
    requires p < |t.ops| && OnCourse(t, started, p)
    ensures AllOnCourse(t, started)
  {
    forall q: OpId | q < |t.ops| ensures OnCourse(t, started, q) {
      if q != p {
        assert OnCourse(s, started, q);
        if s.ops[q].TempWrite? || s.ops[q].Publish? { assert Holds(s, ByOp(q), s.ops[q].ino); }
      }
    }
  }

  lemma RotateOnCourse(s: State, started: seq<Action>, p: OpId)
    requires Names(s) && Custody(s) && AllOnCourse(s, started) && p < |s.ops| && !s.ops[p].Consuming()
    ensures AllOnCourse(StepRotate(s, p), started)
  {
    var t := StepRotate(s, p);
    assert OnCourse(s, started, p);
    if s.ops[p].Publish? { assert Holds(s, ByOp(p), s.ops[p].ino); }
    OthersOnCourse(s, t, started, p);
  }

  lemma ConsumeOnCourse(s: State, started: seq<Action>, p: OpId)
    requires AllOnCourse(s, started) && p < |s.ops| && s.ops[p].Consuming() && AllSound(s)
    ensures AllOnCourse(StepConsume(s, p), started)
  {
    var t := StepConsume(s, p);
    assert OnCourse(s, started, p);
    OthersOnCourse(s, t, started, p);
  }

  lemma StartOnCourse(s: State, started: seq<Action>, a: Action)
    requires AllOnCourse(s, started) && (a.StartRotate? || a.StartConsume?)
    ensures AllOnCourse(Do(s, a), started + [a])
  {
    var t := Do(s, a);
    forall p: OpId | p < |t.ops| ensures OnCourse(t, started + [a], p) {
      if p < |s.ops| { assert OnCourse(s, started, p) && t.ops[p] == s.ops[p] && (started + [a])[p] == started[p]; }
    }
  }

  lemma TearOnCourse(s: State, started: seq<Action>, p: OpId)
    requires AllOnCourse(s, started)
    ensures AllOnCourse(Do(s, Tear(p)), started)
  {
    var t := Do(s, Tear(p));
    assert t.ops == s.ops && t.dir == s.dir && t.marker == s.marker && |t.files| == |s.files|;
    assert forall i | 0 <= i < |s.files| :: t.files[i].token == s.files[i].token;
    forall q: OpId | q < |t.ops| ensures OnCourse(t, started, q) { assert OnCourse(s, started, q); }
  }

  lemma DoOnCourse(s: State, started: seq<Action>, a: Action)
    requires Names(s) && Custody(s) && AllSound(s) && AllOnCourse(s, started) && FaultFree(a)
    ensures AllOnCourse(Do(s, a), started + Starts([a]))
  {
    assert Starts([a]) == if a.StartRotate? || a.StartConsume? then [a] else [] by { assert [a][1..] == []; }
    assert started + [] == started;
    hide AllOnCourse, Names, Custody, AllSound, StepRotate, StepConsume, Starts;
    match a
    case StartRotate(_) => StartOnCourse(s, started, a);
    case StartConsume(_) => StartOnCourse(s, started, a);
    case Tear(p) => TearOnCourse(s, started, p);
    case Step(p) =>
      if p < |s.ops| {
        if s.ops[p].Consuming() { ConsumeOnCourse(s, started, p); } else { RotateOnCourse(s, started, p); }
      }
  }

  lemma {:induction false} RunOnCourse(s: State, started: seq<Action>, run: seq<Action>)
    requires Inv(s) && AllSound(s) && AllOnCourse(s, started) && NoFaults(run)
    ensures AllOnCourse(After(s, run), started + Starts(run))
    decreases |run|
  {
    hide AllOnCourse, AllSound, Inv, Do, Starts;
    if run == [] {
      StartsNone();
      assert started + [] == started;
    } else {
      var a := run[0];
      assert FaultFree(a);
      assert NoFaults(run[1..]) by { assert forall i | 0 <= i < |run| - 1 :: run[1..][i] == run[i + 1]; }
      DoInv(s, a);
      DoSoundly(s, a);
      KeepsCustody(s);
      DoOnCourse(s, started, a);
      RunOnCourse(Do(s, a), started + Starts([a]), run[1..]);
      StartsSplit(run);
      assert (started + Starts([a])) + Starts(run[1..]) == started + Starts(run);
    }
  }

  lemma StartsNone()
    ensures Starts([]) == []
  {
  }

  lemma StartsSplit(run: seq<Action>)
    requires run != []
    ensures Starts(run) == Starts([run[0]]) + Starts(run[1..])
  {
    assert [run[0]][1..] == [];
  }

  lemma KeepsCustody(s: State)
    requires Inv(s)
    ensures Names(s) && Custody(s)
  {
  }

  lemma DoSoundly(s: State, a: Action)
    requires Inv(s) && AllSound(s) && FaultFree(a)
    ensures AllSound(Do(s, a))
  {
    DoSound(s, a);
  }

  /**
   In every run without faults, however the calls interleave: a rotate that has returned was issued its seed
   if it is the one that made the marker, and a fresh token otherwise; and once one has returned there is one
   that made the marker.
   */
  lemma RotateIssues(run: seq<Action>, p: OpId)
    requires NoFaults(run) && p < |After(Init, run).ops| && After(Init, run).ops[p].Rotated?
    ensures var s := After(Init, run);
      && |Starts(run)| == |s.ops| && Starts(run)[p].StartRotate? && s.marker.Some? && s.ops[p].ino < |s.files|
      && s.files[s.ops[p].ino].token == Due(s.marker == Some(p), Starts(run)[p].seed, s.ops[p].ino)
  {
    hide Names, OpFiles, FreshTokens, Custody, SeedOnce, MatchedTokens, AllSound;
    StartsSound(Init);
    RunOnCourse(Init, [], run);
    assert [] + Starts(run) == Starts(run);
    assert OnCourse(After(Init, run), Starts(run), p);
  }
}
