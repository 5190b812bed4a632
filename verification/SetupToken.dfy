/**
 The one-time sign-in token protocol of `SetupTokenStore`.

 Any number of `rotate` and `consume` calls, in any number of processes, share one
 directory. Each call is an operation with a program counter (`Op`); one `Step` runs its
 next file-system call. A call may also meet an I/O error (`Fault`), write only part of its
 buffer (`Tear`), or die (`Crash`), and a name may be removed under it (`Vanish`: a sweep
 of siblings judged stale, or a lost token file).
 */
module SetupToken {
  import opened Wrappers

  type Ino = nat
  type OpId = nat

  /** A launcher seed, the random token drawn for one file, or the torn prefix of a file being written. */
  datatype Token = Seed(s: nat) | Random(n: Ino) | Torn(torn: Ino)

  datatype Fill = Empty | Partial | Full

  /** A regular file: the token it is created for, how much of it is written, and its creator. */
  datatype File = File(token: Token, fill: Fill, maker: OpId)

  /** The live token name, a private temp name (one per file), a private claim name (one per consume). */
  datatype Name = Live | Temp(f: Ino) | Claim(owner: OpId)

  datatype Verdict = Accept | Reject | Fail

  datatype Op =
    // rotate
    | Mark(seed: Option<nat>)
    | MarkWrite(seed: Option<nat>)
    | MarkUndo
    | TempCreate(use: Option<nat>)
    | TempWrite(ino: Ino)
    | Publish(ino: Ino)
    | TempUndo(ino: Ino)
    | Rotated(ino: Ino)
    // consume
    | Look(c: Token)
    | Take(c: Token)
    | Inspect(c: Token)
    | Replace(c: Token)
    | ReplaceWrite(c: Token, ino: Ino)
    | ReplaceUndo(c: Token, ino: Ino)
    | ReplaceUnlink(c: Token)
    | Restore(c: Token)
    | Drop(c: Token, verdict: Verdict)
    | Consumed(c: Token, ok: bool)
    // both
    | Raised
    | Crashed
  {
    predicate Active() {
      !Rotated? && !Consumed? && !Raised? && !Crashed?
    }

    /** A consume that has not finished. */
    predicate Consuming() {
      Look? || Take? || Inspect? || Replace? || ReplaceWrite? || ReplaceUndo? || ReplaceUnlink? || Restore? || Drop?
    }
  }

  /** One publication of a file under the live name, by a rotate or as a consume's replacement. */
  datatype Issue = Issue(ino: Ino, byRotate: bool)

  /**
   `dir` maps names to files, so a hard link is two names with one file. `marker` is the
   permanent "seeded" marker and the operation that created it. `issued` and `source` are
   histories: publications under the live name, and the file each matched consume matched.
   */
  datatype State = State(
    dir: map<Name, Ino>,
    files: seq<File>,
    marker: Option<OpId>,
    ops: seq<Op>,
    issued: seq<Issue>,
    source: map<OpId, Ino>)
  {
    /** What reading a name gives; `None` for a missing or still empty file. */
    function Read(name: Name): Option<Token> {
      if name !in dir || dir[name] >= |files| then None
      else
        var i := dir[name];
        match files[i].fill
        case Empty => None
        case Partial => Some(Torn(i))
        case Full => Some(files[i].token)
    }

    predicate Quiescent() {
      forall p | 0 <= p < |ops| :: !ops[p].Active()
    }
  }

  const Init := State(map[], [], None, [], [], map[])

  datatype Action =
    | StartRotate(seed: Option<nat>)
    | StartConsume(c: Token)
    | Step(p: OpId)
    | Fault(p: OpId)
    | Tear(p: OpId)
    | Crash(p: OpId)
    | Vanish(name: Name)

  function Goto(s: State, p: OpId, op: Op): State
    requires p < |s.ops|
  {
    s.(ops := s.ops[p := op])
  }

  /** After a failed first write the seed is given up for a random token; otherwise the error propagates. */
  function AfterFailedWrite(seeded: bool): Op {
    if seeded then TempCreate(None) else Raised
  }

  function SetFill(s: State, i: Ino, fill: Fill): State {
    if i < |s.files| then s.(files := s.files[i := s.files[i].(fill := fill)]) else s
  }

  function IsSeeded(s: State, i: Ino): bool {
    i < |s.files| && s.files[i].token.Seed?
  }

  /** The next file-system call of a rotate, succeeding. */
  function StepRotate(s: State, p: OpId): State
    requires p < |s.ops|
  {
    match s.ops[p]
    case Mark(seed) =>
      if s.marker.None? then Goto(s.(marker := Some(p)), p, MarkWrite(seed)) else Goto(s, p, TempCreate(None))
    case MarkWrite(seed) => Goto(s, p, TempCreate(seed))
    case MarkUndo => Goto(s.(marker := None), p, Raised)
    case TempCreate(use) =>
      var i := |s.files|;
      var token := if use.Some? then Seed(use.value) else Random(i);
      Goto(s.(files := s.files + [File(token, Empty, p)], dir := s.dir[Temp(i) := i]), p, TempWrite(i))
    case TempWrite(i) => Goto(SetFill(s, i, Full), p, Publish(i))
    case Publish(i) =>
      if Temp(i) in s.dir then
        Goto(s.(dir := (s.dir - {Temp(i)})[Live := s.dir[Temp(i)]], issued := s.issued + [Issue(i, true)]), p,
            Rotated(i))
      else Goto(s, p, TempUndo(i))
    case TempUndo(i) => Goto(s.(dir := s.dir - {Temp(i)}), p, AfterFailedWrite(IsSeeded(s, i)))
    case _ => s
  }

  /** The next file-system call of a consume, succeeding. */
  function StepConsume(s: State, p: OpId): State
    requires p < |s.ops|
  {
    match s.ops[p]
    case Look(c) => Goto(s, p, if s.Read(Live) == Some(c) then Take(c) else Consumed(c, false))
    case Take(c) =>
      if Live in s.dir then Goto(s.(dir := (s.dir - {Live})[Claim(p) := s.dir[Live]]), p, Inspect(c))
      else Goto(s, p, Consumed(c, false))
    case Inspect(c) =>
      if s.Read(Claim(p)) == Some(c)
      then Goto(s.(source := s.source[p := s.dir[Claim(p)]]), p, Replace(c))
      else Goto(s, p, Restore(c))
    case Replace(c) =>
      if Live in s.dir then Goto(s, p, Drop(c, Accept))
      else
        var i := |s.files|;
        Goto(s.(files := s.files + [File(Random(i), Empty, p)], dir := s.dir[Live := i],
                issued := s.issued + [Issue(i, false)]), p, ReplaceWrite(c, i))
    case ReplaceWrite(c, i) => Goto(SetFill(s, i, Full), p, Drop(c, Accept))
    case ReplaceUndo(c, i) =>
      Goto(s, p, if Live in s.dir && s.dir[Live] == i then ReplaceUnlink(c) else Drop(c, Fail))
    case ReplaceUnlink(c) => Goto(s.(dir := s.dir - {Live}), p, Drop(c, Fail))
    case Restore(c) =>
      if Claim(p) in s.dir && Live !in s.dir
      then Goto(s.(dir := s.dir[Live := s.dir[Claim(p)]]), p, Drop(c, Reject))
      else Goto(s, p, Drop(c, Reject))
    case Drop(c, verdict) => Goto(s.(dir := s.dir - {Claim(p)}), p, AfterDrop(c, verdict))
    case _ => s
  }

  function AfterDrop(c: Token, verdict: Verdict): Op {
    if verdict == Fail then Raised else Consumed(c, verdict == Accept)
  }

  /** The next file-system call of an operation, failing with an I/O error and changing nothing. */
  function FaultOf(s: State, p: OpId): Op
    requires p < |s.ops|
  {
    match s.ops[p]
    case Mark(_) => Raised
    case MarkWrite(_) => MarkUndo
    case MarkUndo => Raised
    case TempCreate(use) => AfterFailedWrite(use.Some?)
    case TempWrite(i) => TempUndo(i)
    case Publish(i) => TempUndo(i)
    case TempUndo(i) => AfterFailedWrite(IsSeeded(s, i))
    case Look(c) => Consumed(c, false)
    case Take(c) => Consumed(c, false)
    case Inspect(c) => Restore(c)
    case Replace(c) => Drop(c, Fail)
    case ReplaceWrite(c, i) => ReplaceUndo(c, i)
    case ReplaceUndo(c, _) => Drop(c, Fail)
    case ReplaceUnlink(c) => Drop(c, Fail)
    case Restore(c) => Drop(c, Reject)
    case Drop(c, verdict) => AfterDrop(c, verdict)
    case op => op
  }

  function Tearing(s: State, p: OpId): State
    requires p < |s.ops|
  {
    match s.ops[p]
    case TempWrite(i) => SetFill(s, i, Partial)
    case ReplaceWrite(_, i) => SetFill(s, i, Partial)
    case _ => s
  }

  /** The effect of one action; an action of an operation that is not running changes nothing. */
  function Do(s: State, a: Action): State {
    match a
    case StartRotate(seed) => s.(ops := s.ops + [Mark(seed)])
    case StartConsume(c) => s.(ops := s.ops + [Look(c)])
    case Step(p) =>
      if p >= |s.ops| then s else if s.ops[p].Consuming() then StepConsume(s, p) else StepRotate(s, p)
    case Fault(p) => if p >= |s.ops| then s else Goto(s, p, FaultOf(s, p))
    case Tear(p) => if p >= |s.ops| then s else Tearing(s, p)
    case Crash(p) => if p >= |s.ops| || !s.ops[p].Active() then s else Goto(s, p, Crashed)
    case Vanish(name) => s.(dir := s.dir - {name})
  }

  /** The state after a whole run. */
  function After(s: State, run: seq<Action>): State
    decreases |run|
  {
    if run == [] then s else After(Do(s, run[0]), run[1..])
  }
}
