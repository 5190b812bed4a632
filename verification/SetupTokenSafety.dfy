/**
 Safety of the sign-in token protocol over every interleaving, with faults, torn writes,
 crashes and lost files: a token is accepted at most once, and at most one rotate ever
 issues a launcher seed.
 */
module SetupTokenSafety {
  import opened Wrappers
  import opened SetupToken

  /** Who can still bring a file under the live name: the name itself, or one running operation. */
  datatype Holder = ByName | ByOp(p: OpId)

  predicate Holds(s: State, h: Holder, i: Ino) {
    match h
    case ByName => Live in s.dir && s.dir[Live] == i
    case ByOp(p) =>
      p < |s.ops| &&
      match s.ops[p] {
        case TempWrite(j) => i == j
        case Publish(j) => i == j
        case Inspect(_) => Claim(p) in s.dir && s.dir[Claim(p)] == i
        case Restore(_) => Claim(p) in s.dir && s.dir[Claim(p)] == i
        case _ => false
      }
  }

  /** Custody: a file has at most one holder, a matched file has none, and it was matched once. */
  ghost predicate Custody(s: State) {
    && (forall i: Ino, g, h :: Holds(s, g, i) && Holds(s, h, i) ==> g == h)
    && (forall p: OpId, h :: p in s.source ==> !Holds(s, h, s.source[p]))
    && (forall p: OpId, q: OpId :: p in s.source && q in s.source && s.source[p] == s.source[q] ==> p == q)
  }

  /** A consume that found its candidate in the file it claimed and has not failed since. */
  predicate Matched(op: Op) {
    op.Replace? || op.ReplaceWrite? || op.ReplaceUndo? || op.ReplaceUnlink?
    || (op.Drop? && op.verdict != Reject) || (op.Consumed? && op.ok)
  }

  predicate MayHaveMatched(op: Op) {
    Matched(op) || op.Raised? || op.Crashed?
  }

  ghost predicate Names(s: State) {
    && (forall n :: n in s.dir ==> s.dir[n] < |s.files|)
    && (forall k: Ino :: Temp(k) in s.dir ==> s.dir[Temp(k)] == k)
    && (forall p: OpId :: Claim(p) in s.dir ==> p < |s.ops| && !s.ops[p].Look? && !s.ops[p].Take?)
    && (forall p: OpId :: p in s.source ==> p < |s.ops| && s.source[p] < |s.files| && MayHaveMatched(s.ops[p]))
  }

  /** A rotate works on the file it created. */
  ghost predicate OpFiles(s: State) {
    forall p | 0 <= p < |s.ops| ::
      match s.ops[p]
      case TempWrite(i) => i < |s.files| && s.files[i].maker == p
      case Publish(i) => i < |s.files| && s.files[i].maker == p
      case TempUndo(i) => i < |s.files| && s.files[i].maker == p
      case Rotated(i) => i < |s.files| && s.files[i].maker == p
      case _ => true
  }

  /** A random token is drawn for one file and numbered by it. */
  ghost predicate FreshTokens(s: State) {
    forall i | 0 <= i < |s.files| :: s.files[i].token == Random(i) || s.files[i].token.Seed?
  }

  predicate Seeding(op: Op) {
    op.MarkWrite? || op.MarkUndo? || (op.TempCreate? && op.use.Some?)
  }

  ghost predicate NoSeedFile(s: State) {
    forall i | 0 <= i < |s.files| :: !s.files[i].token.Seed?
  }

  /** The marker's creator is the only operation that may still use a seed, and it uses it once. */
  ghost predicate SeedOnce(s: State) {
    && (forall p | 0 <= p < |s.ops| && Seeding(s.ops[p]) :: s.marker == Some(p) && NoSeedFile(s))
    && (s.marker.None? ==> NoSeedFile(s))
    && (forall i, j | 0 <= i < |s.files| && 0 <= j < |s.files| ::
          s.files[i].token.Seed? && s.files[j].token.Seed? ==> i == j)
  }

  /** A matched consume carries the token of the file it matched. */
  ghost predicate MatchedTokens(s: State) {
    forall p: OpId | p < |s.ops| && Matched(s.ops[p]) ::
      && p in s.source && s.source[p] < |s.files|
      && (s.ops[p].c == s.files[s.source[p]].token || s.ops[p].c == Torn(s.source[p]))
  }

  ghost predicate Inv(s: State) {
    Names(s) && OpFiles(s) && FreshTokens(s) && Custody(s) && SeedOnce(s) && MatchedTokens(s)
  }

  /** Custody survives any change that gives nobody a new file. */
  lemma CustodyShrinks(s: State, t: State)
    requires Custody(s) && t.source == s.source
    requires forall h, i: Ino :: Holds(t, h, i) ==> Holds(s, h, i)
    ensures Custody(t)
  {
  }

  /** Custody survives handing a file from one holder to another. */
  lemma CustodyMoves(s: State, t: State, from: Holder, to: Holder, f: Ino)
    requires Custody(s) && t.source == s.source && Holds(s, from, f)
    requires forall h, i: Ino :: Holds(t, h, i) ==> (h != from && Holds(s, h, i)) || (h == to && i == f)
    ensures Custody(t)
  {
  }

  /** Custody survives giving a file nobody held, and nobody matched, to one holder. */
  lemma CustodyStarts(s: State, t: State, to: Holder, f: Ino)
    requires Custody(s) && t.source == s.source
    requires forall h :: !Holds(s, h, f)
    requires forall p: OpId :: p in s.source ==> s.source[p] != f
    requires forall h, i: Ino :: Holds(t, h, i) ==> Holds(s, h, i) || (h == to && i == f)
    ensures Custody(t)
  {
  }

  lemma StartInv(s: State, op: Op)
    requires Inv(s) && (op.Mark? || op.Look?)
    ensures Inv(s.(ops := s.ops + [op]))
  {
    var t := s.(ops := s.ops + [op]);
    assert forall p | 0 <= p < |s.ops| :: t.ops[p] == s.ops[p];
    CustodyShrinks(s, t);
  }

  /** The program counters an operation can move to without touching a file or a name. */
  predicate QuietMove(was: Op, op: Op) {
    match op
    case MarkUndo => was.MarkWrite?
    case TempCreate(use) => was.MarkWrite? || (use.None? && !was.Consuming())
    case Publish(i) => was == TempWrite(i)
    case TempUndo(i) => was == TempWrite(i) || was == Publish(i)
    case Take(_) => was.Look?
    case ReplaceUndo(c, _) => Matched(was) && was.c == c
    case ReplaceUnlink(c) => Matched(was) && was.c == c
    case Drop(c, v) => if v == Reject then was.Restore? else Matched(was) && was.c == c
    case Restore(_) => was.Inspect?
    case Consumed(c, ok) => if ok then Matched(was) && was.c == c else !Matched(was)
    case Raised => true
    case Crashed => true
    case _ => false
  }

  lemma QuietNames(s: State, p: OpId, op: Op)
    requires Inv(s) && p < |s.ops| && s.ops[p].Active() && QuietMove(s.ops[p], op)
    ensures Names(Goto(s, p, op)) && OpFiles(Goto(s, p, op))
  {
  }

  lemma QuietTokens(s: State, p: OpId, op: Op)
    requires Inv(s) && p < |s.ops| && s.ops[p].Active() && QuietMove(s.ops[p], op)
    ensures SeedOnce(Goto(s, p, op)) && MatchedTokens(Goto(s, p, op))
  {
  }

  lemma QuietInv(s: State, p: OpId, op: Op)
    requires Inv(s) && p < |s.ops| && s.ops[p].Active() && QuietMove(s.ops[p], op)
    ensures Inv(Goto(s, p, op))
  {
    QuietNames(s, p, op);
    QuietTokens(s, p, op);
    CustodyShrinks(s, Goto(s, p, op));
  }

  /** Removing a name takes custody from nobody else. */
  lemma RemoveInv(s: State, n: Name)
    requires Inv(s)
    ensures Inv(s.(dir := s.dir - {n}))
  {
    var t := s.(dir := s.dir - {n});
    CustodyShrinks(s, t);
  }

  lemma FillInv(s: State, i: Ino, fill: Fill)
    requires Inv(s)
    ensures Inv(SetFill(s, i, fill))
  {
    var t := SetFill(s, i, fill);
    CustodyShrinks(s, t);
  }

  lemma MarkInv(s: State, p: OpId)
    requires Inv(s) && p < |s.ops| && s.ops[p].Mark?
    ensures Inv(StepRotate(s, p))
  {
    var t := StepRotate(s, p);
    CustodyShrinks(s, t);
  }

  lemma MarkUndoInv(s: State, p: OpId)
    requires Inv(s) && p < |s.ops| && s.ops[p].MarkUndo?
    ensures Inv(StepRotate(s, p))
  {
    var t := StepRotate(s, p);
    CustodyShrinks(s, t);
  }

  /** Every held file exists, so a file about to be created is held by nobody. */
  lemma HeldExists(s: State, h: Holder, i: Ino)
    requires Inv(s) && Holds(s, h, i)
    ensures i < |s.files|
  {
  }

  lemma NewFileInv(s: State, f: File)
    requires Inv(s)
    requires f.token == Random(|s.files|)
             || (f.token.Seed? && s.marker.Some? && NoSeedFile(s) && forall p | 0 <= p < |s.ops| :: !Seeding(s.ops[p]))
    ensures Inv(s.(files := s.files + [f]))
    ensures forall h :: !Holds(s.(files := s.files + [f]), h, |s.files|)
  {
    var t := s.(files := s.files + [f]);
    forall h, i: Ino | Holds(t, h, i)
      ensures Holds(s, h, i) && i < |s.files|
    {
      HeldExists(s, h, i);
    }
  }

  lemma TempCreateInv(s: State, p: OpId)
    requires Inv(s) && p < |s.ops| && s.ops[p].TempCreate?
    ensures Inv(StepRotate(s, p))
  {
    var use, i := s.ops[p].use, |s.files|;
    var f := File(if use.Some? then Seed(use.value) else Random(i), Empty, p);
    var s1 := Goto(s, p, TempCreate(None));
    QuietInv(s, p, TempCreate(None));
    NewFileInv(s1, f);
    HoldTemp(s1.(files := s1.files + [f]), p, i);
    var t := StepRotate(s, p);
    assert t.ops == s1.ops[p := TempWrite(i)];
  }

  /** A rotate takes custody of the file it just created, under a temp name. */
  lemma HoldTemp(s: State, p: OpId, i: Ino)
    requires Inv(s) && p < |s.ops| && s.ops[p] == TempCreate(None)
    requires i < |s.files| && s.files[i].maker == p
    requires forall h :: !Holds(s, h, i)
    requires forall q: OpId :: q in s.source ==> s.source[q] != i
    ensures Inv(Goto(s.(dir := s.dir[Temp(i) := i]), p, TempWrite(i)))
  {
    var t := Goto(s.(dir := s.dir[Temp(i) := i]), p, TempWrite(i));
    CustodyStarts(s, t, ByOp(p), i);
  }

  lemma PublishInv(s: State, p: OpId)
    requires Inv(s) && p < |s.ops| && s.ops[p].Publish? && Temp(s.ops[p].ino) in s.dir
    ensures Inv(StepRotate(s, p))
  {
    var t := StepRotate(s, p);
    var f := s.ops[p].ino;
    assert Holds(s, ByOp(p), f);
    CustodyMoves(s, t, ByOp(p), ByName, f);
  }

  lemma TakeInv(s: State, p: OpId)
    requires Inv(s) && p < |s.ops| && s.ops[p].Take? && Live in s.dir
    ensures Inv(StepConsume(s, p))
  {
    var t := StepConsume(s, p);
    var f := s.dir[Live];
    assert Holds(s, ByName, f);
    CustodyMoves(s, t, ByName, ByOp(p), f);
  }

  /** Matching ends the custody of the claimed file for good. */
  lemma MatchInv(s: State, p: OpId)
    requires Inv(s) && p < |s.ops| && s.ops[p].Inspect? && s.Read(Claim(p)) == Some(s.ops[p].c)
    ensures Inv(StepConsume(s, p))
  {
    var t := StepConsume(s, p);
    var f := s.dir[Claim(p)];
    assert Holds(s, ByOp(p), f);
    assert forall h, i :: Holds(t, h, i) ==> h != ByOp(p) && Holds(s, h, i);
  }

  lemma ReplaceInv(s: State, p: OpId)
    requires Inv(s) && p < |s.ops| && s.ops[p].Replace? && Live !in s.dir
    ensures Inv(StepConsume(s, p))
  {
    hide OpFiles, FreshTokens, Custody, SeedOnce, MatchedTokens, Holds;
    var i := |s.files|;
    var s1 := s.(files := s.files + [File(Random(i), Empty, p)]);
    NewFileInv(s, File(Random(i), Empty, p));
    LiveFileInv(s1, p, i);
  }

  /** A consume publishes the file it just created, so the live name takes custody. */
  lemma LiveFileInv(s: State, p: OpId, i: Ino)
    requires Inv(s) && p < |s.ops| && s.ops[p].Replace? && Live !in s.dir && i < |s.files|
    requires forall h :: !Holds(s, h, i)
    requires forall q: OpId :: q in s.source ==> s.source[q] != i
    ensures Inv(Goto(s.(dir := s.dir[Live := i], issued := s.issued + [Issue(i, false)]), p,
      ReplaceWrite(s.ops[p].c, i)))
  {
    var t := Goto(s.(dir := s.dir[Live := i], issued := s.issued + [Issue(i, false)]), p, ReplaceWrite(s.ops[p].c, i));
    CustodyStarts(s, t, ByName, i);
    assert Names(t);
    assert OpFiles(t);
    assert SeedOnce(t);
  }

  lemma RestoreInv(s: State, p: OpId)
    requires Inv(s) && p < |s.ops| && s.ops[p].Restore? && Claim(p) in s.dir && Live !in s.dir
    ensures Inv(StepConsume(s, p))
  {
    var t := StepConsume(s, p);
    var f := s.dir[Claim(p)];
    assert Holds(s, ByOp(p), f);
    CustodyMoves(s, t, ByOp(p), ByName, f);
  }

  lemma StepRotateInv(s: State, p: OpId)
    requires Inv(s) && p < |s.ops| && !s.ops[p].Consuming()
    ensures Inv(StepRotate(s, p))
  {
    match s.ops[p]
    case Mark(_) => MarkInv(s, p);
    case MarkWrite(seed) => QuietInv(s, p, TempCreate(seed));
    case MarkUndo => MarkUndoInv(s, p);
    case TempCreate(_) => TempCreateInv(s, p);
    case TempWrite(i) =>
      FillInv(s, i, Full);
      QuietInv(SetFill(s, i, Full), p, Publish(i));
    case Publish(i) =>
      if Temp(i) in s.dir { PublishInv(s, p); } else { QuietInv(s, p, TempUndo(i)); }
    case TempUndo(i) =>
      RemoveInv(s, Temp(i));
      QuietInv(s.(dir := s.dir - {Temp(i)}), p, AfterFailedWrite(IsSeeded(s, i)));
    case _ =>
  }

  lemma ClaimStepInv(s: State, p: OpId)
    requires Inv(s) && p < |s.ops| && (s.ops[p].Look? || s.ops[p].Take? || s.ops[p].Inspect? || s.ops[p].Replace?)
    ensures Inv(StepConsume(s, p))
  {
    match s.ops[p]
    case Look(c) => QuietInv(s, p, if s.Read(Live) == Some(c) then Take(c) else Consumed(c, false));
    case Take(c) => if Live in s.dir { TakeInv(s, p); } else { QuietInv(s, p, Consumed(c, false)); }
    case Inspect(c) => if s.Read(Claim(p)) == Some(c) { MatchInv(s, p); } else { QuietInv(s, p, Restore(c)); }
    case Replace(c) => if Live in s.dir { QuietInv(s, p, Drop(c, Accept)); } else { ReplaceInv(s, p); }
  }

  lemma SettleStepInv(s: State, p: OpId)
    requires Inv(s) && p < |s.ops| && s.ops[p].Consuming()
    requires !s.ops[p].Look? && !s.ops[p].Take? && !s.ops[p].Inspect? && !s.ops[p].Replace?
    ensures Inv(StepConsume(s, p))
  {
    hide Inv;
    match s.ops[p]
    case ReplaceWrite(c, i) =>
      FillInv(s, i, Full);
      QuietInv(SetFill(s, i, Full), p, Drop(c, Accept));
    case ReplaceUndo(c, i) =>
      QuietInv(s, p, if Live in s.dir && s.dir[Live] == i then ReplaceUnlink(c) else Drop(c, Fail));
    case ReplaceUnlink(c) =>
      RemoveInv(s, Live);
      QuietInv(s.(dir := s.dir - {Live}), p, Drop(c, Fail));
    case Restore(c) =>
      if Claim(p) in s.dir && Live !in s.dir { RestoreInv(s, p); } else { QuietInv(s, p, Drop(c, Reject)); }
    case Drop(c, verdict) =>
      RemoveInv(s, Claim(p));
      QuietInv(s.(dir := s.dir - {Claim(p)}), p, AfterDrop(c, verdict));
  }

  lemma FaultInv(s: State, p: OpId)
    requires Inv(s)
    ensures Inv(Do(s, Fault(p)))
  {
    if p < |s.ops| {
      if s.ops[p].Active() { QuietInv(s, p, FaultOf(s, p)); } else { assert Goto(s, p, FaultOf(s, p)) == s; }
    }
  }

  lemma StepInv(s: State, p: OpId)
    requires Inv(s) && p < |s.ops|
    ensures Inv(Do(s, Step(p)))
  {
    if !s.ops[p].Consuming() {
      StepRotateInv(s, p);
    } else if s.ops[p].Look? || s.ops[p].Take? || s.ops[p].Inspect? || s.ops[p].Replace? {
      ClaimStepInv(s, p);
    } else {
      SettleStepInv(s, p);
    }
  }

  lemma DoInv(s: State, a: Action)
    requires Inv(s)
    ensures Inv(Do(s, a))
  {
    match a
    case StartRotate(seed) => StartInv(s, Mark(seed));
    case StartConsume(c) => StartInv(s, Look(c));
    case Step(p) =>
      if p < |s.ops| { StepInv(s, p); }
    case Fault(p) =>
      FaultInv(s, p);
    case Tear(p) =>
      if p < |s.ops| && (s.ops[p].TempWrite? || s.ops[p].ReplaceWrite?) { FillInv(s, s.ops[p].ino, Partial); }
    case Crash(p) => if p < |s.ops| && s.ops[p].Active() { QuietInv(s, p, Crashed); }
    case Vanish(name) => RemoveInv(s, name);
  }

  lemma {:induction false} RunInv(s: State, run: seq<Action>)
    requires Inv(s)
    ensures Inv(After(s, run))
    decreases |run|
  {
    if run != [] {
      DoInv(s, run[0]);
      RunInv(Do(s, run[0]), run[1..]);
    }
  }

  /**
   Over every run, no token is accepted by two consumes, and no file's token is accepted twice, not even
   once as the torn prefix read before it was complete and once whole.
   */
  lemma AcceptedAtMostOnce(run: seq<Action>, p: OpId, q: OpId)
    requires p < |After(Init, run).ops| && q < |After(Init, run).ops|
    requires After(Init, run).ops[p].Consumed? && After(Init, run).ops[p].ok
    requires After(Init, run).ops[q].Consumed? && After(Init, run).ops[q].ok
    ensures var s := After(Init, run);
      && p in s.source && q in s.source
      && (s.ops[p].c == s.ops[q].c || s.source[p] == s.source[q] ==> p == q)
  {
    RunInv(Init, run);
  }

  /** Over every run, at most one rotate returns a launcher seed, and at most one file ever carries one. */
  lemma SeedIssuedAtMostOnce(run: seq<Action>)
    ensures var s := After(Init, run);
      && (forall i, j | 0 <= i < |s.files| && 0 <= j < |s.files| ::
            s.files[i].token.Seed? && s.files[j].token.Seed? ==> i == j)
      && (forall p, q | 0 <= p < |s.ops| && 0 <= q < |s.ops| && s.ops[p].Rotated? && s.ops[q].Rotated? ::
            IsSeeded(s, s.ops[p].ino) && IsSeeded(s, s.ops[q].ino) ==> p == q)
  {
    RunInv(Init, run);
  }

  /** An accepted token was issued: it was read from the one file it was drawn for. */
  lemma AcceptedWasIssued(run: seq<Action>, p: OpId)
    requires var s := After(Init, run); p < |s.ops| && s.ops[p].Consumed? && s.ops[p].ok
    ensures var s := After(Init, run);
      && p in s.source && s.source[p] < |s.files|
      && (s.ops[p].c == s.files[s.source[p]].token || s.ops[p].c == Torn(s.source[p]))
  {
    RunInv(Init, run);
  }

  lemma SourceKept(s: State, a: Action, p: OpId)
    requires Names(s) && p in s.source
    ensures p in Do(s, a).source && Do(s, a).source[p] == s.source[p]
  {
  }

  /** Once a consume has matched a file, no continuation brings that file back under the live name. */
  lemma {:induction false} MatchedNeverReturns(s: State, run: seq<Action>, p: OpId)
    requires Inv(s) && p in s.source
    ensures var t := After(s, run);
      p in t.source && t.source[p] == s.source[p] && !(Live in t.dir && t.dir[Live] == s.source[p])
    decreases |run|
  {
    if run == [] {
      assert !Holds(s, ByName, s.source[p]);
    } else {
      DoInv(s, run[0]);
      SourceKept(s, run[0], p);
      MatchedNeverReturns(Do(s, run[0]), run[1..], p);
    }
  }
}
