/**
 Ordering of the sign-in token protocol: with at most one consume in flight (what the
 in-process lock gives), any number of concurrent rotates, and no fault, crash or lost file,
 the live name only ever moves forward through the published tokens, and at rest it holds
 the last one, which nobody has used. With two overlapping consumes this fails.
 */
module SetupTokenOrder {
  import opened Wrappers
  import opened SetupToken
  import opened SetupTokenSafety

  ghost predicate NoConsume(s: State) {
    forall p | 0 <= p < |s.ops| :: !s.ops[p].Consuming()
  }

  ghost predicate CalmAction(s: State, a: Action) {
    match a
    case StartRotate(_) => true
    case StartConsume(_) => NoConsume(s)
    case Step(_) => true
    case Tear(_) => true
    case _ => false
  }

  /** A run without faults in which no consume starts while another is in flight. */
  ghost predicate Calm(s: State, run: seq<Action>)
    decreases |run|
  {
    run == [] || (CalmAction(s, run[0]) && Calm(Do(s, run[0]), run[1..]))
  }

  ghost predicate OneConsume(s: State) {
    forall p, q | 0 <= p < |s.ops| && 0 <= q < |s.ops| :: s.ops[p].Consuming() && s.ops[q].Consuming() ==> p == q
  }

  predicate CalmOp(op: Op) {
    !op.MarkUndo? && !op.TempUndo? && !op.ReplaceUndo? && !op.ReplaceUnlink?
    && !op.Raised? && !op.Crashed? && (op.Drop? ==> op.verdict != Fail)
  }

  function Last(s: State): Ino
    requires s.issued != []
  {
    s.issued[|s.issued| - 1].ino
  }

  predicate WasIssued(s: State, i: Ino) {
    exists m :: 0 <= m < |s.issued| && s.issued[m].ino == i
  }

  /** Operations proceed as if alone: temps are where they were put and claims hold issued files. */
  ghost predicate Steady(s: State) {
    && OneConsume(s)
    && (forall p: OpId | p < |s.ops| :: CalmOp(s.ops[p]))
    && (forall p: OpId | p < |s.ops| && (s.ops[p].TempWrite? || s.ops[p].Publish?) ::
          Temp(s.ops[p].ino) in s.dir && !WasIssued(s, s.ops[p].ino))
    && (forall p: OpId | p < |s.ops| && s.ops[p].Publish? ::
        s.ops[p].ino < |s.files| && s.files[s.ops[p].ino].fill == Full)
    && (forall p: OpId | p < |s.ops| && (s.ops[p].Inspect? || s.ops[p].Restore?) ::
          Claim(p) in s.dir && WasIssued(s, s.dir[Claim(p)]))
    && (forall p: OpId | p < |s.ops| && s.ops[p].ReplaceWrite? :: WasIssued(s, s.ops[p].ino))
  }

  /** The live name holds the last issue; while it is missing, the one consume in flight holds that file. */
  ghost predicate LiveIsLast(s: State) {
    && (Live in s.dir ==> s.issued != [] && s.dir[Live] == Last(s))
    && (Live !in s.dir && s.issued != [] ==> exists p: OpId :: p < |s.ops| && Carries(s, p))
    && (forall p: OpId | p < |s.ops| && s.ops[p].Replace? && Live !in s.dir :: Carries(s, p))
    && (forall p: OpId | p < |s.ops| && (s.ops[p].Inspect? || s.ops[p].Restore?) && Live !in s.dir :: Carries(s, p))
  }

  ghost predicate Carries(s: State, p: OpId)
    requires p < |s.ops|
  {
    && s.issued != []
    && match s.ops[p] {
         case Inspect(_) => Claim(p) in s.dir && s.dir[Claim(p)] == Last(s)
         case Restore(_) => Claim(p) in s.dir && s.dir[Claim(p)] == Last(s)
         case Replace(_) => p in s.source && s.source[p] == Last(s)
         case _ => false
       }
  }

  ghost predicate WasMatched(s: State, i: Ino) {
    exists p: OpId :: p in s.source && s.source[p] == i
  }

  /** Some consume is still writing this replacement file. */
  ghost predicate BeingWritten(s: State, i: Ino) {
    exists p: OpId :: p < |s.ops| && s.ops[p].ReplaceWrite? && s.ops[p].ino == i
  }

  /** Issues are distinct files, and a replacement is issued right behind a matched file. */
  ghost predicate Chain(s: State) {
    && (forall m | 0 <= m < |s.issued| :: s.issued[m].ino < |s.files|)
    && (forall m, n | 0 <= m < |s.issued| && 0 <= n < |s.issued| :: s.issued[m].ino == s.issued[n].ino ==> m == n)
    && (forall m | 0 <= m < |s.issued| && !s.issued[m].byRotate :: m > 0 && WasMatched(s, s.issued[m - 1].ino))
  }

  /** An issued file is complete unless its consume is still writing it. */
  ghost predicate Complete(s: State) {
    forall m | 0 <= m < |s.issued| && s.issued[m].ino < |s.files| ::
      s.files[s.issued[m].ino].fill == Full || BeingWritten(s, s.issued[m].ino)
  }

  /** A consume that matched a file carries that file's whole token and never fails. */
  ghost predicate Matches(s: State) {
    forall p: OpId :: p in s.source ==>
      p < |s.ops| && s.source[p] < |s.files| && Matched(s.ops[p]) && s.ops[p].c == s.files[s.source[p]].token
  }

  ghost predicate Ordered(s: State) {
    Steady(s) && LiveIsLast(s) && Chain(s) && Complete(s) && Matches(s)
  }

  /** Between renaming the live name away and putting it back. */
  predicate Transit(op: Op) {
    op.Inspect? || op.Restore? || op.Replace?
  }

  lemma LiveFrame(s: State, t: State)
    requires LiveIsLast(s) && t.issued == s.issued && |s.ops| <= |t.ops|
    requires (Live in t.dir) == (Live in s.dir)
    requires Live in s.dir ==> t.dir[Live] == s.dir[Live]
    requires Live in s.dir || forall p: OpId | p < |s.ops| :: Carries(s, p) ==> Carries(t, p)
    requires forall p: OpId | p < |t.ops| && Transit(t.ops[p]) :: p < |s.ops| && Transit(s.ops[p])
    ensures LiveIsLast(t)
  {
  }

  lemma ChainFrame(s: State, t: State)
    requires Chain(s) && t.issued == s.issued && |s.files| <= |t.files|
    requires forall p: OpId :: p in s.source ==> p in t.source && t.source[p] == s.source[p]
    ensures Chain(t)
  {
    assert forall i: Ino :: WasMatched(s, i) ==> WasMatched(t, i);
  }

  lemma CompleteFrame(s: State, t: State)
    requires Chain(s) && Complete(s) && t.issued == s.issued && |s.files| <= |t.files|
    requires forall i | 0 <= i < |s.files| && s.files[i].fill == Full && WasIssued(s, i) :: t.files[i].fill == Full
    requires forall p: OpId | p < |s.ops| && s.ops[p].ReplaceWrite? :: p < |t.ops| && t.ops[p] == s.ops[p]
    ensures Complete(t)
  {
    assert forall i: Ino :: BeingWritten(s, i) ==> BeingWritten(t, i);
    assert forall m | 0 <= m < |s.issued| :: WasIssued(s, s.issued[m].ino);
  }

  lemma MatchesFrame(s: State, t: State)
    requires Matches(s) && t.source == s.source && |s.files| <= |t.files| && |s.ops| <= |t.ops|
    requires forall i | 0 <= i < |s.files| :: t.files[i].token == s.files[i].token
    requires forall p: OpId | p < |s.ops| && Matched(s.ops[p]) :: Matched(t.ops[p]) && t.ops[p].c == s.ops[p].c
    ensures Matches(t)
  {
  }

  /** Everything about the issues survives a step that issues, matches and completes nothing. */
  lemma IssuesFrame(s: State, t: State)
    requires Chain(s) && Complete(s) && Matches(s)
    requires t.issued == s.issued && t.source == s.source && |s.files| <= |t.files| && |s.ops| <= |t.ops|
    requires forall i | 0 <= i < |s.files| :: t.files[i].token == s.files[i].token
    requires forall i | 0 <= i < |s.files| && s.files[i].fill == Full && WasIssued(s, i) :: t.files[i].fill == Full
    requires forall p: OpId | p < |s.ops| && s.ops[p].ReplaceWrite? :: t.ops[p] == s.ops[p]
    requires forall p: OpId | p < |s.ops| && Matched(s.ops[p]) :: Matched(t.ops[p]) && t.ops[p].c == s.ops[p].c
    ensures Chain(t) && Complete(t) && Matches(t)
  {
    ChainFrame(s, t);
    CompleteFrame(s, t);
    MatchesFrame(s, t);
  }

  lemma StartCalm(s: State, a: Action)
    requires Ordered(s) && CalmAction(s, a) && (a.StartRotate? || a.StartConsume?)
    ensures Ordered(Do(s, a))
  {
    var t := Do(s, a);
    StartSteady(s, a);
    LiveFrame(s, t);
    IssuesFrame(s, t);
  }

  lemma StartSteady(s: State, a: Action)
    requires Steady(s) && CalmAction(s, a) && (a.StartRotate? || a.StartConsume?)
    ensures Steady(Do(s, a))
  {
    var t := Do(s, a);
    assert forall p: OpId | p < |s.ops| :: t.ops[p] == s.ops[p];
    assert forall i: Ino :: WasIssued(t, i) == WasIssued(s, i);
  }

  /** What a rotate step that publishes nothing changes among operations: only its own. */
  ghost predicate RotateMoves(s: State, t: State, p: OpId)
    requires p < |s.ops|
  {
    && t.issued == s.issued && t.source == s.source && |t.ops| == |s.ops|
    && (forall q | 0 <= q < |s.ops| && q != p :: t.ops[q] == s.ops[q])
    && !t.ops[p].Consuming() && CalmOp(t.ops[p]) && (Matched(s.ops[p]) ==> t.ops[p] == s.ops[p])
  }

  /** And among names and files: only its own temp and file. */
  ghost predicate RotateWrites(s: State, t: State, p: OpId)
    requires p < |s.ops| == |t.ops|
  {
    && |s.files| <= |t.files|
    && (forall n :: n in s.dir ==> n in t.dir && t.dir[n] == s.dir[n])
    && (forall n :: n in t.dir && n !in s.dir ==> n == Temp(|s.files|))
    && (forall i | 0 <= i < |s.files| :: t.files[i].token == s.files[i].token)
    && (forall i | 0 <= i < |s.files| && s.files[i].fill == Full :: t.files[i].fill == Full)
    && (t.ops[p].TempWrite? ==> t.ops[p].ino == |s.files| && Temp(|s.files|) in t.dir)
    && (t.ops[p].Publish? ==>
          s.ops[p] == TempWrite(t.ops[p].ino) && t.ops[p].ino < |t.files| && t.files[t.ops[p].ino].fill == Full)
  }

  ghost predicate RotateEffect(s: State, t: State, p: OpId)
    requires p < |s.ops|
  {
    RotateMoves(s, t, p) && RotateWrites(s, t, p)
  }

  lemma RotateOnlyMoves(s: State, p: OpId)
    requires p < |s.ops| && !s.ops[p].Consuming() && CalmOp(s.ops[p]) && !s.ops[p].Publish?
    ensures RotateMoves(s, StepRotate(s, p), p)
  {
  }

  lemma RotateOnlyWrites(s: State, p: OpId)
    requires Names(s) && OpFiles(s) && p < |s.ops| && !s.ops[p].Consuming() && CalmOp(s.ops[p]) && !s.ops[p].Publish?
    ensures |StepRotate(s, p).ops| == |s.ops| && RotateWrites(s, StepRotate(s, p), p)
  {
  }

  lemma RotateEffects(s: State, p: OpId)
    requires Names(s) && OpFiles(s) && p < |s.ops| && !s.ops[p].Consuming() && CalmOp(s.ops[p]) && !s.ops[p].Publish?
    ensures RotateEffect(s, Do(s, Step(p)), p)
  {
    hide RotateMoves, RotateWrites, Names, OpFiles, StepRotate;
    RotateOnlyMoves(s, p);
    RotateOnlyWrites(s, p);
  }

  lemma RotateSteady(s: State, t: State, p: OpId)
    requires Steady(s) && p < |s.ops| && !s.ops[p].Consuming() && RotateEffect(s, t, p)
    requires forall m | 0 <= m < |s.issued| :: s.issued[m].ino < |s.files|
    ensures Steady(t)
  {
    assert forall i: Ino :: WasIssued(t, i) == WasIssued(s, i);
  }

  lemma RotateCalm(s: State, p: OpId)
    requires Ordered(s) && Names(s) && OpFiles(s) && p < |s.ops| && !s.ops[p].Consuming() && !s.ops[p].Publish?
    ensures Ordered(Do(s, Step(p)))
  {
    var t := Do(s, Step(p));
    RotateEffects(s, p);
    RotateSteady(s, t, p);
    RotateFrames(s, t, p);
  }

  lemma RotateFrames(s: State, t: State, p: OpId)
    requires LiveIsLast(s) && Chain(s) && Complete(s) && Matches(s) && p < |s.ops| && !s.ops[p].Consuming()
      && RotateEffect(s, t, p)
    ensures LiveIsLast(t) && Chain(t) && Complete(t) && Matches(t)
  {
    LiveFrame(s, t);
    IssuesFrame(s, t);
  }

  /** Publishing makes the rotate's file the last issue, wherever the previous one is. */
  lemma PublishCalm(s: State, p: OpId)
    requires Ordered(s) && Names(s) && OpFiles(s) && p < |s.ops| && s.ops[p].Publish?
    ensures Ordered(Do(s, Step(p)))
  {
    var t := Do(s, Step(p));
    var i := s.ops[p].ino;
    assert t == Goto(s.(dir := (s.dir - {Temp(i)})[Live := i], issued := s.issued + [Issue(i, true)]), p, Rotated(i));
    PublishSteady(s, t, p, i);
    PublishIssues(s, t, p, i);
  }

  lemma PublishSteady(s: State, t: State, p: OpId, i: Ino)
    requires Steady(s) && OpFiles(s) && p < |s.ops| && s.ops[p] == Publish(i)
    requires t == Goto(s.(dir := (s.dir - {Temp(i)})[Live := i], issued := s.issued + [Issue(i, true)]), p, Rotated(i))
    ensures Steady(t) && LiveIsLast(t)
  {
    assert forall j: Ino :: WasIssued(t, j) ==> WasIssued(s, j) || j == i;
    assert forall j: Ino | WasIssued(s, j) :: WasIssued(t, j) by {
      forall j: Ino | WasIssued(s, j) ensures WasIssued(t, j) {
        var m :| 0 <= m < |s.issued| && s.issued[m].ino == j;
        assert t.issued[m].ino == j;
      }
    }
  }

  lemma PublishIssues(s: State, t: State, p: OpId, i: Ino)
    requires Steady(s) && Chain(s) && Complete(s) && Matches(s) && p < |s.ops| && s.ops[p] == Publish(i)
    requires t == Goto(s.(dir := (s.dir - {Temp(i)})[Live := i], issued := s.issued + [Issue(i, true)]), p, Rotated(i))
    ensures Chain(t) && Complete(t) && Matches(t)
  {
    var u := Goto(s, p, Rotated(i));
    IssuesFrame(s, u);
    assert !WasIssued(u, i);
    AppendIssue(u, t, Issue(i, true));
  }

  lemma AppendIssue(s: State, t: State, issue: Issue)
    requires Chain(s) && Complete(s) && Matches(s) && t.issued == s.issued + [issue]
    requires t.files == s.files && t.ops == s.ops && t.source == s.source
    requires issue.ino < |s.files| && !WasIssued(s, issue.ino)
    requires s.files[issue.ino].fill == Full || BeingWritten(s, issue.ino)
    requires issue.byRotate || (s.issued != [] && WasMatched(s, Last(s)))
    ensures Chain(t) && Complete(t) && Matches(t)
  {
    assert forall m | 0 <= m < |s.issued| :: t.issued[m] == s.issued[m] && WasIssued(s, s.issued[m].ino);
    assert forall i: Ino :: WasMatched(s, i) == WasMatched(t, i);
    assert forall i: Ino :: BeingWritten(s, i) == BeingWritten(t, i);
  }

  lemma TearCalm(s: State, p: OpId)
    requires Ordered(s) && OpFiles(s) && p < |s.ops|
    ensures Ordered(Do(s, Tear(p)))
  {
    if s.ops[p].TempWrite? || s.ops[p].ReplaceWrite? {
      TearMisses(s, p);
      TearSteady(s, p);
      TearFrames(s, p);
      TearComplete(s, p);
    }
  }

  lemma TearFrames(s: State, p: OpId)
    requires LiveIsLast(s) && Chain(s) && Matches(s) && p < |s.ops| && (s.ops[p].TempWrite? || s.ops[p].ReplaceWrite?)
    ensures var t := Do(s, Tear(p)); LiveIsLast(t) && Chain(t) && Matches(t)
  {
    FillFrames(s, s.ops[p].ino, Partial);
  }

  lemma FillFrames(s: State, i: Ino, fill: Fill)
    requires LiveIsLast(s) && Chain(s) && Matches(s)
    ensures var t := SetFill(s, i, fill); LiveIsLast(t) && Chain(t) && Matches(t)
  {
    var t := SetFill(s, i, fill);
    FillLive(s, t);
    ChainFrame(s, t);
    MatchesFrame(s, t);
  }

  lemma FillLive(s: State, t: State)
    requires LiveIsLast(s) && t == s.(files := t.files)
    ensures LiveIsLast(t)
  {
    LiveFrame(s, t);
  }

  lemma TearMisses(s: State, p: OpId)
    requires Steady(s) && OpFiles(s) && p < |s.ops| && (s.ops[p].TempWrite? || s.ops[p].ReplaceWrite?)
    ensures forall q: OpId | q < |s.ops| && s.ops[q].Publish? :: s.ops[q].ino != s.ops[p].ino
  {
  }

  lemma TearSteady(s: State, p: OpId)
    requires Steady(s) && p < |s.ops| && (s.ops[p].TempWrite? || s.ops[p].ReplaceWrite?)
    requires forall q: OpId | q < |s.ops| && s.ops[q].Publish? :: s.ops[q].ino != s.ops[p].ino
    ensures Steady(Do(s, Tear(p)))
  {
    var t := Do(s, Tear(p));
    assert forall i: Ino :: WasIssued(t, i) == WasIssued(s, i);
  }

  lemma TearComplete(s: State, p: OpId)
    requires Steady(s) && Complete(s) && p < |s.ops| && (s.ops[p].TempWrite? || s.ops[p].ReplaceWrite?)
    ensures Complete(Do(s, Tear(p)))
  {
    var t := Do(s, Tear(p));
    assert forall i: Ino :: BeingWritten(s, i) ==> BeingWritten(t, i);
    assert s.ops[p].ReplaceWrite? ==> BeingWritten(t, s.ops[p].ino);
    assert forall m | 0 <= m < |s.issued| :: WasIssued(s, s.issued[m].ino);
  }

  /** The consume in flight: nobody else is writing a replacement, so every issued file is complete. */
  lemma AloneComplete(s: State, p: OpId, i: Ino)
    requires Steady(s) && Complete(s) && p < |s.ops| && s.ops[p].Consuming() && !s.ops[p].ReplaceWrite?
    requires WasIssued(s, i) && i < |s.files|
    ensures s.files[i].fill == Full
  {
  }

  /** A consume step that only moves its program counter. */
  lemma ConsumeMoveCalm(s: State, p: OpId, op: Op)
    requires Ordered(s) && p < |s.ops| && s.ops[p].Consuming()
    requires CalmOp(op) && (op.Consuming() || op.Consumed?) && (Transit(op) ==> Transit(s.ops[p]))
    requires Live in s.dir || (Carries(s, p) ==> Carries(Goto(s, p, op), p))
    requires op.Restore? ==> s.ops[p].Inspect?
    requires !op.Inspect? && !op.ReplaceWrite? && !s.ops[p].ReplaceWrite?
    requires Matched(s.ops[p]) ==> Matched(op) && op.c == s.ops[p].c
    ensures Ordered(Goto(s, p, op))
  {
    var t := Goto(s, p, op);
    MoveSteady(s, p, op);
    LiveFrame(s, t);
    IssuesFrame(s, t);
  }

  lemma MoveSteady(s: State, p: OpId, op: Op)
    requires Steady(s) && p < |s.ops| && s.ops[p].Consuming()
    requires CalmOp(op) && (op.Consuming() || op.Consumed?)
    requires op.Restore? ==> s.ops[p].Inspect?
    requires !op.Inspect? && !op.ReplaceWrite?
    ensures Steady(Goto(s, p, op))
  {
    var t := Goto(s, p, op);
    assert forall i: Ino :: WasIssued(t, i) == WasIssued(s, i);
  }

  lemma TakeCalm(s: State, p: OpId)
    requires Ordered(s) && p < |s.ops| && s.ops[p].Take? && Live in s.dir
    ensures Ordered(Do(s, Step(p)))
  {
    var t := Do(s, Step(p));
    assert s.issued[|s.issued| - 1].ino == s.dir[Live];
    assert WasIssued(s, s.dir[Live]);
    TakeSteady(s, t, p);
    IssuesFrame(s, t);
    assert Carries(t, p);
    AloneLive(t, p);
  }

  lemma TakeSteady(s: State, t: State, p: OpId)
    requires Steady(s) && p < |s.ops| && s.ops[p].Take? && Live in s.dir && WasIssued(s, s.dir[Live])
    requires t == Do(s, Step(p))
    ensures Steady(t)
  {
    assert forall i: Ino :: WasIssued(t, i) == WasIssued(s, i);
  }

  /** The consume in flight decides alone whether the missing live name is accounted for. */
  lemma AloneLive(s: State, p: OpId)
    requires Steady(s) && p < |s.ops| && s.ops[p].Consuming()
    requires Live in s.dir ==> s.issued != [] && s.dir[Live] == Last(s)
    requires Live !in s.dir ==> Carries(s, p)
    ensures LiveIsLast(s)
  {
    assert forall q: OpId | q < |s.ops| && Transit(s.ops[q]) :: s.ops[q].Consuming() && q == p;
  }

  /** A match in a calm run is with the complete token. */
  lemma MatchCalm(s: State, p: OpId)
    requires Ordered(s) && p < |s.ops| && p !in s.source && s.ops[p].Inspect? && s.Read(Claim(p)) == Some(s.ops[p].c)
    ensures Ordered(Do(s, Step(p)))
  {
    var t := Do(s, Step(p));
    var i := s.dir[Claim(p)];
    AloneComplete(s, p, i);
    MatchSteady(s, t, p, i);
    MatchIssues(s, t, p, i);
    assert Live !in s.dir ==> Carries(s, p);
    AloneLive(t, p);
  }

  lemma MatchIssues(s: State, t: State, p: OpId, i: Ino)
    requires Chain(s) && Complete(s) && Matches(s) && p < |s.ops| && p !in s.source && s.ops[p].Inspect?
    requires i < |s.files| && s.files[i].token == s.ops[p].c
    requires t == Goto(s.(source := s.source[p := i]), p, Replace(s.ops[p].c))
    ensures Chain(t) && Complete(t) && Matches(t)
  {
    ChainFrame(s, t);
    CompleteFrame(s, t);
  }

  lemma MatchSteady(s: State, t: State, p: OpId, i: Ino)
    requires Steady(s) && p < |s.ops| && s.ops[p].Inspect?
    requires t == Goto(s.(source := s.source[p := i]), p, Replace(s.ops[p].c))
    ensures Steady(t)
  {
    assert forall i: Ino :: WasIssued(t, i) == WasIssued(s, i);
  }

  /** A replacement is issued only right behind the file that was matched. */
  lemma ReplaceCalm(s: State, p: OpId)
    requires Ordered(s) && Names(s) && OpFiles(s) && p < |s.ops| && s.ops[p].Replace? && Live !in s.dir
    ensures Ordered(Do(s, Step(p)))
  {
    var t := Do(s, Step(p));
    var i := |s.files|;
    assert Carries(s, p);
    ReplaceIssues(s, t, p, i);
    ReplaceSteady(s, t, p, i);
    AloneLive(t, p);
  }

  lemma ReplaceIssues(s: State, t: State, p: OpId, i: Ino)
    requires Chain(s) && Complete(s) && Matches(s) && p < |s.ops| && s.ops[p].Replace? && Live !in s.dir
      && i == |s.files| && Carries(s, p)
    requires t == Do(s, Step(p))
    ensures Chain(t) && Complete(t) && Matches(t)
  {
    var u := Goto(s.(files := t.files), p, t.ops[p]);
    IssuesFrame(s, u);
    assert u.ops[p] == ReplaceWrite(s.ops[p].c, i) && BeingWritten(u, i);
    assert WasMatched(u, Last(u));
    assert !WasIssued(u, i);
    AppendIssue(u, t, Issue(i, false));
  }

  lemma IssuedGrows(s: State, t: State, issue: Issue)
    requires t.issued == s.issued + [issue]
    ensures forall j: Ino :: WasIssued(t, j) <==> (WasIssued(s, j) || j == issue.ino)
  {
    forall j: Ino | WasIssued(s, j) ensures WasIssued(t, j) {
      var m :| 0 <= m < |s.issued| && s.issued[m].ino == j;
      assert t.issued[m].ino == j;
    }
    assert t.issued[|s.issued|] == issue;
  }

  lemma ReplaceSteady(s: State, t: State, p: OpId, i: Ino)
    requires Steady(s) && OpFiles(s) && Names(s) && p < |s.ops| && s.ops[p].Replace? && Live !in s.dir && i == |s.files|
    requires t == Do(s, Step(p))
    ensures Steady(t)
  {
    IssuedGrows(s, t, Issue(i, false));
    assert forall q: OpId | q < |t.ops| && q != p :: t.ops[q] == s.ops[q];
    assert t.ops[p] == ReplaceWrite(s.ops[p].c, i);
  }

  lemma ReplaceWriteCalm(s: State, p: OpId)
    requires Ordered(s) && p < |s.ops| && s.ops[p].ReplaceWrite?
    ensures Ordered(Do(s, Step(p)))
  {
    var t := Do(s, Step(p));
    ReplaceWriteSteady(s, t, p);
    ReplaceWriteFrames(s, t, p);
    WrittenComplete(s, t, p);
  }

  lemma ReplaceWriteFrames(s: State, t: State, p: OpId)
    requires LiveIsLast(s) && Chain(s) && Matches(s) && p < |s.ops| && s.ops[p].ReplaceWrite? && t == Do(s, Step(p))
    ensures LiveIsLast(t) && Chain(t) && Matches(t)
  {
    hide LiveIsLast, Chain, Matches;
    var u := SetFill(s, s.ops[p].ino, Full);
    FillFrames(s, s.ops[p].ino, Full);
    WrittenMove(u, p);
  }

  lemma WrittenMove(u: State, p: OpId)
    requires LiveIsLast(u) && Chain(u) && Matches(u) && p < |u.ops| && u.ops[p].ReplaceWrite?
    ensures var t := Goto(u, p, Drop(u.ops[p].c, Accept)); LiveIsLast(t) && Chain(t) && Matches(t)
  {
    var t := Goto(u, p, Drop(u.ops[p].c, Accept));
    LiveFrame(u, t);
    ChainFrame(u, t);
    MatchesFrame(u, t);
  }

  lemma ReplaceWriteSteady(s: State, t: State, p: OpId)
    requires Steady(s) && p < |s.ops| && s.ops[p].ReplaceWrite? && t == Do(s, Step(p))
    ensures Steady(t)
  {
    assert forall i: Ino :: WasIssued(t, i) == WasIssued(s, i);
  }

  lemma WrittenComplete(s: State, t: State, p: OpId)
    requires Steady(s) && Complete(s) && p < |s.ops| && s.ops[p].ReplaceWrite? && t == Do(s, Step(p))
    ensures Complete(t)
  {
    assert forall i: Ino :: BeingWritten(s, i) ==> i == s.ops[p].ino;
  }

  lemma RestoreCalm(s: State, p: OpId)
    requires Ordered(s) && p < |s.ops| && s.ops[p].Restore? && Live !in s.dir
    ensures Ordered(Do(s, Step(p)))
  {
    var t := Do(s, Step(p));
    var u := Goto(s, p, Drop(s.ops[p].c, Reject));
    assert Carries(s, p);
    MoveSteady(s, p, Drop(s.ops[p].c, Reject));
    RestoreSteady(u, t);
    AloneLive(t, p);
    IssuesFrame(s, t);
  }

  lemma RestoreSteady(u: State, t: State)
    requires Steady(u) && t == u.(dir := t.dir)
    requires forall n :: n in u.dir ==> n in t.dir && t.dir[n] == u.dir[n]
    ensures Steady(t)
  {
    assert forall i: Ino :: WasIssued(t, i) == WasIssued(u, i);
  }

  lemma DropCalm(s: State, p: OpId)
    requires Ordered(s) && p < |s.ops| && s.ops[p].Drop?
    ensures Ordered(Do(s, Step(p)))
  {
    var t := Do(s, Step(p));
    var op := AfterDrop(s.ops[p].c, s.ops[p].verdict);
    var u := Goto(s, p, op);
    MoveSteady(s, p, op);
    DropSteady(u, t, p);
    LiveFrame(s, t);
    IssuesFrame(s, t);
  }

  lemma DropSteady(u: State, t: State, p: OpId)
    requires Steady(u) && p < |u.ops| && !u.ops[p].Consuming() && t == u.(dir := u.dir - {Claim(p)})
    ensures Steady(t)
  {
    assert forall i: Ino :: WasIssued(t, i) == WasIssued(u, i);
  }

  lemma ClaimStepCalm(s: State, p: OpId)
    requires Ordered(s) && Names(s) && OpFiles(s) && p < |s.ops|
    requires s.ops[p].Look? || s.ops[p].Take? || s.ops[p].Inspect? || s.ops[p].Replace?
    ensures Ordered(Do(s, Step(p)))
  {
    hide Names, OpFiles, Steady, Chain, Complete, LiveIsLast;
    match s.ops[p]
    case Look(c) => ConsumeMoveCalm(s, p, if s.Read(Live) == Some(c) then Take(c) else Consumed(c, false));
    case Take(c) => if Live in s.dir { TakeCalm(s, p); } else { ConsumeMoveCalm(s, p, Consumed(c, false)); }
    case Inspect(c) => if s.Read(Claim(p)) == Some(c) { MatchCalm(s, p); } else { ConsumeMoveCalm(s, p, Restore(c)); }
    case Replace(c) => if Live in s.dir { ConsumeMoveCalm(s, p, Drop(c, Accept)); } else { ReplaceCalm(s, p); }
  }

  lemma SettleStepCalm(s: State, p: OpId)
    requires Ordered(s) && p < |s.ops|
    requires s.ops[p].Consuming() && !s.ops[p].Look? && !s.ops[p].Take? && !s.ops[p].Inspect? && !s.ops[p].Replace?
    ensures Ordered(Do(s, Step(p)))
  {
    match s.ops[p]
    case ReplaceWrite(_, _) => ReplaceWriteCalm(s, p);
    case Restore(c) => if Live in s.dir { ConsumeMoveCalm(s, p, Drop(c, Reject)); } else { RestoreCalm(s, p); }
    case Drop(_, _) => DropCalm(s, p);
  }

  lemma DoOrdered(s: State, a: Action)
    requires Inv(s) && Ordered(s) && CalmAction(s, a)
    ensures Ordered(Do(s, a))
  {
    match a
    case StartRotate(_) => StartCalm(s, a);
    case StartConsume(_) => StartCalm(s, a);
    case Tear(p) => if p < |s.ops| { TearCalm(s, p); }
    case Step(p) =>
      if p < |s.ops| {
        if s.ops[p].Publish? { PublishCalm(s, p); }
        else if !s.ops[p].Consuming() { RotateCalm(s, p); }
        else if s.ops[p].Look? || s.ops[p].Take? || s.ops[p].Inspect? || s.ops[p].Replace? { ClaimStepCalm(s, p); }
        else { SettleStepCalm(s, p); }
      }
  }

  lemma IssuesAppend(s: State, a: Action)
    ensures s.issued <= Do(s, a).issued
  {
  }

  lemma {:induction false} IssuesOnlyAppend(s: State, run: seq<Action>)
    ensures s.issued <= After(s, run).issued
    decreases |run|
  {
    if run != [] {
      IssuesAppend(s, run[0]);
      IssuesOnlyAppend(Do(s, run[0]), run[1..]);
    }
  }

  lemma {:induction false} CalmRun(s: State, run: seq<Action>)
    requires Inv(s) && Ordered(s) && Calm(s, run)
    ensures Inv(After(s, run)) && Ordered(After(s, run))
    decreases |run|
  {
    if run != [] {
      DoInv(s, run[0]);
      DoOrdered(s, run[0]);
      CalmRun(Do(s, run[0]), run[1..]);
    }
  }

  /** What a consume publishes is a token drawn for that file alone. */
  ghost predicate ReplacementsRandom(s: State) {
    forall m | 0 <= m < |s.issued| && !s.issued[m].byRotate ::
      s.issued[m].ino < |s.files| && s.files[s.issued[m].ino].token == Random(s.issued[m].ino)
  }

  lemma TokensKept(s: State, a: Action)
    ensures var t := Do(s, a); |s.files| <= |t.files| && forall i | 0 <= i < |s.files| ::
      t.files[i].token == s.files[i].token
  {
  }

  lemma NewIssue(s: State, a: Action)
    ensures var t := Do(s, a);
      |s.issued| < |t.issued| ==>
        && |t.issued| == |s.issued| + 1
        && var last := t.issued[|s.issued|];
           last.byRotate || (last.ino < |t.files| && t.files[last.ino].token == Random(last.ino))
  {
  }

  lemma {:induction false} RunReplacements(s: State, run: seq<Action>)
    requires ReplacementsRandom(s)
    ensures ReplacementsRandom(After(s, run))
    decreases |run|
  {
    if run != [] {
      hide StepRotate, StepConsume, FaultOf, Tearing;
      var t := Do(s, run[0]);
      TokensKept(s, run[0]);
      IssuesAppend(s, run[0]);
      NewIssue(s, run[0]);
      assert ReplacementsRandom(t) by {
        assert forall m | 0 <= m < |s.issued| :: t.issued[m] == s.issued[m];
      }
      RunReplacements(t, run[1..]);
    }
  }

  /** Some consume has returned True for this token. */
  ghost predicate Accepted(s: State, token: Token) {
    exists p: OpId :: p < |s.ops| && s.ops[p] == Consumed(token, true)
  }

  /** In a calm run the live name, when present, names the newest issue, and issues are only ever appended. */
  lemma LiveOnlyMovesForward(first: seq<Action>, more: seq<Action>)
    requires Calm(Init, first) && Calm(After(Init, first), more)
    ensures var s, t := After(Init, first), After(After(Init, first), more);
      && s.issued <= t.issued
      && (Live in s.dir ==> s.issued != [] && s.dir[Live] == Last(s))
      && (Live in t.dir ==> t.issued != [] && t.dir[Live] == Last(t))
      && (forall m | 0 <= m < |t.issued| - 1 && Live in t.dir :: t.dir[Live] != t.issued[m].ino)
  {
    CalmRun(Init, first);
    CalmRun(After(Init, first), more);
    IssuesOnlyAppend(After(Init, first), more);
  }

  /**
   At rest after a calm run, the live name holds the complete newest token, which nobody has
   used. That is the last rotated token exactly when nobody used that one either; otherwise
   it is the random replacement published when it was used.
   */
  lemma RestHoldsNewest(run: seq<Action>, r: nat)
    requires Calm(Init, run) && After(Init, run).Quiescent()
    requires var s := After(Init, run);
      r < |s.issued| && s.issued[r].byRotate && forall m | r < m < |s.issued| :: !s.issued[m].byRotate
    ensures var s := After(Init, run);
      && s.issued[r].ino < |s.files| && Last(s) < |s.files|
      && s.Read(Live) == Some(s.files[Last(s)].token)
      && !Accepted(s, s.files[Last(s)].token)
      && (r == |s.issued| - 1 <==> !Accepted(s, s.files[s.issued[r].ino].token))
      && (r != |s.issued| - 1 ==> s.files[Last(s)].token == Random(Last(s)))
  {
    CalmRun(Init, run);
    RunReplacements(Init, run);
    RestFacts(After(Init, run), r);
    assert r < |After(Init, run).issued| - 1 ==> !After(Init, run).issued[|After(Init, run).issued| - 1].byRotate;
  }

  lemma RestFacts(s: State, r: nat)
    requires Inv(s) && Ordered(s) && s.Quiescent() && r < |s.issued|
    requires forall m | r < m < |s.issued| :: !s.issued[m].byRotate
    ensures s.issued[r].ino < |s.files| && Last(s) < |s.files|
    ensures s.Read(Live) == Some(s.files[Last(s)].token)
    ensures !Accepted(s, s.files[Last(s)].token)
    ensures r == |s.issued| - 1 <==> !Accepted(s, s.files[s.issued[r].ino].token)
  {
    LiveAtRest(s);
    UnmatchedNotAccepted(s, Last(s));
    if r < |s.issued| - 1 {
      assert !s.issued[r + 1].byRotate;
      MatchedIsAccepted(s, s.issued[r].ino);
    }
  }

  lemma LiveAtRest(s: State)
    requires LiveIsLast(s) && Chain(s) && Complete(s) && s.Quiescent() && s.issued != []
    ensures Live in s.dir && s.dir[Live] == Last(s) && Last(s) < |s.files| && s.files[Last(s)].fill == Full
  {
    assert forall p: OpId | p < |s.ops| :: !s.ops[p].Active();
    assert !BeingWritten(s, Last(s));
  }

  /** A token still under the live name has not been used. */
  lemma UnmatchedNotAccepted(s: State, i: Ino)
    requires Inv(s) && Matches(s) && i < |s.files| && Live in s.dir && s.dir[Live] == i
    ensures !Accepted(s, s.files[i].token)
  {
    assert Holds(s, ByName, i);
  }

  lemma MatchedIsAccepted(s: State, i: Ino)
    requires Matches(s) && s.Quiescent() && WasMatched(s, i)
    ensures i < |s.files| && Accepted(s, s.files[i].token)
  {
    var p: OpId :| p in s.source && s.source[p] == i;
    assert s.ops[p] == Consumed(s.files[i].token, true);
  }
}
