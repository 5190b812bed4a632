/**
 Why the ordering result needs the one-consume rule: two overlapping consumes lose the
 newest rotated token although nobody used it and nothing failed.
 */
module SetupTokenOverlap {
  import opened Wrappers
  import opened SetupToken

  const T0 := Random(0)
  const F0 := File(Random(0), Full, 0)
  const F1 := File(Random(1), Full, 3)
  const F2 := File(Random(2), Full, 2)

  /** Rotate 0 has issued token 0. */
  const OneIssued := State(map[Live := 0], [F0], Some(0), [Rotated(0)], [Issue(0, true)], map[])

  /** Consumes 1 and 2 have both read token 0; consume 2 has claimed and matched it and pauses. */
  const TwoConsumes := State(map[Claim(2) := 0], [F0], Some(0), [Rotated(0), Take(T0), Replace(T0)],
                             [Issue(0, true)], map[2 := 0])

  /** Rotate 3 has issued token 1. */
  const TwoIssued := State(map[Claim(2) := 0, Live := 1], [F0, F1], Some(0),
                           [Rotated(0), Take(T0), Replace(T0), Rotated(1)],
                           [Issue(0, true), Issue(1, true)], map[2 := 0])

  /** Consume 1 has claimed token 1 by mistake, and consume 2 has taken the free name. */
  const NameTaken := State(map[Claim(2) := 0, Claim(1) := 1, Live := 2], [F0, F1, File(Random(2), Empty, 2)], Some(0),
                           [Rotated(0), Restore(T0), ReplaceWrite(T0, 2), Rotated(1)],
                           [Issue(0, true), Issue(1, true), Issue(2, false)], map[2 := 0])

  const AtRest := State(map[Live := 2], [F0, F1, F2], Some(0),
                        [Rotated(0), Consumed(T0, false), Consumed(T0, true), Rotated(1)],
                        [Issue(0, true), Issue(1, true), Issue(2, false)], map[2 := 0])

  lemma {:induction false} AfterSplit(s: State, run: seq<Action>, more: seq<Action>)
    ensures After(s, run + more) == After(After(s, run), more)
    decreases |run|
  {
    if run == [] {
      assert run + more == more;
    } else {
      assert (run + more)[0] == run[0] && (run + more)[1..] == run[1..] + more;
      AfterSplit(Do(s, run[0]), run[1..], more);
    }
  }

  lemma AfterTwo(s: State, a: Action, b: Action)
    ensures After(s, [a, b]) == Do(Do(s, a), b)
  {
    assert [a, b][1..] == [b] && [b][1..] == [];
    assert After(Do(s, a), [b]) == After(Do(Do(s, a), b), []);
  }

  lemma AfterThree(s: State, a: Action, b: Action, c: Action)
    ensures After(s, [a, b, c]) == Do(Do(Do(s, a), b), c)
  {
    assert [a, b, c][1..] == [b, c];
    AfterTwo(Do(s, a), b, c);
  }

  lemma IssueFirst(s: State, u: State, t: State)
    requires s == Init && t == OneIssued
    requires u == State(map[], [], Some(0), [TempCreate(None)], [], map[])
    ensures After(s, Part(0)) == u
    ensures After(u, Part(1)) == t
  {
    AfterThree(s, StartRotate(None), Step(0), Step(0));
    AfterThree(u, Step(0), Step(0), Step(0));
    PublishAlone(u, t);
  }

  lemma PublishAlone(u: State, t: State)
    requires u == State(map[], [], Some(0), [TempCreate(None)], [], map[]) && t == OneIssued
    ensures Do(Do(Do(u, Step(0)), Step(0)), Step(0)) == t
  {
    var v := Do(u, Step(0));
    assert v == State(map[Temp(0) := 0], [File(Random(0), Empty, 0)], Some(0), [TempWrite(0)], [], map[]);
    var w := Do(v, Step(0));
    assert w == State(map[Temp(0) := 0], [F0], Some(0), [Publish(0)], [], map[]);
  }

  lemma StartBoth(s: State, u: State, t: State)
    requires s == OneIssued && t == TwoConsumes
    requires u == s.(ops := [Rotated(0), Take(T0), Take(T0)])
    ensures After(s, Part(2)) == s.(ops := [Rotated(0), Take(T0)])
    ensures After(s.(ops := [Rotated(0), Take(T0)]), Part(3)) == u
    ensures After(u, Part(4)) == t
  {
    var v := s.(ops := [Rotated(0), Take(T0)]);
    AfterTwo(s, StartConsume(T0), Step(1));
    AfterTwo(v, StartConsume(T0), Step(2));
    AfterTwo(u, Step(2), Step(2));
    ClaimAndMatch(u, t);
  }

  lemma ClaimAndMatch(u: State, t: State)
    requires u == OneIssued.(ops := [Rotated(0), Take(T0), Take(T0)]) && t == TwoConsumes
    ensures Do(Do(u, Step(2)), Step(2)) == t
  {
    var v := Do(u, Step(2));
    assert v == u.(dir := map[Claim(2) := 0], ops := [Rotated(0), Take(T0), Inspect(T0)]);
  }

  lemma IssueSecond(s: State, u: State, t: State)
    requires s == TwoConsumes && t == TwoIssued
    requires u == s.(ops := s.ops + [TempCreate(None)])
    ensures After(s, Part(5)) == u
    ensures After(u, Part(6)) == t
  {
    AfterTwo(s, StartRotate(None), Step(3));
    AfterThree(u, Step(3), Step(3), Step(3));
    PublishBeside(u, t);
  }

  lemma PublishBeside(u: State, t: State)
    requires u == TwoConsumes.(ops := TwoConsumes.ops + [TempCreate(None)]) && t == TwoIssued
    ensures Do(Do(Do(u, Step(3)), Step(3)), Step(3)) == t
  {
    var v := Do(u, Step(3));
    assert v == u.(dir := map[Claim(2) := 0, Temp(1) := 1], files := [F0, File(Random(1), Empty, 3)],
        ops := u.ops[3 := TempWrite(1)]);
    var w := Do(v, Step(3));
    assert w == v.(files := [F0, F1], ops := u.ops[3 := Publish(1)]);
  }

  lemma TakeName(s: State, t: State)
    requires s == TwoIssued && t == NameTaken
    ensures After(s, Part(7)) == t
  {
    AfterThree(s, Step(1), Step(1), Step(2));
    var u := s.(dir := map[Claim(2) := 0, Claim(1) := 1], ops := s.ops[1 := Inspect(T0)]);
    var v := u.(ops := s.ops[1 := Restore(T0)]);
    ClaimByMistake(s, u);
    SeeMistake(u, v);
    OccupyName(v, t);
  }

  lemma ClaimByMistake(s: State, u: State)
    requires s == TwoIssued && u == s.(dir := map[Claim(2) := 0, Claim(1) := 1], ops := s.ops[1 := Inspect(T0)])
    ensures Do(s, Step(1)) == u
  {
  }

  lemma SeeMistake(u: State, v: State)
    requires u == TwoIssued.(dir := map[Claim(2) := 0, Claim(1) := 1], ops := TwoIssued.ops[1 := Inspect(T0)])
    requires v == u.(ops := TwoIssued.ops[1 := Restore(T0)])
    ensures Do(u, Step(1)) == v
  {
  }

  lemma OccupyName(v: State, t: State)
    requires v == TwoIssued.(dir := map[Claim(2) := 0, Claim(1) := 1], ops := TwoIssued.ops[1 := Restore(T0)])
      && t == NameTaken
    ensures Do(v, Step(2)) == t
  {
  }

  lemma Settle(s: State, u: State, t: State)
    requires s == NameTaken && t == AtRest
    requires u == t.(dir := map[Claim(1) := 1, Live := 2], ops := t.ops[1 := Restore(T0)])
    ensures After(s, Part(8)) == u
    ensures After(u, Part(9)) == t
  {
    hide Do, After;
    AfterTwo(s, Step(2), Step(2));
    AfterTwo(u, Step(1), Step(1));
    FinishAccept(s, u);
    FinishReject(u, t);
  }

  lemma FinishAccept(s: State, u: State)
    requires s == NameTaken
    requires u == AtRest.(dir := map[Claim(1) := 1, Live := 2], ops := AtRest.ops[1 := Restore(T0)])
    ensures Do(Do(s, Step(2)), Step(2)) == u
  {
    var v := Do(s, Step(2));
    assert v == s.(files := [F0, F1, F2], ops := s.ops[2 := Drop(T0, Accept)]);
  }

  lemma FinishReject(u: State, t: State)
    requires u == AtRest.(dir := map[Claim(1) := 1, Live := 2], ops := AtRest.ops[1 := Restore(T0)]) && t == AtRest
    ensures Do(Do(u, Step(1)), Step(1)) == t
  {
    var v := Do(u, Step(1));
    assert v == u.(ops := u.ops[1 := Drop(T0, Reject)]);
  }

  /** The parts of the run, in order. */
  function Part(k: nat): seq<Action> {
    match k
    case 0 => [StartRotate(None), Step(0), Step(0)]
    case 1 => [Step(0), Step(0), Step(0)]
    case 2 => [StartConsume(T0), Step(1)]
    case 3 => [StartConsume(T0), Step(2)]
    case 4 => [Step(2), Step(2)]
    case 5 => [StartRotate(None), Step(3)]
    case 6 => [Step(3), Step(3), Step(3)]
    case 7 => [Step(1), Step(1), Step(2)]
    case 8 => [Step(2), Step(2)]
    case _ => [Step(1), Step(1)]
  }

  function Parts(k: nat): seq<Action> {
    if k == 0 then [] else Parts(k - 1) + Part(k - 1)
  }

  /** Reaching one state from another extends a run by one part. */
  lemma Extend(k: nat, s: State, t: State)
    requires After(Init, Parts(k)) == s && After(s, Part(k)) == t
    ensures After(Init, Parts(k + 1)) == t
  {
    AfterSplit(Init, Parts(k), Part(k));
  }

  lemma StartsAtInit()
    ensures Parts(0) == [] && After(Init, []) == Init
  {
  }

  lemma NothingFails(k: nat)
    ensures forall a :: a in Parts(k) ==> a.StartRotate? || a.StartConsume? || a.Step?
  {
    if k > 0 {
      NothingFails(k - 1);
    }
  }

  /** The whole overlapping run. */
  function Overlap(): seq<Action> {
    Parts(10)
  }

  /** It contains no fault, crash, torn write or lost file, and ends in `AtRest`. */
  lemma OverlapRun()
    ensures After(Init, Overlap()) == AtRest
    ensures forall a :: a in Overlap() ==> a.StartRotate? || a.StartConsume? || a.Step?
  {
    hide Parts;
    PartsRun(10);
  }

  lemma PartsRun(n: nat)
    requires n == 10
    ensures After(Init, Parts(n)) == AtRest
    ensures forall a :: a in Parts(n) ==> a.StartRotate? || a.StartConsume? || a.Step?
  {
    hide Part, After;
    assert Parts(0) == [] && After(Init, []) == Init by { StartsAtInit(); }
    NothingFails(n);
    var u0 := State(map[], [], Some(0), [TempCreate(None)], [], map[]);
    IssueFirst(Init, u0, OneIssued);
    Extend(0, Init, u0);
    Extend(1, u0, OneIssued);
    var v1 := OneIssued.(ops := [Rotated(0), Take(T0)]);
    var u1 := OneIssued.(ops := [Rotated(0), Take(T0), Take(T0)]);
    StartBoth(OneIssued, u1, TwoConsumes);
    Extend(2, OneIssued, v1);
    Extend(3, v1, u1);
    Extend(4, u1, TwoConsumes);
    var u2 := TwoConsumes.(ops := TwoConsumes.ops + [TempCreate(None)]);
    IssueSecond(TwoConsumes, u2, TwoIssued);
    Extend(5, TwoConsumes, u2);
    Extend(6, u2, TwoIssued);
    TakeName(TwoIssued, NameTaken);
    Extend(7, TwoIssued, NameTaken);
    var u3 := AtRest.(dir := map[Claim(1) := 1, Live := 2], ops := AtRest.ops[1 := Restore(T0)]);
    Settle(NameTaken, u3, AtRest);
    Extend(8, NameTaken, u3);
    Extend(9, u3, AtRest);
  }

  /** At rest, the last rotated token is under no name although no consume accepted it. */
  ghost predicate NewestLost(s: State, r: nat) {
    && s.Quiescent()
    && r < |s.issued| && s.issued[r].byRotate && (forall m | r < m < |s.issued| :: !s.issued[m].byRotate)
    && s.issued[r].ino < |s.files|
    && (forall n :: n in s.dir ==> s.dir[n] != s.issued[r].ino)
    && (forall p | 0 <= p < |s.ops| :: s.ops[p] != Consumed(s.files[s.issued[r].ino].token, true))
  }

  /** Two overlapping consumes lose the newest rotated token, with nothing failing anywhere. */
  lemma OverlapLosesNewestToken()
    ensures forall a :: a in Overlap() ==> a.StartRotate? || a.StartConsume? || a.Step?
    ensures NewestLost(After(Init, Overlap()), 1)
  {
    hide Overlap, NewestLost;
    OverlapRun();
    RestIsLost(AtRest);
  }

  lemma RestIsLost(s: State)
    requires s == AtRest
    ensures NewestLost(s, 1)
  {
    assert s.issued[2] == Issue(2, false);
    assert s.dir[Live] == 2;
  }
}
