/**
 Private names do not linger: in a calm run every temp and claim name belongs to the one
 operation still using it, so at rest the directory holds the live name alone.
 */
module SetupTokenTidy {
  import opened SetupToken
  import opened SetupTokenSafety
  import opened SetupTokenOrder

  /** Operation `p` is writing or publishing this temp file. */
  predicate UsesTemp(s: State, p: OpId, f: Ino) {
    p < |s.ops| && (s.ops[p] == TempWrite(f) || s.ops[p] == Publish(f))
  }

  predicate UsesClaim(op: Op) {
    op.Inspect? || op.Replace? || op.ReplaceWrite? || op.Restore? || op.Drop?
  }

  ghost predicate InUse(s: State, n: Name) {
    match n
    case Live => true
    case Temp(f) => exists p :: UsesTemp(s, p, f)
    case Claim(p) => p < |s.ops| && UsesClaim(s.ops[p])
  }

  ghost predicate Tidy(s: State) {
    forall n :: n in s.dir ==> InUse(s, n)
  }

  /** Names stay in use as long as their operations do. */
  lemma TidyFrame(s: State, t: State, p: OpId)
    requires Tidy(s) && p < |s.ops| && |t.ops| == |s.ops| && forall q: OpId | q < |s.ops| && q != p ::
      t.ops[q] == s.ops[q]
    requires forall n :: n in t.dir ==> n in s.dir || n == Live || n == Claim(p)
    requires forall f: Ino :: Temp(f) in t.dir && UsesTemp(s, p, f) ==> UsesTemp(t, p, f)
    requires Claim(p) in t.dir ==> UsesClaim(t.ops[p])
    ensures Tidy(t)
  {
    forall n | n in t.dir ensures InUse(t, n) {
      match n
      case Live =>
      case Claim(q) =>
        assert q != p ==> InUse(s, n);
      case Temp(f) =>
        assert InUse(s, n);
        var q :| UsesTemp(s, q, f);
        assert UsesTemp(t, q, f);
    }
  }

  lemma RotateTidy(s: State, p: OpId)
    requires Names(s) && Steady(s) && Tidy(s) && p < |s.ops| && !s.ops[p].Consuming() && !s.ops[p].TempCreate?
    ensures Tidy(Do(s, Step(p)))
  {
    var t := Do(s, Step(p));
    assert Claim(p) in s.dir ==> InUse(s, Claim(p));
    TidyFrame(s, t, p);
  }

  lemma TempCreateTidy(s: State, p: OpId)
    requires Names(s) && Tidy(s) && p < |s.ops| && s.ops[p].TempCreate?
    ensures Tidy(Do(s, Step(p)))
  {
    var t := Do(s, Step(p));
    var i := |s.files|;
    assert UsesTemp(t, p, i);
    assert Claim(p) in s.dir ==> InUse(s, Claim(p));
    TidyFrame(s, t.(dir := s.dir), p);
    forall n | n in t.dir ensures InUse(t, n) {
      if n != Temp(i) { assert InUse(t.(dir := s.dir), n); }
      if n.Temp? && n != Temp(i) {
        var q :| UsesTemp(t.(dir := s.dir), q, n.f);
        assert UsesTemp(t, q, n.f);
      }
    }
  }

  lemma ConsumeTidy(s: State, p: OpId)
    requires Names(s) && Steady(s) && Tidy(s) && p < |s.ops| && s.ops[p].Consuming()
    ensures Tidy(Do(s, Step(p)))
  {
    var t := Do(s, Step(p));
    assert Claim(p) in s.dir ==> InUse(s, Claim(p));
    TidyFrame(s, t, p);
  }

  lemma DoTidy(s: State, a: Action)
    requires Names(s) && Steady(s) && Tidy(s) && CalmAction(s, a)
    ensures Tidy(Do(s, a))
  {
    match a
    case StartRotate(seed) => StartTidy(s, Mark(seed));
    case StartConsume(c) => StartTidy(s, Look(c));
    case Tear(p) =>
      if p < |s.ops| { TidyFrame(s, Do(s, a), p); }
    case Step(p) =>
      if p < |s.ops| {
        if s.ops[p].Consuming() { ConsumeTidy(s, p); }
        else if s.ops[p].TempCreate? { TempCreateTidy(s, p); }
        else { RotateTidy(s, p); }
      }
  }

  lemma StartTidy(s: State, op: Op)
    requires Tidy(s)
    ensures Tidy(s.(ops := s.ops + [op]))
  {
    var t := s.(ops := s.ops + [op]);
    forall n | n in t.dir ensures InUse(t, n) {
      assert InUse(s, n);
      if n.Temp? {
        var q :| UsesTemp(s, q, n.f);
        assert UsesTemp(t, q, n.f);
      }
    }
  }

  lemma {:induction false} RunTidy(s: State, run: seq<Action>)
    requires Inv(s) && Ordered(s) && Tidy(s) && Calm(s, run)
    ensures Tidy(After(s, run))
    decreases |run|
  {
    if run != [] {
      hide Inv, Names, Steady, Tidy;
      DoInv(s, run[0]);
      DoOrdered(s, run[0]);
      KeepsTidy(s, run[0]);
      RunTidy(Do(s, run[0]), run[1..]);
    }
  }

  lemma KeepsTidy(s: State, a: Action)
    requires Inv(s) && Ordered(s) && Tidy(s) && CalmAction(s, a)
    ensures Tidy(Do(s, a))
  {
    DoTidy(s, a);
  }

  /** At rest after a calm run no temp and no claim is left: the only name is the live one. */
  lemma RestLeavesOnlyTheToken(run: seq<Action>)
    requires Calm(Init, run) && After(Init, run).Quiescent()
    ensures forall n :: n in After(Init, run).dir ==> n == Live
  {
    hide Inv, Ordered, Tidy;
    StartsTidy(Init);
    RunTidy(Init, run);
    TidyAtRest(After(Init, run));
  }

  lemma StartsTidy(s: State)
    requires s == Init
    ensures Inv(s) && Ordered(s) && Tidy(s)
  {
  }

  lemma TidyAtRest(s: State)
    requires Tidy(s) && s.Quiescent()
    ensures forall n :: n in s.dir ==> n == Live
  {
    forall n | n in s.dir ensures n == Live {
      assert InUse(s, n);
      assert forall p | 0 <= p < |s.ops| :: !s.ops[p].Active();
    }
  }
}
