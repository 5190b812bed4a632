/**
 What overlapping consumes cost, exactly. With any number of consumes in flight and no fault, the last
 rotated token is under the live name, or was accepted, unless one particular step happened: a consume
 that had claimed it by mistake went to put it back and found the name taken.
 */
module SetupTokenRestore {
  import opened Wrappers
  import opened SetupToken
  import opened SetupTokenSafety
  import Order = SetupTokenOrder

  predicate FaultFree(a: Action) {
    a.StartRotate? || a.StartConsume? || a.Step? || a.Tear?
  }

  ghost predicate NoFaults(run: seq<Action>) {
    forall i | 0 <= i < |run| :: FaultFree(run[i])
  }

  /** The step is a restore of `f` that finds the live name taken. */
  predicate Bumps(s: State, a: Action, f: Ino) {
    && a.Step? && a.p < |s.ops| && s.ops[a.p].Restore?
    && Claim(a.p) in s.dir && s.dir[Claim(a.p)] == f && Live in s.dir
  }

  ghost predicate Bumped(s: State, run: seq<Action>, f: Ino)
    decreases |run|
  {
    run != [] && (Bumps(s, run[0], f) || Bumped(Do(s, run[0]), run[1..], f))
  }

  ghost predicate WasMatched(s: State, f: Ino) {
    exists p: OpId :: p in s.source && s.source[p] == f
  }

  /** A published file is under the live name, in the claim of a consume that has not decided, or matched. */
  ghost predicate Around(s: State, f: Ino) {
    || Holds(s, ByName, f)
    || (exists p: OpId :: InClaim(s, p, f))
    || WasMatched(s, f)
  }

  predicate InClaim(s: State, p: OpId, f: Ino) {
    p < |s.ops| && (s.ops[p].Inspect? || s.ops[p].Restore?) && Holds(s, ByOp(p), f)
  }

  ghost predicate Kept(s: State, f: Ino) {
    (exists h :: Holds(s, h, f)) || WasMatched(s, f)
  }

  /** A file that nobody holds and nobody matched. */
  ghost predicate Lost(s: State, f: Ino) {
    f < |s.files| && !Kept(s, f)
  }

  /** Nothing has gone wrong in a consume: it undoes no replacement, and one that matched still stands by it. */
  predicate Sound(op: Op) {
    !op.ReplaceUndo? && !op.ReplaceUnlink? && !(op.Drop? && op.verdict == Fail)
  }

  ghost predicate AllSound(s: State) {
    && (forall p: OpId | p < |s.ops| :: Sound(s.ops[p]))
    && (forall p: OpId | p in s.source :: p < |s.ops| && Matched(s.ops[p]))
  }

  lemma ConsumeSound(s: State, p: OpId)
    requires Names(s) && AllSound(s) && p < |s.ops| && s.ops[p].Consuming()
    ensures AllSound(StepConsume(s, p))
  {
    var t := StepConsume(s, p);
    assert forall q: OpId | q < |s.ops| && q != p :: t.ops[q] == s.ops[q];
    assert Sound(t.ops[p]) && (p in s.source ==> Matched(t.ops[p]));
  }

  lemma RotateMoves(s: State, p: OpId)
    requires p < |s.ops| && !s.ops[p].Consuming() && Sound(s.ops[p])
    ensures var t := StepRotate(s, p);
            && |t.ops| == |s.ops| && t.source == s.source
                && (forall q: OpId | q < |s.ops| && q != p :: t.ops[q] == s.ops[q])
            && Sound(t.ops[p]) && (Matched(s.ops[p]) ==> Matched(t.ops[p]))
  {
  }

  lemma RotateSound(s: State, p: OpId)
    requires AllSound(s) && p < |s.ops| && !s.ops[p].Consuming()
    ensures AllSound(StepRotate(s, p))
  {
    hide StepRotate, Sound, Matched;
    RotateMoves(s, p);
  }

  lemma DoSound(s: State, a: Action)
    requires Names(s) && AllSound(s) && FaultFree(a)
    ensures AllSound(Do(s, a))
  {
    hide StepRotate, StepConsume, Names;
    if a.Step? && a.p < |s.ops| {
      if s.ops[a.p].Consuming() { ConsumeSound(s, a.p); } else { RotateSound(s, a.p); }
    }
  }

  // ---- a published file stays around ----

  lemma AroundFrame(s: State, t: State, f: Ino)
    requires Around(s, f)
    requires Holds(s, ByName, f) ==> Around(t, f)
    requires forall p: OpId | InClaim(s, p, f) :: Around(t, f)
    requires forall p: OpId | p in s.source && s.source[p] == f :: p in t.source && t.source[p] == f
    ensures Around(t, f)
  {
    if WasMatched(s, f) {
      var p: OpId :| p in s.source && s.source[p] == f;
      assert p in t.source && t.source[p] == f;
    }
  }

  /** An action that leaves the live name, the claims and the undecided consumes as they are. */
  lemma AsideAround(s: State, t: State, f: Ino)
    requires Around(s, f) && t.source == s.source && |s.ops| <= |t.ops|
    requires Live in s.dir ==> Live in t.dir && t.dir[Live] == s.dir[Live]
    requires forall p: OpId | InClaim(s, p, f) :: InClaim(t, p, f)
    ensures Around(t, f)
  {
    AroundFrame(s, t, f);
  }

  lemma StartAround(s: State, op: Op, f: Ino)
    requires Around(s, f)
    ensures Around(s.(ops := s.ops + [op]), f)
  {
    AsideAround(s, s.(ops := s.ops + [op]), f);
  }

  lemma RotateAround(s: State, p: OpId, f: Ino)
    requires Around(s, f) && p < |s.ops| && !s.ops[p].Consuming() && !s.ops[p].Publish?
    ensures Around(StepRotate(s, p), f)
  {
    var t := StepRotate(s, p);
    assert forall q: OpId | q < |s.ops| && q != p :: t.ops[q] == s.ops[q];
    AsideAround(s, t, f);
  }

  lemma TakeAround(s: State, p: OpId, f: Ino)
    requires Names(s) && Around(s, f) && p < |s.ops| && s.ops[p].Take?
    ensures Around(StepConsume(s, p), f)
  {
    var t := StepConsume(s, p);
    assert forall q: OpId | q < |s.ops| && q != p :: t.ops[q] == s.ops[q];
    if Holds(s, ByName, f) {
      assert InClaim(t, p, f);
    }
    forall q: OpId | InClaim(s, q, f) ensures Around(t, f) { assert InClaim(t, q, f); }
    AroundFrame(s, t, f);
  }

  lemma InspectAround(s: State, p: OpId, f: Ino)
    requires Names(s) && Around(s, f) && p < |s.ops| && s.ops[p].Inspect?
    ensures Around(StepConsume(s, p), f)
  {
    var t := StepConsume(s, p);
    assert forall q: OpId | q < |s.ops| && q != p :: t.ops[q] == s.ops[q];
    forall q: OpId | InClaim(s, q, f) ensures Around(t, f) {
      if q == p && s.Read(Claim(p)) == Some(s.ops[p].c) {
        assert p in t.source && t.source[p] == f;
      } else {
        assert InClaim(t, q, f);
      }
    }
    AroundFrame(s, t, f);
  }

  lemma RestoreAround(s: State, p: OpId, f: Ino)
    requires Around(s, f) && p < |s.ops| && s.ops[p].Restore? && !Bumps(s, Step(p), f)
    ensures Around(StepConsume(s, p), f)
  {
    var t := StepConsume(s, p);
    assert forall q: OpId | q < |s.ops| && q != p :: t.ops[q] == s.ops[q];
    forall q: OpId | InClaim(s, q, f) ensures Around(t, f) {
      if q == p {
        assert Holds(t, ByName, f);
      } else {
        assert InClaim(t, q, f);
      }
    }
    AroundFrame(s, t, f);
  }

  /** The other consume steps touch neither the live name, when there is one, nor another consume's claim. */
  lemma SettleAround(s: State, p: OpId, f: Ino)
    requires Around(s, f) && p < |s.ops| && s.ops[p].Consuming() && Sound(s.ops[p])
    requires !s.ops[p].Take? && !s.ops[p].Inspect? && !s.ops[p].Restore?
    ensures Around(StepConsume(s, p), f)
  {
    var t := StepConsume(s, p);
    assert forall q: OpId | q < |s.ops| && q != p :: t.ops[q] == s.ops[q];
    AsideAround(s, t, f);
  }

  lemma DoAround(s: State, a: Action, f: Ino)
    requires Names(s) && AllSound(s) && Around(s, f) && FaultFree(a) && !Bumps(s, a, f)
    requires a.Step? && a.p < |s.ops| ==> !s.ops[a.p].Publish?
    ensures Around(Do(s, a), f)
  {
    hide Names, Around, Holds, StepRotate, StepConsume;
    match a
    case StartRotate(seed) => StartAround(s, Mark(seed), f);
    case StartConsume(c) => StartAround(s, Look(c), f);
    case Tear(p) => TearAround(s, p, f);
    case Step(p) =>
      if p < |s.ops| {
        if !s.ops[p].Consuming() { RotateAround(s, p, f); }
        else if s.ops[p].Take? { TakeAround(s, p, f); }
        else if s.ops[p].Inspect? { InspectAround(s, p, f); }
        else if s.ops[p].Restore? { RestoreAround(s, p, f); }
        else { SettleAround(s, p, f); }
      }
  }

  lemma TearAround(s: State, p: OpId, f: Ino)
    requires Around(s, f)
    ensures Around(Do(s, Tear(p)), f)
  {
    AsideAround(s, Do(s, Tear(p)), f);
  }

  // ---- a lost file stays lost ----

  /** Only the live name and one operation change hands. */
  lemma GainsFrame(s: State, t: State, p: OpId, f: Ino)
    requires |t.ops| == |s.ops| && t.source == s.source
    requires forall q: OpId | q < |s.ops| && q != p :: t.ops[q] == s.ops[q]
    requires forall q: OpId | q != p && Claim(q) in t.dir :: Claim(q) in s.dir && t.dir[Claim(q)] == s.dir[Claim(q)]
    requires Holds(t, ByName, f) || Holds(t, ByOp(p), f) ==> Kept(s, f)
    ensures Kept(t, f) ==> Kept(s, f)
  {
    if h :| Holds(t, h, f) {
      if h.ByOp? && h.p != p { assert Holds(s, h, f); }
    }
  }

  /** Nobody gets hold of an existing file but from somebody who has it. */
  lemma RotateGains(s: State, p: OpId, f: Ino)
    requires Names(s) && f < |s.files| && p < |s.ops| && !s.ops[p].Consuming()
    ensures Kept(StepRotate(s, p), f) ==> Kept(s, f)
  {
    var t := StepRotate(s, p);
    if Holds(t, ByName, f) { assert Holds(s, ByName, f) || Holds(s, ByOp(p), f); }
    if Holds(t, ByOp(p), f) { assert Holds(s, ByOp(p), f); }
    GainsFrame(s, t, p, f);
  }

  lemma ClaimGains(s: State, p: OpId, f: Ino)
    requires Names(s) && f < |s.files| && p < |s.ops| && (s.ops[p].Take? || s.ops[p].Inspect? || s.ops[p].Restore?)
    ensures Kept(StepConsume(s, p), f) ==> Kept(s, f)
  {
    var t := StepConsume(s, p);
    assert forall q: OpId | q < |s.ops| && q != p :: t.ops[q] == s.ops[q];
    if h :| Holds(t, h, f) {
      assert Holds(s, h, f) || Holds(s, ByOp(p), f) || Holds(s, ByName, f);
    } else if WasMatched(t, f) {
      var q: OpId :| q in t.source && t.source[q] == f;
      assert (q in s.source && s.source[q] == f) || Holds(s, ByOp(p), f);
    }
  }

  lemma SettleGains(s: State, p: OpId, f: Ino)
    requires f < |s.files| && p < |s.ops| && s.ops[p].Consuming() && !s.ops[p].Take? && !s.ops[p].Inspect?
      && !s.ops[p].Restore?
    ensures Kept(StepConsume(s, p), f) ==> Kept(s, f)
  {
    var t := StepConsume(s, p);
    assert forall q: OpId | q < |s.ops| && q != p :: t.ops[q] == s.ops[q];
    if h :| Holds(t, h, f) {
      assert Holds(s, h, f);
    }
  }

  lemma TearGains(s: State, p: OpId, f: Ino)
    ensures Kept(Do(s, Tear(p)), f) ==> Kept(s, f)
  {
    if h :| Holds(Do(s, Tear(p)), h, f) {
      assert Holds(s, h, f);
    }
  }

  lemma StartGains(s: State, op: Op, f: Ino)
    requires op.Mark? || op.Look?
    ensures Kept(s.(ops := s.ops + [op]), f) ==> Kept(s, f)
  {
    if h :| Holds(s.(ops := s.ops + [op]), h, f) {
      assert Holds(s, h, f);
    }
  }

  lemma FilesStay(s: State, a: Action)
    ensures |s.files| <= |Do(s, a).files|
  {
  }

  lemma DoLost(s: State, a: Action, f: Ino)
    requires Names(s) && Lost(s, f) && FaultFree(a)
    ensures Lost(Do(s, a), f)
  {
    hide Names, Kept, StepRotate, StepConsume;
    FilesStay(s, a);
    match a
    case StartRotate(seed) => StartGains(s, Mark(seed), f);
    case StartConsume(c) => StartGains(s, Look(c), f);
    case Tear(p) => TearGains(s, p, f);
    case Step(p) =>
      if p < |s.ops| {
        if !s.ops[p].Consuming() { RotateGains(s, p, f); }
        else if s.ops[p].Take? || s.ops[p].Inspect? || s.ops[p].Restore? { ClaimGains(s, p, f); }
        else { SettleGains(s, p, f); }
      }
  }

  /** The restore that finds the name taken had the only hold on its file. */
  lemma BumpLoses(s: State, a: Action, f: Ino)
    requires Inv(s) && Bumps(s, a, f)
    ensures Lost(Do(s, a), f)
  {
    hide OpFiles, FreshTokens, SeedOnce, MatchedTokens;
    var t := Do(s, a);
    var p := a.p;
    assert Holds(s, ByOp(p), f);
    assert !WasMatched(s, f);
    forall h ensures !Holds(t, h, f) {
      assert Holds(t, h, f) ==> Holds(s, h, f) && h != ByOp(p);
    }
  }

  // ---- whole runs ----

  /** No rotate publishes after the first `r` issues and the one at `r`. */
  ghost predicate LastRotated(s: State, r: nat) {
    r < |s.issued| && s.issued[r].byRotate && forall m | r < m < |s.issued| :: !s.issued[m].byRotate
  }

  /** A publication appends an issue, so none happens once the last rotated file is out. */
  lemma PublishIssues(s: State, run: seq<Action>, p: OpId, r: nat)
    requires run != [] && run[0] == Step(p) && p < |s.ops| && s.ops[p].Publish? && r < |s.issued|
    requires LastRotated(After(s, run), r)
    ensures Temp(s.ops[p].ino) !in s.dir
  {
    hide StepRotate, StepConsume;
    var t, u := Do(s, run[0]), After(s, run);
    Order.IssuesOnlyAppend(t, run[1..]);
    PublishAppends(s, p);
    assert forall m | 0 <= m < |t.issued| :: u.issued[m] == t.issued[m];
  }

  lemma PublishAppends(s: State, p: OpId)
    requires p < |s.ops| && s.ops[p].Publish?
    ensures Temp(s.ops[p].ino) in s.dir ==>
      |s.issued| < |Do(s, Step(p)).issued| && Do(s, Step(p)).issued[|s.issued|].byRotate
  {
  }

  /** A publication whose temp file is gone moves no name. */
  lemma FailedPublishAround(s: State, p: OpId, f: Ino)
    requires Around(s, f) && p < |s.ops| && s.ops[p].Publish? && Temp(s.ops[p].ino) !in s.dir
    ensures Around(StepRotate(s, p), f)
  {
    var t := StepRotate(s, p);
    assert forall q: OpId | q < |s.ops| && q != p :: t.ops[q] == s.ops[q];
    AsideAround(s, t, f);
  }

  /** From its publication on, the last rotated file stays around exactly as long as it is not bumped. */
  lemma {:induction false} AroundUnlessBumped(s: State, run: seq<Action>, f: Ino, r: nat)
    requires Inv(s) && AllSound(s) && Around(s, f) && NoFaults(run) && r < |s.issued| && LastRotated(After(s, run), r)
    ensures if Bumped(s, run, f) then Lost(After(s, run), f) else Around(After(s, run), f)
    decreases |run|
  {
    hide Around, Lost, Holds, StepRotate, StepConsume, Bumps, AllSound, LastRotated, Names, OpFiles, FreshTokens,
        Custody, SeedOnce, MatchedTokens;
    if run != [] {
      var a := run[0];
      assert FaultFree(a);
      assert NoFaults(run[1..]) by { assert forall i | 0 <= i < |run| - 1 :: run[1..][i] == run[i + 1]; }
      DoInv(s, a);
      DoSound(s, a);
      Order.IssuesAppend(s, a);
      if Bumps(s, a, f) {
        BumpLoses(s, a, f);
        StaysLost(Do(s, a), run[1..], f);
      } else {
        StepAround(s, run, f, r);
        AroundUnlessBumped(Do(s, a), run[1..], f, r);
      }
    }
  }

  lemma StepAround(s: State, run: seq<Action>, f: Ino, r: nat)
    requires Names(s) && AllSound(s) && Around(s, f) && run != [] && FaultFree(run[0]) && !Bumps(s, run[0], f)
    requires r < |s.issued| && LastRotated(After(s, run), r)
    ensures Around(Do(s, run[0]), f)
  {
    var a := run[0];
    if a.Step? && a.p < |s.ops| && s.ops[a.p].Publish? {
      PublishIssues(s, run, a.p, r);
      FailedPublishAround(s, a.p, f);
    } else {
      DoAround(s, a, f);
    }
  }

  lemma {:induction false} StaysLost(s: State, run: seq<Action>, f: Ino)
    requires Inv(s) && Lost(s, f) && NoFaults(run)
    ensures Lost(After(s, run), f)
    decreases |run|
  {
    hide Lost, OpFiles, FreshTokens, Custody, SeedOnce, MatchedTokens;
    if run != [] {
      assert FaultFree(run[0]);
      assert NoFaults(run[1..]) by { assert forall i | 0 <= i < |run| - 1 :: run[1..][i] == run[i + 1]; }
      DoInv(s, run[0]);
      DoLost(s, run[0], f);
      StaysLost(Do(s, run[0]), run[1..], f);
    }
  }

  lemma PublishedNow(s: State, a: Action, r: nat)
    requires |s.issued| <= r < |Do(s, a).issued| && Do(s, a).issued[r].byRotate
    ensures a.Step? && a.p < |s.ops| && s.ops[a.p].Publish?
    ensures Do(s, a).issued[r].ino == s.ops[a.p].ino
    ensures Names(s) ==> Holds(Do(s, a), ByName, s.ops[a.p].ino)
  {
  }

  /** The same from before its publication: a file bumped before it is published could never be published. */
  lemma {:induction false} AroundOnceIssued(s: State, run: seq<Action>, f: Ino, r: nat)
    requires Inv(s) && AllSound(s) && NoFaults(run) && |s.issued| <= r
    requires LastRotated(After(s, run), r) && After(s, run).issued[r].ino == f
    ensures if Bumped(s, run, f) then Lost(After(s, run), f) else Around(After(s, run), f)
    decreases |run|
  {
    hide Around, Lost, Holds, StepRotate, StepConsume, AllSound, OpFiles, FreshTokens, Custody, SeedOnce, MatchedTokens;
    if run != [] {
      var a := run[0];
      var t := Do(s, a);
      assert FaultFree(a);
      assert NoFaults(run[1..]) by { assert forall i | 0 <= i < |run| - 1 :: run[1..][i] == run[i + 1]; }
      DoInv(s, a);
      DoSound(s, a);
      Order.IssuesOnlyAppend(t, run[1..]);
      if Bumps(s, a, f) {
        BumpLoses(s, a, f);
        StaysLost(t, run[1..], f);
      } else if |t.issued| <= r {
        AroundOnceIssued(t, run[1..], f, r);
      } else {
        PublishedNow(s, a, r);
        HeldIsAround(t, f);
        AroundUnlessBumped(t, run[1..], f, r);
      }
    }
  }

  lemma HeldIsAround(s: State, f: Ino)
    requires Holds(s, ByName, f)
    ensures Around(s, f)
  {
  }

  lemma {:induction false} RunSound(s: State, run: seq<Action>)
    requires Inv(s) && AllSound(s) && NoFaults(run)
    ensures AllSound(After(s, run))
    decreases |run|
  {
    hide AllSound, OpFiles, FreshTokens, Custody, SeedOnce, MatchedTokens;
    if run != [] {
      assert FaultFree(run[0]);
      assert NoFaults(run[1..]) by { assert forall i | 0 <= i < |run| - 1 :: run[1..][i] == run[i + 1]; }
      DoInv(s, run[0]);
      DoSound(s, run[0]);
      RunSound(Do(s, run[0]), run[1..]);
    }
  }

  /** Some consume returned True on this very file. */
  ghost predicate AcceptedFile(s: State, f: Ino) {
    exists p: OpId :: p in s.source && s.source[p] == f && p < |s.ops| && s.ops[p].Consumed? && s.ops[p].ok
  }

  /**
   Exactly when the last rotated token survives a run without faults, with any number of overlapping
   consumes: at rest it is under the live name or was accepted if and only if no consume that had
   claimed it by mistake found the name taken when it went to put it back.
   */
  lemma LastRotatedSurvivesIff(run: seq<Action>, r: nat)
    requires NoFaults(run) && After(Init, run).Quiescent() && LastRotated(After(Init, run), r)
    ensures var s := After(Init, run); var f := s.issued[r].ino;
      (Live in s.dir && s.dir[Live] == f) || AcceptedFile(s, f) <==> !Bumped(Init, run, f)
  {
    hide Around, Lost, AllSound, OpFiles, FreshTokens, Custody, SeedOnce, MatchedTokens, Names;
    var s := After(Init, run);
    var f := s.issued[r].ino;
    StartsSound(Init);
    RunInv(Init, run);
    RunSound(Init, run);
    AroundOnceIssued(Init, run, f, r);
    if Bumped(Init, run, f) { LostAtRest(s, f); } else { AroundAtRest(s, f); }
  }

  lemma StartsSound(s: State)
    requires s == Init
    ensures Inv(s) && AllSound(s)
  {
  }

  lemma LostAtRest(s: State, f: Ino)
    requires Lost(s, f)
    ensures !(Live in s.dir && s.dir[Live] == f) && !AcceptedFile(s, f)
  {
    assert !Holds(s, ByName, f);
  }

  lemma AroundAtRest(s: State, f: Ino)
    requires Around(s, f) && AllSound(s) && s.Quiescent()
    ensures (Live in s.dir && s.dir[Live] == f) || AcceptedFile(s, f)
  {
    assert forall p: OpId | p < |s.ops| :: !s.ops[p].Active();
    if WasMatched(s, f) {
      var p: OpId :| p in s.source && s.source[p] == f;
      assert s.ops[p].Consumed? && s.ops[p].ok;
    }
  }
}
