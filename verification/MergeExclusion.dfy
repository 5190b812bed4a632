/**
 What the claim, re-verify and release steps of the merge queue guarantee over every run.
 With claim stamps in commit order, at most one confirmed claim is ever merging. Without
 any clock assumption two may be, and the later claim then carries the smaller stamp. The
 least claim keeps its entry as long as no merge finishes or expires.
 */
module MergeExclusion {
  import opened Wrappers
  import opened MergeStore
  import opened MergeReplicas

  predicate OnClaim(op: Op) {
    op.Confirm? || op.Release? || op.Holds?
  }

  ghost predicate ClaimsKnown(s: State) {
    && (forall p: OpId | p < |s.ops| && OnClaim(s.ops[p]) :: s.ops[p].k < |s.claims|)
    && (forall p: OpId, q: OpId | p < |s.ops| && q < |s.ops| && OnClaim(s.ops[p]) && OnClaim(s.ops[q]) ::
          s.ops[p].k == s.ops[q].k ==> p == q)
  }

  predicate Won(s: State, e: Id, stamp: Stamp) {
    Claim(e, stamp) in s.claims
  }

  /** A merging entry carries the stamp of a won claim. */
  ghost predicate MergingWasClaimed(s: State) {
    forall e | IsMerging(s.docs, e) :: s.docs[e].started.Some? && Won(s, e, s.docs[e].started.value)
  }

  ghost predicate Increasing(s: State) {
    forall i, j | 0 <= i < j < |s.claims| :: s.claims[i].stamp < s.claims[j].stamp
  }

  /** A confirmed claim whose entry is still merging under it is the least merging claim. */
  ghost predicate HoldersAreLeast(s: State) {
    forall p: OpId, e | p < |s.ops| && s.ops[p].Holds? && s.Live(s.ops[p].k) && IsMerging(s.docs, e)
        && s.docs[e].started.Some? ::
      s.claims[s.ops[p].k].stamp <= s.docs[e].started.value
  }

  ghost predicate Inv(s: State) {
    ClaimsKnown(s) && MergingWasClaimed(s) && Increasing(s) && HoldersAreLeast(s)
  }

  /** The claim an action wins, if any, is stamped later than every claim won before it. */
  ghost predicate InClockOrder(s: State, a: Action) {
    Wins(s, a) ==> forall k | 0 <= k < |s.claims| :: s.claims[k].stamp < s.ops[a.p].stamp
  }

  ghost predicate ClockOrdered(s: State, run: seq<Action>)
    requires Run(s, run)
    decreases |run|
  {
    run == [] || (InClockOrder(s, run[0]) && ClockOrdered(Do(s, run[0]), run[1..]))
  }

  /** A step that wins no claim, confirms none and starts no merge keeps the invariant. */
  lemma LeaveInv(s: State, t: State)
    requires Inv(s) && t.claims == s.claims && |s.ops| <= |t.ops|
    requires forall e | IsMerging(t.docs, e) :: IsMerging(s.docs, e) && t.docs[e].started == s.docs[e].started
    requires forall p: OpId | p < |t.ops| && OnClaim(t.ops[p]) ::
      p < |s.ops| && OnClaim(s.ops[p]) && s.ops[p].k == t.ops[p].k
    requires forall p: OpId | p < |t.ops| && t.ops[p].Holds? :: p < |s.ops| && s.ops[p] == t.ops[p]
    ensures Inv(t)
  {
  }

  lemma WinInv(s: State, p: OpId)
    requires Inv(s) && p < |s.ops| && s.ops[p].Swap? && IsPending(s.docs, s.ops[p].e)
    requires InClockOrder(s, CompareAndSwap(p))
    ensures Inv(Do(s, CompareAndSwap(p)))
  {
    WinHolders(s, p);
    hide HoldersAreLeast;
    var t := Do(s, CompareAndSwap(p));
    var e := s.ops[p].e;
    assert t.claims[|s.claims|] == Claim(e, s.ops[p].stamp);
    assert forall k | 0 <= k < |s.claims| :: t.claims[k] == s.claims[k];
    assert forall d | IsMerging(t.docs, d) && d != e :: IsMerging(s.docs, d) && t.docs[d] == s.docs[d];
  }

  lemma WinHolders(s: State, p: OpId)
    requires ClaimsKnown(s) && HoldersAreLeast(s) && p < |s.ops| && s.ops[p].Swap? && IsPending(s.docs, s.ops[p].e)
    requires InClockOrder(s, CompareAndSwap(p))
    ensures HoldersAreLeast(Do(s, CompareAndSwap(p)))
  {
    var t := Do(s, CompareAndSwap(p));
    var e := s.ops[p].e;
    assert forall k | 0 <= k < |s.claims| :: t.claims[k] == s.claims[k];
    assert forall d | IsMerging(t.docs, d) && d != e :: IsMerging(s.docs, d) && t.docs[d] == s.docs[d];
    assert forall k | 0 <= k < |s.claims| && t.Live(k) :: s.Live(k);
  }

  lemma ConfirmInv(s: State, p: OpId)
    requires Inv(s) && Enabled(s, ConfirmQuery(p))
    ensures Inv(Do(s, ConfirmQuery(p)))
  {
    var t := Do(s, ConfirmQuery(p));
    var k := s.ops[p].k;
    if !HasRival(s.docs, s.claims[k].e, s.claims[k].stamp) {
      assert forall e | IsMerging(s.docs, e) :: !Rival(s.docs, e, s.claims[k].e, s.claims[k].stamp);
    }
  }

  lemma DoInv(s: State, a: Action)
    requires Inv(s) && Enabled(s, a) && InClockOrder(s, a)
    ensures Inv(Do(s, a))
  {
    if Wins(s, a) {
      WinInv(s, a.p);
    } else if a.ConfirmQuery? {
      ConfirmInv(s, a.p);
    } else {
      LeaveInv(s, Do(s, a));
    }
  }

  lemma {:induction false} RunInv(s: State, run: seq<Action>)
    requires Inv(s) && Run(s, run) && ClockOrdered(s, run)
    ensures Inv(After(s, run))
    decreases |run|
  {
    if run != [] {
      DoInv(s, run[0]);
      RunInv(Do(s, run[0]), run[1..]);
    }
  }

  /** With stamps in commit order, at most one confirmed claim has its entry merging, and it is the least. */
  lemma OneConfirmedMerge(run: seq<Action>, p: OpId, q: OpId)
    requires Run(Init, run) && ClockOrdered(Init, run)
    requires var s := After(Init, run);
      p < |s.ops| && q < |s.ops| && s.ops[p].Holds? && s.ops[q].Holds? && s.Live(s.ops[p].k) && s.Live(s.ops[q].k)
    ensures p == q
    ensures var s := After(Init, run); var mine := s.claims[s.ops[p].k];
      forall e | IsMerging(s.docs, e) ::
        s.docs[e].started.Some? && (e == mine.e || mine.stamp < s.docs[e].started.value)
  {
    RunInv(Init, run);
    var s := After(Init, run);
    var mine, other := s.claims[s.ops[p].k], s.claims[s.ops[q].k];
    assert mine.stamp == other.stamp;
    forall e | IsMerging(s.docs, e) && e != mine.e
      ensures mine.stamp < s.docs[e].started.value
    {
      var j :| 0 <= j < |s.claims| && s.claims[j] == Claim(e, s.docs[e].started.value);
      assert j != s.ops[p].k;
    }
  }

  /** Runs in which merges neither finish nor expire: only claims and releases move entries. */
  ghost predicate Undisturbed(s: State, run: seq<Action>)
    requires Run(s, run)
    decreases |run|
  {
    run == [] || (!Finishes(s, run[0]) && Undisturbed(Do(s, run[0]), run[1..]))
  }

  predicate Finishes(s: State, a: Action) {
    || (a.MarkMerged? && IsMerging(s.docs, a.id))
    || (a.MarkFailed? && IsMerging(s.docs, a.id))
    || (a.SweepOne? && a.p < |s.ops| && s.ops[a.p].SweepNext? && s.ops[a.p].stale != []
        && IsMerging(s.docs, s.ops[a.p].stale[0]))
  }

  function Less(a: Claim, b: Claim): bool {
    Before(Some(a.stamp), a.e, b.stamp, b.e)
  }

  /** Claim `k` is least among all claims ever won. */
  ghost predicate LeastEver(s: State, k: nat) {
    k < |s.claims| && forall j | 0 <= j < |s.claims| :: s.claims[j] == s.claims[k] || Less(s.claims[k], s.claims[j])
  }

  /** Every running claim's entry is merging under it, and only one call works on each entry. */
  ghost predicate ClaimsInForce(s: State) {
    && ClaimsKnown(s) && MergingWasClaimed(s)
    && (forall p: OpId | p < |s.ops| && OnClaim(s.ops[p]) :: s.Live(s.ops[p].k))
    && (forall p: OpId, q: OpId | p < |s.ops| && q < |s.ops| && OnClaim(s.ops[p]) && OnClaim(s.ops[q]) ::
          s.claims[s.ops[p].k].e == s.claims[s.ops[q].k].e ==> p == q)
  }

  /** The least claim ever won is still in force and nobody is about to release it. */
  ghost predicate LeastStands(s: State) {
    forall k: nat | LeastEver(s, k) ::
      s.Live(k) && forall p: OpId | p < |s.ops| && s.ops[p].Release? && s.ops[p].k < |s.claims| ::
          s.claims[s.ops[p].k] != s.claims[k]
  }

  lemma QuietInForce(s: State, t: State)
    requires ClaimsInForce(s) && LeastStands(s) && t.claims == s.claims && |s.ops| <= |t.ops|
    requires forall e | IsMerging(s.docs, e) :: IsMerging(t.docs, e) && t.docs[e].started == s.docs[e].started
    requires forall e | IsMerging(t.docs, e) :: IsMerging(s.docs, e)
    requires forall p: OpId | p < |t.ops| && OnClaim(t.ops[p]) ::
      p < |s.ops| && OnClaim(s.ops[p]) && s.ops[p].k == t.ops[p].k
    requires forall p: OpId | p < |t.ops| && t.ops[p].Release? :: p < |s.ops| && s.ops[p] == t.ops[p]
    ensures ClaimsInForce(t) && LeastStands(t)
  {
    assert forall k: nat :: s.Live(k) ==> t.Live(k);
    assert forall k: nat :: LeastEver(t, k) ==> LeastEver(s, k);
  }

  lemma WinInForce(s: State, p: OpId)
    requires ClaimsInForce(s) && p < |s.ops| && s.ops[p].Swap? && IsPending(s.docs, s.ops[p].e)
    ensures ClaimsInForce(Do(s, CompareAndSwap(p)))
  {
    var t := Do(s, CompareAndSwap(p));
    var n, mine := |s.claims|, Claim(s.ops[p].e, s.ops[p].stamp);
    assert t.claims[n] == mine && forall k | 0 <= k < n :: t.claims[k] == s.claims[k];
    assert forall k: nat | k < n && s.Live(k) :: t.Live(k);
    assert forall e | IsMerging(t.docs, e) && e != mine.e :: IsMerging(s.docs, e) && t.docs[e] == s.docs[e];
    assert forall q: OpId | q < |s.ops| && OnClaim(s.ops[q]) :: s.claims[s.ops[q].k].e != mine.e;
  }

  lemma WinLeast(s: State, p: OpId)
    requires ClaimsKnown(s) && LeastStands(s) && p < |s.ops| && s.ops[p].Swap? && IsPending(s.docs, s.ops[p].e)
    ensures LeastStands(Do(s, CompareAndSwap(p)))
  {
    var t := Do(s, CompareAndSwap(p));
    var n, mine := |s.claims|, Claim(s.ops[p].e, s.ops[p].stamp);
    assert t.claims[n] == mine && forall k | 0 <= k < n :: t.claims[k] == s.claims[k];
    assert t.Live(n);
    forall k: nat | LeastEver(t, k)
      ensures t.Live(k) && forall q: OpId | q < |t.ops| && t.ops[q].Release? && t.ops[q].k < |t.claims| ::
        t.claims[t.ops[q].k] != t.claims[k]
    {
      if k < n {
        assert LeastEver(s, k) && s.Live(k) && t.Live(k);
      } else {
        NewLeast(s, t, mine);
      }
    }
  }

  /** A claim that becomes the least ever was never won before, so nobody is releasing it. */
  lemma NewLeast(s: State, t: State, mine: Claim)
    requires LeastStands(s) && IsPending(s.docs, mine.e) && t.claims == s.claims + [mine] && LeastEver(t, |s.claims|)
    ensures mine !in s.claims
  {
    assert t.claims[|s.claims|] == mine;
    if mine in s.claims {
      var j :| 0 <= j < |s.claims| && s.claims[j] == mine;
      assert forall i | 0 <= i < |s.claims| :: t.claims[i] == s.claims[i];
      assert LeastEver(s, j);
    }
  }

  lemma ConfirmInForce(s: State, p: OpId)
    requires ClaimsInForce(s) && Enabled(s, ConfirmQuery(p))
    ensures ClaimsInForce(Do(s, ConfirmQuery(p)))
  {
    var t := Do(s, ConfirmQuery(p));
    assert forall k: nat :: s.Live(k) ==> t.Live(k);
  }

  lemma ConfirmLeast(s: State, p: OpId)
    requires ClaimsKnown(s) && MergingWasClaimed(s) && LeastStands(s) && Enabled(s, ConfirmQuery(p))
    ensures LeastStands(Do(s, ConfirmQuery(p)))
  {
    var t := Do(s, ConfirmQuery(p));
    var mine := s.claims[s.ops[p].k];
    assert forall k: nat :: s.Live(k) ==> t.Live(k);
    assert forall k: nat :: LeastEver(t, k) ==> LeastEver(s, k);
    if t.ops[p].Release? {
      var other :| other in s.docs && Rival(s.docs, other, mine.e, mine.stamp);
      RivalIsSmaller(s, other, mine);
    }
  }

  lemma RivalIsSmaller(s: State, other: Id, mine: Claim)
    requires MergingWasClaimed(s) && Rival(s.docs, other, mine.e, mine.stamp)
    ensures forall k: nat | LeastEver(s, k) :: s.claims[k] != mine
  {
    var j :| 0 <= j < |s.claims| && s.claims[j] == Claim(other, s.docs[other].started.value);
    assert Less(s.claims[j], mine);
  }

  lemma ReleaseInForce(s: State, p: OpId)
    requires ClaimsInForce(s) && Enabled(s, ReleaseUpdate(p))
    ensures ClaimsInForce(Do(s, ReleaseUpdate(p)))
  {
    var t := Do(s, ReleaseUpdate(p));
    var mine := s.claims[s.ops[p].k];
    assert forall k: nat | s.Live(k) && s.claims[k].e != mine.e :: t.Live(k);
  }

  lemma ReleaseLeast(s: State, p: OpId)
    requires ClaimsInForce(s) && LeastStands(s) && Enabled(s, ReleaseUpdate(p))
    ensures LeastStands(Do(s, ReleaseUpdate(p)))
  {
    var t := Do(s, ReleaseUpdate(p));
    var mine := s.claims[s.ops[p].k];
    forall k: nat | LeastEver(t, k)
      ensures t.Live(k) && forall q: OpId | q < |t.ops| && t.ops[q].Release? && t.ops[q].k < |t.claims| ::
        t.claims[t.ops[q].k] != t.claims[k]
    {
      assert LeastEver(s, k);
      assert s.Live(k) && s.Live(s.ops[p].k);
    }
  }

  lemma DoInForce(s: State, a: Action)
    requires ClaimsInForce(s) && LeastStands(s) && Enabled(s, a) && !Finishes(s, a)
    ensures ClaimsInForce(Do(s, a)) && LeastStands(Do(s, a))
  {
    if Wins(s, a) {
      WinInForce(s, a.p);
      WinLeast(s, a.p);
    } else if a.ConfirmQuery? {
      ConfirmInForce(s, a.p);
      ConfirmLeast(s, a.p);
    } else if a.ReleaseUpdate? {
      ReleaseInForce(s, a.p);
      ReleaseLeast(s, a.p);
    } else {
      QuietInForce(s, Do(s, a));
    }
  }

  lemma {:induction false} RunInForce(s: State, run: seq<Action>)
    requires ClaimsInForce(s) && LeastStands(s) && Run(s, run) && Undisturbed(s, run)
    ensures ClaimsInForce(After(s, run)) && LeastStands(After(s, run))
    decreases |run|
  {
    if run != [] {
      DoInForce(s, run[0]);
      RunInForce(Do(s, run[0]), run[1..]);
    }
  }

  lemma {:induction false} LeastExists(claims: seq<Claim>) returns (k: nat)
    requires claims != []
    ensures k < |claims| && forall j | 0 <= j < |claims| :: claims[j] == claims[k] || Less(claims[k], claims[j])
  {
    if |claims| == 1 {
      k := 0;
    } else {
      var n := |claims| - 1;
      k := LeastExists(claims[..n]);
      if Less(claims[n], claims[k]) {
        k := n;
      }
    }
  }

  /**
   Whatever the clocks read, while no merge finishes or expires the least claim ever won keeps
   its entry merging and is never released.
   */
  lemma LeastClaimIsKept(run: seq<Action>) returns (k: nat)
    requires Run(Init, run) && Undisturbed(Init, run) && After(Init, run).claims != []
    ensures var s := After(Init, run);
      && LeastEver(s, k) && s.Live(k)
      && (forall p: OpId | p < |s.ops| && s.ops[p].Release? && s.ops[p].k < |s.claims| ::
          s.claims[s.ops[p].k] != s.claims[k])
  {
    RunInForce(Init, run);
    k := LeastExists(After(Init, run).claims);
    assert LeastEver(After(Init, run), k);
  }
}
