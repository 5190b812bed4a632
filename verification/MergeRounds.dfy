/**
 The merge queue round by round, with no clock assumption. However merges finish, fail or expire, the
 replicas that compete once nothing merges never all back off; and of two confirmed claims in force the
 later-won one is always the smaller.
 */
module MergeRounds {
  import opened Wrappers
  import opened MergeStore
  import opened MergeReplicas
  import opened MergeExclusion

  // ---- nobody merging: the next round ----

  ghost predicate NumbersKnown(s: State) {
    forall p: OpId | p < |s.ops| && (s.ops[p].Confirm? || s.ops[p].Release?) :: s.ops[p].k < |s.claims|
  }

  /** Nothing is merging; calls may be anywhere. Claim numbers are known in every reachable state. */
  ghost predicate Idle(s: State) {
    (forall e :: !IsMerging(s.docs, e)) && NumbersKnown(s)
  }

  /** A claim won since the `n`-th is smaller than this one. */
  ghost predicate Beaten(s: State, c: Claim, n: nat) {
    exists j :: n <= j < |s.claims| && Less(s.claims[j], c)
  }

  /** Some call still works on claim `k`, or has returned its entry. */
  ghost predicate WorkedOn(s: State, k: nat) {
    exists p: OpId :: p < |s.ops| && (s.ops[p] == Confirm(k) || s.ops[p] == Holds(k))
  }

  ghost predicate WonSince(s: State, e: Id, stamp: Stamp, n: nat) {
    exists j :: n <= j < |s.claims| && s.claims[j] == Claim(e, stamp)
  }

  /** A merging entry carries a claim of this round. */
  ghost predicate MergingIsRecent(s: State, n: nat) {
    forall e | IsMerging(s.docs, e) :: s.docs[e].started.Some? && WonSince(s, e, s.docs[e].started.value, n)
  }

  /** A call about to release a claim of this round has been beaten in it. */
  ghost predicate ReleasesAreBeaten(s: State, n: nat) {
    forall p: OpId | p < |s.ops| && s.ops[p].Release? && n <= s.ops[p].k < |s.claims| ::
        Beaten(s, s.claims[s.ops[p].k], n)
  }

  ghost predicate Round(s: State, n: nat) {
    n <= |s.claims| && MergingIsRecent(s, n) && ReleasesAreBeaten(s, n) && NumbersKnown(s)
  }

  /** Every claim of the round is beaten or still worked on. */
  ghost predicate Settled(s: State, n: nat) {
    forall k: nat | n <= k < |s.claims| :: Beaten(s, s.claims[k], n) || WorkedOn(s, k)
  }

  /** A call dies after winning a claim of the round and before it knows whether it was beaten. */
  predicate Abandons(s: State, a: Action, n: nat) {
    a.Crash? && a.p < |s.ops| && s.ops[a.p].Confirm? && n <= s.ops[a.p].k
  }

  ghost predicate NoneAbandoned(s: State, run: seq<Action>, n: nat)
    requires Run(s, run)
    decreases |run|
  {
    run == [] || (!Abandons(s, run[0], n) && NoneAbandoned(Do(s, run[0]), run[1..], n))
  }

  lemma IdleStartsRound(s: State)
    requires Idle(s)
    ensures Round(s, |s.claims|) && Settled(s, |s.claims|)
  {
  }

  /** Claims are only ever added, so what was beaten or won stays so. */
  lemma ClaimsGrow(s: State, t: State, n: nat)
    requires s.claims <= t.claims
    ensures forall c :: Beaten(s, c, n) ==> Beaten(t, c, n)
    ensures forall e, stamp :: WonSince(s, e, stamp, n) ==> WonSince(t, e, stamp, n)
  {
    assert forall j | 0 <= j < |s.claims| :: t.claims[j] == s.claims[j];
  }

  /** A step that wins and confirms nothing. */
  lemma LeaveRound(s: State, t: State, n: nat)
    requires Round(s, n) && t.claims == s.claims
    requires forall e | IsMerging(t.docs, e) :: IsMerging(s.docs, e) && t.docs[e].started == s.docs[e].started
    requires forall p: OpId | p < |t.ops| && (t.ops[p].Confirm? || t.ops[p].Release?) ::
      p < |s.ops| && s.ops[p] == t.ops[p]
    ensures Round(t, n)
  {
    ClaimsGrow(s, t, n);
  }

  /** Calls that work on a claim of the round or hold one go on doing so. */
  lemma StaySettled(s: State, t: State, n: nat)
    requires Settled(s, n) && t.claims == s.claims && |s.ops| <= |t.ops|
    requires forall p: OpId | p < |s.ops| && (s.ops[p].Confirm? || s.ops[p].Holds?) && n <= s.ops[p].k ::
      t.ops[p] == s.ops[p]
    ensures Settled(t, n)
  {
    ClaimsGrow(s, t, n);
    forall k: nat | n <= k < |t.claims| ensures Beaten(t, t.claims[k], n) || WorkedOn(t, k) {
      if !Beaten(s, s.claims[k], n) {
        var p: OpId :| p < |s.ops| && (s.ops[p] == Confirm(k) || s.ops[p] == Holds(k));
        assert t.ops[p] == s.ops[p];
      }
    }
  }

  lemma WinRound(s: State, p: OpId, n: nat)
    requires Round(s, n) && p < |s.ops| && s.ops[p].Swap? && IsPending(s.docs, s.ops[p].e)
    ensures Round(Do(s, CompareAndSwap(p)), n)
    ensures Settled(s, n) ==> Settled(Do(s, CompareAndSwap(p)), n)
  {
    var t := Do(s, CompareAndSwap(p));
    var m, e := |s.claims|, s.ops[p].e;
    ClaimsGrow(s, t, n);
    assert t.claims[m] == Claim(e, s.ops[p].stamp) && t.ops[p] == Confirm(m);
    assert forall k | 0 <= k < m :: t.claims[k] == s.claims[k];
    assert forall d | IsMerging(t.docs, d) && d != e :: IsMerging(s.docs, d) && t.docs[d] == s.docs[d];
    if Settled(s, n) {
      forall k: nat | n <= k < |t.claims| ensures Beaten(t, t.claims[k], n) || WorkedOn(t, k) {
        if k < m && !Beaten(s, s.claims[k], n) {
          var q: OpId :| q < |s.ops| && (s.ops[q] == Confirm(k) || s.ops[q] == Holds(k));
          assert t.ops[q] == s.ops[q];
        }
      }
    }
  }

  /** A call that finds a rival has been beaten by a claim of this round; otherwise it holds its entry. */
  lemma ConfirmRound(s: State, p: OpId, n: nat)
    requires Round(s, n) && Enabled(s, ConfirmQuery(p))
    ensures Round(Do(s, ConfirmQuery(p)), n)
    ensures Settled(s, n) ==> Settled(Do(s, ConfirmQuery(p)), n)
  {
    var t := Do(s, ConfirmQuery(p));
    var k := s.ops[p].k;
    ClaimsGrow(s, t, n);
    if t.ops[p].Release? {
      var other :| other in s.docs && Rival(s.docs, other, s.claims[k].e, s.claims[k].stamp);
      var j :| n <= j < |s.claims| && s.claims[j] == Claim(other, s.docs[other].started.value);
      assert Less(s.claims[j], s.claims[k]);
    }
    assert Beaten(t, t.claims[k], n) || t.ops[p] == Holds(k);
    if Settled(s, n) {
      forall i: nat | n <= i < |t.claims| ensures Beaten(t, t.claims[i], n) || WorkedOn(t, i) {
        if !Beaten(s, s.claims[i], n) {
          var q: OpId :| q < |s.ops| && (s.ops[q] == Confirm(i) || s.ops[q] == Holds(i));
          assert q != p ==> t.ops[q] == s.ops[q];
        }
      }
    }
  }

  lemma DoRound(s: State, a: Action, n: nat)
    requires Round(s, n) && Enabled(s, a)
    ensures Round(Do(s, a), n)
    ensures Settled(s, n) && !Abandons(s, a, n) ==> Settled(Do(s, a), n)
  {
    if Wins(s, a) {
      WinRound(s, a.p, n);
    } else if a.ConfirmQuery? {
      ConfirmRound(s, a.p, n);
    } else {
      LeaveAll(s, a, n);
    }
  }

  lemma LeaveAll(s: State, a: Action, n: nat)
    requires Round(s, n) && Enabled(s, a) && !Wins(s, a) && !a.ConfirmQuery?
    ensures Round(Do(s, a), n)
    ensures Settled(s, n) && !Abandons(s, a, n) ==> Settled(Do(s, a), n)
  {
    hide MergingIsRecent, ReleasesAreBeaten, NumbersKnown, Settled;
    LeaveRound(s, Do(s, a), n);
    if Settled(s, n) && !Abandons(s, a, n) { StaySettled(s, Do(s, a), n); }
  }

  lemma {:induction false} RunRound(s: State, run: seq<Action>, n: nat)
    requires Round(s, n) && Run(s, run)
    ensures Round(After(s, run), n) && s.claims <= After(s, run).claims
    ensures Settled(s, n) && NoneAbandoned(s, run, n) ==> Settled(After(s, run), n)
    decreases |run|
  {
    if run != [] {
      hide Round, Settled, Abandons;
      DoRound(s, run[0], n);
      ClaimsOnlyGrow(s, run[0]);
      RunRound(Do(s, run[0]), run[1..], n);
    }
  }

  lemma ClaimsOnlyGrow(s: State, a: Action)
    requires Enabled(s, a)
    ensures s.claims <= Do(s, a).claims
  {
  }

  /** Claim `k` is least among those won since the `n`-th. */
  ghost predicate LeastSince(s: State, k: nat, n: nat) {
    n <= k < |s.claims| && forall j | n <= j < |s.claims| ::
        s.claims[j] == s.claims[k] || Less(s.claims[k], s.claims[j])
  }

  /**
   From any moment at which nothing merges, whatever crashes, finishes, fails or expires: whoever is about
   to release a claim won since has been beaten, so it never is the least of them.
   */
  lemma LeastIsNeverReleased(s: State, run: seq<Action>, k: nat, p: OpId)
    requires Idle(s) && Run(s, run) && LeastSince(After(s, run), k, |s.claims|)
    requires var t := After(s, run); p < |t.ops| && t.ops[p].Release? && |s.claims| <= t.ops[p].k
    ensures var t := After(s, run); t.ops[p].k < |t.claims| && t.claims[t.ops[p].k] != t.claims[k]
  {
    IdleStartsRound(s);
    RunRound(s, run, |s.claims|);
    var t := After(s, run);
    var j :| |s.claims| <= j < |t.claims| && Less(t.claims[j], t.claims[t.ops[p].k]);
  }

  /**
   Replicas never all back off. From any moment at which nothing merges, once claims have been won and no
   call is under way any more, some dequeue returned an entry claimed since, the least claim, unless a call
   died between winning a claim and learning whether it was beaten. Merges may finish, fail and expire, and
   calls may die anywhere else.
   */
  lemma SomeReplicaGetsAnEntry(s: State, run: seq<Action>) returns (p: OpId)
    requires Idle(s) && Run(s, run) && NoneAbandoned(s, run, |s.claims|) && |After(s, run).claims| > |s.claims|
    requires NoneUnderWay(After(s, run))
    ensures var t := After(s, run);
      p < |t.ops| && t.ops[p].Holds? && |s.claims| <= t.ops[p].k < |t.claims| && LeastSince(t, t.ops[p].k, |s.claims|)
  {
    IdleStartsRound(s);
    RunRound(s, run, |s.claims|);
    p := RestHasHolder(After(s, run), |s.claims|);
  }

  /** No call is still under way: each has returned or died. */
  predicate NoneUnderWay(s: State) {
    forall q | 0 <= q < |s.ops| :: s.ops[q].Holds? || s.ops[q].GotNone? || s.ops[q].Crashed?
  }

  lemma RestHasHolder(t: State, n: nat) returns (p: OpId)
    requires Settled(t, n) && |t.claims| > n && NoneUnderWay(t)
    ensures p < |t.ops| && t.ops[p].Holds? && n <= t.ops[p].k < |t.claims| && LeastSince(t, t.ops[p].k, n)
  {
    var i := LeastExists(t.claims[n..]);
    var k := n + i;
    assert t.claims[n..][i] == t.claims[k];
    assert LeastSince(t, k, n) by {
      assert forall j | n <= j < |t.claims| :: t.claims[n..][j - n] == t.claims[j];
    }
    assert !Beaten(t, t.claims[k], n);
    p :| p < |t.ops| && (t.ops[p] == Confirm(k) || t.ops[p] == Holds(k));
  }

  /** From the start, and as long as no merge finishes or expires, that entry is still merging under its claim. */
  lemma SomeReplicaKeepsItsEntry(run: seq<Action>) returns (p: OpId)
    requires Run(Init, run) && Undisturbed(Init, run) && NoneAbandoned(Init, run, 0) && After(Init, run).claims != []
    requires NoneUnderWay(After(Init, run))
    ensures var s := After(Init, run); p < |s.ops| && s.ops[p].Holds? && s.Live(s.ops[p].k)
  {
    p := SomeReplicaGetsAnEntry(Init, run);
    RunInForce(Init, run);
    assert LeastEver(After(Init, run), After(Init, run).ops[p].k);
  }

  // ---- two confirmed claims ----

  /** Claim `k` is the newest on its entry, which is still merging. */
  ghost predicate InForce(s: State, k: nat) {
    k < |s.claims| && IsMerging(s.docs, s.claims[k].e) && forall j | k < j < |s.claims| ::
        s.claims[j].e != s.claims[k].e
  }

  /** A merging entry carries the stamp of its newest claim. */
  ghost predicate NewestStamp(s: State) {
    forall k: nat | InForce(s, k) :: s.docs[s.claims[k].e].started == Some(s.claims[k].stamp)
  }

  ghost predicate HoldersKnown(s: State) {
    forall p: OpId | p < |s.ops| && (s.ops[p].Confirm? || s.ops[p].Holds?) :: s.ops[p].k < |s.claims|
  }

  /** A confirmed claim in force is smaller than every claim in force that was won before it. */
  ghost predicate LaterIsSmaller(s: State) {
    forall p: OpId, k: nat | p < |s.ops| && s.ops[p].Holds? && InForce(s, s.ops[p].k) && InForce(s, k)
        && k < s.ops[p].k ::
      Less(s.claims[s.ops[p].k], s.claims[k])
  }

  ghost predicate Stacked(s: State) {
    NewestStamp(s) && HoldersKnown(s) && LaterIsSmaller(s)
  }

  lemma LeaveStacked(s: State, t: State)
    requires Stacked(s) && t.claims == s.claims
    requires forall e | IsMerging(t.docs, e) :: IsMerging(s.docs, e) && t.docs[e].started == s.docs[e].started
    requires forall p: OpId | p < |t.ops| && (t.ops[p].Confirm? || t.ops[p].Holds?) ::
      p < |s.ops| && s.ops[p] == t.ops[p]
    ensures Stacked(t)
  {
    assert forall k: nat :: InForce(t, k) ==> InForce(s, k);
  }

  lemma WinStacked(s: State, p: OpId)
    requires Stacked(s) && p < |s.ops| && s.ops[p].Swap? && IsPending(s.docs, s.ops[p].e)
    ensures Stacked(Do(s, CompareAndSwap(p)))
  {
    var t := Do(s, CompareAndSwap(p));
    var m, e := |s.claims|, s.ops[p].e;
    assert t.claims[m] == Claim(e, s.ops[p].stamp) && forall k | 0 <= k < m :: t.claims[k] == s.claims[k];
    forall k: nat | InForce(t, k) && k < m ensures InForce(s, k) && t.docs[s.claims[k].e] == s.docs[s.claims[k].e] {
      assert t.claims[m].e != t.claims[k].e;
    }
  }

  lemma ConfirmStacked(s: State, p: OpId)
    requires Stacked(s) && Enabled(s, ConfirmQuery(p))
    ensures Stacked(Do(s, ConfirmQuery(p)))
  {
    var t := Do(s, ConfirmQuery(p));
    assert forall k: nat :: InForce(t, k) <==> InForce(s, k);
    var mine := s.ops[p].k;
    if t.ops[p].Holds? {
      forall k: nat | InForce(s, mine) && InForce(s, k) && k < mine ensures Less(s.claims[mine], s.claims[k]) {
        assert !Rival(s.docs, s.claims[k].e, s.claims[mine].e, s.claims[mine].stamp);
      }
    }
  }

  lemma DoStacked(s: State, a: Action)
    requires Stacked(s) && Enabled(s, a)
    ensures Stacked(Do(s, a))
  {
    if Wins(s, a) {
      WinStacked(s, a.p);
    } else if a.ConfirmQuery? {
      ConfirmStacked(s, a.p);
    } else {
      hide NewestStamp, LaterIsSmaller;
      LeaveStacked(s, Do(s, a));
    }
  }

  lemma {:induction false} RunStacked(s: State, run: seq<Action>)
    requires Stacked(s) && Run(s, run)
    ensures Stacked(After(s, run))
    decreases |run|
  {
    if run != [] {
      hide Stacked;
      DoStacked(s, run[0]);
      RunStacked(Do(s, run[0]), run[1..]);
    }
  }

  /** In every run, with any clocks: of two confirmed claims in force the one won later is the smaller. */
  lemma LaterHolderIsSmaller(run: seq<Action>, p: OpId, q: OpId)
    requires Run(Init, run)
    requires var s := After(Init, run);
      p < |s.ops| && q < |s.ops| && s.ops[p].Holds? && s.ops[q].Holds? && InForce(s, s.ops[p].k)
          && InForce(s, s.ops[q].k)
    requires After(Init, run).ops[p].k < After(Init, run).ops[q].k
    ensures var s := After(Init, run); Less(s.claims[s.ops[q].k], s.claims[s.ops[p].k])
  {
    RunStacked(Init, run);
  }
}
