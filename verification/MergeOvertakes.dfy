/**
 Exactly when two replicas hold the merge queue at once. With no clock assumption, two calls come to hold
 claims in force in those runs, and only in those, in which some call re-verifies a claim, finds no rival,
 and overtakes a call that was confirmed before it with a larger claim.
 */
module MergeOvertakes {
  import opened MergeStore
  import opened MergeReplicas
  import opened MergeExclusion
  import opened MergeRounds

  /** The call was confirmed and its merge goes on. */
  ghost predicate InPossession(s: State, p: OpId) {
    p < |s.ops| && s.ops[p].Holds? && InForce(s, s.ops[p].k)
  }

  /** Two different calls hold the queue. */
  ghost predicate TwoHold(s: State) {
    exists p: OpId, q: OpId :: p != q && InPossession(s, p) && InPossession(s, q)
  }

  /** A call re-verifies a claim in force and finds no rival, while another one holds the queue with a larger claim. */
  ghost predicate Overtakes(s: State, a: Action) {
    && a.ConfirmQuery? && Enabled(s, a)
    && var mine := s.ops[a.p].k;
    && InForce(s, mine) && !HasRival(s.docs, s.claims[mine].e, s.claims[mine].stamp)
    && exists q: OpId :: q != a.p && InPossession(s, q) && Less(s.claims[mine], s.claims[s.ops[q].k])
  }

  /** At some moment of the run. */
  ghost predicate EverTwoHold(s: State, run: seq<Action>)
    requires Run(s, run)
    decreases |run|
  {
    TwoHold(s) || (run != [] && EverTwoHold(Do(s, run[0]), run[1..]))
  }

  /** In some step of the run. */
  ghost predicate EverOvertakes(s: State, run: seq<Action>)
    requires Run(s, run)
    decreases |run|
  {
    run != [] && (Overtakes(s, run[0]) || EverOvertakes(Do(s, run[0]), run[1..]))
  }

  // ---- claim numbers ----

  lemma DoKnown(s: State, a: Action)
    requires ClaimsKnown(s) && Enabled(s, a)
    ensures ClaimsKnown(Do(s, a))
  {
    var t := Do(s, a);
    assert forall p: OpId | p < |t.ops| && OnClaim(t.ops[p]) && !(Wins(s, a) && p == a.p) ::
        p < |s.ops| && OnClaim(s.ops[p]) && s.ops[p].k == t.ops[p].k;
  }

  /** In every reachable state the calls at a claim work on claims that were won, each on its own. */
  lemma {:induction false} RunKnown(s: State, run: seq<Action>)
    requires ClaimsKnown(s) && Run(s, run)
    ensures ClaimsKnown(After(s, run)) && NumbersKnown(After(s, run))
    decreases |run|
  {
    if run != [] {
      DoKnown(s, run[0]);
      RunKnown(Do(s, run[0]), run[1..]);
    }
  }

  // ---- one step ----

  /** A claim that is no longer in force never is again. */
  lemma ForceIsNotRegained(s: State, a: Action, k: nat)
    requires Enabled(s, a) && k < |s.claims| && InForce(Do(s, a), k)
    ensures InForce(s, k)
  {
    var t := Do(s, a);
    assert forall j | 0 <= j < |s.claims| :: t.claims[j] == s.claims[j];
    if Wins(s, a) {
      assert t.claims[|s.claims|].e == s.ops[a.p].e;
    }
  }

  /** A call newly in possession has just found no rival. */
  lemma PossessionIsConfirmed(s: State, a: Action, p: OpId)
    requires ClaimsKnown(s) && Enabled(s, a) && InPossession(Do(s, a), p) && !InPossession(s, p)
    ensures a.ConfirmQuery? && a.p == p && InForce(s, s.ops[p].k)
    ensures !HasRival(s.docs, s.claims[s.ops[p].k].e, s.claims[s.ops[p].k].stamp)
  {
    var t := Do(s, a);
    hide InForce;
    if a.ConfirmQuery? && a.p == p {
      ForceIsNotRegained(s, a, t.ops[p].k);
    } else {
      assert p < |s.ops| && s.ops[p] == t.ops[p];
      ForceIsNotRegained(s, a, t.ops[p].k);
    }
  }

  /** Whoever finds no rival has a smaller claim than any other in force. */
  lemma NoRivalIsSmaller(s: State, mine: nat, held: nat)
    requires NewestStamp(s) && InForce(s, mine) && InForce(s, held) && mine != held
    requires !HasRival(s.docs, s.claims[mine].e, s.claims[mine].stamp)
    ensures Less(s.claims[mine], s.claims[held])
  {
    assert s.claims[mine].e != s.claims[held].e;
    assert !Rival(s.docs, s.claims[held].e, s.claims[mine].e, s.claims[mine].stamp);
  }

  /** A second holder comes from overtaking alone. */
  lemma SecondHolderOvertook(s: State, a: Action)
    requires ClaimsKnown(s) && NewestStamp(s) && Enabled(s, a) && TwoHold(Do(s, a)) && !TwoHold(s)
    ensures Overtakes(s, a)
  {
    hide InPossession, InForce, HasRival;
    var t := Do(s, a);
    var p: OpId, q: OpId :| p != q && InPossession(t, p) && InPossession(t, q);
    if InPossession(s, p) {
      NewcomerOvertakes(s, a, q, p);
    } else if InPossession(s, q) {
      NewcomerOvertakes(s, a, p, q);
    } else {
      PossessionIsConfirmed(s, a, p);
      PossessionIsConfirmed(s, a, q);
    }
  }

  lemma NewcomerOvertakes(s: State, a: Action, p: OpId, q: OpId)
    requires ClaimsKnown(s) && NewestStamp(s) && Enabled(s, a) && p != q
    requires InPossession(Do(s, a), p) && !InPossession(s, p) && InPossession(s, q)
    ensures Overtakes(s, a)
  {
    PossessionIsConfirmed(s, a, p);
    assert OnClaim(s.ops[p]) && OnClaim(s.ops[q]);
    NoRivalIsSmaller(s, s.ops[p].k, s.ops[q].k);
  }

  /** Overtaking makes a second holder. */
  lemma OvertakerHolds(s: State, a: Action)
    requires Enabled(s, a) && Overtakes(s, a)
    ensures TwoHold(Do(s, a))
  {
    var t := Do(s, a);
    var q: OpId :| q != a.p && InPossession(s, q) && Less(s.claims[s.ops[a.p].k], s.claims[s.ops[q].k]);
    assert t.claims == s.claims && t.docs == s.docs && t.ops[q] == s.ops[q];
    assert InPossession(t, q) && InPossession(t, a.p);
  }

  // ---- every run ----

  lemma {:induction false} OvertakingDecides(s: State, run: seq<Action>)
    requires ClaimsKnown(s) && Stacked(s) && Run(s, run) && !TwoHold(s)
    ensures EverTwoHold(s, run) <==> EverOvertakes(s, run)
    decreases |run|
  {
    hide ClaimsKnown, Stacked, TwoHold, Overtakes;
    if run != [] {
      var a, t := run[0], Do(s, run[0]);
      DoKnown(s, a);
      DoStacked(s, a);
      if Overtakes(s, a) {
        OvertakerHolds(s, a);
        assert EverTwoHold(t, run[1..]);
      } else {
        if TwoHold(t) { StackedStamps(s); SecondHolderOvertook(s, a); }
        OvertakingDecides(t, run[1..]);
      }
    }
  }

  lemma StackedStamps(s: State)
    requires Stacked(s)
    ensures NewestStamp(s)
  {
  }

  /**
   Two replicas hold the queue at some moment of a run if and only if in some step of it a call whose claim is
   in force re-verifies it and finds no rival, while another confirmed call still merges under a larger claim.
   */
  lemma TwoHoldIff(run: seq<Action>)
    requires Run(Init, run)
    ensures EverTwoHold(Init, run) <==> EverOvertakes(Init, run)
  {
    OvertakingDecides(Init, run);
  }
}
