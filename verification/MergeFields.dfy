/**
 What becomes of one entry of the merge queue over a whole run of any number of replicas: it keeps its place
 and priority, its status moves only as the calls say, and it fails only by a caller's word or a stale merge.
 */
module MergeFields {
  import opened Wrappers
  import opened MergeStore
  import opened MergeReplicas
  import opened MergeOverlap

  // ---- creation time and priority ----

  lemma DoKeepsFields(s: State, a: Action, id: Id)
    requires Enabled(s, a) && id in s.docs
    ensures var t := Do(s, a);
      id in t.docs && t.docs[id].created == s.docs[id].created && t.docs[id].priority == s.docs[id].priority
  {
  }

  lemma {:induction false} RunKeepsFields(s: State, run: seq<Action>, id: Id)
    requires Run(s, run) && id in s.docs
    ensures var t := After(s, run);
      id in t.docs && t.docs[id].created == s.docs[id].created && t.docs[id].priority == s.docs[id].priority
    decreases |run|
  {
    if run != [] {
      DoKeepsFields(s, run[0], id);
      RunKeepsFields(Do(s, run[0]), run[1..], id);
    }
  }

  /** Whatever is claimed, released, swept, merged or failed: an entry is still what it was enqueued as. */
  lemma {:induction false} EnqueuedKeepsItsPlace(s: State, run: seq<Action>, i: nat)
    requires Run(s, run) && i < |run| && run[i].Enqueue?
    ensures var t := After(s, run); var id := run[i].id;
      id in t.docs && t.docs[id].created == run[i].created && t.docs[id].priority == run[i].priority
    decreases |run|
  {
    if i == 0 {
      RunKeepsFields(Do(s, run[0]), run[1..], run[0].id);
    } else {
      EnqueuedKeepsItsPlace(Do(s, run[0]), run[1..], i - 1);
    }
  }

  // ---- status ----

  /** The step is a sweep that has come to this entry. */
  predicate Sweeps(s: State, a: Action, id: Id) {
    && a.SweepOne? && a.p < |s.ops| && s.ops[a.p].SweepNext?
    && s.ops[a.p].stale != [] && s.ops[a.p].stale[0] == id
  }

  /** The step gives back a claim on this entry. */
  predicate GivesBack(s: State, a: Action, id: Id) {
    && a.ReleaseUpdate? && a.p < |s.ops| && s.ops[a.p].Release?
    && s.ops[a.p].k < |s.claims| && s.claims[s.ops[a.p].k].e == id
  }

  /** Each step of a run, and what it does to the status and the stamp of one entry. */
  lemma StatusMoves(s: State, a: Action, id: Id)
    requires Enabled(s, a) && id in s.docs
    ensures var t := Do(s, a);
      && id in t.docs
      && (Sweeps(s, a, id) || a == MarkFailed(id) ==>
          t.docs[id].status == Failed && t.docs[id].started == s.docs[id].started)
      && (a == MarkMerged(id) ==> t.docs[id].status == Merged && t.docs[id].started == s.docs[id].started)
      && (Wins(s, a) && s.ops[a.p].e == id ==>
          t.docs[id].status == Merging && t.docs[id].started == Some(s.ops[a.p].stamp))
      && (GivesBack(s, a, id) ==> t.docs[id].status == Pending && t.docs[id].started == None)
      && (|| t.docs[id] == s.docs[id]
          || Sweeps(s, a, id) || a == MarkFailed(id) || a == MarkMerged(id) || GivesBack(s, a, id)
          || (Wins(s, a) && s.ops[a.p].e == id))
  {
  }

  /** A caller marks the entry failed, or a sweep's query finds it stale, in some step of the run. */
  ghost predicate Condemned(s: State, run: seq<Action>, id: Id)
    requires Run(s, run)
    decreases |run|
  {
    run != [] &&
    (|| run[0] == MarkFailed(id)
     || (run[0].SweepQuery? && Stale(s.docs, id, run[0].cutoff))
     || Condemned(Do(s, run[0]), run[1..], id))
  }

  /** Some sweep under way is going to fail the entry. */
  ghost predicate Doomed(s: State, id: Id) {
    exists p: OpId :: p < |s.ops| && s.ops[p].SweepNext? && id in s.ops[p].stale
  }

  predicate HasFailed(s: State, id: Id) {
    id in s.docs && s.docs[id].status == Failed
  }

  lemma StepCondemns(s: State, a: Action, id: Id)
    requires Enabled(s, a) && (HasFailed(Do(s, a), id) || Doomed(Do(s, a), id))
    ensures HasFailed(s, id) || Doomed(s, id) || a == MarkFailed(id) || (a.SweepQuery? && Stale(s.docs, id, a.cutoff))
  {
    var t := Do(s, a);
    if Doomed(t, id) {
      var p: OpId :| p < |t.ops| && t.ops[p].SweepNext? && id in t.ops[p].stale;
      if p < |s.ops| && s.ops[p].SweepNext? && (a.SweepOne? ==> a.p != p) {
        assert s.ops[p] == t.ops[p];
      } else if a.SweepOne? {
        assert s.ops[p].stale[1..] == t.ops[p].stale;
        assert id in s.ops[p].stale;
      }
    } else if !HasFailed(s, id) && Sweeps(s, a, id) {
      assert id in s.ops[a.p].stale;
    }
  }

  /** An entry has failed only if a caller marked it so or some sweep found its merge stale. */
  lemma FailedWasCondemned(run: seq<Action>, id: Id)
    requires Run(Init, run) && HasFailed(After(Init, run), id)
    ensures Condemned(Init, run, id)
  {
    FailedFrom(Init, run, id);
  }

  lemma {:induction false} FailedFrom(s: State, run: seq<Action>, id: Id)
    requires Run(s, run) && (HasFailed(After(s, run), id) || Doomed(After(s, run), id))
    ensures HasFailed(s, id) || Doomed(s, id) || Condemned(s, run, id)
    decreases |run|
  {
    if run != [] {
      hide HasFailed, Doomed;
      FailedFrom(Do(s, run[0]), run[1..], id);
      if HasFailed(Do(s, run[0]), id) || Doomed(Do(s, run[0]), id) { StepCondemns(s, run[0], id); }
    }
  }

  // ---- one dequeue that runs alone ----

  /** With nothing merging, a dequeue that runs alone takes the candidate and holds it under the stamp it read. */
  lemma DequeueAlone(start: seq<Action>, s: State, id: Id, now: Stamp) returns (run: seq<Action>)
    requires Run(Init, start) && After(Init, start) == s && NoneMerging(s.docs) && IsCandidate(s.docs, id)
    ensures Run(Init, run)
    ensures var t, k := After(Init, run), |s.claims|;
      && t.ops == s.ops + [Holds(k)] && t.claims == s.claims + [Claim(id, now)] && IsPending(s.docs, id)
      && t.docs == s.docs[id := Doc(Merging, s.docs[id].created, s.docs[id].priority, Some(now))]
  {
    var p, k := |s.ops|, |s.claims|;
    assert IsPending(s.docs, id);
    run := DequeueToSwap(start, s, id, now);
    var u := s.(ops := s.ops + [Swap(id, now)]);
    run := Step(run, u, CompareAndSwap(p));
    var docs := s.docs[id := Doc(Merging, s.docs[id].created, s.docs[id].priority, Some(now))];
    var v := State(docs, s.ops + [Confirm(k)], s.claims + [Claim(id, now)]);
    assert After(Init, run) == v;
    assert !HasRival(docs, id, now);
    run := Step(run, v, ConfirmQuery(p));
  }

  /** While an entry is merging and none is stale, a dequeue that runs alone returns nothing and changes no entry. */
  lemma BusyDequeueAlone(start: seq<Action>, s: State, busy: Id, cutoff: Stamp) returns (run: seq<Action>)
    requires Run(Init, start) && After(Init, start) == s && IsMerging(s.docs, busy)
    requires forall id :: !Stale(s.docs, id, cutoff)
    ensures Run(Init, run) && After(Init, run) == s.(ops := s.ops + [GotNone])
  {
    var p := |s.ops|;
    run := Step(start, s, StartDequeue);
    run := Step(run, s.(ops := s.ops + [Sweep]), SweepQuery(p, cutoff, []));
    assert After(Init, run) == s.(ops := s.ops + [SweepNext([])]);
    run := Step(run, s.(ops := s.ops + [SweepNext([])]), SweepOne(p));
    assert After(Init, run) == s.(ops := s.ops + [Guard]);
    run := Step(run, s.(ops := s.ops + [Guard]), GuardQuery(p));
  }

  /** With nothing merging and nothing pending it returns nothing either. */
  lemma EmptyDequeueAlone(start: seq<Action>, s: State) returns (run: seq<Action>)
    requires Run(Init, start) && After(Init, start) == s
    requires forall id | id in s.docs :: !IsMerging(s.docs, id) && !IsPending(s.docs, id)
    ensures Run(Init, run) && After(Init, run) == s.(ops := s.ops + [GotNone])
  {
    var p := |s.ops|;
    run := Step(start, s, StartDequeue);
    run := Step(run, s.(ops := s.ops + [Sweep]), SweepQuery(p, 0, []));
    assert After(Init, run) == s.(ops := s.ops + [SweepNext([])]);
    run := Step(run, s.(ops := s.ops + [SweepNext([])]), SweepOne(p));
    assert After(Init, run) == s.(ops := s.ops + [Guard]);
    run := Step(run, s.(ops := s.ops + [Guard]), GuardQuery(p));
    assert After(Init, run) == s.(ops := s.ops + [Choose]);
    run := Step(run, s.(ops := s.ops + [Choose]), PickNone(p));
  }

  /** A sweep left alone fails every entry its query found, and nothing else. */
  lemma {:induction false} SweepAlone(start: seq<Action>, s: State, p: OpId, found: seq<Id>) returns (run: seq<Action>)
    requires Run(Init, start) && After(Init, start) == s && p < |s.ops| && s.ops[p] == SweepNext(found)
    requires forall id | id in found :: id in s.docs
    ensures Run(Init, run)
    ensures var t := After(Init, run);
      && t.ops == s.ops[p := Guard] && t.claims == s.claims && t.docs.Keys == s.docs.Keys
      && (forall id | id in s.docs ::
            t.docs[id] == if id in found then s.docs[id].(status := Failed) else s.docs[id])
    decreases |found|
  {
    run := Step(start, s, SweepOne(p));
    if found != [] {
      var u := After(Init, run);
      assert u.docs == s.docs[found[0] := s.docs[found[0]].(status := Failed)];
      run := SweepAlone(run, u, p, found[1..]);
    }
  }

  /** A swap that comes too late and a claim given back end with nothing; a claim without a rival is held. */
  lemma EachAnswer(s: State, a: Action)
    requires Enabled(s, a)
    ensures a.CompareAndSwap? && !Wins(s, a) ==> Do(s, a) == s.(ops := s.ops[a.p := GotNone])
    ensures a.ReleaseUpdate? ==> Do(s, a).ops == s.ops[a.p := GotNone] && Do(s, a).claims == s.claims
    ensures a.ConfirmQuery? ==> var k := s.ops[a.p].k;
      Do(s, a) == s.(ops := s.ops[a.p := if HasRival(s.docs, s.claims[k].e, s.claims[k].stamp) then Release(k)
                                          else Holds(k)])
  {
  }
}
