/**
 Why exclusion needs stamps in commit order: a replica that reads its clock and then stalls
 before its compare-and-swap ends up merging next to a replica that was confirmed meanwhile.
 */
module MergeOverlap {
  import opened Wrappers
  import opened MergeStore
  import opened MergeReplicas

  lemma {:induction false} Extend(s: State, run: seq<Action>, a: Action)
    requires Run(s, run) && Enabled(After(s, run), a)
    ensures Run(s, run + [a]) && After(s, run + [a]) == Do(After(s, run), a)
    decreases |run|
  {
    if run == [] {
      assert run + [a] == [a] && [a][1..] == [];
      assert Run(Do(s, a), []);
    } else {
      assert (run + [a])[0] == run[0] && (run + [a])[1..] == run[1..] + [a];
      Extend(Do(s, run[0]), run[1..], a);
    }
  }

  lemma Step(run: seq<Action>, s: State, a: Action) returns (longer: seq<Action>)
    requires Run(Init, run) && After(Init, run) == s && Enabled(s, a)
    ensures Run(Init, longer) && After(Init, longer) == Do(s, a)
  {
    Extend(Init, run, a);
    longer := run + [a];
  }

  lemma OnlyPendingIsCandidate(docs: Docs, id: Id)
    requires IsPending(docs, id) && forall e | IsPending(docs, e) :: e == id
    ensures IsCandidate(docs, id)
  {
    assert IsWindow(docs, [id], CANDIDATE_WINDOW) && IsBest(docs, [id], 0) && [id][0] == id;
  }

  lemma HigherPriorityIsCandidate(docs: Docs, id: Id, other: Id)
    requires IsPending(docs, id) && IsPending(docs, other) && forall e | IsPending(docs, e) :: e == id || e == other
    requires docs[other].created <= docs[id].created && docs[other].priority < docs[id].priority
    ensures IsCandidate(docs, id)
  {
    var w := [other, id];
    assert w[0] == other && w[1] == id && other in w && id in w;
    assert IsWindow(docs, w, CANDIDATE_WINDOW) && IsBest(docs, w, 1);
  }

  ghost predicate NoneMerging(docs: Docs) {
    forall e | e in docs :: !IsMerging(docs, e)
  }

  /** With nothing merging, a new dequeue gets past the sweep and the guard. */
  lemma DequeueToChoose(start: seq<Action>, s: State) returns (run: seq<Action>)
    requires Run(Init, start) && After(Init, start) == s && NoneMerging(s.docs)
    ensures Run(Init, run) && After(Init, run) == s.(ops := s.ops + [Choose])
  {
    var p := |s.ops|;
    run := Step(start, s, StartDequeue);
    run := Step(run, s.(ops := s.ops + [Sweep]), SweepQuery(p, 0, []));
    assert After(Init, run) == s.(ops := s.ops + [SweepNext([])]);
    run := Step(run, s.(ops := s.ops + [SweepNext([])]), SweepOne(p));
    assert After(Init, run) == s.(ops := s.ops + [Guard]);
    run := Step(run, s.(ops := s.ops + [Guard]), GuardQuery(p));
  }

  /** From there it chooses a candidate and reads its clock. */
  lemma DequeueToSwap(start: seq<Action>, s: State, id: Id, now: Stamp) returns (run: seq<Action>)
    requires Run(Init, start) && After(Init, start) == s && NoneMerging(s.docs) && IsCandidate(s.docs, id)
    ensures Run(Init, run) && After(Init, run) == s.(ops := s.ops + [Swap(id, now)])
  {
    var p := |s.ops|;
    run := DequeueToChoose(start, s);
    run := Step(run, s.(ops := s.ops + [Choose]), Pick(p, id));
    assert After(Init, run) == s.(ops := s.ops + [ReadClock(id)]);
    run := Step(run, s.(ops := s.ops + [ReadClock(id)]), Clock(p, now));
  }

  const D0: Doc := Doc(Pending, 1, 0, None)
  const D1: Doc := Doc(Pending, 2, 5, None)

  /** Replica 0 has chosen entry 0 and read stamp 10; entry 1, of higher priority, has just arrived. */
  lemma ReachStalled() returns (run: seq<Action>)
    ensures Run(Init, run) && After(Init, run) == State(map[0 := D0, 1 := D1], [Swap(0, 10)], [])
  {
    run := Step([], Init, Enqueue(0, 1, 0));
    var s := State(map[0 := D0], [], []);
    OnlyPendingIsCandidate(s.docs, 0);
    run := DequeueToSwap(run, s, 0, 10);
    run := Step(run, s.(ops := [Swap(0, 10)]), Enqueue(1, 2, 5));
  }

  lemma ReachBothStamped() returns (run: seq<Action>)
    ensures Run(Init, run) && After(Init, run) == State(map[0 := D0, 1 := D1], [Swap(0, 10), Swap(1, 20)], [])
  {
    run := ReachStalled();
    var s := State(map[0 := D0, 1 := D1], [Swap(0, 10)], []);
    HigherPriorityIsCandidate(s.docs, 1, 0);
    run := DequeueToSwap(run, s, 1, 20);
  }

  /** Replica 1 has then claimed entry 1 at stamp 20 and is confirmed. */
  lemma ReachConfirmed() returns (run: seq<Action>)
    ensures Run(Init, run)
    ensures After(Init, run) == State(map[0 := D0, 1 := Claimed(D1, 20)], [Swap(0, 10), Holds(0)], [Claim(1, 20)])
  {
    run := ReachBothStamped();
    run := Step(run, State(map[0 := D0, 1 := D1], [Swap(0, 10), Swap(1, 20)], []), CompareAndSwap(1));
    var t := State(map[0 := D0, 1 := Claimed(D1, 20)], [Swap(0, 10), Confirm(0)], [Claim(1, 20)]);
    assert After(Init, run) == t;
    run := Step(run, t, ConfirmQuery(1));
  }

  /** A run in which two calls both return an entry and both entries are merging under their claims. */
  lemma TwoMergesAtOnce() returns (run: seq<Action>)
    ensures Run(Init, run)
    ensures var s := After(Init, run);
      |s.ops| == 2 && s.ops[0].Holds? && s.ops[1].Holds? && s.ops[0] != s.ops[1]
      && s.Live(s.ops[0].k) && s.Live(s.ops[1].k)
  {
    run := ReachConfirmed();
    var s := State(map[0 := D0, 1 := Claimed(D1, 20)], [Swap(0, 10), Holds(0)], [Claim(1, 20)]);
    run := Step(run, s, CompareAndSwap(0));
    var t := State(map[0 := Claimed(D0, 10), 1 := Claimed(D1, 20)], [Confirm(1), Holds(0)],
        [Claim(1, 20), Claim(0, 10)]);
    assert After(Init, run) == t;
    run := Step(run, t, ConfirmQuery(0));
  }
}
