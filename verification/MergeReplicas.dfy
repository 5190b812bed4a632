/**
 The merge queue shared by any number of replicas. Every store call is one atomic step; a
 replica may stop for any time between two steps, and reads its clock in a step of its own
 before the compare-and-swap that uses the reading.
 */
module MergeReplicas {
  import opened Wrappers
  import opened MergeStore

  type OpId = nat

  /** One dequeue call. `k` is the position of its claim in the history of won claims. */
  datatype Op =
    | Sweep
    | SweepNext(stale: seq<Id>)
    | Guard
    | Choose
    | ReadClock(e: Id)
    | Swap(e: Id, stamp: Stamp)
    | Confirm(k: nat)
    | Release(k: nat)
    | Holds(k: nat)
    | GotNone
    | Crashed

  datatype Claim = Claim(e: Id, stamp: Stamp)

  /** The shared documents, the dequeue calls so far, and (a history) every claim won, in order. */
  datatype State = State(docs: Docs, ops: seq<Op>, claims: seq<Claim>)
  {
    /** The entry of claim `k` is still merging under that claim's stamp. */
    predicate Live(k: nat) {
      k < |claims| && IsMerging(docs, claims[k].e) && docs[claims[k].e].started == Some(claims[k].stamp)
    }
  }

  const Init := State(map[], [], [])

  datatype Action =
    | Enqueue(id: Id, created: Stamp, priority: int)
    | StartDequeue
    | SweepQuery(p: OpId, cutoff: Stamp, found: seq<Id>)
    | SweepOne(p: OpId)
    | GuardQuery(p: OpId)
    | Pick(p: OpId, id: Id)
    | PickNone(p: OpId)
    | Clock(p: OpId, now: Stamp)
    | CompareAndSwap(p: OpId)
    | ConfirmQuery(p: OpId)
    | ReleaseUpdate(p: OpId)
    | MarkMerged(id: Id)
    | MarkFailed(id: Id)
    | Crash(p: OpId)

  ghost predicate Enabled(s: State, a: Action) {
    match a
    case Enqueue(id, _, _) => id !in s.docs
    case StartDequeue => true
    case SweepQuery(p, cutoff, found) =>
      p < |s.ops| && s.ops[p].Sweep? && (forall id :: id in found <==> Stale(s.docs, id, cutoff))
    case SweepOne(p) => p < |s.ops| && s.ops[p].SweepNext?
    case GuardQuery(p) => p < |s.ops| && s.ops[p].Guard?
    case Pick(p, id) => p < |s.ops| && s.ops[p].Choose? && IsCandidate(s.docs, id)
    case PickNone(p) => p < |s.ops| && s.ops[p].Choose? && (forall id | id in s.docs :: !IsPending(s.docs, id))
    case Clock(p, _) => p < |s.ops| && s.ops[p].ReadClock?
    case CompareAndSwap(p) => p < |s.ops| && s.ops[p].Swap?
    case ConfirmQuery(p) => p < |s.ops| && s.ops[p].Confirm? && s.ops[p].k < |s.claims|
    case ReleaseUpdate(p) => p < |s.ops| && s.ops[p].Release? && s.ops[p].k < |s.claims|
    case MarkMerged(_) => true
    case MarkFailed(_) => true
    case Crash(p) => p < |s.ops| && !s.ops[p].Holds? && !s.ops[p].GotNone?
  }

  function SetStatus(s: State, id: Id, status: Status): State {
    s.(docs := WithStatus(s.docs, id, status))
  }

  function Goto(s: State, p: OpId, op: Op): State
    requires p < |s.ops|
  {
    s.(ops := s.ops[p := op])
  }

  function Do(s: State, a: Action): State
    requires Enabled(s, a)
  {
    match a
    case Enqueue(id, created, priority) => s.(docs := s.docs[id := Doc(Pending, created, priority, None)])
    case StartDequeue => s.(ops := s.ops + [Sweep])
    case SweepQuery(p, _, found) => Goto(s, p, SweepNext(found))
    case SweepOne(p) =>
      var todo := s.ops[p].stale;
      if todo == [] then Goto(s, p, Guard) else Goto(SetStatus(s, todo[0], Failed), p, SweepNext(todo[1..]))
    case GuardQuery(p) => Goto(s, p, if exists id | id in s.docs :: IsMerging(s.docs, id) then GotNone else Choose)
    case Pick(p, id) => Goto(s, p, ReadClock(id))
    case PickNone(p) => Goto(s, p, GotNone)
    case Clock(p, now) => Goto(s, p, Swap(s.ops[p].e, now))
    case CompareAndSwap(p) =>
      var e, stamp := s.ops[p].e, s.ops[p].stamp;
      if IsPending(s.docs, e)
      then Goto(s.(docs := s.docs[e := Claimed(s.docs[e], stamp)], claims := s.claims + [Claim(e, stamp)]), p,
          Confirm(|s.claims|))
      else Goto(s, p, GotNone)
    case ConfirmQuery(p) =>
      var k := s.ops[p].k;
      Goto(s, p, if HasRival(s.docs, s.claims[k].e, s.claims[k].stamp) then Release(k) else Holds(k))
    case ReleaseUpdate(p) =>
      var e := s.claims[s.ops[p].k].e;
      Goto(if e in s.docs then s.(docs := s.docs[e := Released(s.docs[e])]) else s, p, GotNone)
    case MarkMerged(id) => SetStatus(s, id, Merged)
    case MarkFailed(id) => SetStatus(s, id, Failed)
    case Crash(p) => Goto(s, p, Crashed)
  }

  /** A run: every action is enabled where it happens. */
  ghost predicate Run(s: State, run: seq<Action>)
    decreases |run|
  {
    run == [] || (Enabled(s, run[0]) && Run(Do(s, run[0]), run[1..]))
  }

  ghost function After(s: State, run: seq<Action>): State
    requires Run(s, run)
    decreases |run|
  {
    if run == [] then s else After(Do(s, run[0]), run[1..])
  }

  /** The action wins a claim. */
  predicate Wins(s: State, a: Action) {
    a.CompareAndSwap? && a.p < |s.ops| && s.ops[a.p].Swap? && IsPending(s.docs, s.ops[a.p].e)
  }
}
