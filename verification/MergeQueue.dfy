/** The merge queue as one caller sees it: store queries, the expiry loop and `dequeue` run without interference. */
module MergeQueue {
  import opened Wrappers
  import opened MergeStore

  /** Every stale claim marked failed, everything else untouched. */
  function Expired(docs: Docs, cutoff: Stamp): Docs {
    map id | id in docs :: if Stale(docs, id, cutoff) then docs[id].(status := Failed) else docs[id]
  }

  /** A merge that the sweep leaves running. */
  ghost predicate Busy(docs: Docs, cutoff: Stamp) {
    exists id | id in docs :: IsMerging(docs, id) && !Stale(docs, id, cutoff)
  }

  ghost predicate AnyPending(docs: Docs) {
    exists id | id in docs :: IsPending(docs, id)
  }

  class Queue {
    var docs: Docs

    constructor ()
      ensures docs == map[]
    {
      docs := map[];
    }

    method Enqueue(id: Id, created: Stamp, priority: int)
      requires id !in docs
      modifies this
      ensures docs == old(docs)[id := Doc(Pending, created, priority, None)]
    {
      docs := docs[id := Doc(Pending, created, priority, None)];
    }

    /** The store's query for pending entries by creation time; ties come in any order. */
    method QueryPending(limit: nat) returns (w: seq<Id>)
      ensures IsWindow(docs, w, limit)
    {
      w := [];
      var rest := set id | id in docs && IsPending(docs, id);
      while rest != {} && |w| < limit
        invariant |w| <= limit
        invariant forall id :: id in rest <==> IsPending(docs, id) && id !in w
        invariant forall i | 0 <= i < |w| :: IsPending(docs, w[i])
        invariant forall i, j | 0 <= i < j < |w| :: w[i] != w[j] && docs[w[i]].created <= docs[w[j]].created
        invariant forall id, i | id in rest && 0 <= i < |w| :: docs[w[i]].created <= docs[id].created
        decreases rest
      {
        var first := Oldest(rest);
        w := w + [first];
        rest := rest - {first};
      }
    }

    method Oldest(ids: set<Id>) returns (first: Id)
      requires ids != {} && forall id | id in ids :: id in docs
      ensures first in ids && forall id | id in ids :: docs[first].created <= docs[id].created
    {
      first :| first in ids;
      var rest := ids - {first};
      while rest != {}
        invariant first in ids && rest <= ids
        invariant forall id | id in ids - rest :: docs[first].created <= docs[id].created
        decreases rest
      {
        var id :| id in rest;
        if docs[id].created < docs[first].created {
          first := id;
        }
        rest := rest - {id};
      }
    }

    method QueryStale(cutoff: Stamp) returns (found: set<Id>)
      ensures found == set id | id in docs && Stale(docs, id, cutoff)
    {
      found := set id | id in docs && Stale(docs, id, cutoff);
    }

    /** Marks every stale merge failed and reports how many there were. */
    method ExpireStaleMerging(now: Stamp) returns (count: nat)
      modifies this
      ensures docs == Expired(old(docs), now - MERGING_TTL)
      ensures docs.Keys == old(docs).Keys
      ensures forall id | id in docs :: var was := old(docs)[id];
                && docs[id].created == was.created && docs[id].priority == was.priority
                && docs[id].started == was.started
                && var stale := was.status == Merging && was.started.Some? && now - was.started.value > 1_800_000_000;
                   docs[id].status == (if stale then Failed else was.status)
      ensures count == |set id | id in old(docs) && Stale(old(docs), id, now - MERGING_TTL)|
    {
      var cutoff := now - MERGING_TTL;
      var found := QueryStale(cutoff);
      count := |found|;
      var rest := found;
      while rest != {}
        invariant rest <= found
        invariant docs.Keys == old(docs).Keys
        invariant forall id | id in docs ::
                    docs[id] == if id in found - rest then old(docs)[id].(status := Failed) else old(docs)[id]
        decreases rest
      {
        var id :| id in rest;
        docs := docs[id := docs[id].(status := Failed)];
        rest := rest - {id};
      }
      ExpiredIs(old(docs), docs, cutoff);
    }

    /** Highest priority first, then oldest first, over the candidate window. */
    method NextCandidate() returns (r: Option<Id>)
      ensures r.None? <==> !AnyPending(docs)
      ensures r.Some? ==> IsCandidate(docs, r.value)
    {
      var w := QueryPending(CANDIDATE_WINDOW);
      if w == [] {
        return None;
      }
      var best := 0;
      var i := 1;
      while i < |w|
        invariant 0 <= best < i <= |w|
        invariant forall k | 0 <= k < best :: docs[w[k]].priority < docs[w[best]].priority
        invariant forall k | best < k < i :: docs[w[k]].priority <= docs[w[best]].priority
      {
        if docs[w[best]].priority < docs[w[i]].priority {
          best := i;
        }
        i := i + 1;
      }
      assert IsBest(docs, w, best);
      r := Some(w[best]);
    }

    /** Keeps the claim unless a smaller one is merging; otherwise gives the entry back. */
    method ConfirmSoleClaim(id: Id, stamp: Stamp) returns (sole: bool)
      requires id in docs
      modifies this
      ensures sole <==> forall e | IsMerging(old(docs), e) && e != id ::
                          old(docs)[e].started.Some? && Before(Some(stamp), id, old(docs)[e].started.value, e)
      ensures sole ==> docs == old(docs)
      ensures !sole ==>
                && docs.Keys == old(docs).Keys && (forall e | e in docs && e != id :: docs[e] == old(docs)[e])
                && docs[id].status == Pending && docs[id].started == None && HasRival(docs, id, stamp)
                && docs[id].created == old(docs)[id].created && docs[id].priority == old(docs)[id].priority
    {
      RivalOrLarger(docs, id, stamp);
      sole := !HasRival(docs, id, stamp);
      if !sole {
        ghost var rival :| rival in docs && Rival(docs, rival, id, stamp);
        docs := docs[id := Released(docs[id])];
        assert Rival(docs, rival, id, stamp);
      }
    }

    /** Claims the next entry; `sweptAt` and `claimedAt` are the two clock readings of the call. */
    method Dequeue(sweptAt: Stamp, claimedAt: Stamp) returns (r: Option<Id>)
      modifies this
      ensures r.Some? <==> !Busy(old(docs), sweptAt - MERGING_TTL) && AnyPending(old(docs))
      ensures r.Some? ==> IsCandidate(old(docs), r.value)
      ensures docs == var swept := Expired(old(docs), sweptAt - MERGING_TTL);
                      if r.Some? then swept[r.value := Claimed(old(docs)[r.value], claimedAt)] else swept
      ensures r.Some? ==> docs[r.value].status == Merging && docs[r.value].started == Some(claimedAt)
      ensures forall id | id in old(docs) ::
                id in docs && docs[id].created == old(docs)[id].created && docs[id].priority == old(docs)[id].priority
    {
      var cutoff := sweptAt - MERGING_TTL;
      var expired := ExpireStaleMerging(sweptAt);
      ghost var swept := docs;
      SweepKeepsPending(old(docs), cutoff);
      if exists id | id in docs :: IsMerging(docs, id) {
        return None;
      }
      var candidate := NextCandidate();
      if candidate.None? {
        return None;
      }
      var id := candidate.value;
      SweepKeepsCandidate(old(docs), cutoff, id);
      // compare-and-swap: the entry must still be pending
      if docs[id].status != Pending {
        return None;
      }
      docs := docs[id := Claimed(docs[id], claimedAt)];
      var sole := ConfirmSoleClaim(id, claimedAt);
      if !sole {
        return None;
      }
      r := Some(id);
    }

    method MarkMerged(id: Id)
      modifies this
      ensures docs == WithStatus(old(docs), id, Merged)
      ensures id in docs && docs[id].status == Merged && forall e | e in old(docs) && e != id ::
        e in docs && docs[e] == old(docs)[e]
      ensures id in old(docs) ==> docs[id] == old(docs)[id].(status := Merged)
    {
      docs := WithStatus(docs, id, Merged);
    }

    method MarkFailed(id: Id)
      modifies this
      ensures docs == WithStatus(old(docs), id, Failed)
      ensures id in docs && docs[id].status == Failed && forall e | e in old(docs) && e != id ::
        e in docs && docs[e] == old(docs)[e]
      ensures id in old(docs) ==> docs[id] == old(docs)[id].(status := Failed)
    {
      docs := WithStatus(docs, id, Failed);
    }
  }

  /** Claims are compared in a total order: no rival means every other merging claim is known and larger. */
  lemma RivalOrLarger(docs: Docs, id: Id, stamp: Stamp)
    ensures !HasRival(docs, id, stamp) <==> forall e | IsMerging(docs, e) && e != id ::
              docs[e].started.Some? && Before(Some(stamp), id, docs[e].started.value, e)
  {
    forall e | IsMerging(docs, e) && e != id
      ensures !Rival(docs, e, id, stamp) <==> docs[e].started.Some? && Before(Some(stamp), id, docs[e].started.value, e)
    {
    }
  }

  /**
   A new entry waits its turn: if it is no older than any pending entry and of no higher priority than a
   candidate, that candidate is one still, however full its window was.
   */
  lemma NewEntryWaitsItsTurn(docs: Docs, id: Id, created: Stamp, priority: int, c: Id)
    requires id !in docs && IsCandidate(docs, c) && priority <= docs[c].priority
    requires forall other | IsPending(docs, other) :: docs[other].created <= created
    ensures IsCandidate(docs[id := Doc(Pending, created, priority, None)], c)
  {
    hide IsWindow;
    var w: seq<Id>, i: nat :| IsWindow(docs, w, CANDIDATE_WINDOW) && IsBest(docs, w, i) && w[i] == c;
    var grown := docs[id := Doc(Pending, created, priority, None)];
    var v := WindowWithNewest(docs, id, created, priority, w, CANDIDATE_WINDOW);
    assert IsBest(grown, v, i) && v[i] == c;
  }

  lemma WindowWithNewest(docs: Docs, id: Id, created: Stamp, priority: int, w: seq<Id>, limit: nat) returns (v: seq<Id>)
    requires id !in docs && IsWindow(docs, w, limit)
    requires forall other | IsPending(docs, other) :: docs[other].created <= created
    ensures IsWindow(docs[id := Doc(Pending, created, priority, None)], v, limit)
    ensures w <= v && |v| <= |w| + 1 && (|v| == |w| + 1 ==> v[|w|] == id)
  {
    var grown := docs[id := Doc(Pending, created, priority, None)];
    v := if |w| < limit then w + [id] else w;
    assert forall i | 0 <= i < |w| :: v[i] == w[i] && IsPending(docs, w[i]) && grown[w[i]] == docs[w[i]];
    forall i | 0 <= i < |v| ensures IsPending(grown, v[i]) { assert i < |w| ==> IsPending(grown, w[i]); }
    forall i, j | 0 <= i < j < |v| ensures v[i] != v[j] && grown[v[i]].created <= grown[v[j]].created {
      assert v[i] == w[i] && (j < |w| ==> v[j] == w[j]);
    }
    forall other | IsPending(grown, other) && other !in v
      ensures |v| == limit && forall i | 0 <= i < |v| :: grown[v[i]].created <= grown[other].created
    {
      assert other !in w && (other == id || IsPending(docs, other));
    }
  }

  /**
   Finishing one merge leaves the queue busy exactly when another is in force, and pending entries are as
   they were.
   */
  lemma FinishingFreesTheQueue(docs: Docs, id: Id, status: Status, cutoff: Stamp)
    requires status == Merged || status == Failed
    ensures Busy(WithStatus(docs, id, status), cutoff)
      <==> exists e | e in docs && e != id :: IsMerging(docs, e) && !Stale(docs, e, cutoff)
    ensures forall e :: IsPending(WithStatus(docs, id, status), e) <==> e != id && IsPending(docs, e)
  {
    var done := WithStatus(docs, id, status);
    assert forall e | e in docs && e != id :: done[e] == docs[e];
    if Busy(done, cutoff) {
      var e :| e in done && IsMerging(done, e) && !Stale(done, e, cutoff);
      assert e in docs && e != id && !Stale(docs, e, cutoff);
    }
    if e :| e in docs && e != id && IsMerging(docs, e) && !Stale(docs, e, cutoff) {
      assert IsMerging(done, e) && !Stale(done, e, cutoff);
    }
  }

  /** The sweep leaves a merge running exactly when one is not stale, and pending entries alone. */
  lemma SweepKeepsPending(docs: Docs, cutoff: Stamp)
    ensures Busy(docs, cutoff) <==> exists id | id in Expired(docs, cutoff) :: IsMerging(Expired(docs, cutoff), id)
    ensures forall id :: IsPending(Expired(docs, cutoff), id) <==> IsPending(docs, id)
    ensures AnyPending(Expired(docs, cutoff)) <==> AnyPending(docs)
  {
    var swept := Expired(docs, cutoff);
    assert forall id | id in docs :: IsMerging(swept, id) <==> IsMerging(docs, id) && !Stale(docs, id, cutoff);
    assert forall id | id in docs :: IsPending(swept, id) <==> IsPending(docs, id);
  }

  lemma ExpiredIs(before: Docs, after: Docs, cutoff: Stamp)
    requires after.Keys == before.Keys
    requires forall id | id in after ::
      after[id] == if Stale(before, id, cutoff) then before[id].(status := Failed) else before[id]
    ensures after == Expired(before, cutoff)
  {
  }

  /** The same pending entries give the same candidate window, whatever its size. */
  lemma SamePendingSameWindow(docs: Docs, swept: Docs, w: seq<Id>, i: nat, limit: nat)
    requires forall id :: IsPending(swept, id) <==> IsPending(docs, id)
    requires forall id | IsPending(docs, id) :: id in swept && swept[id] == docs[id]
    requires IsWindow(swept, w, limit) && IsBest(swept, w, i)
    ensures IsWindow(docs, w, limit) && IsBest(docs, w, i) && IsPending(docs, w[i])
  {
    assert forall k | 0 <= k < |w| :: IsPending(swept, w[k]) && IsPending(docs, w[k]);
  }

  lemma SweepKeepsCandidate(docs: Docs, cutoff: Stamp, id: Id)
    requires IsCandidate(Expired(docs, cutoff), id)
    ensures IsCandidate(docs, id) && IsPending(docs, id) && Expired(docs, cutoff)[id] == docs[id]
  {
    hide IsWindow;
    var swept := Expired(docs, cutoff);
    var w: seq<Id>, i: nat :| IsWindow(swept, w, CANDIDATE_WINDOW) && IsBest(swept, w, i) && w[i] == id;
    SweepKeepsPending(docs, cutoff);
    SamePendingSameWindow(docs, swept, w, i, CANDIDATE_WINDOW);
  }

  /** Within a priority the queue is first in, first out: no pending entry of the candidate's priority is older. */
  lemma CandidateIsFirstInPriority(docs: Docs, id: Id, other: Id)
    requires IsCandidate(docs, id) && IsPending(docs, other) && docs[other].priority == docs[id].priority
    ensures IsPending(docs, id) && docs[id].created <= docs[other].created
  {
    var w: seq<Id>, i: nat :| IsWindow(docs, w, CANDIDATE_WINDOW) && IsBest(docs, w, i) && w[i] == id;
  }

  /**
   A higher priority entry is passed over only when fifty pending entries, the candidate among them, are as
   old or older.
   */
  lemma HigherPriorityPassedOver(docs: Docs, id: Id, other: Id) returns (w: seq<Id>)
    requires IsCandidate(docs, id) && IsPending(docs, other) && docs[other].priority > docs[id].priority
    ensures |w| == 50 && id in w && other !in w
    ensures forall i, j | 0 <= i < j < |w| :: w[i] != w[j]
    ensures forall k | 0 <= k < |w| :: IsPending(docs, w[k]) && docs[w[k]].created <= docs[other].created
  {
    var i: nat;
    w, i :| IsWindow(docs, w, CANDIDATE_WINDOW) && IsBest(docs, w, i) && w[i] == id;
  }
}
