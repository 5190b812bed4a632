/**
 The merge queue's documents and the decisions taken on them, shared by the single-caller
 model (`MergeQueue`) and the many-replica model (`MergeReplicas`).

 A stamp is the instant a timestamp string denotes; `IsoTime` shows the strings compare as
 the instants do. Entry ids are naturals whose order stands for the order of id strings.
 */
module MergeStore {
  import opened Wrappers

  type Id = nat
  type Stamp = int

  datatype Status = Pending | Merging | Merged | Failed

  datatype Doc = Doc(status: Status, created: Stamp, priority: int, started: Option<Stamp>)

  type Docs = map<Id, Doc>

  const CANDIDATE_WINDOW := 50

  /** Half an hour, in microseconds. */
  const MERGING_TTL: int := 30 * 60 * 1_000_000

  predicate IsPending(docs: Docs, id: Id) {
    id in docs && docs[id].status == Pending
  }

  predicate IsMerging(docs: Docs, id: Id) {
    id in docs && docs[id].status == Merging
  }

  /** The order claims are compared in: a missing stamp reads as the least string, ties go by id. */
  predicate Before(a: Option<Stamp>, i: Id, b: Stamp, j: Id) {
    a.None? || a.value < b || (a.value == b && i < j)
  }

  /** Another merging entry with a smaller claim than `(stamp, id)`. */
  predicate Rival(docs: Docs, other: Id, id: Id, stamp: Stamp) {
    other != id && IsMerging(docs, other) && Before(docs[other].started, other, stamp, id)
  }

  predicate HasRival(docs: Docs, id: Id, stamp: Stamp) {
    exists other | other in docs :: Rival(docs, other, id, stamp)
  }

  /** A claim is stale when its stamp is known and lies before the cutoff. */
  predicate Stale(docs: Docs, id: Id, cutoff: Stamp) {
    IsMerging(docs, id) && docs[id].started.Some? && docs[id].started.value < cutoff
  }

  function Claimed(doc: Doc, stamp: Stamp): Doc {
    doc.(status := Merging, started := Some(stamp))
  }

  function Released(doc: Doc): Doc {
    doc.(status := Pending, started := None)
  }

  /** The store's partial update of one field; a missing document is created with that field alone. */
  function WithStatus(docs: Docs, id: Id, status: Status): Docs {
    docs[id := if id in docs then docs[id].(status := status) else Doc(status, 0, 0, None)]
  }

  /** The first pending entries by creation time: what the store's limited, ordered query may return. */
  ghost predicate IsWindow(docs: Docs, w: seq<Id>, limit: nat) {
    && |w| <= limit
    && (forall i | 0 <= i < |w| :: IsPending(docs, w[i]))
    && (forall i, j | 0 <= i < j < |w| :: w[i] != w[j] && docs[w[i]].created <= docs[w[j]].created)
    && (forall id | IsPending(docs, id) && id !in w ::
          |w| == limit && forall i | 0 <= i < |w| :: docs[w[i]].created <= docs[id].created)
  }

  /** Position `i` has the highest priority in the window and is the first with it. */
  ghost predicate IsBest(docs: Docs, w: seq<Id>, i: nat) {
    && i < |w| && (forall k | 0 <= k < |w| :: w[k] in docs)
    && (forall k | 0 <= k < i :: docs[w[k]].priority < docs[w[i]].priority)
    && (forall k | i < k < |w| :: docs[w[k]].priority <= docs[w[i]].priority)
  }

  ghost predicate IsCandidate(docs: Docs, id: Id) {
    exists w: seq<Id>, i: nat :: IsWindow(docs, w, CANDIDATE_WINDOW) && IsBest(docs, w, i) && w[i] == id
  }
}
