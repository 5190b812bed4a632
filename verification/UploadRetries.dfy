/** When a retry stores a chunk a second time: only after a rate-limit error that hid a kept file. */
module UploadRetries {
  import opened Chunks
  import opened ChunkUpload
  import opened UploadAccounting

  ghost predicate Once(chunks: seq<Chunk>) {
    forall i, j | 0 <= i < j < |chunks| :: chunks[i] != chunks[j]
  }

  ghost predicate Apart(a: seq<Chunk>, b: seq<Chunk>) {
    forall c | c in a :: c !in b
  }

  lemma OncePair(a: seq<Chunk>, b: seq<Chunk>, i: nat, j: nat)
    requires Once(a + b) && i < |a| && j < |b|
    ensures a[i] != b[j]
  {
    assert (a + b)[i] == a[i] && (a + b)[|a| + j] == b[j];
  }

  lemma OnceJoin(a: seq<Chunk>, b: seq<Chunk>)
    requires Once(a) && Once(b) && Apart(a, b)
    ensures Once(a + b)
  {
    var all := a + b;
    forall i, j | 0 <= i < j < |all| ensures all[i] != all[j] {
      if i < |a| <= j {
        assert all[i] == a[i] && a[i] in a && all[j] == b[j - |a|];
      }
    }
  }

  lemma OnceSplit(a: seq<Chunk>, b: seq<Chunk>)
    requires Once(a + b)
    ensures Once(a) && Once(b) && Apart(a, b)
  {
    var all := a + b;
    forall i, j | 0 <= i < j < |a| ensures a[i] != a[j] { assert all[i] == a[i] && all[j] == a[j]; }
    forall i, j | 0 <= i < j < |b| ensures b[i] != b[j] { assert all[|a| + i] == b[i] && all[|a| + j] == b[j]; }
    forall c | c in a ensures c !in b {
      var i :| 0 <= i < |a| && a[i] == c;
      forall j | 0 <= j < |b| ensures b[j] != c { OncePair(a, b, i, j); }
    }
  }

  lemma OnceConcat(a: seq<Chunk>, b: seq<Chunk>)
    ensures Once(a + b) <==> Once(a) && Once(b) && Apart(a, b)
  {
    if Once(a + b) { OnceSplit(a, b); }
    if Once(a) && Once(b) && Apart(a, b) { OnceJoin(a, b); }
  }

  // ---- reading it off the outcomes ----

  /** The pass ends with a rate limit raised for a chunk the server kept. */
  predicate EndsKept(batch: seq<Chunk>, remote: nat -> Outcome, calls: nat) {
    batch != [] &&
    match remote(calls)
    case LimitedKept => true
    case Fine => EndsKept(batch[1..], remote, calls + 1)
    case Refused => EndsKept(batch[1..], remote, calls + 1)
    case RefusedKept => EndsKept(batch[1..], remote, calls + 1)
    case _ => false
  }

  /** The first chunk handed to these attempts is stored by one of them. */
  predicate FirstStored(remote: nat -> Outcome, calls: nat, attempts: nat)
    decreases attempts
  {
    attempts > 0 &&
    match remote(calls)
    case Refused => false
    case Broke => false
    case RateLimited => FirstStored(remote, calls + 1, attempts - 1)
    case _ => true
  }

  /** Some pass ends on a kept chunk and a later attempt stores it again. */
  predicate StoresAgain(pending: seq<Chunk>, remote: nat -> Outcome, calls: nat, attempts: nat)
    decreases attempts
  {
    pending != [] && attempts > 0 &&
    var b := RunBatch(pending, remote, calls);
    && !b.broke
    && ((EndsKept(pending, remote, calls) && FirstStored(remote, b.calls, attempts - 1))
        || StoresAgain(b.left, remote, b.calls, attempts - 1))
  }

  predicate UploadStoresAgain(chunks: seq<Chunk>, remote: nat -> Outcome, calls: nat) {
    chunks != [] &&
    var n := Min(UPLOAD_BATCH_SIZE, |chunks|);
    || StoresAgain(chunks[..n], remote, calls, ATTEMPTS)
    || UploadStoresAgain(chunks[n..], remote, RunAttempts(chunks[..n], remote, calls, ATTEMPTS).calls)
  }

  // ---- one pass ----

  lemma OnceCons(first: Chunk, rest: seq<Chunk>)
    ensures Once([first] + rest) <==> Once(rest) && first !in rest
  {
    OnceConcat([first], rest);
  }

  /** A pass hands back an end of its batch. */
  lemma {:induction false} PassLeft(batch: seq<Chunk>, remote: nat -> Outcome, calls: nat)
    ensures var b := RunBatch(batch, remote, calls);
            |b.left| <= |batch| && b.left == batch[|batch| - |b.left|..] && forall c | c in b.left :: c in batch
    decreases |batch|
  {
    if batch != [] {
      PassLeft(batch[1..], remote, calls + 1);
      assert batch[0..] == batch;
    }
  }

  lemma {:induction false} PassOnce(batch: seq<Chunk>, remote: nat -> Outcome, calls: nat)
    requires Once(batch)
    ensures Once(RunBatch(batch, remote, calls).stored)
    decreases |batch|
  {
    if batch != [] {
      var first, rest, r := batch[0], batch[1..], RunBatch(batch[1..], remote, calls + 1);
      assert batch == [first] + rest;
      OnceCons(first, rest);
      PassOnce(rest, remote, calls + 1);
      PassWithin(rest, remote, calls + 1);
      hide Once;
      OnceCons(first, r.stored);
      OnceCons(first, []);
      OnceNone();
      assert [first] + [] == [first] && [] + r.stored == r.stored;
    } else {
      OnceNone();
    }
  }

  lemma OnceNone()
    ensures Once([])
  {
  }

  /** Only the chunk a pass stopped at can be both stored and handed back, and that is when it ends kept. */
  ghost predicate Overlap(b: Batch, kept: bool) {
    && (forall c | c in b.stored && c in b.left :: c == b.left[0] && kept)
    && (kept ==> !b.broke && b.left != [] && b.left[0] in b.stored)
  }

  lemma OverlapGrows(first: Chunk, r: Batch, stored: seq<Chunk>, counted: nat, failed: nat, unsure: bool, kept: bool)
    requires Overlap(r, kept) && first !in r.left && (stored == [] || stored == [first])
    ensures Overlap(Onto(stored, counted, failed, unsure, r), kept)
  {
  }

  lemma {:induction false} PassOverlap(batch: seq<Chunk>, remote: nat -> Outcome, calls: nat)
    requires Once(batch)
    ensures Overlap(RunBatch(batch, remote, calls), EndsKept(batch, remote, calls))
    decreases |batch|
  {
    if batch != [] {
      hide Once, Overlap;
      var first, rest := batch[0], batch[1..];
      var r, kept := RunBatch(rest, remote, calls + 1), EndsKept(rest, remote, calls + 1);
      assert batch == [first] + rest;
      OnceCons(first, rest);
      PassOverlap(rest, remote, calls + 1);
      PassLeft(rest, remote, calls + 1);
      match remote(calls)
      case Fine => OverlapGrows(first, r, [first], 1, 0, false, kept);
      case Refused => OverlapGrows(first, r, [], 0, 1, false, kept);
      case RefusedKept => OverlapGrows(first, r, [first], 0, 1, true, kept);
      case _ => OverlapStops(batch, remote, calls);
    } else {
      OverlapStops(batch, remote, calls);
    }
  }

  lemma OverlapStops(batch: seq<Chunk>, remote: nat -> Outcome, calls: nat)
    requires batch == [] || !(remote(calls).Fine? || remote(calls).Refused? || remote(calls).RefusedKept?)
    ensures Overlap(RunBatch(batch, remote, calls), EndsKept(batch, remote, calls))
  {
  }

  // ---- one batch ----

  lemma {:induction false} FirstStoredIff(pending: seq<Chunk>, remote: nat -> Outcome, calls: nat, attempts: nat)
    requires Once(pending) && pending != []
    ensures pending[0] in RunAttempts(pending, remote, calls, attempts).stored <==> FirstStored(remote, calls, attempts)
    decreases attempts
  {
    if attempts > 0 {
      var b := RunBatch(pending, remote, calls);
      if remote(calls).RateLimited? {
        FirstStoredIff(pending, remote, calls + 1, attempts - 1);
        assert b == Batch([], 0, pending, 0, false, false, calls + 1);
      } else {
        assert pending == [pending[0]] + pending[1..];
        OnceCons(pending[0], pending[1..]);
        FirstIsDecided(pending, remote, calls, attempts);
      }
    }
  }

  /**
   Unless the first call is rate limited with nothing kept, it decides: no later pass sees the chunk but to
   store it again.
   */
  lemma FirstIsDecided(pending: seq<Chunk>, remote: nat -> Outcome, calls: nat, attempts: nat)
    requires pending != [] && attempts > 0 && !remote(calls).RateLimited? && pending[0] !in pending[1..]
    ensures pending[0] in RunAttempts(pending, remote, calls, attempts).stored <==> FirstStored(remote, calls, attempts)
  {
    var b := RunBatch(pending, remote, calls);
    PassWithin(pending[1..], remote, calls + 1);
    PassLeft(pending[1..], remote, calls + 1);
    AttemptsWithin(b.left, remote, b.calls, attempts - 1);
  }

  lemma {:induction false} AttemptsOnceIff(pending: seq<Chunk>, remote: nat -> Outcome, calls: nat, attempts: nat)
    requires Once(pending)
    ensures Once(RunAttempts(pending, remote, calls, attempts).stored)
      <==> !StoresAgain(pending, remote, calls, attempts)
    decreases attempts
  {
    if pending != [] && attempts > 0 {
      hide RunBatch, EndsKept, FirstStored;
      var b := RunBatch(pending, remote, calls);
      PassLeft(pending, remote, calls);
      PassOnce(pending, remote, calls);
      PassOverlap(pending, remote, calls);
      if !b.broke {
        var t := RunAttempts(b.left, remote, b.calls, attempts - 1);
        OnceConcat(pending[..|pending| - |b.left|], b.left);
        assert pending == pending[..|pending| - |b.left|] + b.left;
        AttemptsOnceIff(b.left, remote, b.calls, attempts - 1);
        AttemptsWithin(b.left, remote, b.calls, attempts - 1);
        OnceConcat(b.stored, t.stored);
        if b.left != [] {
          FirstStoredIff(b.left, remote, b.calls, attempts - 1);
        }
      }
    }
  }

  /**
   No chunk is stored twice exactly when no attempt is rate limited on a chunk the server kept and a later
   attempt of its batch stores it again. Nothing else in the upload repeats a chunk.
   */
  lemma {:induction false} StoredOnceIff(chunks: seq<Chunk>, remote: nat -> Outcome, calls: nat)
    requires Once(chunks)
    ensures Once(RunUpload(chunks, remote, calls).stored) <==> !UploadStoresAgain(chunks, remote, calls)
    decreases |chunks|
  {
    if chunks != [] {
      hide RunAttempts, StoresAgain;
      var n := Min(UPLOAD_BATCH_SIZE, |chunks|);
      var head, tail := chunks[..n], chunks[n..];
      var first := RunAttempts(head, remote, calls, ATTEMPTS);
      assert chunks == head + tail;
      OnceConcat(head, tail);
      AttemptsOnceIff(head, remote, calls, ATTEMPTS);
      AttemptsWithin(head, remote, calls, ATTEMPTS);
      StoredOnceIff(tail, remote, first.calls);
      UploadWithin(tail, remote, first.calls);
      OnceConcat(first.stored, RunUpload(tail, remote, first.calls).stored);
    }
  }

  /**
   One chunk, rate limited although it was kept, then stored by the retry: twice in the corpus, no failure
   reported.
   */
  lemma RetryStoresTwice(c: Chunk)
    ensures var t := RunUpload([c], n => if n == 0 then LimitedKept else Fine, 0);
            t.stored == [c, c] && t.failed == 0
  {
    var remote := n => if n == 0 then LimitedKept else Fine;
    assert [c][..1] == [c] && [c][1..] == [];
    assert RunBatch([c], remote, 0) == Batch([c], 0, [c], 0, false, true, 1);
    assert RunBatch([c], remote, 1) == Batch([c], 1, [], 0, false, false, 2) by { assert [c] + [] == [c]; }
    var second := RunAttempts([c], remote, 1, 2);
    assert second.stored == [c] by { assert [c] + [] == [c]; }
    var all := RunAttempts([c], remote, 0, 3);
    assert all.stored == [c] + [c];
    assert RunUpload([], remote, all.calls).stored == [];
  }

  // ---- what goes in when things go well enough ----

  /** Of the chunks whose calls are fine or refused, those that are fine, in order. */
  function Taken(chunks: seq<Chunk>, remote: nat -> Outcome, calls: nat): (taken: seq<Chunk>)
    ensures |taken| <= |chunks|
  {
    if chunks == [] then []
    else (if remote(calls).Fine? then [chunks[0]] else []) + Taken(chunks[1..], remote, calls + 1)
  }

  ghost predicate FineOrRefused(remote: nat -> Outcome, from: nat) {
    forall n: nat | from <= n :: remote(n) == Fine || remote(n) == Refused
  }

  lemma {:induction false} TakenConcat(a: seq<Chunk>, b: seq<Chunk>, remote: nat -> Outcome, calls: nat)
    ensures Taken(a + b, remote, calls) == Taken(a, remote, calls) + Taken(b, remote, calls + |a|)
    decreases |a|
  {
    if a == [] {
      assert a + b == b;
    } else {
      assert (a + b)[1..] == a[1..] + b;
      TakenConcat(a[1..], b, remote, calls + 1);
    }
  }

  lemma {:induction false} PassTakes(batch: seq<Chunk>, remote: nat -> Outcome, calls: nat)
    requires FineOrRefused(remote, calls)
    ensures var taken := Taken(batch, remote, calls);
      RunBatch(batch, remote, calls) == Batch(taken, |taken|, [], |batch| - |taken|, false, false, calls + |batch|)
    decreases |batch|
  {
    if batch != [] {
      assert remote(calls) == Fine || remote(calls) == Refused;
      PassTakes(batch[1..], remote, calls + 1);
    }
  }

  /**
   When calls only succeed or are refused for good, each chunk gets one call, those that succeed are stored in
   order, and exactly the others count as failed.
   */
  lemma {:induction false} RefusalsStandAlone(chunks: seq<Chunk>, remote: nat -> Outcome, calls: nat)
    requires FineOrRefused(remote, calls)
    ensures var taken := Taken(chunks, remote, calls);
      RunUpload(chunks, remote, calls) == Tally(taken, |taken|, |chunks| - |taken|, false, false, calls + |chunks|)
    decreases |chunks|
  {
    hide Taken, RunBatch;
    if chunks == [] {
      TakenNone(remote, calls);
    } else {
      var n := Min(UPLOAD_BATCH_SIZE, |chunks|);
      AttemptsTake(chunks[..n], remote, calls, ATTEMPTS);
      RefusalsStandAlone(chunks[n..], remote, calls + n);
      TakenConcat(chunks[..n], chunks[n..], remote, calls);
      assert chunks == chunks[..n] + chunks[n..];
    }
  }

  lemma TakenNone(remote: nat -> Outcome, calls: nat)
    ensures Taken([], remote, calls) == []
  {
  }

  lemma AttemptsTake(batch: seq<Chunk>, remote: nat -> Outcome, calls: nat, attempts: nat)
    requires FineOrRefused(remote, calls) && batch != [] && attempts > 0
    ensures var taken := Taken(batch, remote, calls);
      RunAttempts(batch, remote, calls, attempts)
      == Tally(taken, |taken|, |batch| - |taken|, false, false, calls + |batch|)
  {
    hide Taken, RunBatch;
    PassTakes(batch, remote, calls);
    var taken := Taken(batch, remote, calls);
    assert RunAttempts([], remote, calls + |batch|, attempts - 1) == NOTHING.(calls := calls + |batch|);
    assert taken + [] == taken;
  }

  lemma {:induction false} AllTaken(chunks: seq<Chunk>, remote: nat -> Outcome, calls: nat)
    requires forall n: nat | calls <= n :: remote(n) == Fine
    ensures Taken(chunks, remote, calls) == chunks
    decreases |chunks|
  {
    if chunks != [] {
      AllTaken(chunks[1..], remote, calls + 1);
      assert chunks == [chunks[0]] + chunks[1..];
    }
  }

  /** When every call succeeds, every chunk is stored once and none has failed. */
  lemma AllGoesIn(chunks: seq<Chunk>, remote: nat -> Outcome, calls: nat)
    requires forall n: nat | calls <= n :: remote(n) == Fine
    ensures RunUpload(chunks, remote, calls) == Tally(chunks, |chunks|, 0, false, false, calls + |chunks|)
  {
    AllTaken(chunks, remote, calls);
    RefusalsStandAlone(chunks, remote, calls);
  }

  /** A batch that is rate limited twice at its start and then goes through is stored all the same. */
  lemma TwoLimitsAreSurvived(batch: seq<Chunk>, remote: nat -> Outcome, calls: nat)
    requires 0 < |batch| <= 50 && remote(calls) == RateLimited && remote(calls + 1) == RateLimited
    requires forall n: nat | calls + 2 <= n :: remote(n) == Fine
    ensures RunUpload(batch, remote, calls) == Tally(batch, |batch|, 0, false, false, calls + 2 + |batch|)
  {
    AllTaken(batch, remote, calls + 2);
    AttemptsTake(batch, remote, calls + 2, 1);
    LimitedPass(batch, remote, calls, 3);
    LimitedPass(batch, remote, calls + 1, 2);
    OneBatch(batch, remote, calls);
  }

  lemma LimitedPass(batch: seq<Chunk>, remote: nat -> Outcome, calls: nat, attempts: nat)
    requires batch != [] && remote(calls) == RateLimited && attempts > 0
    ensures RunAttempts(batch, remote, calls, attempts) == RunAttempts(batch, remote, calls + 1, attempts - 1)
  {
    assert RunBatch(batch, remote, calls) == Batch([], 0, batch, 0, false, false, calls + 1);
    var t := RunAttempts(batch, remote, calls + 1, attempts - 1);
    assert [] + t.stored == t.stored;
  }

  lemma OneBatch(batch: seq<Chunk>, remote: nat -> Outcome, calls: nat)
    requires 0 < |batch| <= 50
    ensures RunUpload(batch, remote, calls) == RunAttempts(batch, remote, calls, 3)
  {
    hide RunAttempts;
    assert batch[..|batch|] == batch && batch[|batch|..] == [];
    var t := RunAttempts(batch, remote, calls, 3);
    assert RunUpload([], remote, t.calls) == NOTHING.(calls := t.calls) && t.stored + [] == t.stored;
  }

  /** An exception costs its own batch of fifty and no other. */
  lemma BreakCostsOneBatch(chunks: seq<Chunk>, remote: nat -> Outcome, calls: nat)
    requires |chunks| >= 50 && remote(calls) == Broke
    requires forall n: nat | calls + 1 <= n :: remote(n) == Fine
    ensures RunUpload(chunks, remote, calls)
      == Tally(chunks[50..], |chunks| - 50, 50, true, false, calls + 1 + |chunks| - 50)
  {
    hide RunAttempts;
    AllGoesIn(chunks[50..], remote, calls + 1);
    BrokenAttempts(chunks[..50], remote, calls, 3);
    assert [] + chunks[50..] == chunks[50..];
  }

  lemma BrokenAttempts(batch: seq<Chunk>, remote: nat -> Outcome, calls: nat, attempts: nat)
    requires batch != [] && remote(calls) == Broke && attempts > 0
    ensures RunAttempts(batch, remote, calls, attempts) == Tally([], 0, |batch|, true, false, calls + 1)
  {
    assert RunBatch(batch, remote, calls) == Batch([], 0, [], 0, true, false, calls + 1);
  }
}
