/** Uploading chunks to the remote corpus in batches, with back-off on rate limits, and clearing old ones. */
module ChunkUpload {
  import opened Wrappers
  import opened Chunks

  const UPLOAD_BATCH_SIZE := 50
  const ATTEMPTS := 3

  /**
   What one remote call does. An upload is `Fine`, refused for good or rate limited; either error may be
   raised although the server kept the file. Or something around the call raises: before the chunk is
   stored (`Broke`) or after (`BrokeAfter`). When clearing, a call lists the next file, or finds there is
   none, and deletes it if it matches; the listing may raise, and so may a delete the server carried out.
   */
  datatype Outcome = Fine | Refused | RefusedKept | RateLimited | LimitedKept | Broke | BrokeAfter
  {
    /** The server did what it was asked, whatever was raised. */
    predicate TookEffect() {
      Fine? || RefusedKept? || LimitedKept? || BrokeAfter?
    }
  }

  /** The part of a display name that deletion looks at, an injective digest of repository and path. */
  datatype PathKey = PathKey(repo: string, path: string)

  /**
   One remote file: what its display name says and the chunk its text carries. A name may be in the
   present format, in the older pipe-separated one (`legacy`), or carry no key at all.
   */
  datatype RagFile = RagFile(key: Option<PathKey>, legacy: bool, chunk: Chunk)

  datatype Upsert = Upsert(uploaded: nat, failed: nat, skipped: bool)

  predicate IsOk(r: Upsert) {
    r.failed == 0 && !r.skipped
  }

  function FileOf(repo: string, c: Chunk): RagFile {
    RagFile(Some(PathKey(repo, c.path)), false, c)
  }

  function Filed(repo: string, chunks: seq<Chunk>): (files: seq<RagFile>)
    ensures |files| == |chunks|
  {
    seq(|chunks|, i requires 0 <= i < |chunks| => FileOf(repo, chunks[i]))
  }

  // ---- what uploading does, as a function of the outcomes ----

  /**
   `stored` chunks are in the corpus, `counted` of them known to be; `left` came back rate limited; `broke`
   when the batch raised, and `unsure` when some error hid that the server had kept the file.
   */
  datatype Batch = Batch(stored: seq<Chunk>, counted: nat, left: seq<Chunk>, failed: nat, broke: bool, unsure: bool,
      calls: nat)

  function RunBatch(batch: seq<Chunk>, remote: nat -> Outcome, calls: nat): Batch {
    if batch == [] then Batch([], 0, [], 0, false, false, calls)
    else
      match remote(calls)
      case RateLimited => Batch([], 0, batch, 0, false, false, calls + 1)
      case LimitedKept => Batch([batch[0]], 0, batch, 0, false, true, calls + 1)
      case Broke => Batch([], 0, [], 0, true, false, calls + 1)
      case BrokeAfter => Batch([batch[0]], 0, [], 0, true, false, calls + 1)
      case Refused => Onto([], 0, 1, false, RunBatch(batch[1..], remote, calls + 1))
      case RefusedKept => Onto([batch[0]], 0, 1, true, RunBatch(batch[1..], remote, calls + 1))
      case Fine => Onto([batch[0]], 1, 0, false, RunBatch(batch[1..], remote, calls + 1))
  }

  /** A pass that has come this far already and goes on as `b`. */
  function Onto(stored: seq<Chunk>, counted: nat, failed: nat, unsure: bool, b: Batch): Batch {
    b.(stored := stored + b.stored, counted := counted + b.counted, failed := failed + b.failed,
       unsure := unsure || b.unsure)
  }

  /**
   Totals so far: stored chunks, what is counted as uploaded and as failed, and whether anything raised or
   hid a file.
   */
  datatype Tally = Tally(stored: seq<Chunk>, uploaded: nat, failed: nat, broke: bool, unsure: bool, calls: nat)

  const NOTHING := Tally([], 0, 0, false, false, 0)

  /** A batch is tried until nothing is left of it; a batch that raises counts every chunk it was given as failed. */
  function RunAttempts(pending: seq<Chunk>, remote: nat -> Outcome, calls: nat, attempts: nat): Tally
    decreases attempts
  {
    if pending == [] then NOTHING.(calls := calls)
    else if attempts == 0 then NOTHING.(failed := |pending|, calls := calls)
    else
      var b := RunBatch(pending, remote, calls);
      if b.broke then Tally(b.stored, 0, |pending|, true, b.unsure, b.calls)
      else
        Plus(Counted(b), RunAttempts(b.left, remote, b.calls, attempts - 1))
  }

  function RunUpload(chunks: seq<Chunk>, remote: nat -> Outcome, calls: nat): Tally {
    if chunks == [] then NOTHING.(calls := calls)
    else
      var n := Min(UPLOAD_BATCH_SIZE, |chunks|);
      var first := RunAttempts(chunks[..n], remote, calls, ATTEMPTS);
      Plus(first, RunUpload(chunks[n..], remote, first.calls))
  }

  /** What one more pass adds. */
  function Counted(b: Batch): Tally {
    Tally(b.stored, b.counted, b.failed, false, b.unsure, b.calls)
  }

  function Plus(a: Tally, b: Tally): Tally {
    Tally(a.stored + b.stored, a.uploaded + b.uploaded, a.failed + b.failed, a.broke || b.broke,
          a.unsure || b.unsure, b.calls)
  }

  // ---- clearing old chunks ----

  /** What is left of a listing after its matching files were deleted; a delete that takes no effect keeps its file. */
  datatype Sweep = Sweep(kept: seq<RagFile>, broke: bool, calls: nat)

  /**
   With keys a file matches by its key. With none, as for a full re-index, every file with a key in the
   present format matches whatever its repository, and an older one if it is of this repository.
   */
  predicate Matches(f: RagFile, repo: string, keys: Option<set<PathKey>>) {
    match f.key
    case None => false
    case Some(k) => (keys.None? || k in keys.value) && (f.legacy ==> k.repo == repo)
  }

  function RunSweep(files: seq<RagFile>, repo: string, keys: Option<set<PathKey>>, remote: nat -> Outcome,
                    calls: nat): Sweep {
    if remote(calls).Broke? then Sweep(files, true, calls + 1)
    else if files == [] then Sweep([], false, calls + 1)
    else
      var r := RunSweep(files[1..], repo, keys, remote, calls + 1);
      if Matches(files[0], repo, keys) && remote(calls).TookEffect() then r else r.(kept := [files[0]] + r.kept)
  }

  /** The remote corpus. `remote(n)` is the outcome of its `n`-th call. */
  class Corpus {
    const remote: nat -> Outcome
    var files: seq<RagFile>
    var calls: nat

    constructor (remote: nat -> Outcome, files: seq<RagFile>)
      ensures this.remote == remote && this.files == files && calls == 0
    {
      this.remote := remote;
      this.files := files;
      this.calls := 0;
    }

    /** One pass over a batch. A raised exception loses the count of what the pass had stored. */
    method UploadBatch(repo: string, batch: seq<Chunk>) returns (r: Option<(nat, seq<Chunk>, nat)>)
      modifies this
      ensures var b := RunBatch(batch, remote, old(calls));
              && files == old(files) + Filed(repo, b.stored) && calls == b.calls
              && r == if b.broke then None else Some((b.counted, b.left, b.failed))
    {
      hide RunBatch, Filed;
      var uploaded, failed := 0, 0;
      ghost var run := RunBatch(batch, remote, calls);
      ghost var stored, unsure := [], false;
      FiledNone(repo);
      assert batch[0..] == batch;
      for i := 0 to |batch|
        invariant files == old(files) + Filed(repo, stored)
        invariant run == Onto(stored, uploaded, failed, unsure, RunBatch(batch[i..], remote, calls))
      {
        BatchStep(batch, i, remote, calls, stored, uploaded, failed, unsure);
        var outcome := remote(calls);
        calls := calls + 1;
        if outcome.TookEffect() {
          files := files + [FileOf(repo, batch[i])];
          FiledSnoc(repo, stored, batch[i]);
          stored := stored + [batch[i]];
        }
        if outcome.Broke? || outcome.BrokeAfter? { return None; }
        if outcome.RateLimited? || outcome.LimitedKept? { return Some((uploaded, batch[i..], failed)); }
        if outcome.Fine? {
          uploaded := uploaded + 1;
        } else {
          failed := failed + 1;
          unsure := unsure || outcome.RefusedKept?;
        }
      }
      BatchEnds(batch, remote, calls, stored, uploaded, failed, unsure);
      r := Some((uploaded, [], failed));
    }

    /** Uploads every chunk in batches of 50, each tried up to three times. */
    method Upload(repo: string, chunks: seq<Chunk>) returns (r: Upsert)
      modifies this
      ensures var t := RunUpload(chunks, remote, old(calls));
              && files == old(files) + Filed(repo, t.stored) && calls == t.calls
              && r == Upsert(t.uploaded, t.failed, false)
    {
      hide RunAttempts, RunUpload, Filed;
      var total, totalFailed, i := 0, 0, 0;
      ghost var run := RunUpload(chunks, remote, calls);
      ghost var done := NOTHING.(calls := calls);
      FiledNone(repo);
      PlusNothing(run, calls);
      assert chunks[0..] == chunks;
      while i < |chunks|
        invariant 0 <= i <= |chunks|
        invariant total == done.uploaded && totalFailed == done.failed && calls == done.calls
        invariant files == old(files) + Filed(repo, done.stored)
        invariant run == Plus(done, RunUpload(chunks[i..], remote, calls))
      {
        var n := Min(UPLOAD_BATCH_SIZE, |chunks| - i);
        UploadStep(chunks, i, n, remote, done);
        ghost var first := RunAttempts(chunks[i..i + n], remote, calls, ATTEMPTS);
        var count, failed := Attempts(repo, chunks[i..i + n]);
        FiledConcat(repo, done.stored, first.stored);
        done := Plus(done, first);
        total, totalFailed, i := total + count, totalFailed + failed, i + n;
      }
      UploadEnds(chunks, remote, done);
      r := Upsert(total, totalFailed, false);
    }

    /** One batch, tried up to three times; what is left after that is given up. */
    method Attempts(repo: string, batch: seq<Chunk>) returns (total: nat, totalFailed: nat)
      modifies this
      ensures var t := RunAttempts(batch, remote, old(calls), ATTEMPTS);
              && files == old(files) + Filed(repo, t.stored) && calls == t.calls
              && total == t.uploaded && totalFailed == t.failed
    {
      hide RunAttempts, RunBatch, Filed;
      var pending, attempt := batch, 0;
      total, totalFailed := 0, 0;
      ghost var run := RunAttempts(batch, remote, calls, ATTEMPTS);
      ghost var done := NOTHING.(calls := calls);
      FiledNone(repo);
      PlusNothing(run, calls);
      while attempt < ATTEMPTS && pending != []
        invariant 0 <= attempt <= ATTEMPTS
        invariant total == done.uploaded && totalFailed == done.failed && calls == done.calls
        invariant files == old(files) + Filed(repo, done.stored)
        invariant run == Plus(done, RunAttempts(pending, remote, calls, ATTEMPTS - attempt))
      {
        AttemptStep(pending, remote, ATTEMPTS - attempt, done);
        ghost var b := RunBatch(pending, remote, calls);
        var r := UploadBatch(repo, pending);
        FiledConcat(repo, done.stored, b.stored);
        if r.None? {
          totalFailed := totalFailed + |pending|;
          return;
        }
        var (count, left, failed) := r.value;
        done := Plus(done, Counted(b));
        total, totalFailed, pending := total + count, totalFailed + failed, left;
        attempt := attempt + 1;
      }
      AttemptsEnd(pending, remote, ATTEMPTS - attempt, done);
      totalFailed := totalFailed + |pending|;
    }

    /** Deletes what matches; False when the listing raised, be it at its end. */
    method DeleteMatching(repo: string, keys: Option<set<PathKey>>) returns (listed: bool)
      modifies this
      ensures var s := RunSweep(old(files), repo, keys, remote, old(calls));
              files == s.kept && calls == s.calls && listed == !s.broke
    {
      hide RunSweep, Matches;
      var listing := files;
      ghost var run := RunSweep(listing, repo, keys, remote, calls);
      var kept := [];
      assert listing[0..] == listing && kept + listing == listing;
      assert Above(kept, run) == run;
      for i := 0 to |listing|
        invariant files == kept + listing[i..]
        invariant run == Above(kept, RunSweep(listing[i..], repo, keys, remote, calls))
      {
        SweepStep(listing, i, repo, keys, remote, calls, kept);
        var outcome := remote(calls);
        calls := calls + 1;
        if outcome.Broke? { return false; }
        if Matches(listing[i], repo, keys) && outcome.TookEffect() {
          files := kept + listing[i + 1..];
        } else {
          kept := kept + [listing[i]];
        }
      }
      SweepEnds(listing, repo, keys, remote, calls, kept);
      listed := !remote(calls).Broke?;
      calls := calls + 1;
    }
  }

  // ---- one step of each loop ----

  lemma BatchStep(batch: seq<Chunk>, i: nat, remote: nat -> Outcome, calls: nat, stored: seq<Chunk>, counted: nat,
                  failed: nat, unsure: bool)
    requires i < |batch|
    ensures var now := Onto(stored, counted, failed, unsure, RunBatch(batch[i..], remote, calls));
            var later, more := RunBatch(batch[i + 1..], remote, calls + 1), stored + [batch[i]];
            match remote(calls)
            case RateLimited => now == Batch(stored, counted, batch[i..], failed, false, unsure, calls + 1)
            case LimitedKept => now == Batch(more, counted, batch[i..], failed, false, true, calls + 1)
            case Broke => now == Batch(stored, counted, [], failed, true, unsure, calls + 1)
            case BrokeAfter => now == Batch(more, counted, [], failed, true, unsure, calls + 1)
            case Refused => now == Onto(stored, counted, failed + 1, unsure, later)
            case RefusedKept => now == Onto(more, counted, failed + 1, true, later)
            case Fine => now == Onto(more, counted + 1, failed, unsure, later)
  {
    assert batch[i..][0] == batch[i] && batch[i..][1..] == batch[i + 1..];
    var later := RunBatch(batch[i + 1..], remote, calls + 1);
    assert stored + ([batch[i]] + later.stored) == (stored + [batch[i]]) + later.stored;
    assert stored + [] == stored && [] + later.stored == later.stored;
  }

  lemma BatchEnds(batch: seq<Chunk>, remote: nat -> Outcome, calls: nat, stored: seq<Chunk>, counted: nat, failed: nat,
                  unsure: bool)
    ensures Onto(stored, counted, failed, unsure, RunBatch(batch[|batch|..], remote, calls))
      == Batch(stored, counted, [], failed, false, unsure, calls)
  {
    assert batch[|batch|..] == [] && stored + [] == stored;
  }

  lemma PlusNothing(t: Tally, calls: nat)
    ensures Plus(NOTHING.(calls := calls), t) == t
  {
    assert [] + t.stored == t.stored;
  }

  lemma PlusAssoc(a: Tally, b: Tally, c: Tally)
    ensures Plus(Plus(a, b), c) == Plus(a, Plus(b, c))
  {
    assert (a.stored + b.stored) + c.stored == a.stored + (b.stored + c.stored);
  }

  lemma AttemptStep(pending: seq<Chunk>, remote: nat -> Outcome, attempts: nat, done: Tally)
    requires pending != [] && attempts > 0
    ensures var b := RunBatch(pending, remote, done.calls);
            Plus(done, RunAttempts(pending, remote, done.calls, attempts))
            == if b.broke then Plus(done, Tally(b.stored, 0, |pending|, true, b.unsure, b.calls))
               else Plus(Plus(done, Counted(b)), RunAttempts(b.left, remote, b.calls, attempts - 1))
  {
    var b := RunBatch(pending, remote, done.calls);
    PlusAssoc(done, Counted(b), RunAttempts(b.left, remote, b.calls, attempts - 1));
  }

  lemma AttemptsEnd(pending: seq<Chunk>, remote: nat -> Outcome, attempts: nat, done: Tally)
    requires pending == [] || attempts == 0
    ensures Plus(done, RunAttempts(pending, remote, done.calls, attempts))
         == done.(failed := done.failed + |pending|)
  {
    assert done.stored + [] == done.stored;
  }

  lemma UploadStep(chunks: seq<Chunk>, i: nat, n: nat, remote: nat -> Outcome, done: Tally)
    requires i < |chunks| && n == Min(UPLOAD_BATCH_SIZE, |chunks| - i)
    ensures 0 < n <= |chunks| - i
    ensures var first := RunAttempts(chunks[i..i + n], remote, done.calls, ATTEMPTS);
            Plus(done, RunUpload(chunks[i..], remote, done.calls))
            == Plus(Plus(done, first), RunUpload(chunks[i + n..], remote, first.calls))
  {
    hide RunAttempts;
    assert chunks[i..][..n] == chunks[i..i + n] && chunks[i..][n..] == chunks[i + n..];
    var first := RunAttempts(chunks[i..i + n], remote, done.calls, ATTEMPTS);
    PlusAssoc(done, first, RunUpload(chunks[i + n..], remote, first.calls));
  }

  lemma UploadEnds(chunks: seq<Chunk>, remote: nat -> Outcome, done: Tally)
    ensures Plus(done, RunUpload(chunks[|chunks|..], remote, done.calls)) == done
  {
    assert chunks[|chunks|..] == [] && done.stored + [] == done.stored;
  }

  /** A sweep that has kept these files already, and goes on as `s`. */
  function Above(kept: seq<RagFile>, s: Sweep): Sweep {
    s.(kept := kept + s.kept)
  }

  lemma SweepStep(listing: seq<RagFile>, i: nat, repo: string, keys: Option<set<PathKey>>, remote: nat -> Outcome,
                  calls: nat, kept: seq<RagFile>)
    requires i < |listing|
    ensures var now, later := Above(kept, RunSweep(listing[i..], repo, keys, remote, calls)),
      RunSweep(listing[i + 1..], repo, keys, remote, calls + 1);
            now == if remote(calls).Broke? then Sweep(kept + listing[i..], true, calls + 1)
                   else if Matches(listing[i], repo, keys) && remote(calls).TookEffect() then Above(kept, later)
                   else Above(kept + [listing[i]], later)
    ensures kept + listing[i..] == (kept + [listing[i]]) + listing[i + 1..]
  {
    assert listing[i..][0] == listing[i] && listing[i..][1..] == listing[i + 1..];
    var later := RunSweep(listing[i + 1..], repo, keys, remote, calls + 1);
    assert kept + ([listing[i]] + later.kept) == (kept + [listing[i]]) + later.kept;
  }

  lemma SweepEnds(listing: seq<RagFile>, repo: string, keys: Option<set<PathKey>>, remote: nat -> Outcome, calls: nat,
                  kept: seq<RagFile>)
    ensures Above(kept, RunSweep(listing[|listing|..], repo, keys, remote, calls))
      == Sweep(kept, remote(calls).Broke?, calls + 1)
    ensures kept + listing[|listing|..] == kept
  {
    assert listing[|listing|..] == [] && kept + [] == kept;
  }

  lemma FiledNone(repo: string)
    ensures Filed(repo, []) == []
    ensures forall f: seq<RagFile> :: f + [] == f
  {
  }

  lemma FiledSnoc(repo: string, chunks: seq<Chunk>, last: Chunk)
    ensures Filed(repo, chunks + [last]) == Filed(repo, chunks) + [FileOf(repo, last)]
  {
  }

  lemma FiledConcat(repo: string, a: seq<Chunk>, b: seq<Chunk>)
    ensures Filed(repo, a + b) == Filed(repo, a) + Filed(repo, b)
  {
  }
}
