/** What an upload's counts mean, for every pattern of refusals, rate limits and exceptions. */
module UploadAccounting {
  import opened Wrappers
  import opened Chunks
  import opened ChunkUpload

  /** `a` is `b` with some elements left out; no element is used twice. */
  predicate Subsequence(a: seq<Chunk>, b: seq<Chunk>) {
    if a == [] then true
    else b != [] && ((a[0] == b[0] && Subsequence(a[1..], b[1..])) || Subsequence(a, b[1..]))
  }

  lemma {:induction false} SubsequenceSkip(a: seq<Chunk>, b: seq<Chunk>, n: nat)
    requires n <= |b| && Subsequence(a, b[n..])
    ensures Subsequence(a, b)
    decreases n
  {
    if n == 0 {
      assert b[0..] == b;
    } else {
      assert b[1..][n - 1..] == b[n..];
      SubsequenceSkip(a, b[1..], n - 1);
    }
  }

  lemma {:induction false} SubsequenceConcat(a: seq<Chunk>, b: seq<Chunk>, c: seq<Chunk>, d: seq<Chunk>)
    requires Subsequence(a, b) && Subsequence(c, d)
    ensures Subsequence(a + c, b + d)
    decreases |b|
  {
    if a == [] {
      assert a + c == c;
      assert (b + d)[|b|..] == d;
      SubsequenceSkip(c, b + d, |b|);
    } else {
      assert (b + d)[1..] == b[1..] + d && (a + c)[1..] == a[1..] + c;
      if a[0] == b[0] && Subsequence(a[1..], b[1..]) {
        SubsequenceConcat(a[1..], b[1..], c, d);
      } else {
        SubsequenceConcat(a, b[1..], c, d);
      }
    }
  }

  /** A subsequence never holds a chunk more often than the whole. */
  lemma {:induction false} SubsequenceCounts(a: seq<Chunk>, b: seq<Chunk>)
    requires Subsequence(a, b)
    ensures |a| <= |b| && multiset(a) <= multiset(b)
    decreases |b|
  {
    if a != [] {
      assert b == [b[0]] + b[1..];
      if a[0] == b[0] && Subsequence(a[1..], b[1..]) {
        assert a == [a[0]] + a[1..];
        SubsequenceCounts(a[1..], b[1..]);
      } else {
        SubsequenceCounts(a, b[1..]);
      }
    }
  }

  /**
   What the counts of a run over `chunks` say: they add up, uploaded ones are stored, and without failures
   every chunk is stored in order. When no error hid a kept file, nothing is stored twice and all stored
   without an exception means no failure.
   */
  ghost predicate Accounted(chunks: seq<Chunk>, t: Tally) {
    && t.uploaded + t.failed == |chunks|
    && t.uploaded <= |t.stored|
    && (t.failed == 0 ==> Subsequence(chunks, t.stored) && !t.broke)
    && (!t.unsure ==> Subsequence(t.stored, chunks) && (t.stored == chunks && !t.broke ==> t.failed == 0))
  }

  ghost predicate AllFrom(stored: seq<Chunk>, chunks: seq<Chunk>) {
    forall c | c in stored :: c in chunks
  }

  lemma FullSubsequence(a: seq<Chunk>, b: seq<Chunk>)
    requires Subsequence(a, b) && |a| == |b|
    ensures a == b
    decreases |b|
  {
    if a != [] {
      if a[0] == b[0] && Subsequence(a[1..], b[1..]) {
        FullSubsequence(a[1..], b[1..]);
        assert a == [a[0]] + a[1..] && b == [b[0]] + b[1..];
      } else {
        SubsequenceCounts(a, b[1..]);
        assert false;
      }
    }
  }

  /** Two accounted runs side by side are accounted together. */
  lemma AccountedTogether(a: seq<Chunk>, s: Tally, b: seq<Chunk>, t: Tally)
    requires Accounted(a, s) && Accounted(b, t)
    ensures Accounted(a + b, Plus(s, t))
  {
    var both := Plus(s, t);
    if both.failed == 0 {
      SubsequenceConcat(a, s.stored, b, t.stored);
    }
    if !both.unsure {
      SubsequenceConcat(s.stored, a, t.stored, b);
      if both.stored == a + b && !both.broke {
        SubsequenceCounts(s.stored, a);
        SubsequenceCounts(t.stored, b);
        assert |both.stored| == |s.stored| + |t.stored|;
        FullSubsequence(s.stored, a);
        FullSubsequence(t.stored, b);
      }
    }
  }

  // ---- one pass and one batch ----

  /** The chunks a pass got through before it was stopped. */
  function Given(batch: seq<Chunk>, b: Batch): seq<Chunk> {
    if |b.left| <= |batch| then batch[..|batch| - |b.left|] else []
  }

  /** A pass hands back the end of its batch, and unless it raises it accounts for all before that. */
  ghost predicate PassAccounted(batch: seq<Chunk>, b: Batch) {
    && (!b.unsure ==> Subsequence(b.stored, batch))
    && (!b.broke ==> batch == Given(batch, b) + b.left && Accounted(Given(batch, b), Counted(b)))
  }

  lemma OneAccounted(c: Chunk)
    ensures Accounted([c], Tally([c], 1, 0, false, false, 0))
    ensures Accounted([c], Tally([], 0, 1, false, false, 0))
    ensures Accounted([c], Tally([c], 0, 1, false, true, 0))
  {
    assert [c][1..] == [];
  }

  lemma {:induction false} PassAccounts(batch: seq<Chunk>, remote: nat -> Outcome, calls: nat)
    ensures PassAccounted(batch, RunBatch(batch, remote, calls))
    decreases |batch|
  {
    if batch != [] {
      var rest, r := batch[1..], RunBatch(batch[1..], remote, calls + 1);
      PassAccounts(rest, remote, calls + 1);
      OneAccounted(batch[0]);
      match remote(calls)
      case RateLimited => assert batch[..0] == [] && [] + batch == batch;
      case LimitedKept => assert batch[..0] == [] && [] + batch == batch;
      case Broke =>
      case BrokeAfter => assert [batch[0]][1..] == [];
      case Refused => PassGrows(batch, r, [], 0, 1, false);
      case RefusedKept => PassGrows(batch, r, [batch[0]], 0, 1, true);
      case Fine => PassGrows(batch, r, [batch[0]], 1, 0, false);
    }
  }

  /** One more chunk in front, stored or failed. */
  lemma PassGrows(batch: seq<Chunk>, r: Batch, stored: seq<Chunk>, counted: nat, failed: nat, unsure: bool)
    requires batch != [] && PassAccounted(batch[1..], r)
    requires Accounted([batch[0]], Tally(stored, counted, failed, false, unsure, 0))
    ensures PassAccounted(batch, Onto(stored, counted, failed, unsure, r))
  {
    hide Accounted, Subsequence, Given, RunBatch;
    if !(unsure || r.unsure) {
      StoredGrows(batch, stored, counted, failed, unsure, r);
    }
    if !r.broke {
      CountsGrow(batch, r, Tally(stored, counted, failed, false, unsure, 0));
    }
  }

  lemma StoredGrows(batch: seq<Chunk>, stored: seq<Chunk>, counted: nat, failed: nat, unsure: bool, r: Batch)
    requires batch != [] && Subsequence(r.stored, batch[1..]) && !unsure
    requires Accounted([batch[0]], Tally(stored, counted, failed, false, unsure, 0))
    ensures Subsequence(stored + r.stored, batch)
  {
    SubsequenceConcat(stored, [batch[0]], r.stored, batch[1..]);
    assert batch == [batch[0]] + batch[1..];
  }

  lemma CountsGrow(batch: seq<Chunk>, r: Batch, one: Tally)
    requires batch != [] && batch[1..] == Given(batch[1..], r) + r.left && Accounted(Given(batch[1..], r), Counted(r))
    requires Accounted([batch[0]], one) && !one.broke
    ensures var b := Onto(one.stored, one.uploaded, one.failed, one.unsure, r);
            batch == Given(batch, b) + b.left && Accounted(Given(batch, b), Counted(b))
  {
    hide Accounted;
    var given, b := Given(batch[1..], r), Onto(one.stored, one.uploaded, one.failed, one.unsure, r);
    AccountedTogether([batch[0]], one, given, Counted(r));
    assert batch == ([batch[0]] + given) + r.left;
    assert Given(batch, b) == [batch[0]] + given;
    assert Plus(one, Counted(r)) == Counted(b);
  }

  /** Whatever is stored is one of the chunks given. */
  lemma {:induction false} PassWithin(batch: seq<Chunk>, remote: nat -> Outcome, calls: nat)
    ensures AllFrom(RunBatch(batch, remote, calls).stored, batch)
    decreases |batch|
  {
    if batch != [] {
      PassWithin(batch[1..], remote, calls + 1);
      assert batch == [batch[0]] + batch[1..];
    }
  }

  lemma {:induction false} AttemptsWithin(pending: seq<Chunk>, remote: nat -> Outcome, calls: nat, attempts: nat)
    ensures AllFrom(RunAttempts(pending, remote, calls, attempts).stored, pending)
    decreases attempts
  {
    if pending != [] && attempts > 0 {
      hide RunBatch;
      var b := RunBatch(pending, remote, calls);
      PassWithin(pending, remote, calls);
      PassAccounts(pending, remote, calls);
      if !b.broke {
        AttemptsWithin(b.left, remote, b.calls, attempts - 1);
      }
    }
  }

  lemma {:induction false} UploadWithin(chunks: seq<Chunk>, remote: nat -> Outcome, calls: nat)
    ensures AllFrom(RunUpload(chunks, remote, calls).stored, chunks)
    decreases |chunks|
  {
    if chunks != [] {
      var n := Min(UPLOAD_BATCH_SIZE, |chunks|);
      var first := RunAttempts(chunks[..n], remote, calls, ATTEMPTS);
      AttemptsWithin(chunks[..n], remote, calls, ATTEMPTS);
      UploadWithin(chunks[n..], remote, first.calls);
      assert chunks == chunks[..n] + chunks[n..];
    }
  }

  lemma {:induction false} PassCalls(batch: seq<Chunk>, remote: nat -> Outcome, calls: nat)
    ensures calls <= RunBatch(batch, remote, calls).calls <= calls + |batch|
    decreases |batch|
  {
    if batch != [] {
      PassCalls(batch[1..], remote, calls + 1);
    }
  }

  lemma {:induction false} AttemptsAccount(pending: seq<Chunk>, remote: nat -> Outcome, calls: nat, attempts: nat)
    ensures Accounted(pending, RunAttempts(pending, remote, calls, attempts))
    decreases attempts
  {
    if pending != [] && attempts > 0 {
      hide RunBatch;
      var b := RunBatch(pending, remote, calls);
      PassAccounts(pending, remote, calls);
      if !b.broke {
        AttemptsAccount(b.left, remote, b.calls, attempts - 1);
        AccountedTogether(Given(pending, b), Counted(b), b.left, RunAttempts(b.left, remote, b.calls, attempts - 1));
      }
    }
  }

  lemma {:induction false} AttemptsCalls(pending: seq<Chunk>, remote: nat -> Outcome, calls: nat, attempts: nat)
    ensures calls <= RunAttempts(pending, remote, calls, attempts).calls <= calls + attempts * |pending|
    decreases attempts
  {
    if pending != [] && attempts > 0 {
      hide RunBatch;
      var b := RunBatch(pending, remote, calls);
      PassAccounts(pending, remote, calls);
      PassCalls(pending, remote, calls);
      Scaled(attempts - 1, 0, |pending|);
      if !b.broke {
        assert |pending| == |Given(pending, b)| + |b.left|;
        AttemptsCalls(b.left, remote, b.calls, attempts - 1);
        Scaled(attempts - 1, |b.left|, |pending|);
      }
    }
  }

  lemma Scaled(times: nat, few: nat, many: nat)
    requires few <= many
    ensures 0 <= times * few <= times * many
    ensures (times + 1) * many == times * many + many
  {
  }

  /**
   For every pattern of outcomes: uploaded plus failed is the number of chunks, and an upload without
   failures has stored every chunk in order and nothing raised. Unless some error hid a kept file, no chunk
   is stored twice and no failure means each was stored exactly once. Calls are at most three a chunk.
   */
  lemma {:induction false} UploadAccounts(chunks: seq<Chunk>, remote: nat -> Outcome, calls: nat)
    ensures Accounted(chunks, RunUpload(chunks, remote, calls))
    ensures calls <= RunUpload(chunks, remote, calls).calls <= calls + ATTEMPTS * |chunks|
    decreases |chunks|
  {
    if chunks != [] {
      var n := Min(UPLOAD_BATCH_SIZE, |chunks|);
      var first := RunAttempts(chunks[..n], remote, calls, ATTEMPTS);
      AttemptsAccount(chunks[..n], remote, calls, ATTEMPTS);
      AttemptsCalls(chunks[..n], remote, calls, ATTEMPTS);
      UploadAccounts(chunks[n..], remote, first.calls);
      AccountedTogether(chunks[..n], first, chunks[n..], RunUpload(chunks[n..], remote, first.calls));
      assert chunks == chunks[..n] + chunks[n..];
    }
  }

  /** With no error hiding a kept file, no failure is exactly each chunk stored once with nothing raised. */
  lemma NoFailureIff(chunks: seq<Chunk>, remote: nat -> Outcome, calls: nat)
    requires !RunUpload(chunks, remote, calls).unsure
    ensures var t := RunUpload(chunks, remote, calls); t.failed == 0 <==> t.stored == chunks && !t.broke
  {
    var t := RunUpload(chunks, remote, calls);
    UploadAccounts(chunks, remote, calls);
    if t.failed == 0 {
      SubsequenceCounts(t.stored, chunks);
      SubsequenceCounts(chunks, t.stored);
      FullSubsequence(t.stored, chunks);
    }
  }

  // ---- when a run is counted wrong ----

  /**
   Following the outcomes of one pass: an error hides a kept file, or the pass raises after a chunk of it
   was stored.
   */
  predicate PassLosesCount(batch: seq<Chunk>, remote: nat -> Outcome, calls: nat, stored: bool) {
    batch != [] &&
    match remote(calls)
    case RateLimited => false
    case Broke => stored
    case Refused => PassLosesCount(batch[1..], remote, calls + 1, stored)
    case Fine => PassLosesCount(batch[1..], remote, calls + 1, true)
    case _ => true
  }

  predicate AttemptsLoseCount(pending: seq<Chunk>, remote: nat -> Outcome, calls: nat, attempts: nat)
    decreases attempts
  {
    pending != [] && attempts > 0 &&
    var b := RunBatch(pending, remote, calls);
    PassLosesCount(pending, remote, calls, false)
        || (!b.broke && AttemptsLoseCount(b.left, remote, b.calls, attempts - 1))
  }

  predicate UploadLosesCount(chunks: seq<Chunk>, remote: nat -> Outcome, calls: nat) {
    chunks != [] &&
    var n := Min(UPLOAD_BATCH_SIZE, |chunks|);
    || AttemptsLoseCount(chunks[..n], remote, calls, ATTEMPTS)
    || UploadLosesCount(chunks[n..], remote, RunAttempts(chunks[..n], remote, calls, ATTEMPTS).calls)
  }

  lemma {:induction false} PassLosesIff(batch: seq<Chunk>, remote: nat -> Outcome, calls: nat, stored: bool)
    ensures var b := RunBatch(batch, remote, calls);
            && b.counted <= |b.stored|
            && (PassLosesCount(batch, remote, calls, stored)
                <==> if b.broke then stored || b.stored != [] else b.counted < |b.stored|)
    decreases |batch|
  {
    if batch != [] {
      PassLosesIff(batch[1..], remote, calls + 1, stored || remote(calls) == Fine);
    }
  }

  lemma {:induction false} AttemptsLoseIff(pending: seq<Chunk>, remote: nat -> Outcome, calls: nat, attempts: nat)
    ensures var t := RunAttempts(pending, remote, calls, attempts);
            t.uploaded == |t.stored| <==> !AttemptsLoseCount(pending, remote, calls, attempts)
    decreases attempts
  {
    if pending != [] && attempts > 0 {
      hide RunBatch, PassLosesCount;
      var b := RunBatch(pending, remote, calls);
      PassLosesIff(pending, remote, calls, false);
      if !b.broke {
        AttemptsLoseIff(b.left, remote, b.calls, attempts - 1);
        AttemptsAccount(b.left, remote, b.calls, attempts - 1);
      }
    }
  }

  /**
   The count of uploaded chunks is the number stored exactly when no error hid a kept file and no pass that
   raised had stored a chunk: no exception right after one was stored, and none with one stored earlier.
   */
  lemma {:induction false} CountIsRightIff(chunks: seq<Chunk>, remote: nat -> Outcome, calls: nat)
    ensures var t := RunUpload(chunks, remote, calls);
            t.uploaded == |t.stored| <==> !UploadLosesCount(chunks, remote, calls)
    decreases |chunks|
  {
    if chunks != [] {
      hide RunAttempts, AttemptsLoseCount;
      var n := Min(UPLOAD_BATCH_SIZE, |chunks|);
      var first := RunAttempts(chunks[..n], remote, calls, ATTEMPTS);
      AttemptsLoseIff(chunks[..n], remote, calls, ATTEMPTS);
      AttemptsAccount(chunks[..n], remote, calls, ATTEMPTS);
      CountIsRightIff(chunks[n..], remote, first.calls);
      UploadAccounts(chunks[n..], remote, first.calls);
    }
  }

  /** An exception after the last chunk was stored: everything is in the corpus and everything counts as failed. */
  lemma StoredButCountedFailed(c: Chunk)
    ensures var t := RunUpload([c], n => BrokeAfter, 0); t.stored == [c] && t.uploaded == 0 && t.failed == 1
  {
    assert [c][..1] == [c] && [c][1..] == [];
    var b := RunBatch([c], n => BrokeAfter, 0);
    assert b.stored == [c] && b.broke;
    assert [c] + [] == [c];
  }

  /** Chunks that are rate limited on every attempt are counted as failed once, not once an attempt. */
  lemma {:induction false} AlwaysRateLimited(chunks: seq<Chunk>, remote: nat -> Outcome, calls: nat)
    requires forall n :: remote(n) == RateLimited
    ensures RunUpload(chunks, remote, calls).stored == [] && RunUpload(chunks, remote, calls).failed == |chunks|
    decreases |chunks|
  {
    if chunks != [] {
      var n := Min(UPLOAD_BATCH_SIZE, |chunks|);
      LimitedThrice(chunks[..n], remote, calls, ATTEMPTS);
      AlwaysRateLimited(chunks[n..], remote, RunAttempts(chunks[..n], remote, calls, ATTEMPTS).calls);
    }
  }

  lemma {:induction false} LimitedThrice(pending: seq<Chunk>, remote: nat -> Outcome, calls: nat, attempts: nat)
    requires forall n :: remote(n) == RateLimited
    ensures RunAttempts(pending, remote, calls, attempts).stored == []
      && RunAttempts(pending, remote, calls, attempts).failed == |pending|
    decreases attempts
  {
    if pending != [] && attempts > 0 {
      assert RunBatch(pending, remote, calls) == Batch([], 0, pending, 0, false, false, calls + 1);
      LimitedThrice(pending, remote, calls + 1, attempts - 1);
    }
  }

  // ---- clearing ----

  /** The files of one source path. */
  function OfKey(files: seq<RagFile>, k: PathKey): seq<RagFile> {
    if files == [] then [] else (if files[0].key == Some(k) then [files[0]] else []) + OfKey(files[1..], k)
  }

  ghost predicate AllFine(remote: nat -> Outcome, from: nat, to: nat) {
    forall n: nat | from <= n < to :: remote(n) == Fine
  }

  lemma OfKeyNone(k: PathKey)
    ensures OfKey([], k) == []
  {
  }

  lemma OfKeyCons(f: RagFile, rest: seq<RagFile>, k: PathKey)
    ensures OfKey([f] + rest, k) == (if f.key == Some(k) then [f] else []) + OfKey(rest, k)
  {
    assert ([f] + rest)[1..] == rest;
  }

  ghost predicate OfRepo(keys: set<PathKey>, repo: string) {
    forall k | k in keys :: k.repo == repo
  }

  /** A sweep never touches files outside its keys, and clears its own when every call succeeds. */
  lemma {:induction false} SweepClears(files: seq<RagFile>, repo: string, keys: set<PathKey>, remote: nat -> Outcome,
                                       calls: nat, k: PathKey)
    requires OfRepo(keys, repo)
    ensures var s := RunSweep(files, repo, Some(keys), remote, calls);
            && calls <= s.calls
            && (k !in keys ==> OfKey(s.kept, k) == OfKey(files, k))
            && (AllFine(remote, calls, s.calls) ==>
                !s.broke && OfKey(s.kept, k) == if k in keys then [] else OfKey(files, k))
    decreases |files|
  {
    hide OfKey;
    if files == [] {
      OfKeyNone(k);
    } else {
      var f, rest := files[0], files[1..];
      SweepClears(rest, repo, keys, remote, calls + 1, k);
      OfKeyCons(f, rest, k);
      OfKeyCons(f, RunSweep(rest, repo, Some(keys), remote, calls + 1).kept, k);
      assert files == [f] + rest;
    }
  }

  /** The files that carry no key: somebody else's. */
  function Unkeyed(files: seq<RagFile>): seq<RagFile> {
    if files == [] then [] else (if files[0].key.None? then [files[0]] else []) + Unkeyed(files[1..])
  }

  lemma {:induction false} UnkeyedConcat(a: seq<RagFile>, b: seq<RagFile>)
    ensures Unkeyed(a + b) == Unkeyed(a) + Unkeyed(b)
    decreases |a|
  {
    if a == [] {
      assert a + b == b;
    } else {
      assert (a + b)[1..] == a[1..] + b;
      UnkeyedConcat(a[1..], b);
    }
  }

  /** No sweep removes them, with keys or without. */
  lemma {:induction false} SweepSparesUnkeyed(files: seq<RagFile>, repo: string, keys: Option<set<PathKey>>,
                                              remote: nat -> Outcome, calls: nat)
    ensures Unkeyed(RunSweep(files, repo, keys, remote, calls).kept) == Unkeyed(files)
    decreases |files|
  {
    if files != [] {
      var rest := RunSweep(files[1..], repo, keys, remote, calls + 1).kept;
      SweepSparesUnkeyed(files[1..], repo, keys, remote, calls + 1);
      assert ([files[0]] + rest)[1..] == rest;
    }
  }

  lemma {:induction false} FiledAreKeyed(files: seq<RagFile>)
    requires forall f | f in files :: f.key.Some?
    ensures Unkeyed(files) == []
    decreases |files|
  {
    if files != [] { FiledAreKeyed(files[1..]); }
  }

  /** The files with older names. */
  function Older(files: seq<RagFile>): seq<RagFile> {
    if files == [] then [] else (if files[0].legacy then [files[0]] else []) + Older(files[1..])
  }

  lemma {:induction false} OlderConcat(a: seq<RagFile>, b: seq<RagFile>)
    ensures Older(a + b) == Older(a) + Older(b)
    decreases |a|
  {
    if a == [] {
      assert a + b == b;
    } else {
      assert (a + b)[1..] == a[1..] + b;
      OlderConcat(a[1..], b);
    }
  }

  lemma OlderNone()
    ensures Older([]) == []
  {
  }

  lemma OlderCons(f: RagFile, rest: seq<RagFile>)
    ensures Older([f] + rest) == (if f.legacy then [f] else []) + Older(rest)
  {
    assert ([f] + rest)[1..] == rest;
  }

  lemma {:induction false} AllOlderIff(files: seq<RagFile>)
    ensures |Older(files)| <= |files|
    ensures Older(files) == files <==> forall f | f in files :: f.legacy
    decreases |files|
  {
    if files != [] {
      assert files == [files[0]] + files[1..];
      AllOlderIff(files[1..]);
      if files[0].legacy { assert Older(files)[1..] == Older(files[1..]); }
    }
  }

  /** A sweep without keys empties this repository, and leaves of every other one exactly the files with older names. */
  lemma {:induction false} SweepClearsAll(files: seq<RagFile>, repo: string, remote: nat -> Outcome, calls: nat,
                                          k: PathKey)
    ensures var s := RunSweep(files, repo, None, remote, calls);
            && calls <= s.calls
            && (AllFine(remote, calls, s.calls) ==>
                  !s.broke && OfKey(s.kept, k) == if k.repo == repo then [] else Older(OfKey(files, k)))
    decreases |files|
  {
    hide OfKey, Older;
    if files == [] {
      OfKeyNone(k);
      OlderNone();
    } else {
      var f, rest := files[0], files[1..];
      SweepClearsAll(rest, repo, remote, calls + 1, k);
      OfKeyCons(f, rest, k);
      OfKeyCons(f, RunSweep(rest, repo, None, remote, calls + 1).kept, k);
      var mine := OfKey(rest, k);
      OlderCons(f, mine);
      assert [] + mine == mine && [] + Older(mine) == Older(mine) && files == [f] + rest;
    }
  }

  lemma {:induction false} OfKeyConcat(a: seq<RagFile>, b: seq<RagFile>, k: PathKey)
    ensures OfKey(a + b, k) == OfKey(a, k) + OfKey(b, k)
    decreases |a|
  {
    if a == [] {
      assert a + b == b;
    } else {
      assert (a + b)[1..] == a[1..] + b;
      OfKeyConcat(a[1..], b, k);
    }
  }
}
