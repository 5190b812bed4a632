/** Does the remote index agree with HEAD after a run that reports completion? */
module IndexAgreement {
  import opened Wrappers
  import opened Chunks
  import opened ChunkUpload
  import opened UploadAccounting
  import opened UploadRetries
  import opened EmbedPipeline

  /** What HEAD asks for: the file's chunks, under its key. */
  function Wanted(repo: string, chunker: Chunker, tree: Tree, path: string): seq<RagFile>
    requires path in tree
  {
    Filed(repo, chunker(path, tree[path]))
  }

  ghost predicate Holds(files: seq<RagFile>, wanted: seq<RagFile>) {
    forall i | 0 <= i < |wanted| :: wanted[i] in files
  }

  /** Every chunk of the file is in the corpus. */
  ghost predicate FileIndexed(files: seq<RagFile>, repo: string, chunker: Chunker, tree: Tree, path: string)
    requires path in tree
  {
    Holds(OfKey(files, PathKey(repo, path)), Wanted(repo, chunker, tree, path))
  }

  ghost predicate Indexed(files: seq<RagFile>, repo: string, chunker: Chunker, tree: Tree) {
    forall path | path in tree :: FileIndexed(files, repo, chunker, tree, path)
  }

  // ---- the chunks a run uploads ----

  lemma {:induction false} OfKeyFiled(repo: string, chunks: seq<Chunk>, path: string, same: bool)
    requires forall i | 0 <= i < |chunks| :: (chunks[i].path == path) == same
    ensures OfKey(Filed(repo, chunks), PathKey(repo, path)) == if same then Filed(repo, chunks) else []
    decreases |chunks|
  {
    if chunks != [] {
      assert Filed(repo, chunks)[1..] == Filed(repo, chunks[1..]);
      assert Filed(repo, chunks) == [Filed(repo, chunks)[0]] + Filed(repo, chunks[1..]);
      OfKeyFiled(repo, chunks[1..], path, same);
    }
  }

  /** Uploading files with distinct names gives each of them its own chunks and nothing else. */
  lemma {:induction false} OfKeyChunks(repo: string, chunker: Chunker, tree: Tree, names: seq<string>, path: string)
    requires NamesPaths(chunker) && forall i | 0 <= i < |names| :: names[i] in tree
    requires forall i, j | 0 <= i < j < |names| :: names[i] != names[j]
    ensures OfKey(Filed(repo, ChunksOf(chunker, tree, names)), PathKey(repo, path))
         == if path in names then Wanted(repo, chunker, tree, path) else []
    decreases |names|
  {
    if names != [] {
      var init, last := names[..|names| - 1], names[|names| - 1];
      assert names == init + [last];
      OfKeyChunks(repo, chunker, tree, init, path);
      var mine := chunker(last, tree[last]);
      FiledConcat(repo, ChunksOf(chunker, tree, init), mine);
      OfKeyConcat(Filed(repo, ChunksOf(chunker, tree, init)), Filed(repo, mine), PathKey(repo, path));
      OfKeyFiled(repo, mine, path, last == path);
    }
  }

  /** Some chunk of the list is of this path. */
  ghost predicate HasPath(chunks: seq<Chunk>, path: string) {
    exists i :: 0 <= i < |chunks| && chunks[i].path == path
  }

  lemma HasPathConcat(a: seq<Chunk>, b: seq<Chunk>, path: string)
    ensures HasPath(a + b, path) <==> HasPath(a, path) || HasPath(b, path)
  {
    var all := a + b;
    if i :| 0 <= i < |a| && a[i].path == path { assert all[i].path == path; }
    if i :| 0 <= i < |b| && b[i].path == path { assert all[|a| + i].path == path; }
    if i :| 0 <= i < |all| && all[i].path == path {
      assert i < |a| ==> a[i].path == path;
      assert i >= |a| ==> b[i - |a|].path == path;
    }
  }

  lemma {:induction false} ChunkPaths(chunker: Chunker, tree: Tree, names: seq<string>, path: string)
    requires NamesPaths(chunker) && forall i | 0 <= i < |names| :: names[i] in tree
    ensures HasPath(ChunksOf(chunker, tree, names), path) <==> path in names && chunker(path, tree[path]) != []
    decreases |names|
  {
    if names != [] {
      var init, last := names[..|names| - 1], names[|names| - 1];
      var mine := chunker(last, tree[last]);
      assert names == init + [last];
      ChunkPaths(chunker, tree, init, path);
      HasPathConcat(ChunksOf(chunker, tree, init), mine, path);
      assert mine != [] ==> mine[0].path == last;
      if HasPath(mine, path) {
        var i :| 0 <= i < |mine| && mine[i].path == path;
        assert mine[i].path == last;
      }
    }
  }

  lemma KeyIffChunk(repo: string, chunker: Chunker, tree: Tree, names: seq<string>, path: string)
    requires NamesPaths(chunker) && forall i | 0 <= i < |names| :: names[i] in tree
    ensures PathKey(repo, path) in ChunkKeys(repo, ChunksOf(chunker, tree, names))
       <==> path in names && chunker(path, tree[path]) != []
  {
    var chunks := ChunksOf(chunker, tree, names);
    ChunkPaths(chunker, tree, names, path);
    if PathKey(repo, path) in ChunkKeys(repo, chunks) {
      var i :| 0 <= i < |chunks| && PathKey(repo, path) == PathKey(repo, chunks[i].path);
      assert HasPath(chunks, path);
    }
    if HasPath(chunks, path) {
      var i :| 0 <= i < |chunks| && chunks[i].path == path;
      assert PathKey(repo, chunks[i].path) in ChunkKeys(repo, chunks);
    }
  }

  // ---- one path through an incremental run ----

  /** This run replaces the chunks of `path`: it is named as changed, readable, and yields a chunk. */
  predicate Reembedded(chunker: Chunker, tree: Tree, diff: seq<DiffLine>, path: string) {
    path in Changed(diff) && path in tree && chunker(path, tree[path]) != []
  }

  /**
   A completed run, path by path. Re-embedded files end with their HEAD chunks on top of whatever could
   not be deleted; files the diff does not name are untouched. When every delete succeeds, re-embedded
   files have exactly their HEAD chunks, files only named as deleted have none, and all others are as
   before, a changed file that no longer yields a chunk included.
   */
  lemma CompletedRunByPath(files: seq<RagFile>, calls: nat, remote: nat -> Outcome, repo: string, chunker: Chunker,
                           tree: Tree, diff: seq<DiffLine>, canDelete: bool, canUpload: bool, path: string)
    requires NamesPaths(chunker)
    requires RunIncremental(files, calls, remote, repo, chunker, tree, diff, canDelete, canUpload).completed
    ensures var r := RunIncremental(files, calls, remote, repo, chunker, tree, diff, canDelete, canUpload);
            var after := OfKey(r.files, PathKey(repo, path));
            && (Reembedded(chunker, tree, diff, path) ==> FileIndexed(r.files, repo, chunker, tree, path))
            && (!Reembedded(chunker, tree, diff, path) && path !in DeletedPaths(diff) ==>
                after == OfKey(files, PathKey(repo, path)))
            && (CleanRun(files, calls, remote, repo, chunker, tree, diff) && canDelete ==>
                  after == if Reembedded(chunker, tree, diff, path) then Wanted(repo, chunker, tree, path)
                           else if path in DeletedPaths(diff) then []
                           else OfKey(files, PathKey(repo, path)))
  {
    var k := PathKey(repo, path);
    var deleted, names := DeletedPaths(diff), Readable(tree, Changed(diff));
    var chunks := ChunksOf(chunker, tree, names);
    var d := RunDelete(files, calls, remote, repo, deleted, canDelete);
    DeleteByPath(files, calls, remote, repo, deleted, canDelete, path);
    KeyIffChunk(repo, chunker, tree, names, path);
    OfKeyChunks(repo, chunker, tree, names, path);
    SweepClears(d.kept, repo, ChunkKeys(repo, chunks), remote, d.calls, k);
    if CleanRun(files, calls, remote, repo, chunker, tree, diff) && canDelete {
      FineParts(remote, calls, d.calls, RunSweep(d.kept, repo, Some(ChunkKeys(repo, chunks)), remote, d.calls).calls);
    }
    hide RunSweep, RunUpsert, OfKey, Filed, Readable, ChunksOf, ChunkKeys, Holds, AllFine;
    if chunks != [] {
      UpsertByPath(d.kept, d.calls, remote, repo, chunks, canUpload, k);
    }
  }

  /** Every call of the two clearing sweeps of the run succeeds, and no upload error hides a kept file. */
  ghost predicate CleanRun(files: seq<RagFile>, calls: nat, remote: nat -> Outcome, repo: string, chunker: Chunker,
                                 tree: Tree, diff: seq<DiffLine>) {
    var d := RunDelete(files, calls, remote, repo, DeletedPaths(diff), true);
    var chunks := ChunksOf(chunker, tree, Readable(tree, Changed(diff)));
    var swept := RunSweep(d.kept, repo, Some(ChunkKeys(repo, chunks)), remote, d.calls).calls;
    AllFine(remote, calls, swept) && !RunUpload(chunks, remote, swept).unsure
  }

  lemma FineParts(remote: nat -> Outcome, a: nat, b: nat, c: nat)
    requires a <= b <= c && AllFine(remote, a, c)
    ensures AllFine(remote, a, b) && AllFine(remote, b, c)
  {
  }

  lemma DeleteByPath(files: seq<RagFile>, calls: nat, remote: nat -> Outcome, repo: string, deleted: seq<string>,
                     can: bool, path: string)
    ensures var d := RunDelete(files, calls, remote, repo, deleted, can);
            var before, after := OfKey(files, PathKey(repo, path)), OfKey(d.kept, PathKey(repo, path));
            && calls <= d.calls
            && (path !in deleted ==> after == before)
            && (can && AllFine(remote, calls, d.calls) ==> after == if path in deleted then [] else before)
  {
    SweepClears(files, repo, PathKeys(repo, deleted), remote, calls, PathKey(repo, path));
    assert PathKey(repo, path) in PathKeys(repo, deleted) <==> path in deleted;
  }

  lemma UpsertByPath(files: seq<RagFile>, calls: nat, remote: nat -> Outcome, repo: string, chunks: seq<Chunk>,
                     can: bool, k: PathKey)
    requires RunUpsert(files, calls, remote, repo, chunks, false, can).completed
    ensures var s := RunSweep(files, repo, Some(ChunkKeys(repo, chunks)), remote, calls);
            var after := OfKey(RunUpsert(files, calls, remote, repo, chunks, false, can).files, k);
            && calls <= s.calls
            && Holds(after, OfKey(Filed(repo, chunks), k))
            && (k !in ChunkKeys(repo, chunks) ==> after == OfKey(files, k))
            && (AllFine(remote, calls, s.calls) && !RunUpload(chunks, remote, s.calls).unsure ==>
                  after == (if k in ChunkKeys(repo, chunks) then [] else OfKey(files, k))
                      + OfKey(Filed(repo, chunks), k))
  {
    hide RunSweep, RunUpload, OfKey, Filed, ChunkKeys, Holds, AllFine, OfRepo, Subsequence, AllFrom;
    var keys := ChunkKeys(repo, chunks);
    var s := RunSweep(files, repo, Some(keys), remote, calls);
    var t := RunUpload(chunks, remote, s.calls);
    OwnKeys(repo, chunks);
    SweepClears(files, repo, keys, remote, calls, k);
    UploadAccounts(chunks, remote, s.calls);
    UploadWithin(chunks, remote, s.calls);
    OfKeyConcat(s.kept, Filed(repo, t.stored), k);
    HoldsStored(repo, chunks, t.stored, OfKey(s.kept, k), k);
    if k !in keys {
      StoredElsewhere(repo, chunks, t.stored, k);
      assert OfKey(s.kept, k) + [] == OfKey(s.kept, k);
    }
    if !t.unsure { NoFailureIff(chunks, remote, s.calls); }
  }

  lemma OwnKeys(repo: string, chunks: seq<Chunk>)
    ensures OfRepo(ChunkKeys(repo, chunks), repo)
  {
  }

  lemma {:induction false} OfKeyIff(files: seq<RagFile>, k: PathKey, f: RagFile)
    ensures f in OfKey(files, k) <==> f in files && f.key == Some(k)
    decreases |files|
  {
    if files != [] {
      assert files == [files[0]] + files[1..];
      OfKeyIff(files[1..], k, f);
    }
  }

  lemma FiledIff(repo: string, chunks: seq<Chunk>, f: RagFile)
    ensures f in Filed(repo, chunks) <==> exists c :: c in chunks && f == FileOf(repo, c)
  {
    if f in Filed(repo, chunks) {
      var i :| 0 <= i < |chunks| && Filed(repo, chunks)[i] == f;
      assert chunks[i] in chunks;
    }
    if c :| c in chunks && f == FileOf(repo, c) {
      var i :| 0 <= i < |chunks| && chunks[i] == c;
      assert Filed(repo, chunks)[i] == f;
    }
  }

  /** An upload that stored every chunk holds every file they make, whatever it stored besides. */
  lemma HoldsStored(repo: string, chunks: seq<Chunk>, stored: seq<Chunk>, before: seq<RagFile>, k: PathKey)
    ensures Subsequence(chunks, stored) ==> Holds(before + OfKey(Filed(repo, stored), k), OfKey(Filed(repo, chunks), k))
  {
    if Subsequence(chunks, stored) {
      hide OfKey, Filed;
      SubsequenceCounts(chunks, stored);
      var wanted, have := OfKey(Filed(repo, chunks), k), OfKey(Filed(repo, stored), k);
      forall i | 0 <= i < |wanted| ensures wanted[i] in before + have {
        OfKeyIff(Filed(repo, chunks), k, wanted[i]);
        FiledIff(repo, chunks, wanted[i]);
        var c :| c in chunks && wanted[i] == FileOf(repo, c);
        assert c in multiset(chunks);
        assert c in stored;
        FiledIff(repo, stored, wanted[i]);
        OfKeyIff(Filed(repo, stored), k, wanted[i]);
      }
    }
  }

  lemma StoredElsewhere(repo: string, chunks: seq<Chunk>, stored: seq<Chunk>, k: PathKey)
    requires AllFrom(stored, chunks) && k !in ChunkKeys(repo, chunks)
    ensures OfKey(Filed(repo, stored), k) == []
  {
    forall i | 0 <= i < |stored| ensures Filed(repo, stored)[i].key != Some(k) {
      assert stored[i] in stored;
      var j :| 0 <= j < |chunks| && chunks[j] == stored[i];
      assert PathKey(repo, chunks[j].path) in ChunkKeys(repo, chunks);
    }
    NoneOfKey(Filed(repo, stored), k);
  }

  lemma {:induction false} NoneOfKey(files: seq<RagFile>, k: PathKey)
    requires forall i | 0 <= i < |files| :: files[i].key != Some(k)
    ensures OfKey(files, k) == []
    decreases |files|
  {
    if files != [] {
      NoneOfKey(files[1..], k);
    }
  }

  // ---- agreement with HEAD ----

  /**
   What a diff from `base` to `head` must list: every file of HEAD that is new or different, and no
   deletion that HEAD still has.
   */
  ghost predicate Lists(base: Tree, head: Tree, diff: seq<DiffLine>) {
    && (forall path | path in head && !(path in base && base[path] == head[path]) :: path in Changed(diff))
    && (forall path | path in head :: path !in DeletedPaths(diff))
  }

  /**
   A completed incremental run that started from a corpus holding every chunk of the commit it diffs
   from leaves every chunk of HEAD's files in the corpus, whatever deletes fail on the way.
   */
  lemma CompletedRunIndexesHead(files: seq<RagFile>, calls: nat, remote: nat -> Outcome, repo: string, chunker: Chunker,
                                base: Tree, head: Tree, diff: seq<DiffLine>, canDelete: bool, canUpload: bool)
    requires NamesPaths(chunker) && Lists(base, head, diff) && Indexed(files, repo, chunker, base)
    requires RunIncremental(files, calls, remote, repo, chunker, head, diff, canDelete, canUpload).completed
    ensures var r := RunIncremental(files, calls, remote, repo, chunker, head, diff, canDelete, canUpload);
      Indexed(r.files, repo, chunker, head)
  {
    hide RunIncremental;
    forall path | path in head && path !in Changed(diff) ensures FileIndexed(files, repo, chunker, head, path) {
      assert path in base && base[path] == head[path] && FileIndexed(files, repo, chunker, base, path);
      assert Wanted(repo, chunker, base, path) == Wanted(repo, chunker, head, path);
    }
    AgreementIff(files, calls, remote, repo, chunker, head, diff, canDelete, canUpload);
  }

  /**
   Exactly when a completed run agrees with HEAD: when every file the diff does not name as changed had
   its chunks in the corpus before the run. Nothing else is checked before the commit advances.
   */
  lemma AgreementIff(files: seq<RagFile>, calls: nat, remote: nat -> Outcome, repo: string, chunker: Chunker,
                     head: Tree, diff: seq<DiffLine>, canDelete: bool, canUpload: bool)
    requires NamesPaths(chunker) && forall path | path in head :: path !in DeletedPaths(diff)
    requires RunIncremental(files, calls, remote, repo, chunker, head, diff, canDelete, canUpload).completed
    ensures var r := RunIncremental(files, calls, remote, repo, chunker, head, diff, canDelete, canUpload);
      Indexed(r.files, repo, chunker, head)
      <==> forall path | path in head && path !in Changed(diff) :: FileIndexed(files, repo, chunker, head, path)
  {
    hide RunIncremental;
    var after := RunIncremental(files, calls, remote, repo, chunker, head, diff, canDelete, canUpload).files;
    forall path | path in head
      ensures FileIndexed(after, repo, chunker, head, path)
        <==> path in Changed(diff) || FileIndexed(files, repo, chunker, head, path)
    {
      CompletedRunByPath(files, calls, remote, repo, chunker, head, diff, canDelete, canUpload, path);
      if path in Changed(diff) && chunker(path, head[path]) == [] {
        assert Wanted(repo, chunker, head, path) == [];
      }
    }
  }

  /** The chunks a full run uploads. */
  function FullChunks(chunker: Chunker, head: Tree, walk: seq<string>): seq<Chunk> {
    ChunksOf(chunker, head, Readable(head, Visible(walk)))
  }

  ghost predicate CleanFullRun(files: seq<RagFile>, calls: nat, remote: nat -> Outcome, repo: string, chunker: Chunker,
                               head: Tree, walk: seq<string>) {
    var swept := RunSweep(files, repo, None, remote, calls).calls;
    AllFine(remote, calls, swept) && !RunUpload(FullChunks(chunker, head, walk), remote, swept).unsure
  }

  /** What a full run should leave of a path: its chunks if the walk visits it, and nothing otherwise. */
  function FullTarget(repo: string, chunker: Chunker, head: Tree, walk: seq<string>, path: string): seq<RagFile> {
    if path in head && path in walk && !UnderDotDirectory(path) then Wanted(repo, chunker, head, path) else []
  }

  /**
   A completed full run, path by path, when its clearing sweep succeeds and no upload error hides a kept
   file. One that uploads something leaves exactly what it should; one whose walk yields no chunk clears
   nothing, so it leaves what it should exactly when there was nothing.
   */
  lemma FullRunByPath(files: seq<RagFile>, calls: nat, remote: nat -> Outcome, repo: string, chunker: Chunker,
                      head: Tree, walk: seq<string>, canUpload: bool, path: string)
    requires NamesPaths(chunker)
    requires RunFull(files, calls, remote, repo, chunker, head, walk, canUpload).completed
    requires CleanFullRun(files, calls, remote, repo, chunker, head, walk)
    ensures var k := PathKey(repo, path);
            var after := OfKey(RunFull(files, calls, remote, repo, chunker, head, walk, canUpload).files, k);
            var target := FullTarget(repo, chunker, head, walk, path);
            && after == (if FullChunks(chunker, head, walk) == [] then OfKey(files, k) else target)
            && (after == target <==> FullChunks(chunker, head, walk) != [] || OfKey(files, k) == [])
  {
    hide Filed, OfKey, RunSweep, RunUpload, Readable, Visible, ChunksOf, UnderDotDirectory, AllFine;
    var names := Readable(head, Visible(walk));
    var chunks := ChunksOf(chunker, head, names);
    var s := RunSweep(files, repo, None, remote, calls);
    var k := PathKey(repo, path);
    SweepClearsAll(files, repo, remote, calls, k);
    NoFailureIff(chunks, remote, s.calls);
    OfKeyChunks(repo, chunker, head, names, path);
    OfKeyConcat(s.kept, Filed(repo, chunks), k);
    VisibleIff(walk, path);
    if chunks == [] {
      NothingWanted(chunker, head, names, path, repo);
    } else {
      assert OfKey(s.kept, k) + OfKey(Filed(repo, chunks), k) == OfKey(Filed(repo, chunks), k);
    }
  }

  lemma NothingWanted(chunker: Chunker, tree: Tree, names: seq<string>, path: string, repo: string)
    requires NamesPaths(chunker) && (forall i | 0 <= i < |names| :: names[i] in tree)
      && ChunksOf(chunker, tree, names) == []
    ensures path in names ==> Wanted(repo, chunker, tree, path) == []
  {
    ChunkPaths(chunker, tree, names, path);
  }

  lemma VisibleYields(chunker: Chunker, head: Tree, walk: seq<string>, path: string)
    requires NamesPaths(chunker) && path in head && path in walk && !UnderDotDirectory(path)
      && chunker(path, head[path]) != []
    ensures FullChunks(chunker, head, walk) != []
  {
    VisibleIff(walk, path);
    ChunkPaths(chunker, head, Readable(head, Visible(walk)), path);
  }

  /** A full run that finds nothing to embed completes and leaves every old chunk searchable. */
  lemma EmptyWalkKeepsChunks(c: Chunk, repo: string, chunker: Chunker, calls: nat, remote: nat -> Outcome)
    ensures var r := RunFull(Filed(repo, [c]), calls, remote, repo, chunker, map[], [], true);
            && r.completed && r.files == Filed(repo, [c])
            && OfKey(r.files, PathKey(repo, c.path)) == Filed(repo, [c])
            && FullTarget(repo, chunker, map[], [], c.path) == []
  {
    var files := Filed(repo, [c]);
    assert files == [FileOf(repo, c)] && files[1..] == [];
  }

  /**
   What a full run whose sweep succeeds leaves of another repository in a shared corpus: exactly the files
   with older names. So a path is left as it was if and only if nothing is uploaded or all its files have
   older names.
   */
  lemma FullRunLeavesOthersIff(files: seq<RagFile>, calls: nat, remote: nat -> Outcome, repo: string, chunker: Chunker,
                               head: Tree, walk: seq<string>, canUpload: bool, other: PathKey)
    requires other.repo != repo
    requires AllFine(remote, calls, RunSweep(files, repo, None, remote, calls).calls)
    ensures var idle := !canUpload || FullChunks(chunker, head, walk) == [];
            var before := OfKey(files, other);
            var after := OfKey(RunFull(files, calls, remote, repo, chunker, head, walk, canUpload).files, other);
            && after == (if idle then before else Older(before))
            && (after == before <==> idle || forall f | f in before :: f.legacy)
  {
    hide RunSweep, RunUpload, ChunksOf, AllFine, OfKey, Older;
    var chunks := FullChunks(chunker, head, walk);
    var s := RunSweep(files, repo, None, remote, calls);
    var t := RunUpload(chunks, remote, s.calls);
    SweepClearsAll(files, repo, remote, calls, other);
    OfKeyConcat(s.kept, Filed(repo, t.stored), other);
    OfOtherRepo(repo, t.stored, other);
    AllOlderIff(OfKey(files, other));
    assert Older(OfKey(files, other)) + [] == Older(OfKey(files, other));
  }

  /** Embedding one file of a repository in full, with every call succeeding, loses a chunk of another. */
  lemma FullRunClearsAnother(repo: string, chunker: Chunker, path: string, text: string, c: Chunk, other: string,
                             d: Chunk)
    requires NamesPaths(chunker) && !UnderDotDirectory(path) && chunker(path, text) == [c] && other != repo
    ensures var r := RunFull(Filed(other, [d]), 0, n => Fine, repo, chunker, map[path := text], [path], true);
            && r.completed && OfKey(Filed(other, [d]), PathKey(other, d.path)) == Filed(other, [d])
            && OfKey(r.files, PathKey(other, d.path)) == []
  {
    var head: Tree, walk, k, remote: nat -> Outcome := map[path := text], [path], PathKey(other, d.path), n => Fine;
    OneFiled(other, d, d.path);
    OneVisible(chunker, head, path, c);
    FullRunLeavesOthersIff(Filed(other, [d]), 0, remote, repo, chunker, head, walk, true, k);
    assert Older(Filed(other, [d])) == [] by { assert Filed(other, [d])[1..] == []; }
    OneStored(c, remote, RunSweep(Filed(other, [d]), repo, None, remote, 0).calls);
  }

  lemma OneVisible(chunker: Chunker, head: Tree, path: string, c: Chunk)
    requires !UnderDotDirectory(path) && path in head && chunker(path, head[path]) == [c]
    ensures FullChunks(chunker, head, [path]) == [c]
  {
    hide UnderDotDirectory;
    var walk := [path];
    assert walk[..0] == [] && Visible([]) == [] && Readable(head, []) == [] && [] + [path] == [path];
    assert Visible(walk) == walk && Readable(head, walk) == walk;
    assert ChunksOf(chunker, head, []) == [] && [] + [c] == [c];
  }

  lemma {:induction false} OfOtherRepo(repo: string, chunks: seq<Chunk>, other: PathKey)
    requires other.repo != repo
    ensures OfKey(Filed(repo, chunks), other) == []
    decreases |chunks|
  {
    if chunks != [] {
      assert Filed(repo, chunks)[1..] == Filed(repo, chunks[1..]);
      OfOtherRepo(repo, chunks[1..], other);
    }
  }

  lemma {:induction false} VisibleIff(walk: seq<string>, path: string)
    ensures path in Visible(walk) <==> path in walk && !UnderDotDirectory(path)
    decreases |walk|
  {
    if walk != [] {
      assert walk == walk[..|walk| - 1] + [walk[|walk| - 1]];
      VisibleIff(walk[..|walk| - 1], path);
    }
  }

  // ---- full against incremental ----

  /** What a full run over a commit is to leave of a path: the chunks of a visible file. */
  function Ideal(repo: string, chunker: Chunker, tree: Tree, path: string): seq<RagFile> {
    if path in tree && !UnderDotDirectory(path) then Wanted(repo, chunker, tree, path) else []
  }

  /** The corpus holds of this repository exactly what a full run over the commit leaves. */
  ghost predicate FullIndexOf(files: seq<RagFile>, repo: string, chunker: Chunker, tree: Tree) {
    forall path: string :: OfKey(files, PathKey(repo, path)) == Ideal(repo, chunker, tree, path)
  }

  /** git's diff between two commits: what is new or different is changed, and what is gone is named too. */
  ghost predicate GitDiff(base: Tree, head: Tree, diff: seq<DiffLine>) {
    Lists(base, head, diff) && forall path | path in base && path !in head ::
        path in Changed(diff) || path in DeletedPaths(diff)
  }

  /** The walk meets every visible file that yields chunks. */
  ghost predicate WalksAll(chunker: Chunker, head: Tree, walk: seq<string>) {
    forall path | path in head && !UnderDotDirectory(path) && chunker(path, head[path]) != [] :: path in walk
  }

  /**
   Where the two kinds of run part ways: at a changed file under a dot directory, which only an incremental
   run embeds; at a changed file that yields no chunk any more, whose old ones only a full run drops; and,
   if the full run has nothing to upload and so clears nothing, at a deleted file.
   */
  predicate PartWays(repo: string, chunker: Chunker, base: Tree, head: Tree, walk: seq<string>, diff: seq<DiffLine>,
                     path: string) {
    if Reembedded(chunker, head, diff, path) then UnderDotDirectory(path)
    else
      && Ideal(repo, chunker, base, path) != []
      && if FullChunks(chunker, head, walk) != [] then path in Changed(diff) && path !in DeletedPaths(diff)
         else path in DeletedPaths(diff)
  }

  /**
   From a corpus exactly as a full run over `base` leaves it, a full and an incremental run to `head`, both
   clean and completed, leave the same files of a path if and only if the path is not one where they part ways.
   */
  lemma FullAgreesWithIncrementalIff(files: seq<RagFile>, calls: nat, remote: nat -> Outcome, repo: string,
                                     chunker: Chunker, base: Tree, head: Tree, walk: seq<string>, diff: seq<DiffLine>,
                                     path: string)
    requires NamesPaths(chunker) && FullIndexOf(files, repo, chunker, base)
    requires GitDiff(base, head, diff) && WalksAll(chunker, head, walk)
    requires RunFull(files, calls, remote, repo, chunker, head, walk, true).completed
    requires RunIncremental(files, calls, remote, repo, chunker, head, diff, true, true).completed
    requires CleanFullRun(files, calls, remote, repo, chunker, head, walk)
    requires CleanRun(files, calls, remote, repo, chunker, head, diff)
    ensures OfKey(RunFull(files, calls, remote, repo, chunker, head, walk, true).files, PathKey(repo, path))
         == OfKey(RunIncremental(files, calls, remote, repo, chunker, head, diff, true, true).files,
             PathKey(repo, path))
       <==> !PartWays(repo, chunker, base, head, walk, diff, path)
  {
    hide RunFull, RunIncremental, UnderDotDirectory, CleanRun, CleanFullRun, OfKey, Changed, DeletedPaths, FullChunks;
    assert OfKey(files, PathKey(repo, path)) == Ideal(repo, chunker, base, path);
    FullRunByPath(files, calls, remote, repo, chunker, head, walk, true, path);
    CompletedRunByPath(files, calls, remote, repo, chunker, head, diff, true, true, path);
    WalkedTarget(repo, chunker, head, walk, path);
    if path in head && !UnderDotDirectory(path) && chunker(path, head[path]) != [] {
      VisibleYields(chunker, head, walk, path);
    }
  }

  lemma WalkedTarget(repo: string, chunker: Chunker, head: Tree, walk: seq<string>, path: string)
    requires WalksAll(chunker, head, walk)
    ensures FullTarget(repo, chunker, head, walk, path) == Ideal(repo, chunker, head, path)
    ensures path in head ==> (Wanted(repo, chunker, head, path) == [] <==> chunker(path, head[path]) == [])
  {
    hide UnderDotDirectory;
  }

  /** A changed file that yields no chunk any more: an incremental run completes and keeps its old chunk searchable. */
  lemma EmptiedFileKeepsChunks(repo: string, chunker: Chunker, path: string, was: string, now: string, c: Chunk,
                               calls: nat, remote: nat -> Outcome)
    requires NamesPaths(chunker) && !UnderDotDirectory(path) && chunker(path, was) == [c] && chunker(path, now) == []
    ensures var base, head: Tree := map[path := was], map[path := now];
            var r := RunIncremental(Filed(repo, [c]), calls, remote, repo, chunker, head, [Other(path)], true, true);
            && FullIndexOf(Filed(repo, [c]), repo, chunker, base) && GitDiff(base, head, [Other(path)])
            && r == Run(Filed(repo, [c]), calls, true)
            && OfKey(r.files, PathKey(repo, path)) == Filed(repo, [c]) && Ideal(repo, chunker, head, path) == []
  {
    hide UnderDotDirectory, Changed, DeletedPaths, RunIncremental, FullIndexOf, Filed, OfKey;
    assert chunker(path, was)[0].path == path;
    NamedOnce(path);
    OneFiled(repo, c, path);
    OneFileIndexed(repo, chunker, map[path := was], path, c);
    NothingEmbedded(repo, chunker, map[path := now], path, Filed(repo, [c]), calls, remote);
  }

  lemma OneFileIndexed(repo: string, chunker: Chunker, base: Tree, path: string, c: Chunk)
    requires !UnderDotDirectory(path) && base.Keys == {path} && chunker(path, base[path]) == [c] && c.path == path
    ensures FullIndexOf(Filed(repo, [c]), repo, chunker, base)
  {
    hide UnderDotDirectory, Filed;
    OneFiled(repo, c, path);
    forall p: string | p != path ensures OfKey(Filed(repo, [c]), PathKey(repo, p)) == [] {
      NoneOfKey(Filed(repo, [c]), PathKey(repo, p));
    }
  }

  lemma NothingEmbedded(repo: string, chunker: Chunker, head: Tree, path: string, files: seq<RagFile>, calls: nat,
                        remote: nat -> Outcome)
    requires path in head && chunker(path, head[path]) == []
    ensures RunIncremental(files, calls, remote, repo, chunker, head, [Other(path)], true, true)
      == Run(files, calls, true)
  {
    hide Changed, DeletedPaths;
    var names := [path];
    NamedOnce(path);
    assert names[..0] == [] && Readable(head, names) == names;
    OneChunked(chunker, head, path);
  }

  lemma OneChunked(chunker: Chunker, tree: Tree, path: string)
    requires path in tree
    ensures ChunksOf(chunker, tree, [path]) == chunker(path, tree[path])
  {
    assert [path][..0] == [] && ChunksOf(chunker, tree, []) == [];
    assert [] + chunker(path, tree[path]) == chunker(path, tree[path]);
  }

  // ---- the failing family, with one member ----

  /**
   Failing closed does not keep the corpus whole. A run that clears a changed file and then cannot upload
   it keeps the old commit; if HEAD goes back to that commit's content, the next diff names nothing, the
   run completes and the file's chunks stay missing.
   */
  lemma RevertStrandsChunks(repo: string, chunker: Chunker, path: string, was: string, now: string, c: Chunk, d: Chunk,
                            remote: nat -> Outcome)
    requires NamesPaths(chunker) && was != now && chunker(path, was) == [c] && chunker(path, now) == [d]
    requires remote(0) == Fine && remote(1) == Fine && remote(2) == Refused
    ensures var base, edited: Tree := map[path := was], map[path := now];
            var first := RunIncremental(Filed(repo, [c]), 0, remote, repo, chunker, edited, [Other(path)], true, true);
            var second := RunIncremental(first.files, first.calls, remote, repo, chunker, base, [], true, true);
            && Indexed(Filed(repo, [c]), repo, chunker, base)
            && Lists(base, edited, [Other(path)]) && !first.completed
            && Lists(base, base, []) && second.completed && !Indexed(second.files, repo, chunker, base)
  {
    var base, edited: Tree := map[path := was], map[path := now];
    assert chunker(path, was)[0].path == path;
    NamedOnce(path);
    EditFails(repo, chunker, path, edited, c, d, remote);
    NothingToDo(repo, chunker, base, [], 3, remote);
    var wanted := Wanted(repo, chunker, base, path);
    assert wanted == [FileOf(repo, c)];
    assert OfKey(wanted, PathKey(repo, path)) == wanted by { assert wanted[1..] == []; }
    assert FileIndexed(wanted, repo, chunker, base, path);
    assert !FileIndexed([], repo, chunker, base, path) by { assert wanted[0] !in OfKey([], PathKey(repo, path)); }
  }

  lemma NamedOnce(path: string)
    ensures Changed([Other(path)]) == [path] && DeletedPaths([Other(path)]) == []
  {
    var diff: seq<DiffLine> := [Other(path)];
    assert diff[..0] == [];
    assert Changed([]) == [] && DeletedPaths([]) == [];
    assert DeletedOf(diff[0]) == [];
  }

  lemma EditFails(repo: string, chunker: Chunker, path: string, edited: Tree, c: Chunk, d: Chunk,
                  remote: nat -> Outcome)
    requires NamesPaths(chunker) && edited.Keys == {path} && chunker(path, edited[path]) == [d] && c.path == path
    requires remote(0) == Fine && remote(1) == Fine && remote(2) == Refused
    ensures RunIncremental(Filed(repo, [c]), 0, remote, repo, chunker, edited, [Other(path)], true, true)
      == Run([], 3, false)
  {
    hide Changed, DeletedPaths, RunSweep, RunUpload;
    var names := [path];
    NamedOnce(path);
    assert names[..0] == [] && Readable(edited, names) == names && ChunksOf(chunker, edited, names) == [d];
    assert chunker(path, edited[path])[0].path == path;
    var f := FileOf(repo, c);
    assert Filed(repo, [c]) == [f];
    assert [d][0].path == path && f.key.value in ChunkKeys(repo, [d]);
    OneSwept(f, repo, ChunkKeys(repo, [d]), remote, 0);
    OneRefused(d, remote, 2);
    assert Filed(repo, []) == [];
  }

  lemma NothingToDo(repo: string, chunker: Chunker, tree: Tree, files: seq<RagFile>, calls: nat, remote: nat -> Outcome)
    ensures RunIncremental(files, calls, remote, repo, chunker, tree, [], true, true) == Run(files, calls, true)
  {
  }

  lemma OneSwept(f: RagFile, repo: string, keys: set<PathKey>, remote: nat -> Outcome, calls: nat)
    requires remote(calls) == Fine && remote(calls + 1) == Fine && f.key.Some? && f.key.value in keys && !f.legacy
    ensures RunSweep([f], repo, Some(keys), remote, calls) == Sweep([], false, calls + 2)
  {
    assert [f][1..] == [];
    assert RunSweep([], repo, Some(keys), remote, calls + 1) == Sweep([], false, calls + 2);
  }

  /**
   A commit that could not be recorded strands chunks with no failed run at all: the run replaces a
   changed file's chunks and completes, the stored commit stays, and if HEAD goes back to that commit's
   content the next diff names nothing, so the new chunks stay in place of the old.
   */
  lemma UnrecordedRunStrandsChunks(repo: string, chunker: Chunker, path: string, was: string, now: string, c: Chunk,
                                   d: Chunk, remote: nat -> Outcome)
    requires NamesPaths(chunker) && was != now && chunker(path, was) == [c] && chunker(path, now) == [d] && c != d
    requires remote(0) == Fine && remote(1) == Fine && remote(2) == Fine
    ensures var base, edited: Tree := map[path := was], map[path := now];
            var first := RunIncremental(Filed(repo, [c]), 0, remote, repo, chunker, edited, [Other(path)], true, true);
            var second := RunIncremental(first.files, first.calls, remote, repo, chunker, base, [], true, true);
            && Indexed(Filed(repo, [c]), repo, chunker, base)
            && Lists(base, edited, [Other(path)]) && first.completed
            && Lists(base, base, []) && second.completed && !Indexed(second.files, repo, chunker, base)
  {
    var base, edited: Tree := map[path := was], map[path := now];
    assert chunker(path, was)[0].path == path && chunker(path, now)[0].path == path;
    NamedOnce(path);
    EditReplaces(repo, chunker, path, edited, c, d, remote);
    NothingToDo(repo, chunker, base, Filed(repo, [d]), 3, remote);
    OneFiled(repo, c, path);
    OneFiled(repo, d, path);
    assert Wanted(repo, chunker, base, path) == Filed(repo, [c]);
    assert FileIndexed(Filed(repo, [c]), repo, chunker, base, path);
    assert !FileIndexed(Filed(repo, [d]), repo, chunker, base, path) by {
      assert Filed(repo, [c])[0] !in Filed(repo, [d]);
    }
  }

  lemma OneFiled(repo: string, c: Chunk, path: string)
    requires c.path == path
    ensures Filed(repo, [c]) == [FileOf(repo, c)] && OfKey(Filed(repo, [c]), PathKey(repo, path)) == Filed(repo, [c])
  {
    assert Filed(repo, [c])[1..] == [];
  }

  lemma EditReplaces(repo: string, chunker: Chunker, path: string, edited: Tree, c: Chunk, d: Chunk,
                     remote: nat -> Outcome)
    requires NamesPaths(chunker) && edited.Keys == {path} && chunker(path, edited[path]) == [d] && c.path == path
    requires remote(0) == Fine && remote(1) == Fine && remote(2) == Fine
    ensures RunIncremental(Filed(repo, [c]), 0, remote, repo, chunker, edited, [Other(path)], true, true)
      == Run(Filed(repo, [d]), 3, true)
  {
    hide Changed, DeletedPaths, RunSweep, RunUpload;
    var names := [path];
    NamedOnce(path);
    assert names[..0] == [] && Readable(edited, names) == names && ChunksOf(chunker, edited, names) == [d];
    assert chunker(path, edited[path])[0].path == path;
    var f := FileOf(repo, c);
    assert Filed(repo, [c]) == [f];
    assert [d][0].path == path && f.key.value in ChunkKeys(repo, [d]);
    OneSwept(f, repo, ChunkKeys(repo, [d]), remote, 0);
    OneStored(d, remote, 2);
    assert [] + Filed(repo, [d]) == Filed(repo, [d]);
  }

  lemma OneStored(c: Chunk, remote: nat -> Outcome, calls: nat)
    requires remote(calls) == Fine
    ensures RunUpload([c], remote, calls) == Tally([c], 1, 0, false, false, calls + 1)
  {
    assert [c][..1] == [c] && [c][1..] == [];
    assert RunBatch([c], remote, calls) == Batch([c], 1, [], 0, false, false, calls + 1);
    assert [c] + [] == [c];
  }

  lemma OneRefused(c: Chunk, remote: nat -> Outcome, calls: nat)
    requires remote(calls) == Refused
    ensures RunUpload([c], remote, calls) == Tally([], 0, 1, false, false, calls + 1)
  {
    assert [c][..1] == [c] && [c][1..] == [];
    assert RunBatch([c], remote, calls) == Batch([], 0, [], 1, false, false, calls + 1);
  }

  /** However it goes, a run leaves files without a key alone. */
  lemma ForeignFilesStay(files: seq<RagFile>, calls: nat, remote: nat -> Outcome, repo: string, chunker: Chunker,
                         tree: Tree, walk: seq<string>, diff: seq<DiffLine>, full: bool, canDelete: bool,
                         canUpload: bool)
    ensures Unkeyed(RunOnce(files, calls, remote, repo, chunker, tree, walk, diff, full, canDelete, canUpload).files)
         == Unkeyed(files)
  {
    hide RunSweep, RunUpload, Unkeyed, ChunksOf, Readable;
    if full {
      UpsertSparesUnkeyed(files, calls, remote, repo, FullChunks(chunker, tree, walk), true, canUpload);
    } else {
      var d := RunDelete(files, calls, remote, repo, DeletedPaths(diff), canDelete);
      SweepSparesUnkeyed(files, repo, Some(PathKeys(repo, DeletedPaths(diff))), remote, calls);
      UpsertSparesUnkeyed(d.kept, d.calls, remote, repo, ChunksOf(chunker, tree, Readable(tree, Changed(diff))), false,
                          canUpload);
    }
  }

  lemma UpsertSparesUnkeyed(files: seq<RagFile>, calls: nat, remote: nat -> Outcome, repo: string, chunks: seq<Chunk>,
                            full: bool, reachable: bool)
    ensures Unkeyed(RunChunks(files, calls, remote, repo, chunks, full, reachable).files) == Unkeyed(files)
  {
    hide RunSweep, RunUpload, Unkeyed;
    var keys := if full then None else Some(ChunkKeys(repo, chunks));
    var s := RunSweep(files, repo, keys, remote, calls);
    SweepSparesUnkeyed(files, repo, keys, remote, calls);
    var filed := Filed(repo, RunUpload(chunks, remote, s.calls).stored);
    FiledAreKeyed(filed);
    UnkeyedConcat(s.kept, filed);
  }

  // ---- which files a run looks at ----

  /** Exactly the paths a diff names as new, different or renamed to count as changed. */
  lemma {:induction false} ChangedIff(diff: seq<DiffLine>, path: string)
    ensures path in Changed(diff) <==>
      exists i :: 0 <= i < |diff| && (diff[i] == Other(path) || (diff[i].Renamed? && diff[i].now == Some(path)))
    decreases |diff|
  {
    if diff != [] {
      var n := |diff| - 1;
      ChangedIff(diff[..n], path);
      assert forall i | 0 <= i < n :: diff[..n][i] == diff[i];
      assert path in ChangedOf(diff[n]) <==> diff[n] == Other(path) || (diff[n].Renamed? && diff[n].now == Some(path));
    }
  }

  /** And those it names as deleted or renamed away as deleted. */
  lemma {:induction false} DeletedIff(diff: seq<DiffLine>, path: string)
    ensures path in DeletedPaths(diff) <==>
      exists i :: 0 <= i < |diff| && (diff[i] == Deleted(path) || (diff[i].Renamed? && diff[i].was == path))
    decreases |diff|
  {
    hide DeletedOf;
    if diff != [] {
      var n := |diff| - 1;
      DeletedIff(diff[..n], path);
      assert forall i | 0 <= i < n :: diff[..n][i] == diff[i];
      DeletedOne(diff[n], path);
    }
  }

  lemma DeletedOne(line: DiffLine, path: string)
    ensures path in DeletedOf(line) <==> line == Deleted(path) || (line.Renamed? && line.was == path)
  {
  }

  /** A file below a directory whose name starts with a dot is left out of a walk. */
  lemma DotDirectoryIsHidden(above: string, name: string, below: string)
    requires above == "" || above[|above| - 1] == '/'
    ensures UnderDotDirectory(above + "." + name + "/" + below)
  {
    var path, i, j := above + "." + name + "/" + below, |above|, |above| + 1 + |name|;
    assert path[i] == '.' && path[j] == '/' && (i == 0 || path[i - 1] == '/');
    assert DottedName(path, i);
  }

  /** A file whose own name starts with a dot is not, nor is one with dots inside the names of its directories. */
  lemma OtherDotsAreVisible(path: string)
    requires forall i | 0 <= i < |path| && path[i] == '.' :: (i > 0 && path[i - 1] != '/') || '/' !in path[i..]
    ensures !UnderDotDirectory(path)
  {
    forall i, j | 0 <= i < j < |path| ensures !(DottedName(path, i) && path[j] == '/') {
      var after := path[i..];
      assert after[j - i] == path[j] && after[j - i] in after;
    }
  }

  // ---- runs that complete ----

  lemma {:induction false} FineSweep(files: seq<RagFile>, repo: string, keys: Option<set<PathKey>>,
                                     remote: nat -> Outcome, calls: nat)
    requires forall n: nat | calls <= n :: remote(n) == Fine
    ensures var s := RunSweep(files, repo, keys, remote, calls); !s.broke && calls <= s.calls
    decreases |files|
  {
    if files != [] { FineSweep(files[1..], repo, keys, remote, calls + 1); }
  }

  /** When every call succeeds and the corpus can be reached, every run completes, incremental or full. */
  lemma GoodRunsComplete(files: seq<RagFile>, calls: nat, remote: nat -> Outcome, repo: string, chunker: Chunker,
                         tree: Tree, walk: seq<string>, diff: seq<DiffLine>, canDelete: bool)
    requires forall n: nat | calls <= n :: remote(n) == Fine
    ensures RunIncremental(files, calls, remote, repo, chunker, tree, diff, canDelete, true).completed
    ensures RunFull(files, calls, remote, repo, chunker, tree, walk, true).completed
  {
    hide RunSweep, RunUpload, ChunksOf, Readable;
    var chunks := ChunksOf(chunker, tree, Readable(tree, Changed(diff)));
    var d := RunDelete(files, calls, remote, repo, DeletedPaths(diff), canDelete);
    FineSweep(files, repo, Some(PathKeys(repo, DeletedPaths(diff))), remote, calls);
    FineSweep(d.kept, repo, Some(ChunkKeys(repo, chunks)), remote, d.calls);
    AllGoesIn(chunks, remote, RunSweep(d.kept, repo, Some(ChunkKeys(repo, chunks)), remote, d.calls).calls);
    FineSweep(files, repo, None, remote, calls);
    AllGoesIn(FullChunks(chunker, tree, walk), remote, RunSweep(files, repo, None, remote, calls).calls);
  }

  /** A run that has chunks to upload and cannot reach the corpus does not complete. */
  lemma UnreachableRunsFail(files: seq<RagFile>, calls: nat, remote: nat -> Outcome, repo: string, chunker: Chunker,
                            tree: Tree, walk: seq<string>, diff: seq<DiffLine>, canDelete: bool)
    ensures ChunksOf(chunker, tree, Readable(tree, Changed(diff))) != [] ==>
              !RunIncremental(files, calls, remote, repo, chunker, tree, diff, canDelete, false).completed
    ensures FullChunks(chunker, tree, walk) != [] ==>
              RunFull(files, calls, remote, repo, chunker, tree, walk, false) == Run(files, calls, false)
  {
    hide RunSweep, RunUpload, ChunksOf, Readable;
  }
}
