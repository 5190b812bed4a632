/**
 The remote index over any sequence of embedding runs: which files can be left without their chunks, and
 that the chunkers give each chunk the path it was cut from, as every result about the index supposes.
 */
module IndexRuns {
  import opened Wrappers
  import opened PyText
  import opened Chunks
  import P = PythonChunks
  import opened ChunkUpload
  import opened UploadAccounting
  import opened EmbedPipeline
  import opened IndexAgreement

  // ---- the chunkers ----

  /**
   The chunker for one file: nothing for blank content, symbols if `parse` gives any located in it, and
   otherwise fixed windows.
   */
  function FileChunks(parse: string -> Option<seq<P.Node>>, language: string -> string, path: string,
                      content: string): seq<Chunk> {
    var lines := SplitLines(content);
    if Blank(content) then []
    else
      match parse(content)
      case Some(nodes) =>
        if P.AllLocated(nodes, |lines|) then P.PythonChunks(Source(path, "python", lines), nodes) else []
      case None =>
        var src, windows := Source(path, language(path), lines), Windows(1, |lines|);
        WindowsInRange(1, |lines|, |lines|);
        seq(|windows|, i requires 0 <= i < |windows| => FixedChunk(src, windows[i]))
  }

  /** Whatever the parser and the language table say, each chunk carries the path of its file. */
  lemma FileChunksNamePaths(parse: string -> Option<seq<P.Node>>, language: string -> string)
    ensures NamesPaths((path, content) => FileChunks(parse, language, path, content))
  {
    forall path, content, i | 0 <= i < |FileChunks(parse, language, path, content)|
      ensures FileChunks(parse, language, path, content)[i].path == path
    {
      var lines := SplitLines(content);
      if !Blank(content) && parse(content).Some? && P.AllLocated(parse(content).value, |lines|) {
        var c := FileChunks(parse, language, path, content)[i];
        P.PathsAreNamed(Source(path, "python", lines), parse(content).value, c);
      }
    }
  }

  // ---- runs ----

  /** One run: what it was asked, what it saw, and how storing the new commit went. */
  datatype Event = Event(asked: bool, known: bool, head: Tree, walk: seq<string>, diff: seq<DiffLine>,
                         canDelete: bool, canUpload: bool, recorded: bool)

  /** The corpus, and the content of the last-indexed commit. */
  datatype Index = Index(files: seq<RagFile>, calls: nat, base: Option<Tree>)

  predicate IsFull(ix: Index, e: Event) {
    e.asked || !e.known || ix.base.None?
  }

  function RunOf(ix: Index, e: Event, repo: string, chunker: Chunker, remote: nat -> Outcome): Run {
    RunOnce(ix.files, ix.calls, remote, repo, chunker, e.head, e.walk, e.diff, IsFull(ix, e), e.canDelete, e.canUpload)
  }

  function Next(ix: Index, e: Event, repo: string, chunker: Chunker, remote: nat -> Outcome): Index {
    var r := RunOf(ix, e, repo, chunker, remote);
    Index(r.files, r.calls, if r.completed && e.recorded then Some(e.head) else ix.base)
  }

  /** Before, between and after the runs; git's diffs list what changed. */
  ghost predicate History(h: seq<Index>, events: seq<Event>, repo: string, chunker: Chunker, remote: nat -> Outcome) {
    && |h| == |events| + 1
    && (forall i | 0 <= i < |events| :: h[i + 1] == Next(h[i], events[i], repo, chunker, remote))
    && (forall i | 0 <= i < |events| && !IsFull(h[i], events[i]) ::
        Lists(h[i].base.value, events[i].head, events[i].diff))
  }

  /** The file belongs to the last-indexed commit and some of its chunks are missing. */
  ghost predicate Stranded(ix: Index, repo: string, chunker: Chunker, path: string) {
    ix.base.Some? && path in ix.base.value && !FileIndexed(ix.files, repo, chunker, ix.base.value, path)
  }

  predicate Advances(ix: Index, e: Event, repo: string, chunker: Chunker, remote: nat -> Outcome) {
    RunOf(ix, e, repo, chunker, remote).completed && e.recorded
  }

  predicate Walked(e: Event, path: string) {
    path in e.walk && !UnderDotDirectory(path)
  }

  /**
   A run that can cost a file its chunks: one that does not advance the commit and whose diff names the
   file, or that is full; or a full one whose walk leaves the file out.
   */
  predicate Spoils(ix: Index, e: Event, repo: string, chunker: Chunker, remote: nat -> Outcome, path: string) {
    if IsFull(ix, e) then !Advances(ix, e, repo, chunker, remote) || !Walked(e, path)
    else !Advances(ix, e, repo, chunker, remote) && (path in Changed(e.diff) || path in DeletedPaths(e.diff))
  }

  /**
   A run that gives a file its chunks: it advances the commit, and is full and walks the file or its diff
   names it.
   */
  predicate Repairs(ix: Index, e: Event, repo: string, chunker: Chunker, remote: nat -> Outcome, path: string) {
    Advances(ix, e, repo, chunker, remote) && if IsFull(ix, e) then Walked(e, path) else path in Changed(e.diff)
  }

  /** However it ends, an incremental run leaves alone what its diff does not name. */
  lemma UnnamedIsUntouched(files: seq<RagFile>, calls: nat, remote: nat -> Outcome, repo: string, chunker: Chunker,
                           tree: Tree, diff: seq<DiffLine>, canDelete: bool, canUpload: bool, path: string)
    requires NamesPaths(chunker) && path !in Changed(diff) && path !in DeletedPaths(diff)
    ensures OfKey(RunIncremental(files, calls, remote, repo, chunker, tree, diff, canDelete, canUpload).files,
      PathKey(repo, path))
         == OfKey(files, PathKey(repo, path))
  {
    hide RunSweep, RunUpload, OfKey, Filed, Readable, ChunksOf, ChunkKeys;
    var k := PathKey(repo, path);
    var names := Readable(tree, Changed(diff));
    var chunks := ChunksOf(chunker, tree, names);
    var d := RunDelete(files, calls, remote, repo, DeletedPaths(diff), canDelete);
    DeleteByPath(files, calls, remote, repo, DeletedPaths(diff), canDelete, path);
    KeyIffChunk(repo, chunker, tree, names, path);
    OwnKeys(repo, chunks);
    var s := RunSweep(d.kept, repo, Some(ChunkKeys(repo, chunks)), remote, d.calls);
    SweepClears(d.kept, repo, ChunkKeys(repo, chunks), remote, d.calls, k);
    var t := RunUpload(chunks, remote, s.calls);
    OfKeyConcat(s.kept, Filed(repo, t.stored), k);
    UploadWithin(chunks, remote, s.calls);
    if k !in ChunkKeys(repo, chunks) { StoredElsewhere(repo, chunks, t.stored, k); }
    assert OfKey(s.kept, k) + [] == OfKey(s.kept, k);
  }

  /** A completed full run holds the chunks of every file its walk visits, whatever could not be deleted. */
  lemma FullRunHoldsWalked(files: seq<RagFile>, calls: nat, remote: nat -> Outcome, repo: string, chunker: Chunker,
                           head: Tree, walk: seq<string>, canUpload: bool, path: string)
    requires NamesPaths(chunker) && path in head && path in walk && !UnderDotDirectory(path)
    requires RunFull(files, calls, remote, repo, chunker, head, walk, canUpload).completed
    ensures var r := RunFull(files, calls, remote, repo, chunker, head, walk, canUpload);
      FileIndexed(r.files, repo, chunker, head, path)
  {
    hide Filed, OfKey, RunSweep, RunUpload, Readable, Visible, ChunksOf, UnderDotDirectory;
    var names := Readable(head, Visible(walk));
    var chunks := ChunksOf(chunker, head, names);
    var s := RunSweep(files, repo, None, remote, calls);
    VisibleIff(walk, path);
    OfKeyChunks(repo, chunker, head, names, path);
    if chunks == [] {
      NothingWanted(chunker, head, names, path, repo);
    } else {
      var k, t := PathKey(repo, path), RunUpload(chunks, remote, s.calls);
      UploadAccounts(chunks, remote, s.calls);
      OfKeyConcat(s.kept, Filed(repo, t.stored), k);
      HoldsStored(repo, chunks, t.stored, OfKey(s.kept, k), k);
    }
  }

  /** One run strands a file only if it spoils it, or the file was stranded already and the run does not repair it. */
  lemma RunStrands(ix: Index, e: Event, repo: string, chunker: Chunker, remote: nat -> Outcome, path: string)
    requires NamesPaths(chunker) && (!IsFull(ix, e) ==> Lists(ix.base.value, e.head, e.diff))
    requires Stranded(Next(ix, e, repo, chunker, remote), repo, chunker, path)
      && !Spoils(ix, e, repo, chunker, remote, path)
    ensures Stranded(ix, repo, chunker, path) && !Repairs(ix, e, repo, chunker, remote, path)
  {
    hide RunIncremental, RunFull, UnderDotDirectory, FileIndexed;
    var advances := Advances(ix, e, repo, chunker, remote);
    if IsFull(ix, e) {
      FullRunHoldsWalked(ix.files, ix.calls, remote, repo, chunker, e.head, e.walk, e.canUpload, path);
    } else if advances {
      CompletedRunByPath(ix.files, ix.calls, remote, repo, chunker, e.head, e.diff, e.canDelete, e.canUpload, path);
      NamedOrSame(ix, e, repo, chunker, remote, path);
    } else {
      UnnamedIsUntouched(ix.files, ix.calls, remote, repo, chunker, e.head, e.diff, e.canDelete, e.canUpload, path);
      SameFilesSameIndex(ix.files, Next(ix, e, repo, chunker, remote).files, repo, chunker, ix.base.value,
          ix.base.value, path);
    }
  }

  lemma SameFilesSameIndex(files: seq<RagFile>, after: seq<RagFile>, repo: string, chunker: Chunker, base: Tree,
                           head: Tree, path: string)
    requires path in base && path in head && base[path] == head[path]
    requires OfKey(after, PathKey(repo, path)) == OfKey(files, PathKey(repo, path))
    ensures FileIndexed(after, repo, chunker, head, path) == FileIndexed(files, repo, chunker, base, path)
  {
  }

  /** In an incremental run that advances, a file still incomplete was not named, so it is as it was. */
  lemma NamedOrSame(ix: Index, e: Event, repo: string, chunker: Chunker, remote: nat -> Outcome, path: string)
    requires NamesPaths(chunker) && !IsFull(ix, e) && Lists(ix.base.value, e.head, e.diff)
      && Advances(ix, e, repo, chunker, remote)
    requires Stranded(Next(ix, e, repo, chunker, remote), repo, chunker, path)
    ensures path !in Changed(e.diff) && Stranded(ix, repo, chunker, path)
  {
    hide RunIncremental;
    CompletedRunByPath(ix.files, ix.calls, remote, repo, chunker, e.head, e.diff, e.canDelete, e.canUpload, path);
    NoChunksNoLoss(Next(ix, e, repo, chunker, remote).files, repo, chunker, e.head, path);
    if path !in Changed(e.diff) {
      SameFilesSameIndex(ix.files, Next(ix, e, repo, chunker, remote).files, repo, chunker, ix.base.value, e.head,
          path);
    }
  }

  lemma NoChunksNoLoss(files: seq<RagFile>, repo: string, chunker: Chunker, tree: Tree, path: string)
    requires path in tree
    ensures chunker(path, tree[path]) == [] ==> FileIndexed(files, repo, chunker, tree, path)
  {
  }

  /**
   Over any sequence of runs, a file of the last-indexed commit that lacks a chunk was spoiled by some run
   and repaired by none since, unless it was stranded to begin with.
   */
  lemma {:induction false} StrandedWasSpoiled(h: seq<Index>, events: seq<Event>, repo: string, chunker: Chunker,
      remote: nat -> Outcome, path: string, n: nat)
    requires NamesPaths(chunker) && History(h, events, repo, chunker, remote) && n <= |events|
    requires Stranded(h[n], repo, chunker, path) && !Stranded(h[0], repo, chunker, path)
    ensures exists i: nat :: i < n && SpoiledAt(h, events, repo, chunker, remote, path, i, n)
    decreases n
  {
    hide Next, Stranded, Spoils, Repairs;
    if n > 0 {
      var ix, e := h[n - 1], events[n - 1];
      assert h[n] == Next(ix, e, repo, chunker, remote);
      if Spoils(ix, e, repo, chunker, remote, path) {
        assert SpoiledAt(h, events, repo, chunker, remote, path, n - 1, n);
      } else {
        RunStrands(ix, e, repo, chunker, remote, path);
        StrandedWasSpoiled(h, events, repo, chunker, remote, path, n - 1);
        var i: nat :| i < n - 1 && SpoiledAt(h, events, repo, chunker, remote, path, i, n - 1);
        assert SpoiledAt(h, events, repo, chunker, remote, path, i, n);
      }
    }
  }

  /** Run `i` spoils the file and no run from there up to `n` repairs it. */
  ghost predicate SpoiledAt(h: seq<Index>, events: seq<Event>, repo: string, chunker: Chunker, remote: nat -> Outcome,
                            path: string, i: nat, n: nat)
    requires |h| == |events| + 1 && i < n <= |events|
  {
    && Spoils(h[i], events[i], repo, chunker, remote, path)
    && forall j | i < j < n :: !Repairs(h[j], events[j], repo, chunker, remote, path)
  }

  /** A repair does what it says: right after it the file has its chunks. */
  lemma RepairIndexes(ix: Index, e: Event, repo: string, chunker: Chunker, remote: nat -> Outcome, path: string)
    requires NamesPaths(chunker) && (!IsFull(ix, e) ==> Lists(ix.base.value, e.head, e.diff))
    requires Repairs(ix, e, repo, chunker, remote, path)
    ensures !Stranded(Next(ix, e, repo, chunker, remote), repo, chunker, path)
  {
    if path in e.head {
      if IsFull(ix, e) {
        FullRunHoldsWalked(ix.files, ix.calls, remote, repo, chunker, e.head, e.walk, e.canUpload, path);
      } else {
        CompletedRunByPath(ix.files, ix.calls, remote, repo, chunker, e.head, e.diff, e.canDelete, e.canUpload, path);
        NoChunksNoLoss(Next(ix, e, repo, chunker, remote).files, repo, chunker, e.head, path);
      }
    }
  }
}
