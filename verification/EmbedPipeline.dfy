/**
 The embedding pipeline: a run brings the remote index to HEAD and advances the indexed commit only if
 all went in.
 */
module EmbedPipeline {
  import opened Wrappers
  import opened Chunks
  import opened ChunkUpload

  /** A line of `git diff --name-status`; a rename line may lack its new name. */
  datatype DiffLine = Deleted(path: string) | Renamed(was: string, now: Option<string>) | Other(path: string)

  /** Readable files by path. */
  type Tree = map<string, string>

  /** Chunks of one file: none for a file the skip rules exclude. */
  type Chunker = (string, string) -> seq<Chunk>

  /** Chunks carry the path they were cut from. */
  ghost predicate NamesPaths(chunker: Chunker) {
    forall path, content, i | 0 <= i < |chunker(path, content)| :: chunker(path, content)[i].path == path
  }

  // ---- which files a run looks at ----

  function ChangedOf(line: DiffLine): seq<string> {
    match line
    case Deleted(_) => []
    case Renamed(_, None) => []
    case Renamed(_, Some(now)) => [now]
    case Other(path) => [path]
  }

  function DeletedOf(line: DiffLine): seq<string> {
    match line
    case Deleted(path) => [path]
    case Renamed(was, _) => [was]
    case Other(_) => []
  }

  function Changed(diff: seq<DiffLine>): seq<string> {
    if diff == [] then [] else Changed(diff[..|diff| - 1]) + ChangedOf(diff[|diff| - 1])
  }

  function DeletedPaths(diff: seq<DiffLine>): seq<string> {
    if diff == [] then [] else DeletedPaths(diff[..|diff| - 1]) + DeletedOf(diff[|diff| - 1])
  }

  /** A dictionary by path keeps one entry for each readable path, in order of first mention. */
  function Readable(tree: Tree, paths: seq<string>): (names: seq<string>)
    ensures forall p :: p in names <==> p in paths && p in tree
    ensures forall i, j | 0 <= i < j < |names| :: names[i] != names[j]
  {
    if paths == [] then []
    else
      var init, last := Readable(tree, paths[..|paths| - 1]), paths[|paths| - 1];
      assert paths == paths[..|paths| - 1] + [last];
      if last in tree && last !in init then init + [last] else init
  }

  function ChunksOf(chunker: Chunker, tree: Tree, names: seq<string>): seq<Chunk>
    requires forall i | 0 <= i < |names| :: names[i] in tree
  {
    if names == [] then []
    else
      var last := names[|names| - 1];
      ChunksOf(chunker, tree, names[..|names| - 1]) + chunker(last, tree[last])
  }

  /** Some directory on the path starts with a dot; a walk over the whole repository leaves it out. */
  predicate UnderDotDirectory(path: string) {
    exists i, j :: 0 <= i < j < |path| && DottedName(path, i) && path[j] == '/'
  }

  /** A name on the path starts here, with a dot. */
  predicate DottedName(path: string, i: nat)
    requires i < |path|
  {
    path[i] == '.' && (i == 0 || path[i - 1] == '/')
  }

  function Visible(walk: seq<string>): seq<string> {
    if walk == [] then []
    else
      var last := walk[|walk| - 1];
      Visible(walk[..|walk| - 1]) + if UnderDotDirectory(last) then [] else [last]
  }

  // ---- one run, as a function of the remote outcomes ----

  function PathKeys(repo: string, paths: seq<string>): set<PathKey> {
    set i | 0 <= i < |paths| :: PathKey(repo, paths[i])
  }

  function ChunkKeys(repo: string, chunks: seq<Chunk>): set<PathKey> {
    set i | 0 <= i < |chunks| :: PathKey(repo, chunks[i].path)
  }

  /** The corpus after a run and whether it reports completion. */
  datatype Run = Run(files: seq<RagFile>, calls: nat, completed: bool)

  /** Deleting the removed files; failures are only logged. */
  function RunDelete(files: seq<RagFile>, calls: nat, remote: nat -> Outcome, repo: string, deleted: seq<string>,
                     reachable: bool): Sweep {
    if deleted == [] || !reachable then Sweep(files, false, calls)
    else RunSweep(files, repo, Some(PathKeys(repo, deleted)), remote, calls)
  }

  /** Clears what is re-embedded, or everything for a full run, then uploads. */
  function RunUpsert(files: seq<RagFile>, calls: nat, remote: nat -> Outcome, repo: string, chunks: seq<Chunk>,
                     full: bool, reachable: bool): Run {
    if !reachable then Run(files, calls, false)
    else
      var s := RunSweep(files, repo, if full then None else Some(ChunkKeys(repo, chunks)), remote, calls);
      if s.broke && !full then Run(s.kept, s.calls, false)
      else
        var t := RunUpload(chunks, remote, s.calls);
        Run(s.kept + Filed(repo, t.stored), t.calls, t.failed == 0)
  }

  function RunChunks(files: seq<RagFile>, calls: nat, remote: nat -> Outcome, repo: string, chunks: seq<Chunk>,
                     full: bool, reachable: bool): Run {
    if chunks == [] then Run(files, calls, true) else RunUpsert(files, calls, remote, repo, chunks, full, reachable)
  }

  function RunIncremental(files: seq<RagFile>, calls: nat, remote: nat -> Outcome, repo: string, chunker: Chunker,
                          tree: Tree, diff: seq<DiffLine>, canDelete: bool, canUpload: bool): Run {
    var s := RunDelete(files, calls, remote, repo, DeletedPaths(diff), canDelete);
    RunChunks(s.kept, s.calls, remote, repo, ChunksOf(chunker, tree, Readable(tree, Changed(diff))), false, canUpload)
  }

  function RunFull(files: seq<RagFile>, calls: nat, remote: nat -> Outcome, repo: string, chunker: Chunker,
                   tree: Tree, walk: seq<string>, canUpload: bool): Run {
    RunChunks(files, calls, remote, repo, ChunksOf(chunker, tree, Readable(tree, Visible(walk))), true, canUpload)
  }

  function RunOnce(files: seq<RagFile>, calls: nat, remote: nat -> Outcome, repo: string, chunker: Chunker,
                   tree: Tree, walk: seq<string>, diff: seq<DiffLine>, full: bool, canDelete: bool,
                   canUpload: bool): Run {
    if full then RunFull(files, calls, remote, repo, chunker, tree, walk, canUpload)
    else RunIncremental(files, calls, remote, repo, chunker, tree, diff, canDelete, canUpload)
  }

  class Pipeline {
    const repo: string
    const chunker: Chunker
    const corpus: Corpus
    /** The last-indexed commit, by its hash. */
    var last: Option<string>

    constructor (repo: string, chunker: Chunker, corpus: Corpus, last: Option<string>)
      ensures this.repo == repo && this.chunker == chunker && this.corpus == corpus && this.last == last
    {
      this.repo := repo;
      this.chunker := chunker;
      this.corpus := corpus;
      this.last := last;
    }

    /** Changed and deleted paths of a diff; a rename deletes the old path and changes the new one. */
    method GetChangedFiles(diff: seq<DiffLine>) returns (changed: seq<string>, deleted: seq<string>)
      ensures changed == Changed(diff) && deleted == DeletedPaths(diff)
    {
      changed, deleted := [], [];
      for i := 0 to |diff|
        invariant changed == Changed(diff[..i]) && deleted == DeletedPaths(diff[..i])
      {
        assert diff[..i + 1][..i] == diff[..i];
        match diff[i]
        case Deleted(path) => deleted := deleted + [path];
        case Renamed(was, now) =>
          deleted := deleted + [was];
          if now.Some? { changed := changed + [now.value]; }
        case Other(path) => changed := changed + [path];
      }
      assert diff[..|diff|] == diff;
    }

    /** Stores the commit; a store that fails is logged and forgotten. */
    method Record(head: string, recorded: bool)
      modifies this`last
      ensures last == if recorded then Some(head) else old(last)
    {
      if recorded {
        last := Some(head);
      }
    }

    method ChunkAll(tree: Tree, paths: seq<string>) returns (chunks: seq<Chunk>)
      ensures chunks == ChunksOf(chunker, tree, Readable(tree, paths))
    {
      var names := Readable(tree, paths);
      chunks := [];
      for i := 0 to |names|
        invariant chunks == ChunksOf(chunker, tree, names[..i])
      {
        assert names[..i + 1][..i] == names[..i];
        assert names[i] in names;
        chunks := chunks + chunker(names[i], tree[names[i]]);
      }
      assert names[..|names|] == names;
    }

    /** False unless every chunk went in; stale chunks that cannot be listed stop an incremental upload. */
    method UpsertChunks(chunks: seq<Chunk>, full: bool, reachable: bool) returns (ok: bool)
      modifies corpus
      ensures var r := RunUpsert(old(corpus.files), old(corpus.calls), corpus.remote, repo, chunks, full, reachable);
              corpus.files == r.files && corpus.calls == r.calls && ok == r.completed
    {
      hide RunSweep, RunUpload, Filed;
      if !reachable { return false; }
      var listed := corpus.DeleteMatching(repo, if full then None else Some(ChunkKeys(repo, chunks)));
      if !listed && !full { return false; }
      var r := corpus.Upload(repo, chunks);
      ok := IsOk(r);
    }

    /**
     A run at HEAD. When asked to, or when no last-indexed commit is known, it embeds every file the walk
     visits; otherwise the files that `diff`, from that commit to HEAD, names. `known` says whether the
     stored commit could be read and `recorded` whether the new one could be stored; both failures are
     only logged, so a run may report completion and leave the commit where it was.
     */
    method Embed(asked: bool, known: bool, head: string, tree: Tree, walk: seq<string>, diff: seq<DiffLine>,
                 canDelete: bool, canUpload: bool, recorded: bool)
      returns (completed: bool)
      modifies this, corpus
      ensures var files, calls, remote := old(corpus.files), old(corpus.calls), corpus.remote;
              var full := asked || !known || old(last).None?;
              var r := RunOnce(files, calls, remote, repo, chunker, tree, walk, diff, full, canDelete, canUpload);
              corpus.files == r.files && corpus.calls == r.calls && completed == r.completed
      ensures last == if completed && recorded then Some(head) else old(last)
    {
      hide RunSweep, RunUpsert, ChunksOf, Readable;
      var full := asked || !known || last.None?;
      var chunks;
      if full {
        chunks := ChunkAll(tree, Visible(walk));
      } else {
        var changed, deleted := GetChangedFiles(diff);
        if deleted != [] && canDelete {
          var _ := corpus.DeleteMatching(repo, Some(PathKeys(repo, deleted)));
        }
        chunks := ChunkAll(tree, changed);
      }
      if chunks == [] {
        Record(head, recorded);
        return true;
      }
      completed := UpsertChunks(chunks, full, canUpload);
      if completed {
        Record(head, recorded);
      }
    }
  }
}
