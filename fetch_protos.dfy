/**
 * Fetching the proto sources (src/steps/fetch-protos.ts): clone the
 * repository into `<outputDir>/proto`, walk it, keep the `.proto` files and
 * refuse a repository that has none.
 */
module FetchProtos {
  import opened Wrappers
  import opened Paths
  import opened FileTree
  import opened Walk
  import opened Fs

  datatype FetchError =
    | CloneFailed(repo: string, dest: Path)
    | NoProtoFiles(repo: string, protoDir: Path)

  /** The `.proto` files of a cloned tree placed at `protoDir`, in walk order. */
  function ProtoFiles(clone: seq<Entry>, protoDir: Path): seq<Path> {
    WithSuffix(Leaves(Dir(clone), protoDir), ".proto")
  }

  /** Every listed path is a `.proto` file name strictly below `protoDir`. */
  lemma ProtoFilesSound(clone: seq<Entry>, protoDir: Path, p: Path)
    requires p in ProtoFiles(clone, protoDir)
    ensures IsPrefix(protoDir, p) && |p| > |protoDir| && EndsWith(p[|p| - 1], ".proto")
    ensures WellFormed(Dir(clone)) ==> IsFileAt(Dir(clone), p[|protoDir|..])
  {
    LeavesUnder(Dir(clone), protoDir, p);
    EndsWithLast(p, ".proto");
    if WellFormed(Dir(clone)) {
      LeavesAreFiles(Dir(clone), protoDir, p);
    }
  }

  /** Every file of the clone whose name ends in `.proto` is listed. */
  lemma ProtoFilesComplete(clone: seq<Entry>, protoDir: Path, rel: Path)
    requires rel != [] && IsFileAt(Dir(clone), rel) && EndsWith(rel[|rel| - 1], ".proto")
    ensures protoDir + rel in ProtoFiles(clone, protoDir)
  {
    LeavesComplete(Dir(clone), protoDir, rel);
    EndsWithLast(protoDir + rel, ".proto");
  }

  /** A real directory tree lists each of its proto files once. */
  lemma ProtoFilesUnique(clone: seq<Entry>, protoDir: Path)
    requires WellFormed(Dir(clone))
    ensures NoDup(ProtoFiles(clone, protoDir))
  {
    LeavesNoDup(Dir(clone), protoDir);
  }

  /**
   * What `fetchProtos` answers, decided on the disk it starts from: the clone
   * fails when there is nothing to clone or its destination cannot be made,
   * and a clone without `.proto` files is refused.
   */
  function FetchResult(root: Node, repo: string, outputDir: Path, clone: Option<seq<Entry>>)
    : Result<seq<Path>, FetchError>
  {
    var protoDir := outputDir + ["proto"];
    if clone.None? || Mkdirs(root, protoDir).None? then Err(CloneFailed(repo, protoDir))
    else if ProtoFiles(clone.value, protoDir) == [] then Err(NoProtoFiles(repo, protoDir))
    else Ok(ProtoFiles(clone.value, protoDir))
  }

  /** The disk after a clone: the parents of `<outputDir>/proto` made, the clone placed there. */
  function Cloned(root: Node, outputDir: Path, clone: seq<Entry>): Node
    requires Mkdirs(root, outputDir + ["proto"]).Some?
  {
    Put(Mkdirs(root, outputDir + ["proto"]).value, outputDir + ["proto"], Dir(clone))
  }

  /**
   * `fetchProtos`: `clone` is what cloning `repo` yields, the top-level
   * entries of the repository, or nothing when the clone fails. On success the
   * clone sits at `<outputDir>/proto` and the result lists its `.proto` files.
   */
  method FetchProtos(fs: FileSystem, repo: string, outputDir: Path, clone: Option<seq<Entry>>)
    returns (r: Result<seq<Path>, FetchError>)
    requires fs.Valid()
    modifies fs
    ensures fs.Valid()
    ensures r == FetchResult(old(fs.root), repo, outputDir, clone)
    ensures clone.None? || Mkdirs(old(fs.root), outputDir + ["proto"]).None? ==> fs.root == old(fs.root)
    ensures clone.Some? && Mkdirs(old(fs.root), outputDir + ["proto"]).Some? ==>
      fs.root == Cloned(old(fs.root), outputDir, clone.value)
    ensures r.Ok? ==> r.value != [] && forall p :: p in r.value ==>
      IsPrefix(outputDir + ["proto"], p) && |p| > |outputDir| + 1 && EndsWith(Absolute(p), ".proto") &&
      Lookup(fs.root, p) == Lookup(Dir(clone.value), p[|outputDir| + 1..])
    ensures r.Ok? && WellFormed(Dir(clone.value)) ==>
      NoDup(r.value) && forall p :: p in r.value ==> IsFileAt(Dir(clone.value), p[|outputDir| + 1..])
    ensures forall q :: Unrelated(q, outputDir + ["proto"]) ==> Lookup(fs.root, q) == Lookup(old(fs.root), q)
    ensures forall q :: IsFileAt(old(fs.root), q) && !IsPrefix(outputDir + ["proto"], q) ==>
      Lookup(fs.root, q) == Lookup(old(fs.root), q)
  {
    var protoDir := outputDir + ["proto"];
    if clone.None? {
      return Err(CloneFailed(repo, protoDir));
    }
    // The clone creates its destination directory.
    var made := fs.MkdirP(protoDir);
    if !made {
      return Err(CloneFailed(repo, protoDir));
    }
    ghost var mid := fs.root;
    assert CanPlace(fs.root, protoDir) by {
      assert Parent(protoDir) == protoDir[..|protoDir| - 1];
    }
    var placed := fs.Place(protoDir, Dir(clone.value));
    PutAt(mid, protoDir, Dir(clone.value));
    var listing := WalkDir(fs.root, protoDir);
    var files := listing.value;
    ListingSpec(fs.root, protoDir, files);
    var protos := WithSuffix(files, ".proto");
    if WellFormed(Dir(clone.value)) {
      ProtoFilesUnique(clone.value, protoDir);
      forall p | p in protos
        ensures IsFileAt(Dir(clone.value), p[|protoDir|..])
      {
        ProtoFilesSound(clone.value, protoDir, p);
      }
    }
    if |protos| == 0 {
      return Err(NoProtoFiles(repo, protoDir));
    }
    return Ok(protos);
  }
}
