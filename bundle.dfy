/**
 * The `bundle` command (src/commands/bundle.ts): in a fresh temporary
 * directory, fetch the protos, compile them, create the output directory,
 * assemble the package, copy the proto sources next to it, and remove the
 * temporary directory whatever happened.
 */
module Bundle {
  import opened Wrappers
  import opened Paths
  import opened FileTree
  import opened Fs
  import opened RunProtoc
  import opened FetchProtos

  /** What the steps of the command do, decided outside the model. */
  datatype Tools = Tools(
    cwd: Path,                       // working directory the plugin search starts from
    clone: Option<seq<Entry>>,       // the cloned repository, or nothing when cloning fails
    which: Option<string>,           // output of `which <plugin>`
    protoc: ProtocRun,               // exit status and output of the compiler
    assembleOk: bool                 // whether `generatePackage` succeeds
  )

  /** A step of the command as it was started, with the arguments it was given. */
  datatype Stage =
    | Fetching(repo: string, outputDir: Path)
    | Compiling(target: Target, protoFiles: seq<Path>, protoDir: Path, outputDir: Path)
    | MakingOutput(dir: Path)
    | Assembling(target: Target, outputDir: Path, genDir: Path, generatedFiles: seq<Path>)
    | CopyingSources(protoDir: Path, protoOutDir: Path)

  datatype BundleError =
    | TempDirFailed
    | FetchFailed(fetch: FetchError)
    | CompileFailed(compile: ProtocError)
    | OutputDirFailed(dir: Path)
    | AssembleFailed
    | CopyFailed

  /** Position of a step in the command. */
  function StageIndex(s: Stage): nat {
    match s
    case Fetching(_, _) => 0
    case Compiling(_, _, _, _) => 1
    case MakingOutput(_) => 2
    case Assembling(_, _, _, _) => 3
    case CopyingSources(_, _) => 4
  }

  /** The step an error comes from. */
  function FailedStage(e: BundleError): nat {
    match e
    case TempDirFailed => 0
    case FetchFailed(_) => 0
    case CompileFailed(_) => 1
    case OutputDirFailed(_) => 2
    case AssembleFailed => 3
    case CopyFailed => 4
  }

  // ---------------------------------------------------------------------------
  // The provenance copy

  /** `Path.join(protoOutDir, Path.relative(protoDir, pf))`. */
  function CopyDest(protoDir: Path, protoOutDir: Path, pf: Path): Path {
    Resolve(protoOutDir, Relative(protoDir, pf))
  }

  function CopyDests(protoDir: Path, protoOutDir: Path, protoFiles: seq<Path>): seq<Path> {
    seq(|protoFiles|, k requires 0 <= k < |protoFiles| => CopyDest(protoDir, protoOutDir, protoFiles[k]))
  }

  /** A file below the clone root lands at the same place below the copy root. */
  lemma CopyDestUnder(protoDir: Path, protoOutDir: Path, pf: Path)
    requires IsPrefix(protoDir, pf) && ValidPath(pf[|protoDir|..])
    ensures CopyDest(protoDir, protoOutDir, pf) == protoOutDir + pf[|protoDir|..]
  {
    RelativeUnder(protoDir, pf);
    ResolveDescends(protoOutDir, pf[|protoDir|..]);
  }

  /**
   * Sources and destinations never lie inside one another, and two
   * destinations coincide only for the same source.
   */
  predicate Apart(protoFiles: seq<Path>, dests: seq<Path>, protoOutDir: Path) {
    && |dests| == |protoFiles|
    && (forall j, k :: 0 <= j < |dests| && 0 <= k < |protoFiles| ==> Unrelated(protoFiles[k], dests[j]))
    && (forall j, k :: 0 <= j < |dests| && 0 <= k < |dests| && dests[j] == dests[k] ==> protoFiles[j] == protoFiles[k])
    && (forall k :: 0 <= k < |protoFiles| ==> !IsPrefix(protoFiles[k], protoOutDir))
  }

  /**
   * One iteration of the copy on the tree `n`: create the destination's
   * directory, then copy the file; nothing when either fails.
   */
  function CopyOneResult(n: Node, src: Path, dest: Path): Option<Node> {
    match Mkdirs(n, Parent(dest))
    case None => None
    case Some(m) =>
      if IsFileAt(m, src) && CanPlace(m, dest) && !IsDirAt(m, dest) then Some(Put(m, dest, Lookup(m, src).value))
      else None
  }

  /** The copy loop on the tree `n`, from the `i`-th file on; nothing at the first failure. */
  function CopyFrom(n: Node, protoFiles: seq<Path>, dests: seq<Path>, i: nat): Option<Node>
    requires i <= |protoFiles| == |dests|
    decreases |protoFiles| - i
  {
    if i == |protoFiles| then Some(n)
    else match CopyOneResult(n, protoFiles[i], dests[i])
      case None => None
      case Some(next) => CopyFrom(next, protoFiles, dests, i + 1)
  }

  /** `copyProtos` on the tree `n`: create the copy root, then copy every file in order. */
  function CopyAll(n: Node, protoFiles: seq<Path>, protoDir: Path, protoOutDir: Path): Option<Node> {
    match Mkdirs(n, protoOutDir)
    case None => None
    case Some(m) => CopyFrom(m, protoFiles, CopyDests(protoDir, protoOutDir, protoFiles), 0)
  }

  /**
   * One copy succeeds exactly when the source is a file, the destination is
   * not the root, not a directory, and no directory on the way to it is a file.
   */
  lemma CopyOneSpec(n: Node, src: Path, dest: Path)
    requires n.Dir?
    ensures CopyOneResult(n, src, dest).Some? <==>
      dest != [] && IsFileAt(n, src) && !IsDirAt(n, dest) && forall j :: 0 < j < |dest| ==> !IsFileAt(n, dest[..j])
  {
    MkdirsSpec(n, Parent(dest));
    if dest != [] {
      var parent := Parent(dest);
      assert forall j :: 0 < j <= |parent| ==> parent[..j] == dest[..j];
      if Mkdirs(n, parent).Some? {
        var m := Mkdirs(n, parent).value;
        MkdirsFiles(n, parent, src);
        assert IsDirAt(m, parent[..|parent|]);
        assert !IsPrefix(dest, parent);
      }
    }
  }

  /**
   * What one successful copy does to the tree: the destination holds the
   * source, the directories above it exist, and nothing apart from it changes.
   */
  lemma CopyOneEffect(n: Node, src: Path, dest: Path)
    requires n.Dir? && CopyOneResult(n, src, dest).Some?
    ensures var after := CopyOneResult(n, src, dest).value;
      && after.Dir?
      && IsFileAt(n, src) && Lookup(after, dest) == Lookup(n, src)
      && (forall q :: IsPrefix(q, dest) && q != dest ==> IsDirAt(after, q))
      && (forall q :: Unrelated(q, dest) ==> Lookup(after, q) == Lookup(n, q))
  {
    var parent := Parent(dest);
    MkdirsSpec(n, parent);
    var m := Mkdirs(n, parent).value;
    MkdirsFiles(n, parent, src);
    var v := Lookup(m, src).value;
    assert v == Lookup(n, src).value;
    PutAt(m, dest, v);
    forall q | IsPrefix(q, dest) && q != dest
      ensures IsDirAt(Put(m, dest, v), q)
    {
      assert q == parent[..|q|];
      PutKeepsAncestors(m, dest, v, q);
    }
    forall q | Unrelated(q, dest)
      ensures Lookup(Put(m, dest, v), q) == Lookup(n, q)
    {
      PutElsewhere(m, dest, v, q);
      assert !IsPrefix(q, parent);
    }
  }

  /** One iteration of the copy: create the destination's directory, then copy the file. */
  method CopyOne(fs: FileSystem, src: Path, dest: Path) returns (ok: bool)
    requires fs.Valid()
    modifies fs
    ensures fs.Valid()
    ensures ok <==> CopyOneResult(old(fs.root), src, dest).Some?
    ensures ok ==> fs.root == CopyOneResult(old(fs.root), src, dest).value
    ensures ok <==> (dest != [] && IsFileAt(old(fs.root), src) && !IsDirAt(old(fs.root), dest) &&
      forall j :: 0 < j < |dest| ==> !IsFileAt(old(fs.root), dest[..j]))
    ensures ok ==> IsFileAt(fs.root, dest) && Lookup(fs.root, dest) == Lookup(old(fs.root), src)
    ensures forall q :: IsFileAt(old(fs.root), q) && q != dest ==> Lookup(fs.root, q) == Lookup(old(fs.root), q)
    ensures forall q :: Unrelated(q, dest) ==> Lookup(fs.root, q) == Lookup(old(fs.root), q)
  {
    CopyOneSpec(fs.root, src, dest);
    var dirMade := fs.MkdirP(Parent(dest));
    if !dirMade {
      return false;
    }
    assert forall q :: IsPrefix(q, Parent(dest)) ==> IsPrefix(q, dest);
    if Unrelated(src, dest) {
      assert Lookup(fs.root, src) == Lookup(old(fs.root), src);
    }
    ok := fs.CopyFile(src, dest);
  }

  /**
   * The state after copying the first `i` files, starting from `start`: those
   * destinations are files; when sources and destinations are apart, each
   * holds its source's contents and the sources are untouched; old files
   * other than destinations are kept, and so is everything outside the copy
   * root and unrelated to every destination.
   */
  ghost predicate CopiedUpTo(start: Node, now: Node, protoFiles: seq<Path>, dests: seq<Path>, protoOutDir: Path,
                             apart: bool, i: nat)
  {
    && i <= |protoFiles| == |dests|
    && (apart ==> Apart(protoFiles, dests, protoOutDir))
    && (forall k :: 0 <= k < i ==> IsFileAt(now, dests[k]))
    && (apart ==> forall k :: 0 <= k < i ==> Lookup(now, dests[k]) == Lookup(start, protoFiles[k]))
    && (apart ==> forall k :: 0 <= k < |protoFiles| ==> Lookup(now, protoFiles[k]) == Lookup(start, protoFiles[k]))
    && (forall q :: IsFileAt(start, q) && q !in dests ==> Lookup(now, q) == Lookup(start, q))
    && (forall q :: !IsPrefix(q, protoOutDir) && (forall d :: d in dests ==> Unrelated(q, d)) ==>
          Lookup(now, q) == Lookup(start, q))
  }

  /** Copying the `i`-th file, as `CopyOne` does, extends the copied prefix by one. */
  lemma CopyStep(start: Node, before: Node, after: Node, protoFiles: seq<Path>, dests: seq<Path>, protoOutDir: Path,
                 apart: bool, i: nat)
    requires CopiedUpTo(start, before, protoFiles, dests, protoOutDir, apart, i) && i < |protoFiles|
    requires IsFileAt(after, dests[i]) && Lookup(after, dests[i]) == Lookup(before, protoFiles[i])
    requires forall q :: IsFileAt(before, q) && q != dests[i] ==> Lookup(after, q) == Lookup(before, q)
    requires forall q :: Unrelated(q, dests[i]) ==> Lookup(after, q) == Lookup(before, q)
    ensures CopiedUpTo(start, after, protoFiles, dests, protoOutDir, apart, i + 1)
  {
    CopyStepDests(start, before, after, protoFiles, dests, protoOutDir, apart, i);
    CopyStepSources(start, before, after, protoFiles, dests, protoOutDir, apart, i);
    assert dests[i] in dests;
    forall q | IsFileAt(start, q) && q !in dests
      ensures Lookup(after, q) == Lookup(start, q)
    {
      assert IsFileAt(before, q);
    }
  }

  /** The destinations copied so far stay files with their sources' contents. */
  lemma CopyStepDests(start: Node, before: Node, after: Node, protoFiles: seq<Path>, dests: seq<Path>, protoOutDir: Path,
                      apart: bool, i: nat)
    requires CopiedUpTo(start, before, protoFiles, dests, protoOutDir, apart, i) && i < |protoFiles|
    requires IsFileAt(after, dests[i]) && Lookup(after, dests[i]) == Lookup(before, protoFiles[i])
    requires forall q :: IsFileAt(before, q) && q != dests[i] ==> Lookup(after, q) == Lookup(before, q)
    ensures forall k :: 0 <= k <= i ==> IsFileAt(after, dests[k])
    ensures apart ==> forall k :: 0 <= k <= i ==> Lookup(after, dests[k]) == Lookup(start, protoFiles[k])
  {
    forall k | 0 <= k <= i
      ensures IsFileAt(after, dests[k])
      ensures apart ==> Lookup(after, dests[k]) == Lookup(start, protoFiles[k])
    {
      if dests[k] != dests[i] {
        assert IsFileAt(before, dests[k]);
      }
    }
  }

  /** Apart sources are untouched by the copy. */
  lemma CopyStepSources(start: Node, before: Node, after: Node, protoFiles: seq<Path>, dests: seq<Path>, protoOutDir: Path,
                        apart: bool, i: nat)
    requires CopiedUpTo(start, before, protoFiles, dests, protoOutDir, apart, i) && i < |protoFiles|
    requires forall q :: Unrelated(q, dests[i]) ==> Lookup(after, q) == Lookup(before, q)
    ensures apart ==> forall k :: 0 <= k < |protoFiles| ==> Lookup(after, protoFiles[k]) == Lookup(start, protoFiles[k])
  {
    if apart {
      forall k | 0 <= k < |protoFiles|
        ensures Lookup(after, protoFiles[k]) == Lookup(start, protoFiles[k])
      {
        assert Unrelated(protoFiles[k], dests[i]);
      }
    }
  }

  /**
   * Copy each proto file to its place below `protoOutDir`, creating the
   * directories on the way; stop at the first failure.
   */
  method CopyProtos(fs: FileSystem, protoFiles: seq<Path>, protoDir: Path, protoOutDir: Path) returns (ok: bool)
    requires fs.Valid()
    modifies fs
    ensures fs.Valid()
    ensures ok ==> forall k :: 0 <= k < |protoFiles| ==> IsFileAt(fs.root, CopyDests(protoDir, protoOutDir, protoFiles)[k])
    ensures ok && Apart(protoFiles, CopyDests(protoDir, protoOutDir, protoFiles), protoOutDir) ==>
      forall k :: 0 <= k < |protoFiles| ==>
        Lookup(fs.root, CopyDests(protoDir, protoOutDir, protoFiles)[k]) == Lookup(old(fs.root), protoFiles[k])
    ensures forall q :: IsFileAt(old(fs.root), q) && q !in CopyDests(protoDir, protoOutDir, protoFiles) ==>
      Lookup(fs.root, q) == Lookup(old(fs.root), q)
    ensures forall q :: !IsPrefix(q, protoOutDir) && (forall d :: d in CopyDests(protoDir, protoOutDir, protoFiles) ==> Unrelated(q, d)) ==>
      Lookup(fs.root, q) == Lookup(old(fs.root), q)
    ensures ok <==> CopyAll(old(fs.root), protoFiles, protoDir, protoOutDir).Some?
    ensures ok ==> fs.root == CopyAll(old(fs.root), protoFiles, protoDir, protoOutDir).value
  {
    var dests := CopyDests(protoDir, protoOutDir, protoFiles);
    var apart := Apart(protoFiles, dests, protoOutDir);
    var made := fs.MkdirP(protoOutDir);
    if !made {
      return false;
    }
    var i := 0;
    while i < |protoFiles|
      invariant fs.Valid()
      invariant CopiedUpTo(old(fs.root), fs.root, protoFiles, dests, protoOutDir, apart, i)
      invariant CopyFrom(fs.root, protoFiles, dests, i) == CopyAll(old(fs.root), protoFiles, protoDir, protoOutDir)
    {
      var pf := protoFiles[i];
      var dest := CopyDest(protoDir, protoOutDir, pf);
      assert dest == dests[i];
      ghost var before := fs.root;
      var copied := CopyOne(fs, pf, dest);
      if !copied {
        assert CopyFrom(before, protoFiles, dests, i).None?;
        return false;
      }
      assert CopyFrom(before, protoFiles, dests, i) == CopyFrom(fs.root, protoFiles, dests, i + 1);
      CopyStep(old(fs.root), before, fs.root, protoFiles, dests, protoOutDir, apart, i);
      i := i + 1;
    }
    assert CopyFrom(fs.root, protoFiles, dests, i) == Some(fs.root);
    return true;
  }

  /**
   * Nothing below `dir` is in the way of the copies: no destination is a
   * directory, and no directory between `dir` and a destination is a file.
   */
  predicate ClearBelow(n: Node, dir: Path, dests: seq<Path>) {
    forall k :: 0 <= k < |dests| ==>
      !IsDirAt(n, dests[k]) && forall j :: |dir| < j < |dests[k]| ==> !IsFileAt(n, dests[k][..j])
  }

  /**
   * What the copy needs of the tree it starts from: every source is a file,
   * every destination lies strictly below the copy root, no file is on the
   * way to the copy root or to a destination, no directory is where a copy
   * goes, and two destinations are equal or apart.
   */
  predicate CopyFeasible(n: Node, protoFiles: seq<Path>, dests: seq<Path>, protoOutDir: Path) {
    && |dests| == |protoFiles|
    && (forall k :: 0 <= k < |protoFiles| ==> IsFileAt(n, protoFiles[k]))
    && (forall j :: 0 < j <= |protoOutDir| ==> !IsFileAt(n, protoOutDir[..j]))
    && (forall k :: 0 <= k < |dests| ==> IsPrefix(protoOutDir, dests[k]) && |dests[k]| > |protoOutDir|)
    && ClearBelow(n, protoOutDir, dests)
    && (forall j, k :: 0 <= j < |dests| && 0 <= k < |dests| ==> dests[j] == dests[k] || Unrelated(dests[j], dests[k]))
  }

  /** The state the copy loop keeps on its way to success: the copy root exists and the files from the `i`-th on are clear. */
  ghost predicate CopyReady(n: Node, protoFiles: seq<Path>, dests: seq<Path>, protoOutDir: Path, i: nat) {
    && n.Dir?
    && Apart(protoFiles, dests, protoOutDir)
    && i <= |protoFiles|
    && (forall k :: 0 <= k < |protoFiles| ==> IsFileAt(n, protoFiles[k]))
    && (forall j :: 0 <= j <= |protoOutDir| ==> IsDirAt(n, protoOutDir[..j]))
    && (forall k :: 0 <= k < |dests| ==> IsPrefix(protoOutDir, dests[k]) && |dests[k]| > |protoOutDir|)
    && (forall k :: i <= k < |dests| ==>
          !IsDirAt(n, dests[k]) && forall j :: |protoOutDir| < j < |dests[k]| ==> !IsFileAt(n, dests[k][..j]))
    && (forall j, k :: 0 <= j < |dests| && 0 <= k < |dests| ==> dests[j] == dests[k] || Unrelated(dests[j], dests[k]))
  }

  /**
   * With sources and destinations apart, the copy succeeds on every tree that
   * is feasible for it.
   */
  lemma CopyAllSucceeds(n: Node, protoFiles: seq<Path>, protoDir: Path, protoOutDir: Path)
    requires n.Dir?
    requires Apart(protoFiles, CopyDests(protoDir, protoOutDir, protoFiles), protoOutDir)
    requires CopyFeasible(n, protoFiles, CopyDests(protoDir, protoOutDir, protoFiles), protoOutDir)
    ensures CopyAll(n, protoFiles, protoDir, protoOutDir).Some?
  {
    var dests := CopyDests(protoDir, protoOutDir, protoFiles);
    MkdirsSpec(n, protoOutDir);
    var m := Mkdirs(n, protoOutDir).value;
    forall k | 0 <= k < |protoFiles|
      ensures IsFileAt(m, protoFiles[k])
    {
      MkdirsFiles(n, protoOutDir, protoFiles[k]);
    }
    forall k | 0 <= k < |dests|
      ensures !IsDirAt(m, dests[k]) && forall j :: |protoOutDir| < j < |dests[k]| ==> !IsFileAt(m, dests[k][..j])
    {
      forall j | |protoOutDir| < j <= |dests[k]|
        ensures Lookup(m, dests[k][..j]) == Lookup(n, dests[k][..j])
      {
        assert !IsPrefix(dests[k][..j], protoOutDir);
      }
      assert dests[k][..|dests[k]|] == dests[k];
    }
    CopyFromSucceeds(m, protoFiles, dests, protoOutDir, 0);
  }

  lemma {:induction false} CopyFromSucceeds(n: Node, protoFiles: seq<Path>, dests: seq<Path>, protoOutDir: Path, i: nat)
    requires CopyReady(n, protoFiles, dests, protoOutDir, i)
    ensures CopyFrom(n, protoFiles, dests, i).Some?
    decreases |protoFiles| - i
  {
    if i < |protoFiles| {
      CopyReadyStep(n, protoFiles, dests, protoOutDir, i);
      CopyFromSucceeds(CopyOneResult(n, protoFiles[i], dests[i]).value, protoFiles, dests, protoOutDir, i + 1);
    }
  }

  /** A clear copy succeeds and leaves the remaining ones clear. */
  lemma CopyReadyStep(n: Node, protoFiles: seq<Path>, dests: seq<Path>, protoOutDir: Path, i: nat)
    requires CopyReady(n, protoFiles, dests, protoOutDir, i) && i < |protoFiles|
    ensures CopyOneResult(n, protoFiles[i], dests[i]).Some?
    ensures CopyReady(CopyOneResult(n, protoFiles[i], dests[i]).value, protoFiles, dests, protoOutDir, i + 1)
  {
    var d := dests[i];
    CopyOneSpec(n, protoFiles[i], d);
    forall j | 0 < j < |d|
      ensures !IsFileAt(n, d[..j])
    {
      if j <= |protoOutDir| {
        assert d[..j] == protoOutDir[..j];
      }
    }
    CopyOneEffect(n, protoFiles[i], d);
    var after := CopyOneResult(n, protoFiles[i], d).value;
    forall k | 0 <= k < |protoFiles|
      ensures IsFileAt(after, protoFiles[k])
    {
      assert Unrelated(protoFiles[k], d);
    }
    forall j | 0 <= j <= |protoOutDir|
      ensures IsDirAt(after, protoOutDir[..j])
    {
      assert IsPrefix(protoOutDir[..j], d);
    }
    forall k | i + 1 <= k < |dests|
      ensures !IsDirAt(after, dests[k])
      ensures forall j :: |protoOutDir| < j < |dests[k]| ==> !IsFileAt(after, dests[k][..j])
    {
      ClearAfterCopy(n, after, d, dests[k], |protoOutDir|);
    }
  }

  /** After copying to `d`, a destination `e` equal to or apart from `d` is still clear. */
  lemma ClearAfterCopy(n: Node, after: Node, d: Path, e: Path, from: nat)
    requires e == d || Unrelated(e, d)
    requires IsFileAt(after, d)
    requires forall q :: IsPrefix(q, d) && q != d ==> IsDirAt(after, q)
    requires forall q :: Unrelated(q, d) ==> Lookup(after, q) == Lookup(n, q)
    requires !IsDirAt(n, e) && forall j :: from < j < |e| ==> !IsFileAt(n, e[..j])
    ensures !IsDirAt(after, e) && forall j :: from < j < |e| ==> !IsFileAt(after, e[..j])
  {
    forall j | from < j < |e|
      ensures !IsFileAt(after, e[..j])
    {
      var q := e[..j];
      assert IsPrefix(d, q) ==> IsPrefix(d, e);
      if Unrelated(q, d) {
        assert !IsFileAt(n, q);
      }
    }
  }

  // ---------------------------------------------------------------------------
  // Copying again

  /**
   * The tree after the first `i` copies, as far as copying them again is
   * concerned: the copy root exists, each of those sources is a file, its
   * destination holds the same contents, and every directory above that
   * destination exists.
   */
  ghost predicate SettledUpTo(x: Node, protoFiles: seq<Path>, dests: seq<Path>, protoOutDir: Path, i: nat) {
    && x.Dir?
    && i <= |protoFiles| == |dests|
    && (forall j :: 0 <= j <= |protoOutDir| ==> IsDirAt(x, protoOutDir[..j]))
    && (forall k :: 0 <= k < i ==>
          IsFileAt(x, protoFiles[k]) && Lookup(x, dests[k]) == Lookup(x, protoFiles[k]) &&
          forall j :: 0 <= j < |dests[k]| ==> IsDirAt(x, dests[k][..j]))
  }

  /** A copy keeps every directory: `mkdir -p` only adds some, and the file lands where no directory is. */
  lemma CopyOneKeepsDirs(n: Node, src: Path, dest: Path, q: Path)
    requires n.Dir? && CopyOneResult(n, src, dest).Some? && IsDirAt(n, q)
    ensures IsDirAt(CopyOneResult(n, src, dest).value, q)
  {
    var parent := Parent(dest);
    MkdirsSpec(n, parent);
    var m := Mkdirs(n, parent).value;
    if IsPrefix(q, parent) {
      assert q == parent[..|q|];
    }
    var v := Lookup(m, src).value;
    if IsPrefix(dest, q) && dest != q {
      LookupPrefixIsDir(m, dest, q);
    } else if IsPrefix(q, dest) {
      PutKeepsAncestors(m, dest, v, q);
    } else {
      PutElsewhere(m, dest, v, q);
    }
  }

  /** A file and a destination that a copy can reach are equal or apart. */
  lemma FileApartFromDest(x: Node, d: Path, e: Path)
    requires x.Dir? && IsFileAt(x, e) && e != d
    requires !IsDirAt(x, d) && forall j :: 0 < j < |d| ==> !IsFileAt(x, d[..j])
    ensures Unrelated(e, d)
  {
    if IsPrefix(d, e) && d != e {
      LookupPrefixIsDir(x, d, e);
    }
  }

  /** The file just copied is settled: its destination holds its contents, below existing directories. */
  lemma SettleCopied(x: Node, y: Node, src: Path, d: Path)
    requires x.Dir? && CopyOneResult(x, src, d) == Some(y) && Unrelated(src, d)
    ensures IsFileAt(y, src) && Lookup(y, d) == Lookup(y, src)
    ensures forall j :: 0 <= j < |d| ==> IsDirAt(y, d[..j])
  {
    CopyOneEffect(x, src, d);
    assert Lookup(y, src) == Lookup(x, src);
    forall j | 0 <= j < |d|
      ensures IsDirAt(y, d[..j])
    {
      assert IsPrefix(d[..j], d) && d[..j] != d;
    }
  }

  /** A file settled before stays settled when a copy goes to another destination. */
  lemma SettleKept(x: Node, y: Node, src: Path, d: Path, pk: Path, dk: Path)
    requires x.Dir? && CopyOneResult(x, src, d) == Some(y) && Unrelated(pk, d) && dk != d
    requires IsFileAt(x, pk) && Lookup(x, dk) == Lookup(x, pk)
    requires forall j :: 0 <= j < |dk| ==> IsDirAt(x, dk[..j])
    ensures IsFileAt(y, pk) && Lookup(y, dk) == Lookup(y, pk)
    ensures forall j :: 0 <= j < |dk| ==> IsDirAt(y, dk[..j])
  {
    CopyOneSpec(x, src, d);
    CopyOneEffect(x, src, d);
    FileApartFromDest(x, d, dk);
    forall j | 0 <= j < |dk|
      ensures IsDirAt(y, dk[..j])
    {
      CopyOneKeepsDirs(x, src, d, dk[..j]);
    }
  }

  /** A successful copy keeps the directories on the way to the copy root. */
  lemma SettleRoot(x: Node, y: Node, src: Path, d: Path, protoOutDir: Path)
    requires x.Dir? && CopyOneResult(x, src, d) == Some(y)
    requires forall j :: 0 <= j <= |protoOutDir| ==> IsDirAt(x, protoOutDir[..j])
    ensures forall j :: 0 <= j <= |protoOutDir| ==> IsDirAt(y, protoOutDir[..j])
  {
    forall j | 0 <= j <= |protoOutDir|
      ensures IsDirAt(y, protoOutDir[..j])
    {
      CopyOneKeepsDirs(x, src, d, protoOutDir[..j]);
    }
  }

  /** A successful copy of the `i`-th file keeps the first `i` files settled and settles the `i`-th. */
  lemma SettleFiles(x: Node, y: Node, protoFiles: seq<Path>, dests: seq<Path>, i: nat)
    requires i < |protoFiles| == |dests| && x.Dir? && CopyOneResult(x, protoFiles[i], dests[i]) == Some(y)
    requires forall k :: 0 <= k <= i ==> Unrelated(protoFiles[k], dests[i])
    requires forall k :: 0 <= k < i && dests[k] == dests[i] ==> protoFiles[k] == protoFiles[i]
    requires forall k :: 0 <= k < i ==>
      (IsFileAt(x, protoFiles[k]) && Lookup(x, dests[k]) == Lookup(x, protoFiles[k]) &&
       forall j :: 0 <= j < |dests[k]| ==> IsDirAt(x, dests[k][..j]))
    ensures forall k :: 0 <= k < i + 1 ==>
      (IsFileAt(y, protoFiles[k]) && Lookup(y, dests[k]) == Lookup(y, protoFiles[k]) &&
       forall j :: 0 <= j < |dests[k]| ==> IsDirAt(y, dests[k][..j]))
  {
    var src, d := protoFiles[i], dests[i];
    forall k | 0 <= k < i + 1
      ensures IsFileAt(y, protoFiles[k]) && Lookup(y, dests[k]) == Lookup(y, protoFiles[k])
      ensures forall j :: 0 <= j < |dests[k]| ==> IsDirAt(y, dests[k][..j])
    {
      if dests[k] == d {
        assert protoFiles[k] == src;
        SettleCopied(x, y, src, d);
      } else {
        SettleKept(x, y, src, d, protoFiles[k], dests[k]);
      }
    }
  }

  /** One more successful copy, with sources and destinations apart, settles one more file. */
  lemma CopySettleStep(x: Node, y: Node, protoFiles: seq<Path>, dests: seq<Path>, protoOutDir: Path, i: nat)
    requires Apart(protoFiles, dests, protoOutDir) && SettledUpTo(x, protoFiles, dests, protoOutDir, i)
    requires i < |protoFiles| && CopyOneResult(x, protoFiles[i], dests[i]) == Some(y)
    ensures SettledUpTo(y, protoFiles, dests, protoOutDir, i + 1)
  {
    CopyOneEffect(x, protoFiles[i], dests[i]);
    SettleRoot(x, y, protoFiles[i], dests[i], protoOutDir);
    SettleFiles(x, y, protoFiles, dests, i);
  }

  /** The rest of a successful copy loop, with sources and destinations apart, settles every file. */
  lemma {:induction false} CopyFromSettles(x: Node, protoFiles: seq<Path>, dests: seq<Path>, protoOutDir: Path, i: nat)
    requires Apart(protoFiles, dests, protoOutDir) && SettledUpTo(x, protoFiles, dests, protoOutDir, i)
    requires CopyFrom(x, protoFiles, dests, i).Some?
    ensures SettledUpTo(CopyFrom(x, protoFiles, dests, i).value, protoFiles, dests, protoOutDir, |protoFiles|)
    decreases |protoFiles| - i
  {
    if i < |protoFiles| {
      CopySettleStep(x, CopyOneResult(x, protoFiles[i], dests[i]).value, protoFiles, dests, protoOutDir, i);
      CopyFromSettles(CopyOneResult(x, protoFiles[i], dests[i]).value, protoFiles, dests, protoOutDir, i + 1);
    }
  }

  /** Copying a file onto a destination that already holds its contents changes nothing. */
  lemma CopyOneAgain(m: Node, src: Path, dest: Path)
    requires m.Dir? && IsFileAt(m, src) && Lookup(m, dest) == Lookup(m, src)
    requires forall j :: 0 <= j < |dest| ==> IsDirAt(m, dest[..j])
    ensures CopyOneResult(m, src, dest) == Some(m)
  {
    assert dest != [];
    var parent := Parent(dest);
    assert forall j :: 1 <= j <= |parent| ==> parent[..j] == dest[..j];
    MkdirFromExisting(m, parent, 1);
    assert parent == dest[..|dest| - 1];
    PutSame(m, dest, Lookup(m, src).value);
  }

  /** The copy loop over a disk on which every file is settled succeeds and changes nothing. */
  lemma {:induction false} CopyFromAgain(m: Node, protoFiles: seq<Path>, dests: seq<Path>, protoOutDir: Path, i: nat)
    requires SettledUpTo(m, protoFiles, dests, protoOutDir, |protoFiles|) && i <= |protoFiles|
    ensures CopyFrom(m, protoFiles, dests, i) == Some(m)
    decreases |protoFiles| - i
  {
    if i < |protoFiles| {
      CopyOneAgain(m, protoFiles[i], dests[i]);
      CopyFromAgain(m, protoFiles, dests, protoOutDir, i + 1);
    }
  }

  /**
   * The provenance copy is idempotent: with sources and destinations apart,
   * copying the same files again over the result of a successful copy
   * succeeds and changes nothing.
   */
  lemma CopyAllAgain(n: Node, protoFiles: seq<Path>, protoDir: Path, protoOutDir: Path)
    requires n.Dir? && Apart(protoFiles, CopyDests(protoDir, protoOutDir, protoFiles), protoOutDir)
    requires CopyAll(n, protoFiles, protoDir, protoOutDir).Some?
    ensures CopyAll(CopyAll(n, protoFiles, protoDir, protoOutDir).value, protoFiles, protoDir, protoOutDir) ==
            CopyAll(n, protoFiles, protoDir, protoOutDir)
  {
    var dests := CopyDests(protoDir, protoOutDir, protoFiles);
    MkdirsSpec(n, protoOutDir);
    var m0 := Mkdirs(n, protoOutDir).value;
    CopyFromSettles(m0, protoFiles, dests, protoOutDir, 0);
    var m := CopyAll(n, protoFiles, protoDir, protoOutDir).value;
    MkdirFromExisting(m, protoOutDir, 1);
    CopyFromAgain(m, protoFiles, dests, protoOutDir, 0);
  }

  // ---------------------------------------------------------------------------
  // The command

  /**
   * The outcome of the command, the steps it started, in order, and the disk
   * a passing run leaves (`None` when a step failed).
   */
  datatype Run = Run(outcome: Outcome<BundleError>, trace: seq<Stage>, disk: Option<Node>)

  /** The last three steps on the tree `n`: create the output directory, assemble, copy. */
  function PublishResult(n: Node, target: Target, outputDir: Path, assembleOk: bool, tmp: Path,
                         protoFiles: seq<Path>, generatedFiles: seq<Path>): Run
  {
    var making := [MakingOutput(outputDir)];
    var assembling := making + [Assembling(target, outputDir, tmp + ["generated"], generatedFiles)];
    var copying := assembling + [CopyingSources(tmp + ["proto"], outputDir + ["proto"])];
    match Mkdirs(n, outputDir)
    case None => Run(Fail(OutputDirFailed(outputDir)), making, None)
    case Some(m) =>
      if !assembleOk then Run(Fail(AssembleFailed), assembling, None)
      else match CopyAll(m, protoFiles, tmp + ["proto"], outputDir + ["proto"])
        case None => Run(Fail(CopyFailed), copying, None)
        case Some(copied) => Run(Pass, copying, Some(copied))
  }

  /** The steps from compiling on, on the tree `n`: compile in `tmp`, then publish. */
  function BuildResult(n: Node, target: Target, outputDir: Path, tools: Tools, tmp: Path, protoFiles: seq<Path>): Run {
    var compiling := Compiling(target, protoFiles, tmp + ["proto"], tmp);
    var generated := RunResult(n, tools.cwd, target, tmp, tools.which, tools.protoc);
    if generated.Err? then Run(Fail(CompileFailed(generated.error)), [compiling], None)
    else
      var rest := PublishResult(Generated(n, tmp, tools.protoc), target, outputDir, tools.assembleOk, tmp,
                                protoFiles, generated.value);
      Run(rest.outcome, [compiling] + rest.trace, rest.disk)
  }

  /** The `try` block on the tree `n`: fetch into `tmp`, then build. */
  function StepsResult(n: Node, repo: string, target: Target, outputDir: Path, tools: Tools, tmp: Path): Run {
    var fetched := FetchResult(n, repo, tmp, tools.clone);
    if fetched.Err? then Run(Fail(FetchFailed(fetched.error)), [Fetching(repo, tmp)], None)
    else
      var rest := BuildResult(Cloned(n, tmp, tools.clone.value), target, outputDir, tools, tmp, fetched.value);
      Run(rest.outcome, [Fetching(repo, tmp)] + rest.trace, rest.disk)
  }

  /** What a run reports: its outcome, its steps, and the disk when it passed. */
  function Observed(outcome: Outcome<BundleError>, trace: seq<Stage>, n: Node): Run {
    Run(outcome, trace, if outcome.Pass? then Some(n) else None)
  }

  /** The copy destinations of a run that reached compiling, whose second step names the proto files. */
  function CopyTargets(trace: seq<Stage>, outputDir: Path): seq<Path> {
    if |trace| > 1 && trace[1].Compiling? then CopyDests(trace[1].protoDir, outputDir + ["proto"], trace[1].protoFiles)
    else []
  }

  /** The path `q` leads to the same thing in `a` and in `b`. */
  ghost predicate SameAt(a: Node, b: Node, q: Path) {
    Lookup(a, q) == Lookup(b, q)
  }

  /**
   * Between `before` and `after` nothing changed at a path that is not above
   * the copy root `protoOutDir` and is unrelated to every path of `zones`
   * (the temporary directory, the copy destinations).
   */
  ghost predicate KeptOutside(before: Node, after: Node, zones: seq<Path>, protoOutDir: Path) {
    forall q {:trigger SameAt(before, after, q)} ::
      !IsPrefix(q, protoOutDir) && (forall z :: z in zones ==> Unrelated(q, z)) ==> SameAt(before, after, q)
  }

  /** A step that keeps every path unrelated to `zone` keeps what `KeptOutside` names. */
  lemma KeptApart(before: Node, after: Node, zone: Path, protoOutDir: Path)
    requires forall q :: Unrelated(q, zone) ==> Lookup(after, q) == Lookup(before, q)
    ensures KeptOutside(before, after, [zone], protoOutDir)
  {
    forall q | !IsPrefix(q, protoOutDir) && (forall z :: z in [zone] ==> Unrelated(q, z))
      ensures SameAt(before, after, q)
    {
      assert zone in [zone];
    }
  }

  /** A step that keeps every path not above `dir`, itself above the copy root, keeps what `KeptOutside` names. */
  lemma KeptAbove(before: Node, after: Node, dir: Path, zones: seq<Path>, protoOutDir: Path)
    requires forall q :: !IsPrefix(q, dir) ==> Lookup(after, q) == Lookup(before, q)
    requires IsPrefix(dir, protoOutDir)
    ensures KeptOutside(before, after, zones, protoOutDir)
  {
    forall q | !IsPrefix(q, protoOutDir) && (forall z :: z in zones ==> Unrelated(q, z))
      ensures SameAt(before, after, q)
    {
    }
  }

  /** Keeping more zones apart asks less. */
  lemma KeptWider(a: Node, b: Node, zones: seq<Path>, more: seq<Path>, protoOutDir: Path)
    requires KeptOutside(a, b, zones, protoOutDir)
    requires forall z :: z in zones ==> z in more
    ensures KeptOutside(a, b, more, protoOutDir)
  {
    forall q | !IsPrefix(q, protoOutDir) && (forall z :: z in more ==> Unrelated(q, z))
      ensures SameAt(a, b, q)
    {
    }
  }

  /** Two steps in a row keep what both keep. */
  lemma KeptChain(a: Node, b: Node, c: Node, first: seq<Path>, second: seq<Path>, zones: seq<Path>, protoOutDir: Path)
    requires KeptOutside(a, b, first, protoOutDir) && KeptOutside(b, c, second, protoOutDir)
    requires forall z :: z in first ==> z in zones
    requires forall z :: z in second ==> z in zones
    ensures KeptOutside(a, c, zones, protoOutDir)
  {
    forall q | !IsPrefix(q, protoOutDir) && (forall z :: z in zones ==> Unrelated(q, z))
      ensures SameAt(a, c, q)
    {
      assert SameAt(a, b, q) && SameAt(b, c, q);
    }
  }

  /** A zone may be replaced by a directory above it. */
  lemma KeptWithin(a: Node, b: Node, inner: Path, outer: Path, rest: seq<Path>, protoOutDir: Path)
    requires KeptOutside(a, b, [inner] + rest, protoOutDir) && IsPrefix(outer, inner)
    ensures KeptOutside(a, b, [outer] + rest, protoOutDir)
  {
    forall q | !IsPrefix(q, protoOutDir) && (forall z :: z in [outer] + rest ==> Unrelated(q, z))
      ensures SameAt(a, b, q)
    {
      assert outer in [outer] + rest;
      assert inner == outer + inner[|outer|..];
      UnrelatedExtend(q, outer, [], inner[|outer|..]);
      assert q + [] == q;
      forall z | z in [inner] + rest
        ensures Unrelated(q, z)
      {
        if z != inner {
          assert z in [outer] + rest;
        }
      }
    }
  }

  /**
   * The last steps of the `try` block: create the output directory, assemble
   * the package from the generated files, copy the proto sources.
   */
  method Publish(fs: FileSystem, target: Target, outputDir: Path, assembleOk: bool, tmp: Path,
                 protoFiles: seq<Path>, generatedFiles: seq<Path>)
    returns (outcome: Outcome<BundleError>, trace: seq<Stage>)
    requires fs.Valid()
    modifies fs
    ensures fs.Valid()
    ensures 1 <= |trace| <= 3 && forall i :: 0 <= i < |trace| ==> StageIndex(trace[i]) == i + 2
    ensures outcome.Pass? ==> |trace| == 3
    ensures outcome.Fail? ==> FailedStage(outcome.error) == |trace| + 1 && outcome.error != TempDirFailed
    ensures Observed(outcome, trace, fs.root) == PublishResult(old(fs.root), target, outputDir, assembleOk, tmp, protoFiles, generatedFiles)
    ensures KeptOutside(old(fs.root), fs.root, CopyDests(tmp + ["proto"], outputDir + ["proto"], protoFiles), outputDir + ["proto"])
    ensures trace[0] == MakingOutput(outputDir)
    ensures |trace| > 1 ==> trace[1] == Assembling(target, outputDir, tmp + ["generated"], generatedFiles)
    ensures |trace| > 2 ==> trace[2] == CopyingSources(tmp + ["proto"], outputDir + ["proto"])
    ensures forall q :: (IsFileAt(old(fs.root), q) &&
      (|trace| == 3 ==> q !in CopyDests(tmp + ["proto"], outputDir + ["proto"], protoFiles))) ==>
        Lookup(fs.root, q) == Lookup(old(fs.root), q)
    ensures outcome.Pass? ==> forall k :: 0 <= k < |protoFiles| ==>
      IsFileAt(fs.root, CopyDests(tmp + ["proto"], outputDir + ["proto"], protoFiles)[k])
    ensures (outcome.Pass? && Apart(protoFiles, CopyDests(tmp + ["proto"], outputDir + ["proto"], protoFiles), outputDir + ["proto"])
      && forall k :: 0 <= k < |protoFiles| ==> !IsPrefix(protoFiles[k], outputDir)) ==>
      forall k :: 0 <= k < |protoFiles| ==>
        Lookup(fs.root, CopyDests(tmp + ["proto"], outputDir + ["proto"], protoFiles)[k]) == Lookup(old(fs.root), protoFiles[k])
  {
    var dests := CopyDests(tmp + ["proto"], outputDir + ["proto"], protoFiles);
    trace := [MakingOutput(outputDir)];
    var made := fs.MkdirP(outputDir);
    KeptAbove(old(fs.root), fs.root, outputDir, dests, outputDir + ["proto"]);
    if !made {
      return Fail(OutputDirFailed(outputDir)), trace;
    }
    trace := trace + [Assembling(target, outputDir, tmp + ["generated"], generatedFiles)];
    if !assembleOk {
      return Fail(AssembleFailed), trace;
    }
    trace := trace + [CopyingSources(tmp + ["proto"], outputDir + ["proto"])];
    ghost var m := fs.root;
    var copied := CopyProtos(fs, protoFiles, tmp + ["proto"], outputDir + ["proto"]);
    KeptChain(old(fs.root), m, fs.root, dests, dests, dests, outputDir + ["proto"]);
    if !copied {
      return Fail(CopyFailed), trace;
    }
    return Pass, trace;
  }

  /**
   * The fetch step as the command calls it (`fetchProtos` with `tmp` as its
   * output directory): the listed files lie below `tmp/proto` and hold what
   * the clone holds, and nothing outside `tmp` changes.
   */
  method FetchStep(fs: FileSystem, repo: string, tmp: Path, clone: Option<seq<Entry>>)
    returns (fetched: Result<seq<Path>, FetchError>)
    requires fs.Valid()
    modifies fs
    ensures fs.Valid()
    ensures fetched == FetchResult(old(fs.root), repo, tmp, clone)
    ensures fetched.Ok? ==> fs.root == Cloned(old(fs.root), tmp, clone.value)
    ensures fetched.Ok? ==> clone.Some? && fetched.value != [] && forall k :: 0 <= k < |fetched.value| ==>
      IsPrefix(tmp + ["proto"], fetched.value[k]) && |fetched.value[k]| > |tmp| + 1 &&
      Lookup(fs.root, fetched.value[k]) == Lookup(Dir(clone.value), fetched.value[k][|tmp| + 1..])
    ensures fetched.Ok? && WellFormed(Dir(clone.value)) ==> forall k :: 0 <= k < |fetched.value| ==>
      IsFileAt(Dir(clone.value), fetched.value[k][|tmp| + 1..])
    ensures forall q :: Unrelated(q, tmp) ==> Lookup(fs.root, q) == Lookup(old(fs.root), q)
    ensures forall q :: IsFileAt(old(fs.root), q) && !IsPrefix(tmp, q) ==> Lookup(fs.root, q) == Lookup(old(fs.root), q)
  {
    fetched := FetchProtos.FetchProtos(fs, repo, tmp, clone);
    forall q | Unrelated(q, tmp)
      ensures Unrelated(q, tmp + ["proto"])
    {
      UnrelatedExtend(q, tmp, [], ["proto"]);
      assert q + [] == q;
    }
    forall q | IsFileAt(old(fs.root), q) && !IsPrefix(tmp, q)
      ensures !IsPrefix(tmp + ["proto"], q)
    {
    }
    if fetched.Ok? {
      forall k | 0 <= k < |fetched.value|
        ensures fetched.value[k] in fetched.value
      {
      }
    }
  }

  /**
   * The compile step as the command calls it (`runProtoc` with `tmp` as its
   * output directory): it only writes below `tmp/generated`.
   */
  method CompileStep(fs: FileSystem, target: Target, tools: Tools, tmp: Path, protoFiles: seq<Path>)
    returns (generated: Result<seq<Path>, ProtocError>)
    requires fs.Valid()
    modifies fs
    ensures fs.Valid()
    ensures generated == RunResult(old(fs.root), tools.cwd, target, tmp, tools.which, tools.protoc)
    ensures generated.Ok? ==> fs.root == Generated(old(fs.root), tmp, tools.protoc)
    ensures generated.Ok? ==> forall p :: p in generated.value ==> IsPrefix(tmp + ["generated"], p)
    ensures forall q :: Unrelated(q, tmp) ==> Lookup(fs.root, q) == Lookup(old(fs.root), q)
    ensures forall q :: Unrelated(q, tmp + ["generated"]) ==> Lookup(fs.root, q) == Lookup(old(fs.root), q)
    ensures forall q :: IsFileAt(old(fs.root), q) && !IsPrefix(tmp, q) ==>
      IsFileAt(fs.root, q) && Lookup(fs.root, q) == Lookup(old(fs.root), q)
  {
    var argv;
    generated, argv := RunProtoc.RunProtoc(fs, tools.cwd, target, protoFiles, tmp + ["proto"], tmp, tools.which, tools.protoc);
    forall q | Unrelated(q, tmp)
      ensures Unrelated(q, tmp + ["generated"])
    {
      UnrelatedExtend(q, tmp, [], ["generated"]);
      assert q + [] == q;
    }
    forall q | IsFileAt(old(fs.root), q) && !IsPrefix(tmp, q)
      ensures !IsPrefix(tmp + ["generated"], q)
    {
    }
  }

  /** The steps from compiling on: compile in `tmp`, then publish. */
  method Build(fs: FileSystem, target: Target, outputDir: Path, tools: Tools, tmp: Path, protoFiles: seq<Path>)
    returns (outcome: Outcome<BundleError>, trace: seq<Stage>)
    requires fs.Valid()
    modifies fs
    ensures fs.Valid()
    ensures Observed(outcome, trace, fs.root) == BuildResult(old(fs.root), target, outputDir, tools, tmp, protoFiles)
    ensures 1 <= |trace| <= 4 && forall i :: 0 <= i < |trace| ==> StageIndex(trace[i]) == i + 1
    ensures outcome.Pass? ==> |trace| == 4
    ensures outcome.Fail? ==> FailedStage(outcome.error) == |trace| && outcome.error != TempDirFailed
    ensures trace[0] == Compiling(target, protoFiles, tmp + ["proto"], tmp)
    ensures |trace| > 1 ==> trace[1] == MakingOutput(outputDir)
    ensures |trace| > 2 ==> trace[2].Assembling? && trace[2] == Assembling(target, outputDir, tmp + ["generated"], trace[2].generatedFiles)
    ensures |trace| > 3 ==> trace[3] == CopyingSources(tmp + ["proto"], outputDir + ["proto"])
    ensures KeptOutside(old(fs.root), fs.root, [tmp + ["generated"]] + CopyDests(tmp + ["proto"], outputDir + ["proto"], protoFiles),
                        outputDir + ["proto"])
    ensures |trace| == 1 ==> forall q :: Unrelated(q, tmp) ==> Lookup(fs.root, q) == Lookup(old(fs.root), q)
    ensures forall q :: (IsFileAt(old(fs.root), q) && !IsPrefix(tmp, q) &&
      (|trace| == 4 ==> q !in CopyDests(tmp + ["proto"], outputDir + ["proto"], protoFiles))) ==>
        Lookup(fs.root, q) == Lookup(old(fs.root), q)
    ensures outcome.Pass? ==> forall k :: 0 <= k < |protoFiles| ==>
      IsFileAt(fs.root, CopyDests(tmp + ["proto"], outputDir + ["proto"], protoFiles)[k])
    ensures (outcome.Pass? && Apart(protoFiles, CopyDests(tmp + ["proto"], outputDir + ["proto"], protoFiles), outputDir + ["proto"])
      && forall k :: 0 <= k < |protoFiles| ==> Unrelated(protoFiles[k], outputDir) && Unrelated(protoFiles[k], tmp + ["generated"])) ==>
      forall k :: 0 <= k < |protoFiles| ==>
        Lookup(fs.root, CopyDests(tmp + ["proto"], outputDir + ["proto"], protoFiles)[k]) == Lookup(old(fs.root), protoFiles[k])
  {
    var gen, dests := tmp + ["generated"], CopyDests(tmp + ["proto"], outputDir + ["proto"], protoFiles);
    trace := [Compiling(target, protoFiles, tmp + ["proto"], tmp)];
    var generated := CompileStep(fs, target, tools, tmp, protoFiles);
    KeptApart(old(fs.root), fs.root, gen, outputDir + ["proto"]);
    if generated.Err? {
      KeptWider(old(fs.root), fs.root, [gen], [gen] + dests, outputDir + ["proto"]);
      return Fail(CompileFailed(generated.error)), trace;
    }
    ghost var compiled := fs.root;
    var rest;
    outcome, rest := Publish(fs, target, outputDir, tools.assembleOk, tmp, protoFiles, generated.value);
    trace := trace + rest;
    KeptChain(old(fs.root), compiled, fs.root, [gen], dests, [gen] + dests, outputDir + ["proto"]);
  }

  /**
   * The `try` block of `bundleCommand`, run in the temporary directory `tmp`:
   * fetch, compile, create the output directory, assemble, copy. `trace` lists
   * the steps started, in order; the first failure ends the block.
   */
  method RunSteps(fs: FileSystem, repo: string, target: Target, outputDir: Path, tools: Tools, tmp: Path)
    returns (outcome: Outcome<BundleError>, trace: seq<Stage>)
    requires fs.Valid()
    modifies fs
    ensures fs.Valid()
    ensures Observed(outcome, trace, fs.root) == StepsResult(old(fs.root), repo, target, outputDir, tools, tmp)
    ensures 1 <= |trace| <= 5 && forall i :: 0 <= i < |trace| ==> StageIndex(trace[i]) == i
    ensures outcome.Pass? ==> |trace| == 5
    ensures outcome.Fail? ==> FailedStage(outcome.error) == |trace| - 1 && outcome.error != TempDirFailed
    ensures trace[0] == Fetching(repo, tmp)
    ensures |trace| > 1 ==>
      trace[1].Compiling? && trace[1] == Compiling(target, trace[1].protoFiles, tmp + ["proto"], tmp) && tools.clone.Some? &&
      trace[1].protoFiles != [] &&
      forall k :: 0 <= k < |trace[1].protoFiles| ==>
        IsPrefix(tmp + ["proto"], trace[1].protoFiles[k]) && |trace[1].protoFiles[k]| > |tmp| + 1
    ensures |trace| > 2 ==> trace[2] == MakingOutput(outputDir)
    ensures |trace| > 3 ==>
      trace[3].Assembling? && trace[3] == Assembling(target, outputDir, tmp + ["generated"], trace[3].generatedFiles)
    ensures |trace| > 4 ==> trace[4] == CopyingSources(tmp + ["proto"], outputDir + ["proto"])
    ensures KeptOutside(old(fs.root), fs.root, [tmp] + CopyTargets(trace, outputDir), outputDir + ["proto"])
    ensures |trace| <= 2 ==> forall q :: Unrelated(q, tmp) ==> Lookup(fs.root, q) == Lookup(old(fs.root), q)
    ensures forall q ::
      (IsFileAt(old(fs.root), q) && !IsPrefix(tmp, q) &&
       (|trace| == 5 ==> q !in CopyDests(tmp + ["proto"], outputDir + ["proto"], trace[1].protoFiles))) ==>
        Lookup(fs.root, q) == Lookup(old(fs.root), q)
    ensures outcome.Pass? && Unrelated(tmp, outputDir) && WellFormed(Dir(tools.clone.value)) ==>
      Published(fs.root, outputDir, trace[1].protoFiles, |tmp| + 1, tools.clone.value)
  {
    trace := [Fetching(repo, tmp)];
    var fetched := FetchStep(fs, repo, tmp, tools.clone);
    KeptApart(old(fs.root), fs.root, tmp, outputDir + ["proto"]);
    if fetched.Err? {
      assert [tmp] + CopyTargets(trace, outputDir) == [tmp];
      return Fail(FetchFailed(fetched.error)), trace;
    }
    var protoFiles := fetched.value;
    ghost var cloned := fs.root;
    var rest;
    outcome, rest := Build(fs, target, outputDir, tools, tmp, protoFiles);
    trace := trace + rest;
    assert trace[1..] == rest;
    forall i | 1 <= i < |trace|
      ensures StageIndex(trace[i]) == i
    {
      assert trace[i] == rest[i - 1];
    }
    ghost var dests := CopyDests(tmp + ["proto"], outputDir + ["proto"], protoFiles);
    assert CopyTargets(trace, outputDir) == dests;
    KeptWithin(cloned, fs.root, tmp + ["generated"], tmp, dests, outputDir + ["proto"]);
    KeptChain(old(fs.root), cloned, fs.root, [tmp], [tmp] + dests, [tmp] + dests, outputDir + ["proto"]);
    forall q | IsFileAt(old(fs.root), q) && !IsPrefix(tmp, q) && (|trace| == 5 ==> q !in dests)
      ensures Lookup(fs.root, q) == Lookup(old(fs.root), q)
    {
      assert Lookup(cloned, q) == Lookup(old(fs.root), q);
    }
    if outcome.Pass? && Unrelated(tmp, outputDir) && WellFormed(Dir(tools.clone.value)) {
      PublishedFromCopy(fs.root, cloned, protoFiles, tmp, outputDir, tools.clone.value);
    }
  }

  /**
   * The copy of a well-formed clone's proto files, fetched into `tmp`, publishes
   * them: `n` holds each at its place below `outputDir/proto`.
   */
  lemma PublishedFromCopy(n: Node, cloned: Node, protoFiles: seq<Path>, tmp: Path, outputDir: Path, clone: seq<Entry>)
    requires Unrelated(tmp, outputDir) && WellFormed(Dir(clone))
    requires forall k :: 0 <= k < |protoFiles| ==>
      IsPrefix(tmp + ["proto"], protoFiles[k]) && |protoFiles[k]| > |tmp| + 1 &&
      Lookup(cloned, protoFiles[k]) == Lookup(Dir(clone), protoFiles[k][|tmp| + 1..])
    requires forall k :: 0 <= k < |protoFiles| ==> IsFileAt(Dir(clone), protoFiles[k][|tmp| + 1..])
    requires forall k :: 0 <= k < |protoFiles| ==> IsFileAt(n, CopyDests(tmp + ["proto"], outputDir + ["proto"], protoFiles)[k])
    requires (Apart(protoFiles, CopyDests(tmp + ["proto"], outputDir + ["proto"], protoFiles), outputDir + ["proto"])
      && forall k :: 0 <= k < |protoFiles| ==> Unrelated(protoFiles[k], outputDir) && Unrelated(protoFiles[k], tmp + ["generated"])) ==>
      forall k :: 0 <= k < |protoFiles| ==>
        Lookup(n, CopyDests(tmp + ["proto"], outputDir + ["proto"], protoFiles)[k]) == Lookup(cloned, protoFiles[k])
    ensures Published(n, outputDir, protoFiles, |tmp| + 1, clone)
  {
    CopyPlan(protoFiles, tmp, outputDir, clone);
  }

  /**
   * After a successful run, each proto file of the clone (`files`, with the
   * clone-root prefix of length `from`) sits at the same relative place below
   * `outputDir/proto`, holding the clone's content.
   */
  ghost predicate Published(n: Node, outputDir: Path, files: seq<Path>, from: nat, clone: seq<Entry>) {
    forall k :: 0 <= k < |files| && from <= |files[k]| ==>
      IsFileAt(n, outputDir + ["proto"] + files[k][from..]) &&
      Lookup(n, outputDir + ["proto"] + files[k][from..]) == Lookup(Dir(clone), files[k][from..])
  }

  /** Removing the temporary directory leaves the published copies in place. */
  lemma PublishedKept(ran: Node, after: Node, tmp: Path, outputDir: Path, files: seq<Path>, clone: seq<Entry>)
    requires Published(ran, outputDir, files, |tmp| + 1, clone) && Unrelated(tmp, outputDir)
    requires forall q :: Unrelated(q, tmp) ==> Lookup(after, q) == Lookup(ran, q)
    ensures Published(after, outputDir, files, |tmp| + 1, clone)
  {
    forall k | 0 <= k < |files| && |tmp| + 1 <= |files[k]|
      ensures Unrelated(outputDir + ["proto"] + files[k][|tmp| + 1..], tmp)
    {
      BelowApart(tmp, outputDir, tmp, outputDir + ["proto"] + files[k][|tmp| + 1..]);
    }
  }

  /**
   * The `try`/`finally` of `bundleCommand`: run the steps in `tmp`, then
   * remove `tmp` whatever happened. A failed removal is only a warning and
   * does not change the outcome; `rmOk` says whether the removal succeeds.
   */
  method InTempDir(fs: FileSystem, repo: string, target: Target, outputDir: Path, tools: Tools, tmp: Path, rmOk: bool)
    returns (outcome: Outcome<BundleError>, trace: seq<Stage>, warned: bool)
    requires fs.Valid() && tmp != []
    modifies fs
    ensures fs.Valid()
    ensures warned == !rmOk
    ensures var r := StepsResult(old(fs.root), repo, target, outputDir, tools, tmp);
      && outcome == r.outcome && trace == r.trace
      && (outcome.Pass? ==> r.disk.Some? && fs.root == if rmOk then Delete(r.disk.value, tmp) else r.disk.value)
    ensures 1 <= |trace| <= 5 && trace[0] == Fetching(repo, tmp) && forall i :: 0 <= i < |trace| ==> StageIndex(trace[i]) == i
    ensures outcome.Pass? ==> |trace| == 5
    ensures outcome.Fail? ==> FailedStage(outcome.error) == |trace| - 1 && outcome.error != TempDirFailed
    ensures |trace| > 1 ==>
      trace[1].Compiling? && trace[1].protoDir == tmp + ["proto"] && tools.clone.Some? &&
      forall k :: 0 <= k < |trace[1].protoFiles| ==>
        IsPrefix(tmp + ["proto"], trace[1].protoFiles[k]) && |trace[1].protoFiles[k]| > |tmp| + 1
    ensures |trace| > 4 ==> trace[4] == CopyingSources(tmp + ["proto"], outputDir + ["proto"])
    ensures KeptOutside(old(fs.root), fs.root, [tmp] + CopyTargets(trace, outputDir), outputDir + ["proto"])
    ensures |trace| <= 2 ==> forall q :: Unrelated(q, tmp) ==> Lookup(fs.root, q) == Lookup(old(fs.root), q)
    ensures rmOk ==> forall q :: IsPrefix(tmp, q) ==> !Exists(fs.root, q)
    ensures forall q :: (IsFileAt(old(fs.root), q) && !IsPrefix(tmp, q) &&
      (|trace| == 5 ==> q !in CopyDests(tmp + ["proto"], outputDir + ["proto"], trace[1].protoFiles))) ==>
        Lookup(fs.root, q) == Lookup(old(fs.root), q)
    ensures (outcome.Pass? && Unrelated(tmp, outputDir) && WellFormed(Dir(tools.clone.value))) ==>
      Published(fs.root, outputDir, trace[1].protoFiles, |tmp| + 1, tools.clone.value)
  {
    outcome, trace := RunSteps(fs, repo, target, outputDir, tools, tmp);
    ghost var ran := fs.root;
    var removed := fs.Remove(tmp, rmOk);
    warned := !removed;
    forall q | Unrelated(q, tmp)
      ensures Lookup(fs.root, q) == Lookup(ran, q)
    {
    }
    forall q | IsFileAt(ran, q) && !IsPrefix(tmp, q)
      ensures Lookup(fs.root, q) == Lookup(ran, q)
    {
    }
    KeptApart(ran, fs.root, tmp, outputDir + ["proto"]);
    KeptChain(old(fs.root), ran, fs.root, [tmp] + CopyTargets(trace, outputDir), [tmp], [tmp] + CopyTargets(trace, outputDir),
              outputDir + ["proto"]);
    if outcome.Pass? && Unrelated(tmp, outputDir) && WellFormed(Dir(tools.clone.value)) {
      PublishedKept(ran, fs.root, tmp, outputDir, trace[1].protoFiles, tools.clone.value);
    }
  }

  /**
   * `bundleCommand`: create a fresh temporary directory `tmpRoot/tmpName`
   * (`tmpName` is "protobuf-bundler-" followed by the random characters); when
   * that fails the command fails before any step starts and removes nothing.
   * Since the directory is new, removing it afterwards touches no file that
   * was there before.
   */
  method BundleCommand(fs: FileSystem, repo: string, target: Target, outputDir: Path, tools: Tools,
                       tmpRoot: Path, tmpName: Name, rmOk: bool)
    returns (outcome: Outcome<BundleError>, trace: seq<Stage>, warned: bool)
    requires fs.Valid()
    modifies fs
    ensures fs.Valid()
    ensures var tmp := tmpRoot + [tmpName];
      var r := StepsResult(Put(old(fs.root), tmp, Dir([])), repo, target, outputDir, tools, tmp);
      IsDirAt(old(fs.root), tmpRoot) && !Exists(old(fs.root), tmp) ==>
        && outcome == r.outcome && trace == r.trace
        && (outcome.Pass? ==> r.disk.Some? && fs.root == if rmOk then Delete(r.disk.value, tmp) else r.disk.value)
    ensures forall i :: 0 <= i < |trace| ==> StageIndex(trace[i]) == i
    ensures outcome.Pass? ==> |trace| == 5
    ensures outcome.Fail? && trace != [] ==> FailedStage(outcome.error) == |trace| - 1
    ensures |trace| > 1 ==>
      trace[1].Compiling? && trace[1].protoDir == tmpRoot + [tmpName, "proto"] && tools.clone.Some? &&
      forall k :: 0 <= k < |trace[1].protoFiles| ==>
        IsPrefix(trace[1].protoDir, trace[1].protoFiles[k]) && |trace[1].protoFiles[k]| > |tmpRoot| + 2
    ensures |trace| > 4 ==> trace[4] == CopyingSources(trace[1].protoDir, outputDir + ["proto"])
    ensures var tmp := tmpRoot + [tmpName];
      var plugin := PluginFor(target);
      trace != [] ==>
        && (|trace| == 1 <==> tools.clone.None? || ProtoFiles(tools.clone.value, tmp + ["proto"]) == [])
        && (|trace| > 1 ==> trace[1].protoFiles == ProtoFiles(tools.clone.value, tmp + ["proto"]))
        && (|trace| > 1 && Unrelated(tmp, tools.cwd + ["node_modules"]) ==>
              (|trace| == 2 <==>
                 PluginBinary(old(fs.root), tools.cwd, plugin.bin, plugin.pkg, tools.which).Err? || tools.protoc.status != 0))
        && (|trace| > 2 && Unrelated(tmp, outputDir) ==> (|trace| == 3 <==> Mkdirs(old(fs.root), outputDir).None?))
        && (|trace| > 3 ==> (|trace| == 4 <==> !tools.assembleOk))
        && (|trace| == 5 && Unrelated(tmp, outputDir) && WellFormed(Dir(tools.clone.value)) &&
            ClearBelow(old(fs.root), outputDir, CopyDests(tmp + ["proto"], outputDir + ["proto"], trace[1].protoFiles)) ==>
              outcome.Pass?)
    ensures var tmp := tmpRoot + [tmpName];
      var created := IsDirAt(old(fs.root), tmpRoot) && !Exists(old(fs.root), tmp);
      && (!created ==> outcome == Fail(TempDirFailed) && trace == [] && !warned && fs.root == old(fs.root))
      && (created ==> 1 <= |trace| <= 5 && trace[0] == Fetching(repo, tmp) && outcome != Fail(TempDirFailed))
      && (warned <==> created && !rmOk)
      && (created && rmOk ==> forall q :: IsPrefix(tmp, q) ==> !Exists(fs.root, q))
    ensures KeptOutside(old(fs.root), fs.root, [tmpRoot + [tmpName]] + CopyTargets(trace, outputDir), outputDir + ["proto"])
    ensures |trace| <= 2 ==> forall q :: Unrelated(q, tmpRoot + [tmpName]) ==> Lookup(fs.root, q) == Lookup(old(fs.root), q)
    ensures forall q :: (IsFileAt(old(fs.root), q) &&
      (|trace| == 5 ==> q !in CopyDests(trace[1].protoDir, outputDir + ["proto"], trace[1].protoFiles))) ==>
        Lookup(fs.root, q) == Lookup(old(fs.root), q)
    ensures (outcome.Pass? && Unrelated(tmpRoot + [tmpName], outputDir) && WellFormed(Dir(tools.clone.value))) ==>
      Published(fs.root, outputDir, trace[1].protoFiles, |tmpRoot| + 2, tools.clone.value)
  {
    var tmp := tmpRoot + [tmpName];
    var created := fs.Mkdtemp(tmpRoot, tmpName);
    if !created {
      return Fail(TempDirFailed), [], false;
    }
    ghost var made := fs.root;
    forall q | IsFileAt(old(fs.root), q)
      ensures !IsPrefix(tmp, q) && IsFileAt(made, q) && Lookup(made, q) == Lookup(old(fs.root), q)
    {
      if IsPrefix(tmp, q) {
        MissingBelow(old(fs.root), tmp, q);
      } else {
        assert Parent(tmp) == tmpRoot;
        PutKeepsFiles(old(fs.root), tmp, Dir([]), q);
      }
    }
    assert tmp + ["proto"] == tmpRoot + [tmpName, "proto"];
    assert Parent(tmp) == tmpRoot;
    StepsAfterMkdtemp(old(fs.root), repo, target, outputDir, tools, tmp);
    KeptApart(old(fs.root), made, tmp, outputDir + ["proto"]);
    outcome, trace, warned := InTempDir(fs, repo, target, outputDir, tools, tmp, rmOk);
    KeptChain(old(fs.root), made, fs.root, [tmp], [tmp] + CopyTargets(trace, outputDir), [tmp] + CopyTargets(trace, outputDir),
              outputDir + ["proto"]);
  }

  // ---------------------------------------------------------------------------
  // The command in a fresh temporary directory

  /**
   * `now` differs from `start` only inside the temporary directory `tmp`,
   * which exists, as does every directory above it.
   */
  ghost predicate OnlyTmpChanged(start: Node, now: Node, tmp: Path) {
    && now.Dir?
    && (forall q :: Unrelated(q, tmp) ==> Lookup(now, q) == Lookup(start, q))
    && (forall q :: IsPrefix(q, tmp) ==> IsDirAt(now, q))
  }

  /** A temporary directory just made in `n0` is empty, and nothing else changed. */
  lemma FreshTmp(n0: Node, tmp: Path)
    requires n0.Dir? && CanPlace(n0, tmp) && !Exists(n0, tmp)
    ensures OnlyTmpChanged(n0, Put(n0, tmp, Dir([])), tmp)
    ensures forall x :: !Exists(Put(n0, tmp, Dir([])), tmp + [x])
  {
    var n := Put(n0, tmp, Dir([]));
    PutNewDir(n0, tmp);
    PutAt(n0, tmp, Dir([]));
    forall x
      ensures !Exists(n, tmp + [x])
    {
      LookupConcat(n, tmp, [x]);
    }
    forall q | IsPrefix(q, tmp)
      ensures IsDirAt(n, q)
    {
      if q != tmp {
        LookupPrefixIsDir(n, q, tmp);
      }
    }
  }

  /**
   * Creating a new entry `name` in the temporary directory and placing `v`
   * there, as the clone and the compiler do: it can be created, `v` appears
   * there, and nothing apart from it changes.
   */
  lemma PlaceInTmp(n0: Node, n: Node, tmp: Path, name: Name, v: Node)
    requires OnlyTmpChanged(n0, n, tmp) && !Exists(n, tmp + [name])
    ensures Mkdirs(n, tmp + [name]).Some?
    ensures var t := Put(Mkdirs(n, tmp + [name]).value, tmp + [name], v);
      && OnlyTmpChanged(n0, t, tmp)
      && (forall q :: Unrelated(q, tmp + [name]) ==> Lookup(t, q) == Lookup(n, q))
      && (forall q :: IsPrefix(tmp + [name], q) ==> Lookup(t, q) == Lookup(v, q[|tmp| + 1..]))
  {
    var dir := tmp + [name];
    forall j | 0 < j <= |dir|
      ensures !IsFileAt(n, dir[..j])
    {
      if j <= |tmp| {
        assert IsPrefix(dir[..j], tmp);
      } else {
        assert dir[..j] == dir;
      }
    }
    MkdirsSpec(n, dir);
    var m := Mkdirs(n, dir).value;
    var t := Put(m, dir, v);
    forall q | Unrelated(q, dir)
      ensures Lookup(t, q) == Lookup(n, q)
    {
      PutElsewhere(m, dir, v, q);
    }
    forall q | Unrelated(q, tmp)
      ensures Lookup(t, q) == Lookup(n0, q)
    {
      BelowApart(tmp, q, dir, q);
    }
    forall q | IsPrefix(q, tmp)
      ensures IsDirAt(t, q)
    {
      assert q == dir[..|q|];
      PutKeepsAncestors(m, dir, v, q);
    }
    assert dir[..|tmp|] == tmp == Parent(dir);
    forall q | IsPrefix(dir, q)
      ensures Lookup(t, q) == Lookup(v, q[|tmp| + 1..])
    {
      PutBelow(m, dir, v, q);
    }
  }

  /** `tmp/proto` and `tmp/generated` lie apart. */
  lemma ProtoApartGenerated(tmp: Path)
    ensures Unrelated(tmp + ["proto"], tmp + ["generated"])
  {
    assert (tmp + ["proto"])[|tmp|] != (tmp + ["generated"])[|tmp|];
  }

  /**
   * Cloning into a temporary directory just made in `n0`: `tmp/proto` can be
   * created, the clone appears there, and nothing else changes.
   */
  lemma FreshFetch(n0: Node, tmp: Path, clone: seq<Entry>)
    requires n0.Dir? && CanPlace(n0, tmp) && !Exists(n0, tmp)
    ensures Mkdirs(Put(n0, tmp, Dir([])), tmp + ["proto"]).Some?
    ensures var f := Cloned(Put(n0, tmp, Dir([])), tmp, clone);
      && OnlyTmpChanged(n0, f, tmp)
      && !Exists(f, tmp + ["generated"])
      && forall q :: IsPrefix(tmp + ["proto"], q) ==> Lookup(f, q) == Lookup(Dir(clone), q[|tmp| + 1..])
  {
    var n := Put(n0, tmp, Dir([]));
    FreshTmp(n0, tmp);
    assert !Exists(n, tmp + ["proto"]) && !Exists(n, tmp + ["generated"]);
    PlaceInTmp(n0, n, tmp, "proto", Dir(clone));
    ProtoApartGenerated(tmp);
  }

  /**
   * Compiling in that directory: `tmp/generated` can be created, the compiler's
   * output appears there, and the clone and everything outside `tmp` stay.
   */
  lemma FreshCompile(n0: Node, f: Node, tmp: Path, protoc: ProtocRun)
    requires OnlyTmpChanged(n0, f, tmp) && !Exists(f, tmp + ["generated"])
    ensures Mkdirs(f, tmp + ["generated"]).Some?
    ensures var c := Generated(f, tmp, protoc);
      && OnlyTmpChanged(n0, c, tmp)
      && forall q :: IsPrefix(tmp + ["proto"], q) ==> Lookup(c, q) == Lookup(f, q)
  {
    PlaceInTmp(n0, f, tmp, "generated", Dir(protoc.emitted));
    ProtoApartGenerated(tmp);
    forall q | IsPrefix(tmp + ["proto"], q)
      ensures Unrelated(q, tmp + ["generated"])
    {
      BelowApart(tmp + ["proto"], tmp + ["generated"], q, tmp + ["generated"]);
    }
  }

  /** The plugin search looks only below `node_modules`, so a change confined to `tmp` does not affect it. */
  lemma PluginAgree(n0: Node, f: Node, tmp: Path, cwd: Path, target: Target, which: Option<string>)
    requires OnlyTmpChanged(n0, f, tmp) && Unrelated(tmp, cwd + ["node_modules"])
    ensures var plugin := PluginFor(target);
      PluginBinary(f, cwd, plugin.bin, plugin.pkg, which) == PluginBinary(n0, cwd, plugin.bin, plugin.pkg, which)
  {
    var plugin := PluginFor(target);
    var paths := PluginPaths(cwd, plugin.bin, plugin.pkg);
    forall k | 0 <= k < |paths|
      ensures Exists(f, paths[k]) <==> Exists(n0, paths[k])
    {
      assert paths[k][..|cwd| + 1] == cwd + ["node_modules"];
      BelowApart(tmp, cwd + ["node_modules"], tmp, paths[k]);
    }
    FirstExistingAgree(f, n0, paths);
  }

  /**
   * Creating an output directory apart from `tmp` succeeds or fails as it
   * would have before `tmp` was made; below the output directory the tree is
   * the one before.
   */
  lemma OutputAfterTmp(n0: Node, c: Node, tmp: Path, outputDir: Path)
    requires n0.Dir? && CanPlace(n0, tmp) && OnlyTmpChanged(n0, c, tmp) && Unrelated(tmp, outputDir)
    ensures Mkdirs(c, outputDir).Some? <==> Mkdirs(n0, outputDir).Some?
    ensures Mkdirs(c, outputDir).Some? ==> forall q :: IsPrefix(outputDir, q) && q != outputDir ==>
      Lookup(Mkdirs(c, outputDir).value, q) == Lookup(n0, q)
  {
    forall j | 0 < j <= |outputDir|
      ensures IsFileAt(c, outputDir[..j]) <==> IsFileAt(n0, outputDir[..j])
    {
      var q := outputDir[..j];
      assert IsPrefix(tmp, q) ==> IsPrefix(tmp, outputDir);
      if IsPrefix(q, tmp) {
        assert IsPrefix(q, Parent(tmp));
        if q != Parent(tmp) {
          LookupPrefixIsDir(n0, q, Parent(tmp));
        }
      }
    }
    MkdirsAgree(c, n0, outputDir);
    if Mkdirs(c, outputDir).Some? {
      MkdirsSpec(c, outputDir);
      forall q | IsPrefix(outputDir, q) && q != outputDir
        ensures Lookup(Mkdirs(c, outputDir).value, q) == Lookup(n0, q)
      {
        BelowApart(outputDir, tmp, q, tmp);
      }
    }
  }

  /**
   * The copy of a well-formed clone from `tmp/proto` succeeds when nothing in
   * the way below the output directory was there before the command.
   */
  lemma FreshCopy(n0: Node, c: Node, tmp: Path, outputDir: Path, clone: seq<Entry>)
    requires c.Dir? && Unrelated(tmp, outputDir) && WellFormed(Dir(clone))
    requires ProtoFiles(clone, tmp + ["proto"]) != []
    requires forall q :: IsPrefix(tmp + ["proto"], q) ==> Lookup(c, q) == Lookup(Dir(clone), q[|tmp| + 1..])
    requires Mkdirs(c, outputDir).Some?
    requires forall q :: IsPrefix(outputDir, q) && q != outputDir ==> Lookup(Mkdirs(c, outputDir).value, q) == Lookup(n0, q)
    requires ClearBelow(n0, outputDir, CopyDests(tmp + ["proto"], outputDir + ["proto"], ProtoFiles(clone, tmp + ["proto"])))
    ensures CopyAll(Mkdirs(c, outputDir).value, ProtoFiles(clone, tmp + ["proto"]), tmp + ["proto"], outputDir + ["proto"]).Some?
  {
    var protoDir, protoOutDir := tmp + ["proto"], outputDir + ["proto"];
    var protoFiles := ProtoFiles(clone, protoDir);
    var dests := CopyDests(protoDir, protoOutDir, protoFiles);
    var m := Mkdirs(c, outputDir).value;
    MkdirsSpec(c, outputDir);
    CloneCopyPlan(tmp, outputDir, clone);
    forall k | 0 <= k < |protoFiles|
      ensures IsFileAt(m, protoFiles[k])
    {
      MkdirsFiles(c, outputDir, protoFiles[k]);
    }
    ClearAfterOutput(n0, m, outputDir, dests);
    CloneDestsApart(tmp, outputDir, clone);
    CopyAllSucceeds(m, protoFiles, protoDir, protoOutDir);
  }

  /**
   * The steps run in a temporary directory `tmp` just made in the tree `n0`.
   * Each step starts only when the one before passed, and fails exactly for
   * its own reason, decided on `n0`: the fetch when there is no clone or it
   * holds no `.proto` file; the compile when no plugin is found or the
   * compiler fails; creating the output directory when a file is in its way;
   * the assembly when `generatePackage` fails. For a real directory tree the
   * copy succeeds when nothing was in its way below the output directory.
   * The plugin and output conditions assume those places lie apart from `tmp`.
   */
  lemma StepsAfterMkdtemp(n0: Node, repo: string, target: Target, outputDir: Path, tools: Tools, tmp: Path)
    requires n0.Dir? && CanPlace(n0, tmp) && !Exists(n0, tmp)
    ensures var r := StepsResult(Put(n0, tmp, Dir([])), repo, target, outputDir, tools, tmp);
      && 1 <= |r.trace| <= 5
      && (|r.trace| == 1 <==> tools.clone.None? || ProtoFiles(tools.clone.value, tmp + ["proto"]) == [])
      && (|r.trace| > 1 ==> (tools.clone.Some? && r.trace[1].Compiling? &&
            r.trace[1].protoFiles == ProtoFiles(tools.clone.value, tmp + ["proto"])))
    ensures var r := StepsResult(Put(n0, tmp, Dir([])), repo, target, outputDir, tools, tmp);
      var plugin := PluginFor(target);
      |r.trace| > 1 && Unrelated(tmp, tools.cwd + ["node_modules"]) ==>
        (|r.trace| == 2 <==>
           PluginBinary(n0, tools.cwd, plugin.bin, plugin.pkg, tools.which).Err? || tools.protoc.status != 0)
    ensures var r := StepsResult(Put(n0, tmp, Dir([])), repo, target, outputDir, tools, tmp);
      |r.trace| > 2 && Unrelated(tmp, outputDir) ==> (|r.trace| == 3 <==> Mkdirs(n0, outputDir).None?)
    ensures var r := StepsResult(Put(n0, tmp, Dir([])), repo, target, outputDir, tools, tmp);
      |r.trace| > 3 ==> (|r.trace| == 4 <==> !tools.assembleOk)
    ensures var r := StepsResult(Put(n0, tmp, Dir([])), repo, target, outputDir, tools, tmp);
      (|r.trace| == 5 && Unrelated(tmp, outputDir) && WellFormed(Dir(tools.clone.value)) &&
       ClearBelow(n0, outputDir, CopyDests(tmp + ["proto"], outputDir + ["proto"], r.trace[1].protoFiles))) ==>
        r.outcome.Pass?
  {
    StepsFetch(n0, repo, target, outputDir, tools, tmp);
    StepsCompile(n0, repo, target, outputDir, tools, tmp);
    StepsOutput(n0, repo, target, outputDir, tools, tmp);
    StepsCopy(n0, repo, target, outputDir, tools, tmp);
  }

  /** The fetch step of `StepsAfterMkdtemp`. */
  lemma StepsFetch(n0: Node, repo: string, target: Target, outputDir: Path, tools: Tools, tmp: Path)
    requires n0.Dir? && CanPlace(n0, tmp) && !Exists(n0, tmp)
    ensures var r := StepsResult(Put(n0, tmp, Dir([])), repo, target, outputDir, tools, tmp);
      && 1 <= |r.trace| <= 5
      && (|r.trace| == 1 <==> tools.clone.None? || ProtoFiles(tools.clone.value, tmp + ["proto"]) == [])
      && (|r.trace| > 1 ==> (tools.clone.Some? && r.trace[1].Compiling? &&
            r.trace[1].protoFiles == ProtoFiles(tools.clone.value, tmp + ["proto"])))
  {
    if tools.clone.Some? {
      FreshFetch(n0, tmp, tools.clone.value);
    }
  }

  /** The compile step of `StepsAfterMkdtemp`. */
  lemma StepsCompile(n0: Node, repo: string, target: Target, outputDir: Path, tools: Tools, tmp: Path)
    requires n0.Dir? && CanPlace(n0, tmp) && !Exists(n0, tmp)
    ensures var r := StepsResult(Put(n0, tmp, Dir([])), repo, target, outputDir, tools, tmp);
      var plugin := PluginFor(target);
      |r.trace| > 1 && Unrelated(tmp, tools.cwd + ["node_modules"]) ==>
        (|r.trace| == 2 <==>
           PluginBinary(n0, tools.cwd, plugin.bin, plugin.pkg, tools.which).Err? || tools.protoc.status != 0)
  {
    var n := Put(n0, tmp, Dir([]));
    if tools.clone.Some? {
      var clone := tools.clone.value;
      FreshFetch(n0, tmp, clone);
      if ProtoFiles(clone, tmp + ["proto"]) != [] && Unrelated(tmp, tools.cwd + ["node_modules"]) {
        var f := Cloned(n, tmp, clone);
        FreshCompile(n0, f, tmp, tools.protoc);
        PluginAgree(n0, f, tmp, tools.cwd, target, tools.which);
      }
    }
  }

  /** The step creating the output directory, in `StepsAfterMkdtemp`. */
  lemma StepsOutput(n0: Node, repo: string, target: Target, outputDir: Path, tools: Tools, tmp: Path)
    requires n0.Dir? && CanPlace(n0, tmp) && !Exists(n0, tmp)
    ensures var r := StepsResult(Put(n0, tmp, Dir([])), repo, target, outputDir, tools, tmp);
      |r.trace| > 2 && Unrelated(tmp, outputDir) ==> (|r.trace| == 3 <==> Mkdirs(n0, outputDir).None?)
  {
    var n := Put(n0, tmp, Dir([]));
    if tools.clone.Some? {
      var clone := tools.clone.value;
      FreshFetch(n0, tmp, clone);
      if ProtoFiles(clone, tmp + ["proto"]) != [] {
        var f := Cloned(n, tmp, clone);
        FreshCompile(n0, f, tmp, tools.protoc);
        var generated := RunResult(f, tools.cwd, target, tmp, tools.which, tools.protoc);
        if generated.Ok? && Unrelated(tmp, outputDir) {
          OutputAfterTmp(n0, Generated(f, tmp, tools.protoc), tmp, outputDir);
        }
      }
    }
  }

  /** The copy step of `StepsAfterMkdtemp`. */
  lemma StepsCopy(n0: Node, repo: string, target: Target, outputDir: Path, tools: Tools, tmp: Path)
    requires n0.Dir? && CanPlace(n0, tmp) && !Exists(n0, tmp)
    ensures var r := StepsResult(Put(n0, tmp, Dir([])), repo, target, outputDir, tools, tmp);
      (|r.trace| == 5 && Unrelated(tmp, outputDir) && WellFormed(Dir(tools.clone.value)) &&
       ClearBelow(n0, outputDir, CopyDests(tmp + ["proto"], outputDir + ["proto"], r.trace[1].protoFiles))) ==>
        r.outcome.Pass?
  {
    var n := Put(n0, tmp, Dir([]));
    var protoDir := tmp + ["proto"];
    if tools.clone.Some? {
      var clone := tools.clone.value;
      FreshFetch(n0, tmp, clone);
      var protoFiles := ProtoFiles(clone, protoDir);
      if protoFiles != [] {
        var f := Cloned(n, tmp, clone);
        FreshCompile(n0, f, tmp, tools.protoc);
        var generated := RunResult(f, tools.cwd, target, tmp, tools.which, tools.protoc);
        if generated.Ok? && Unrelated(tmp, outputDir) {
          var c := Generated(f, tmp, tools.protoc);
          OutputAfterTmp(n0, c, tmp, outputDir);
          if Mkdirs(c, outputDir).Some? && tools.assembleOk && WellFormed(Dir(clone)) &&
             ClearBelow(n0, outputDir, CopyDests(protoDir, outputDir + ["proto"], protoFiles)) {
            FreshCopy(n0, c, tmp, outputDir, clone);
          }
        }
      }
    }
  }

  /**
   * Once the output directory exists, with the tree below it as in `n0`, the
   * copy root and the destinations below it are clear when they were in `n0`.
   */
  lemma ClearAfterOutput(n0: Node, m: Node, outputDir: Path, dests: seq<Path>)
    requires dests != [] && ClearBelow(n0, outputDir, dests)
    requires forall j :: 0 <= j <= |outputDir| ==> IsDirAt(m, outputDir[..j])
    requires forall q :: IsPrefix(outputDir, q) && q != outputDir ==> Lookup(m, q) == Lookup(n0, q)
    requires forall k :: 0 <= k < |dests| ==> IsPrefix(outputDir + ["proto"], dests[k]) && |dests[k]| > |outputDir| + 1
    ensures forall j :: 0 < j <= |outputDir| + 1 ==> !IsFileAt(m, (outputDir + ["proto"])[..j])
    ensures ClearBelow(m, outputDir + ["proto"], dests)
  {
    var protoOutDir := outputDir + ["proto"];
    forall j | 0 < j <= |protoOutDir|
      ensures !IsFileAt(m, protoOutDir[..j])
    {
      if j <= |outputDir| {
        assert protoOutDir[..j] == outputDir[..j];
      } else {
        assert protoOutDir[..j] == protoOutDir == dests[0][..|outputDir| + 1];
      }
    }
    forall k | 0 <= k < |dests|
      ensures !IsDirAt(m, dests[k]) && forall j :: |protoOutDir| < j < |dests[k]| ==> !IsFileAt(m, dests[k][..j])
    {
      assert dests[k][..|outputDir|] == protoOutDir[..|outputDir|] == outputDir;
      forall j | |protoOutDir| < j <= |dests[k]|
        ensures Lookup(m, dests[k][..j]) == Lookup(n0, dests[k][..j])
      {
        assert dests[k][..j][..|outputDir|] == dests[k][..|outputDir|];
      }
      assert dests[k][..|dests[k]|] == dests[k];
    }
  }

  /** `CopyPlan` for the proto files of a well-formed clone. */
  lemma CloneCopyPlan(tmp: Path, outputDir: Path, clone: seq<Entry>)
    requires Unrelated(tmp, outputDir) && WellFormed(Dir(clone))
    ensures var protoFiles := ProtoFiles(clone, tmp + ["proto"]);
      && (forall k :: 0 <= k < |protoFiles| ==>
            |protoFiles[k]| > |tmp| + 1 && IsPrefix(tmp + ["proto"], protoFiles[k]) &&
            IsFileAt(Dir(clone), protoFiles[k][|tmp| + 1..]) &&
            CopyDests(tmp + ["proto"], outputDir + ["proto"], protoFiles)[k] == outputDir + ["proto"] + protoFiles[k][|tmp| + 1..])
      && Apart(protoFiles, CopyDests(tmp + ["proto"], outputDir + ["proto"], protoFiles), outputDir + ["proto"])
  {
    var protoFiles := ProtoFiles(clone, tmp + ["proto"]);
    forall k | 0 <= k < |protoFiles|
      ensures |protoFiles[k]| > |tmp| + 1 && IsPrefix(tmp + ["proto"], protoFiles[k])
      ensures IsFileAt(Dir(clone), protoFiles[k][|tmp| + 1..])
    {
      assert protoFiles[k] in protoFiles;
      ProtoFilesSound(clone, tmp + ["proto"], protoFiles[k]);
    }
    CopyPlan(protoFiles, tmp, outputDir, clone);
  }

  /** The destinations of a well-formed clone's proto files are equal or apart: files never nest. */
  lemma CloneDestsApart(tmp: Path, outputDir: Path, clone: seq<Entry>)
    requires Unrelated(tmp, outputDir) && WellFormed(Dir(clone))
    ensures var dests := CopyDests(tmp + ["proto"], outputDir + ["proto"], ProtoFiles(clone, tmp + ["proto"]));
      forall i, k :: 0 <= i < |dests| && 0 <= k < |dests| ==> dests[i] == dests[k] || Unrelated(dests[i], dests[k])
  {
    var protoFiles := ProtoFiles(clone, tmp + ["proto"]);
    var dests := CopyDests(tmp + ["proto"], outputDir + ["proto"], protoFiles);
    CloneCopyPlan(tmp, outputDir, clone);
    forall i, k | 0 <= i < |dests| && 0 <= k < |dests|
      ensures dests[i] == dests[k] || Unrelated(dests[i], dests[k])
    {
      var ri, rk := protoFiles[i][|tmp| + 1..], protoFiles[k][|tmp| + 1..];
      if IsPrefix(dests[i], dests[k]) {
        PrefixCancel(outputDir + ["proto"], ri, rk);
        FilesNotNested(Dir(clone), ri, rk);
      } else if IsPrefix(dests[k], dests[i]) {
        PrefixCancel(outputDir + ["proto"], rk, ri);
        FilesNotNested(Dir(clone), rk, ri);
      }
    }
  }

  /** Where one fetched file is copied to, for a clone that is a real directory tree. */
  lemma CopyTarget(tmp: Path, outputDir: Path, clone: seq<Entry>, pf: Path)
    requires WellFormed(Dir(clone)) && |pf| > |tmp| + 1 && IsPrefix(tmp + ["proto"], pf)
    requires IsFileAt(Dir(clone), pf[|tmp| + 1..])
    ensures CopyDest(tmp + ["proto"], outputDir + ["proto"], pf) == outputDir + ["proto"] + pf[|tmp| + 1..]
    ensures pf == tmp + ["proto"] + pf[|tmp| + 1..]
  {
    WellFormedNames(Dir(clone), pf[|tmp| + 1..]);
    CopyDestUnder(tmp + ["proto"], outputDir + ["proto"], pf);
  }

  /** A common head can be dropped from both sides of a prefix. */
  lemma PrefixCancel(a: Path, x: Path, y: Path)
    requires IsPrefix(a + x, a + y)
    ensures IsPrefix(x, y)
  {
    forall i | 0 <= i < |x|
      ensures y[i] == x[i]
    {
      assert (a + y)[|a| + i] == (a + x)[|a| + i];
    }
  }

  /** Below two directories that lie apart, paths lie apart. */
  lemma BelowApart(a: Path, b: Path, p: Path, q: Path)
    requires Unrelated(a, b) && IsPrefix(a, p) && IsPrefix(b, q)
    ensures Unrelated(p, q)
  {
    assert p == a + p[|a|..] && q == b + q[|b|..];
    UnrelatedExtend(a, b, p[|a|..], q[|b|..]);
  }

  /**
   * For a real directory tree cloned into `tmp/proto`, with the temporary
   * and output directories apart, each proto file is copied to the output's
   * `proto` directory under the path it had below the clone root, and no copy
   * lands on a source or on another file's destination.
   */
  lemma CopyPlan(protoFiles: seq<Path>, tmp: Path, outputDir: Path, clone: seq<Entry>)
    requires Unrelated(tmp, outputDir) && WellFormed(Dir(clone))
    requires forall k :: 0 <= k < |protoFiles| ==>
      |protoFiles[k]| > |tmp| + 1 && IsPrefix(tmp + ["proto"], protoFiles[k]) &&
      IsFileAt(Dir(clone), protoFiles[k][|tmp| + 1..])
    ensures forall k :: 0 <= k < |protoFiles| ==>
      CopyDests(tmp + ["proto"], outputDir + ["proto"], protoFiles)[k] == outputDir + ["proto"] + protoFiles[k][|tmp| + 1..]
    ensures Apart(protoFiles, CopyDests(tmp + ["proto"], outputDir + ["proto"], protoFiles), outputDir + ["proto"])
    ensures forall k :: 0 <= k < |protoFiles| ==>
      Unrelated(protoFiles[k], outputDir) && Unrelated(protoFiles[k], tmp + ["generated"])
  {
    var protoDir, protoOutDir := tmp + ["proto"], outputDir + ["proto"];
    var dests := CopyDests(protoDir, protoOutDir, protoFiles);
    forall k | 0 <= k < |protoFiles|
      ensures dests[k] == protoOutDir + protoFiles[k][|tmp| + 1..]
      ensures IsPrefix(outputDir, dests[k])
      ensures !IsPrefix(protoFiles[k], protoOutDir)
      ensures Unrelated(protoFiles[k], outputDir) && Unrelated(protoFiles[k], tmp + ["generated"])
    {
      CopyPlanOne(tmp, outputDir, clone, protoFiles[k]);
    }
    forall j, k | 0 <= j < |dests| && 0 <= k < |protoFiles|
      ensures Unrelated(protoFiles[k], dests[j])
      ensures dests[j] == dests[k] ==> protoFiles[j] == protoFiles[k]
    {
      CopyPlanPair(tmp, outputDir, clone, protoFiles[j], protoFiles[k]);
    }
  }

  /** Two files of `CopyPlan`: a source never lies on a destination, and distinct sources have distinct destinations. */
  lemma CopyPlanPair(tmp: Path, outputDir: Path, clone: seq<Entry>, pj: Path, pk: Path)
    requires Unrelated(tmp, outputDir) && WellFormed(Dir(clone))
    requires |pj| > |tmp| + 1 && IsPrefix(tmp + ["proto"], pj) && IsFileAt(Dir(clone), pj[|tmp| + 1..])
    requires |pk| > |tmp| + 1 && IsPrefix(tmp + ["proto"], pk) && IsFileAt(Dir(clone), pk[|tmp| + 1..])
    ensures Unrelated(pk, CopyDest(tmp + ["proto"], outputDir + ["proto"], pj))
    ensures CopyDest(tmp + ["proto"], outputDir + ["proto"], pj) == CopyDest(tmp + ["proto"], outputDir + ["proto"], pk) ==>
      pj == pk
  {
    var protoOutDir := outputDir + ["proto"];
    CopyTarget(tmp, outputDir, clone, pj);
    CopyTarget(tmp, outputDir, clone, pk);
    var dj := CopyDest(tmp + ["proto"], protoOutDir, pj);
    assert IsPrefix(outputDir, dj) by {
      assert dj == outputDir + (["proto"] + pj[|tmp| + 1..]);
    }
    BelowApart(tmp, outputDir, pk, dj);
    if dj == CopyDest(tmp + ["proto"], protoOutDir, pk) {
      assert pj[|tmp| + 1..] == dj[|protoOutDir|..] == pk[|tmp| + 1..];
    }
  }

  /** One file of `CopyPlan`: its destination, and how it lies apart from the output. */
  lemma CopyPlanOne(tmp: Path, outputDir: Path, clone: seq<Entry>, pf: Path)
    requires Unrelated(tmp, outputDir) && WellFormed(Dir(clone))
    requires |pf| > |tmp| + 1 && IsPrefix(tmp + ["proto"], pf) && IsFileAt(Dir(clone), pf[|tmp| + 1..])
    ensures CopyDest(tmp + ["proto"], outputDir + ["proto"], pf) == outputDir + ["proto"] + pf[|tmp| + 1..]
    ensures IsPrefix(outputDir, CopyDest(tmp + ["proto"], outputDir + ["proto"], pf))
    ensures !IsPrefix(pf, outputDir + ["proto"])
    ensures Unrelated(pf, outputDir) && Unrelated(pf, tmp + ["generated"])
  {
    CopyTarget(tmp, outputDir, clone, pf);
    BelowApart(tmp, outputDir, pf, outputDir + ["proto"]);
    BelowApart(tmp, outputDir, pf, outputDir);
    assert pf[|tmp|] == "proto";
  }
}
