/**
 * Compiling the fetched `.proto` files with `protoc` and a Wire plugin
 * (src/steps/run-protoc.ts): pick the plugin for the target, find its binary,
 * infer the import root, build the argument list, run the compiler and list
 * what it generated.
 */
module RunProtoc {
  import opened Wrappers
  import opened Paths
  import opened FileTree
  import opened Walk
  import opened Fs

  datatype Target = Solana | Solidity

  function TargetName(t: Target): string {
    match t
    case Solana => "solana"
    case Solidity => "solidity"
  }

  /** The npm package shipping a plugin (`@wireio/…`, two segments), its binary and its output flag. */
  datatype PluginSetup = PluginSetup(pkg: seq<Name>, bin: Name, outFlag: string)

  /** `PLUGIN_MAP`: every target has a plugin, named after the target. */
  function PluginFor(t: Target): (s: PluginSetup)
    ensures s.bin == "protoc-gen-" + TargetName(t)
    ensures s.outFlag == "--" + TargetName(t) + "_out"
    ensures s.pkg == ["@wireio", s.bin]
  {
    match t
    case Solana => PluginSetup(["@wireio", "protoc-gen-solana"], "protoc-gen-solana", "--solana_out")
    case Solidity => PluginSetup(["@wireio", "protoc-gen-solidity"], "protoc-gen-solidity", "--solidity_out")
  }

  datatype ProtocError =
    | PluginNotFound(name: Name, pkg: string)
    | GenDirFailed(dir: Path)
    | ProtocFailed(status: int)

  // ---------------------------------------------------------------------------
  // String.prototype.trim

  /** ECMAScript WhiteSpace and LineTerminator code points. */
  predicate IsSpace(c: char) {
    var n := c as int;
    n == 0x09 || n == 0x0A || n == 0x0B || n == 0x0C || n == 0x0D || n == 0x20
    || n == 0xA0 || n == 0x1680 || (0x2000 <= n <= 0x200A) || n == 0x2028 || n == 0x2029
    || n == 0x202F || n == 0x205F || n == 0x3000 || n == 0xFEFF
  }

  /** Every character of `s` is white space. */
  predicate AllSpace(s: string) {
    forall k :: 0 <= k < |s| ==> IsSpace(s[k])
  }

  /** The first index at or after `i` that does not hold white space, or `|s|`. */
  function SkipSpace(s: string, i: nat): (r: nat)
    requires i <= |s|
    ensures i <= r <= |s|
    ensures forall k :: i <= k < r ==> IsSpace(s[k])
    ensures r < |s| ==> !IsSpace(s[r])
    decreases |s| - i
  {
    if i == |s| || !IsSpace(s[i]) then i else SkipSpace(s, i + 1)
  }

  /** The end of `s[..j]` with its trailing white space cut off. */
  function SkipSpaceBack(s: string, j: nat): (r: nat)
    requires j <= |s|
    ensures r <= j
    ensures forall k :: r <= k < j ==> IsSpace(s[k])
    ensures r > 0 ==> !IsSpace(s[r - 1])
  {
    if j == 0 || !IsSpace(s[j - 1]) then j else SkipSpaceBack(s, j - 1)
  }

  /**
   * `s.trim()`: the middle of `s` without surrounding white space; empty
   * exactly when `s` is all white space.
   */
  function Trim(s: string): (r: string)
    ensures exists i, j :: 0 <= i <= j <= |s| && r == s[i..j] && AllSpace(s[..i]) && AllSpace(s[j..])
    ensures r == "" <==> AllSpace(s)
    ensures r != "" ==> !IsSpace(r[0]) && !IsSpace(r[|r| - 1])
    ensures s == "" || (!IsSpace(s[0]) && !IsSpace(s[|s| - 1])) ==> r == s
  {
    var i := SkipSpace(s, 0);
    var j := SkipSpaceBack(s, |s|);
    if i == |s| then
      assert AllSpace(s[..i]) && AllSpace(s[i..]) && s[i..i] == "";
      ""
    else
      assert j > i by {
        assert !IsSpace(s[i]);
      }
      assert AllSpace(s[..i]) && AllSpace(s[j..]);
      assert !AllSpace(s) by {
        assert !IsSpace(s[i]);
      }
      s[i..j]
  }

  // ---------------------------------------------------------------------------
  // resolvePluginBin

  /** The places in `node_modules` (below the working directory) searched for a plugin, in order. */
  function PluginPaths(cwd: Path, name: Name, pkg: seq<Name>): seq<Path> {
    [ cwd + ["node_modules", ".bin", name],
      cwd + ["node_modules"] + pkg + ["dist", "bin", name],
      cwd + ["node_modules", ".pnpm", "node_modules"] + pkg + ["dist", "bin", name] ]
  }

  /**
   * The plugin binary `resolvePluginBin` settles on: the first installed
   * candidate, else what `which` prints (trimmed) if anything, else an error.
   * `which` is the output of `which <name>`, nothing when it fails.
   */
  function PluginBinary(root: Node, cwd: Path, name: Name, pkg: seq<Name>, which: Option<string>): Result<string, ProtocError> {
    var paths := PluginPaths(cwd, name, pkg);
    match FirstExisting(root, paths)
    case Some(k) => Ok(Absolute(paths[k]))
    case None =>
      if which.Some? && Trim(which.value) != "" then Ok(Trim(which.value))
      else Err(PluginNotFound(name, Join(pkg)))
  }

  /**
   * The search order: `node_modules/.bin`, then the package's own
   * `dist/bin`, then the pnpm store, then PATH; the error names the binary and
   * the package.
   */
  lemma PluginSearchOrder(root: Node, cwd: Path, name: Name, pkg: seq<Name>, which: Option<string>)
    ensures var dotBin := cwd + ["node_modules", ".bin", name];
      Exists(root, dotBin) ==> PluginBinary(root, cwd, name, pkg, which) == Ok(Absolute(dotBin))
    ensures var dotBin, pkgBin := cwd + ["node_modules", ".bin", name], cwd + ["node_modules"] + pkg + ["dist", "bin", name];
      !Exists(root, dotBin) && Exists(root, pkgBin) ==>
        PluginBinary(root, cwd, name, pkg, which) == Ok(Absolute(pkgBin))
    ensures var dotBin, pkgBin := cwd + ["node_modules", ".bin", name], cwd + ["node_modules"] + pkg + ["dist", "bin", name];
      var pnpmBin := cwd + ["node_modules", ".pnpm", "node_modules"] + pkg + ["dist", "bin", name];
      !Exists(root, dotBin) && !Exists(root, pkgBin) && Exists(root, pnpmBin) ==>
        PluginBinary(root, cwd, name, pkg, which) == Ok(Absolute(pnpmBin))
    ensures (forall k :: 0 <= k < 3 ==> !Exists(root, PluginPaths(cwd, name, pkg)[k])) ==>
      PluginBinary(root, cwd, name, pkg, which) ==
        if which.Some? && Trim(which.value) != "" then Ok(Trim(which.value))
        else Err(PluginNotFound(name, Join(pkg)))
    ensures PluginBinary(root, cwd, name, pkg, which).Err? <==>
      (forall k :: 0 <= k < 3 ==> !Exists(root, PluginPaths(cwd, name, pkg)[k]))
      && (which.None? || AllSpace(which.value))
  {
    var paths := PluginPaths(cwd, name, pkg);
    FirstExistingSpec(root, paths);
    assert paths[0] == cwd + ["node_modules", ".bin", name];
    assert paths[1] == cwd + ["node_modules"] + pkg + ["dist", "bin", name];
    assert paths[2] == cwd + ["node_modules", ".pnpm", "node_modules"] + pkg + ["dist", "bin", name];
  }

  method ResolvePluginBin(root: Node, cwd: Path, name: Name, pkg: seq<Name>, which: Option<string>)
    returns (r: Result<string, ProtocError>)
    ensures r == PluginBinary(root, cwd, name, pkg, which)
  {
    var candidates := PluginPaths(cwd, name, pkg);
    FirstExistingSpec(root, candidates);
    var i := 0;
    while i < |candidates|
      invariant 0 <= i <= |candidates|
      invariant forall j :: 0 <= j < i ==> !Exists(root, candidates[j])
    {
      if Exists(root, candidates[i]) {
        return Ok(Absolute(candidates[i]));
      }
      i := i + 1;
    }
    if which.Some? {
      var result := Trim(which.value);
      if result != "" {
        return Ok(result);
      }
    }
    // The `node_modules/.bin` fallback: the first candidate again, already missing.
    var localBin := cwd + ["node_modules", ".bin", name];
    if Exists(root, localBin) {
      assert false;
      return Ok(Absolute(localBin));
    }
    return Err(PluginNotFound(name, Join(pkg)));
  }

  // ---------------------------------------------------------------------------
  // findProtoRoot

  /**
   * The `--proto_path` root: `base/proto` if that is a directory, else
   * `base/protos` if that is, else `base` itself.
   */
  function ProtoRoot(n: Node, base: Path): (r: Path)
    ensures IsPrefix(base, r)
    ensures r != base ==> IsDirAt(n, r) && |r| == |base| + 1 && (r[|base|] == "proto" || r[|base|] == "protos")
    ensures IsDirAt(n, base + ["proto"]) ==> r == base + ["proto"]
    ensures r == base <==> !IsDirAt(n, base + ["proto"]) && !IsDirAt(n, base + ["protos"])
  {
    if IsDirAt(n, base + ["proto"]) then base + ["proto"]
    else if IsDirAt(n, base + ["protos"]) then base + ["protos"]
    else base
  }

  method FindProtoRoot(root: Node, base: Path) returns (dir: Path)
    ensures dir == ProtoRoot(root, base)
  {
    var candidates := ["proto", "protos"];
    var i := 0;
    while i < |candidates|
      invariant 0 <= i <= |candidates|
      invariant forall j :: 0 <= j < i ==> !IsDirAt(root, base + [candidates[j]])
    {
      var d := base + [candidates[i]];
      if IsDirAt(root, d) {
        return d;
      }
      i := i + 1;
    }
    assert !IsDirAt(root, base + [candidates[0]]) && !IsDirAt(root, base + [candidates[1]]);
    return base;
  }

  // ---------------------------------------------------------------------------
  // The protoc command line

  /**
   * The arguments after `npx protoc`: the plugin, the import root, the output
   * directory, then each proto file relative to the import root, in order.
   */
  function ProtocArgs(plugin: PluginSetup, pluginBin: string, protoRoot: Path, genDir: Path, protoFiles: seq<Path>): (args: seq<string>)
    ensures |args| == 3 + |protoFiles|
    ensures args[0] == "--plugin=" + plugin.bin + "=" + pluginBin
    ensures args[1] == "--proto_path=" + Absolute(protoRoot)
    ensures args[2] == plugin.outFlag + "=" + Absolute(genDir)
  {
    [ "--plugin=" + plugin.bin + "=" + pluginBin,
      "--proto_path=" + Absolute(protoRoot),
      plugin.outFlag + "=" + Absolute(genDir) ]
    + seq(|protoFiles|, i requires 0 <= i < |protoFiles| => Join(Relative(protoRoot, protoFiles[i])))
  }

  /**
   * What protoc makes of each file argument: read as a path relative to the
   * import root, it names the proto file it came from; below the root it is
   * the file's path with the root removed.
   */
  lemma ProtocArgsLocate(plugin: PluginSetup, pluginBin: string, protoRoot: Path, genDir: Path, protoFiles: seq<Path>, i: nat)
    requires i < |protoFiles| && ValidPath(protoFiles[i])
    ensures Resolve(protoRoot, Segments(ProtocArgs(plugin, pluginBin, protoRoot, genDir, protoFiles)[3 + i])) == protoFiles[i]
    ensures IsPrefix(protoRoot, protoFiles[i]) ==>
      protoRoot + Segments(ProtocArgs(plugin, pluginBin, protoRoot, genDir, protoFiles)[3 + i]) == protoFiles[i]
  {
    var pf := protoFiles[i];
    assert ProtocArgs(plugin, pluginBin, protoRoot, genDir, protoFiles)[3 + i] == Join(Relative(protoRoot, pf));
    RelativeSegments(protoRoot, pf);
    SegmentsJoin(Relative(protoRoot, pf));
    ResolveRelative(protoRoot, pf);
    if IsPrefix(protoRoot, pf) {
      RelativeUnder(protoRoot, pf);
    }
  }

  // ---------------------------------------------------------------------------
  // runProtoc

  /** What running `npx protoc` does: its exit status and, on success, the files it writes into the output directory. */
  datatype ProtocRun = ProtocRun(status: int, emitted: seq<Entry>)

  /**
   * The part of `runProtoc` after the output directory exists: infer the
   * import root, start the compiler, list what it generated.
   */
  method Compile(fs: FileSystem, plugin: PluginSetup, pluginBin: string, protoFiles: seq<Path>, protoDir: Path, genDir: Path,
                 protoc: ProtocRun)
    returns (r: Result<seq<Path>, ProtocError>, argv: seq<string>)
    requires fs.Valid() && IsDirAt(fs.root, genDir) && genDir != []
    modifies fs
    ensures fs.Valid()
    ensures argv == ["protoc"] + ProtocArgs(plugin, pluginBin, ProtoRoot(old(fs.root), protoDir), genDir, protoFiles)
    ensures protoc.status != 0 ==> r == Err(ProtocFailed(protoc.status)) && fs.root == old(fs.root)
    ensures protoc.status == 0 ==>
      r == Ok(Leaves(Dir(protoc.emitted), genDir)) && fs.root == Put(old(fs.root), genDir, Dir(protoc.emitted))
    ensures r.Ok? ==> forall p :: p in r.value ==> IsPrefix(genDir, p) && |p| > |genDir|
    ensures forall q :: Unrelated(q, genDir) ==> Lookup(fs.root, q) == Lookup(old(fs.root), q)
    ensures forall q :: IsFileAt(old(fs.root), q) && !IsPrefix(genDir, q) ==> Lookup(fs.root, q) == Lookup(old(fs.root), q)
  {
    var protoRoot := FindProtoRoot(fs.root, protoDir);
    var args := ProtocArgs(plugin, pluginBin, protoRoot, genDir, protoFiles);
    argv := ["protoc"] + args;
    if protoc.status != 0 {
      return Err(ProtocFailed(protoc.status)), argv;
    }
    assert CanPlace(fs.root, genDir) by {
      assert Parent(genDir) + [genDir[|genDir| - 1]] == genDir;
      LookupPrefixIsDir(fs.root, Parent(genDir), genDir);
    }
    var placed := fs.Place(genDir, Dir(protoc.emitted));
    PutAt(old(fs.root), genDir, Dir(protoc.emitted));
    assert Listing(fs.root, genDir) == Ok(Leaves(Dir(protoc.emitted), genDir));
    var generated := WalkDir(fs.root, genDir);
    var files := generated.value;
    ListingSpec(fs.root, genDir, files);
    r := Ok(files);
  }

  /**
   * What `runProtoc` answers, decided on the disk it starts from: no plugin,
   * no output directory, or a failing compiler, in that order.
   */
  function RunResult(root: Node, cwd: Path, target: Target, outputDir: Path, which: Option<string>,
                     protoc: ProtocRun): Result<seq<Path>, ProtocError>
  {
    var plugin := PluginFor(target);
    var bin := PluginBinary(root, cwd, plugin.bin, plugin.pkg, which);
    var genDir := outputDir + ["generated"];
    if bin.Err? then Err(bin.error)
    else if Mkdirs(root, genDir).None? then Err(GenDirFailed(genDir))
    else if protoc.status != 0 then Err(ProtocFailed(protoc.status))
    else Ok(Leaves(Dir(protoc.emitted), genDir))
  }

  /** The disk after a successful run: what the compiler emitted, at `<outputDir>/generated`. */
  function Generated(root: Node, outputDir: Path, protoc: ProtocRun): Node
    requires Mkdirs(root, outputDir + ["generated"]).Some?
  {
    Put(Mkdirs(root, outputDir + ["generated"]).value, outputDir + ["generated"], Dir(protoc.emitted))
  }

  /**
   * `runProtoc`. `cwd` is the working directory the plugin search starts
   * from, `which` the PATH lookup and `protoc` the compiler's behaviour. The
   * result is the generated files; `argv` is the command line handed to `npx`
   * when the compiler is started.
   */
  method RunProtoc(fs: FileSystem, cwd: Path, target: Target, protoFiles: seq<Path>, protoDir: Path, outputDir: Path,
                   which: Option<string>, protoc: ProtocRun)
    returns (r: Result<seq<Path>, ProtocError>, argv: Option<seq<string>>)
    requires fs.Valid()
    modifies fs
    ensures fs.Valid()
    ensures var plugin := PluginFor(target);
      var bin := PluginBinary(old(fs.root), cwd, plugin.bin, plugin.pkg, which);
      bin.Err? ==> r == Err(bin.error) && argv == None && fs.root == old(fs.root)
    ensures var plugin := PluginFor(target);
      var bin := PluginBinary(old(fs.root), cwd, plugin.bin, plugin.pkg, which);
      var genDir := outputDir + ["generated"];
      bin.Ok? && Mkdirs(old(fs.root), genDir).None? ==>
        r == Err(GenDirFailed(genDir)) && argv == None && fs.root == old(fs.root)
    ensures var plugin := PluginFor(target);
      var bin := PluginBinary(old(fs.root), cwd, plugin.bin, plugin.pkg, which);
      var genDir := outputDir + ["generated"];
      var made := Mkdirs(old(fs.root), genDir);
      bin.Ok? && made.Some? ==>
        argv == Some(["protoc"] + ProtocArgs(plugin, bin.value, ProtoRoot(made.value, protoDir), genDir, protoFiles))
        && (protoc.status != 0 ==> r == Err(ProtocFailed(protoc.status)) && fs.root == made.value)
        && (protoc.status == 0 ==>
              r == Ok(Leaves(Dir(protoc.emitted), genDir)) && fs.root == Put(made.value, genDir, Dir(protoc.emitted)))
    ensures r == RunResult(old(fs.root), cwd, target, outputDir, which, protoc)
    ensures r.Ok? ==> fs.root == Generated(old(fs.root), outputDir, protoc)
    ensures r.Ok? ==> forall p :: p in r.value ==> IsPrefix(outputDir + ["generated"], p) && |p| > |outputDir| + 1
    ensures forall q :: Unrelated(q, outputDir + ["generated"]) ==> Lookup(fs.root, q) == Lookup(old(fs.root), q)
    ensures forall q :: IsFileAt(old(fs.root), q) && !IsPrefix(outputDir + ["generated"], q) ==>
      Lookup(fs.root, q) == Lookup(old(fs.root), q)
  {
    var plugin := PluginFor(target);
    var bin := ResolvePluginBin(fs.root, cwd, plugin.bin, plugin.pkg, which);
    if bin.Err? {
      return Err(bin.error), None;
    }
    var genDir := outputDir + ["generated"];
    var made := fs.MkdirP(genDir);
    if !made {
      return Err(GenDirFailed(genDir)), None;
    }
    ghost var mid := fs.root;
    var res, args := Compile(fs, plugin, bin.value, protoFiles, protoDir, genDir, protoc);
    r, argv := res, Some(args);
    forall q | Unrelated(q, genDir)
      ensures Lookup(fs.root, q) == Lookup(old(fs.root), q)
    {
      assert Lookup(fs.root, q) == Lookup(mid, q);
    }
    forall q | IsFileAt(old(fs.root), q) && !IsPrefix(genDir, q)
      ensures Lookup(fs.root, q) == Lookup(old(fs.root), q)
    {
      assert Lookup(mid, q) == Lookup(old(fs.root), q);
    }
  }
}
