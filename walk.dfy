/**
 * `walkDir(dir)`: the recursive enumeration of the files below a directory.
 * The repository carries three identical copies of it (in run-protoc.ts,
 * fetch-protos.ts and templates.ts); this module models it once.
 */
module Walk {
  import opened Wrappers
  import opened Paths
  import opened FileTree

  datatype FsError = NotADirectory(path: Path)

  /**
   * What `walkDir(dir)` returns: nothing for a missing path, the leaves of a
   * directory, and the ENOTDIR error `readdirSync` throws for a file.
   */
  function Listing(root: Node, dir: Path): Result<seq<Path>, FsError> {
    match Lookup(root, dir)
    case None => Ok([])
    case Some(File(_)) => Err(NotADirectory(dir))
    case Some(d) => Ok(Leaves(d, dir))
  }

  method WalkDir(root: Node, dir: Path) returns (r: Result<seq<Path>, FsError>)
    ensures r == Listing(root, dir)
  {
    var node := Lookup(root, dir);
    if node.None? {
      return Ok([]);
    }
    if node.value.File? {
      return Err(NotADirectory(dir));
    }
    var results := WalkEntries(node.value, dir);
    return Ok(results);
  }

  /** The loop over `readdirSync(dir)`: descend into directories, push every other entry. */
  method WalkEntries(d: Node, dir: Path) returns (results: seq<Path>)
    requires d.Dir?
    ensures results == Leaves(d, dir)
    decreases d
  {
    results := [];
    var i := 0;
    while i < |d.entries|
      invariant 0 <= i <= |d.entries|
      invariant results == LeavesUpTo(d, i, dir)
    {
      var entry := d.entries[i];
      var fullPath := dir + [entry.name];
      if entry.node.Dir? {
        var sub := WalkEntries(entry.node, fullPath);
        results := results + sub;
      } else {
        results := results + [fullPath];
      }
      i := i + 1;
    }
  }

  /**
   * A successful walk reports paths strictly below the walked directory and,
   * in a well-formed tree, only files and each file once; it omits no file.
   */
  lemma ListingSpec(root: Node, dir: Path, files: seq<Path>)
    requires Listing(root, dir) == Ok(files)
    ensures forall p :: p in files ==> IsPrefix(dir, p) && |p| > |dir|
    ensures WellFormed(root) ==> NoDup(files) && forall p :: p in files ==> IsFileAt(root, p)
    ensures forall q :: IsPrefix(dir, q) && q != dir && IsFileAt(root, q) ==> q in files
  {
    match Lookup(root, dir)
    case None =>
      forall q | IsPrefix(dir, q) && q != dir
        ensures !Exists(root, q)
      {
        assert q == dir + q[|dir|..];
        LookupConcat(root, dir, q[|dir|..]);
      }
    case Some(d) =>
      forall p | p in files
        ensures IsPrefix(dir, p) && |p| > |dir|
      {
        LeavesUnder(d, dir, p);
      }
      if WellFormed(root) {
        WellFormedLookup(root, dir);
        LeavesNoDup(d, dir);
        forall p | p in files
          ensures IsFileAt(root, p)
        {
          LeavesAreFiles(d, dir, p);
          assert p == dir + p[|dir|..];
          LookupConcat(root, dir, p[|dir|..]);
        }
      }
      forall q | IsPrefix(dir, q) && q != dir && IsFileAt(root, q)
        ensures q in files
      {
        var rel := q[|dir|..];
        assert q == dir + rel;
        LookupConcat(root, dir, rel);
        LeavesComplete(d, dir, rel);
      }
  }

  /** `files.filter(f => f.endsWith(suffix))`, in the order of `files`. */
  function WithSuffix(files: seq<Path>, suffix: string): (r: seq<Path>)
    ensures forall p :: p in r <==> p in files && EndsWith(Absolute(p), suffix)
    ensures NoDup(files) ==> NoDup(r)
    decreases |files|
  {
    if files == [] then []
    else
      var rest := WithSuffix(files[1..], suffix);
      assert forall p :: p in files[1..] ==> p in files;
      if EndsWith(Absolute(files[0]), suffix) then
        assert NoDup(files) ==> files[0] !in files[1..];
        [files[0]] + rest
      else rest
  }

  /** One step of the filter: the first path is kept or dropped, then the rest is filtered. */
  lemma WithSuffixCons(files: seq<Path>, suffix: string)
    requires files != []
    ensures WithSuffix(files, suffix) ==
      (if EndsWith(Absolute(files[0]), suffix) then [files[0]] else []) + WithSuffix(files[1..], suffix)
  {
  }

  /**
   * The filter keeps the order of the walk: filtering a concatenation is
   * filtering each part, and a single path is kept or dropped on its own.
   */
  lemma {:induction false} WithSuffixOrder(a: seq<Path>, b: seq<Path>, suffix: string)
    ensures WithSuffix(a + b, suffix) == WithSuffix(a, suffix) + WithSuffix(b, suffix)
    ensures |a| == 1 ==> WithSuffix(a, suffix) == if EndsWith(Absolute(a[0]), suffix) then a else []
    decreases |a|
  {
    if a == [] {
      assert a + b == b;
    } else {
      var ab := a + b;
      assert ab[0] == a[0] && ab[1..] == a[1..] + b;
      WithSuffixOrder(a[1..], b, suffix);
      WithSuffixCons(ab, suffix);
      WithSuffixCons(a, suffix);
      var head: seq<Path> := if EndsWith(Absolute(a[0]), suffix) then [a[0]] else [];
      var ta, tb := WithSuffix(a[1..], suffix), WithSuffix(b, suffix);
      assert head + (ta + tb) == (head + ta) + tb;
      if |a| == 1 {
        assert a[1..] == [];
      }
    }
  }
}
