/**
 * The disk as the bundler sees it through `node:fs`: one tree, changed in
 * place by `mkdirSync`, `mkdtempSync`, `copyFileSync` and `rmSync`, and by the
 * external programs (the clone, the compiler) that write whole trees into it.
 */
module Fs {
  import opened Wrappers
  import opened Paths
  import opened FileTree

  /**
   * `mkdir -p` from the `i`-th prefix of `p` on: create each missing
   * directory, stop with nothing at the first file in the way.
   */
  function MkdirFrom(n: Node, p: Path, i: nat): Option<Node>
    requires i <= |p| + 1
    decreases |p| + 1 - i
  {
    if i > |p| then Some(n)
    else match Lookup(n, p[..i])
      case Some(File(_)) => None
      case Some(Dir(_)) => MkdirFrom(n, p, i + 1)
      case None => MkdirFrom(Put(n, p[..i], Dir([])), p, i + 1)
  }

  /** The tree after `mkdirSync(p, { recursive: true })`, or nothing when it throws. */
  function Mkdirs(n: Node, p: Path): Option<Node> {
    MkdirFrom(n, p, 1)
  }

  /**
   * `mkdir -p` from the `i`-th prefix on, when the shorter prefixes are
   * directories already: it succeeds exactly when no remaining prefix is a
   * file, and then every prefix is a directory, and nothing off the path and
   * no existing file changes.
   */
  lemma {:induction false} MkdirFromSpec(n: Node, p: Path, i: nat)
    requires 1 <= i <= |p| + 1 && n.Dir?
    requires forall j :: 0 <= j < i ==> IsDirAt(n, p[..j])
    ensures var r := MkdirFrom(n, p, i);
      && (r.Some? <==> forall j :: i <= j <= |p| ==> !IsFileAt(n, p[..j]))
      && (r.Some? ==> r.value.Dir? && forall j :: 0 <= j <= |p| ==> IsDirAt(r.value, p[..j]))
      && (r.Some? ==> forall q :: !IsPrefix(q, p) ==> Lookup(r.value, q) == Lookup(n, q))
      && (r.Some? ==> forall q :: IsFileAt(n, q) ==> Lookup(r.value, q) == Lookup(n, q))
    decreases |p| + 1 - i
  {
    if i <= |p| {
      var d := p[..i];
      assert Parent(d) == p[..i - 1];
      match Lookup(n, d) {
        case Some(File(_)) =>
        case Some(Dir(_)) =>
          MkdirFromSpec(n, p, i + 1);
        case None =>
          MkdirNewDir(n, p, i);
          MkdirFromSpec(Put(n, d, Dir([])), p, i + 1);
      }
    }
  }

  /**
   * One step of `mkdir -p` that creates the missing `i`-th prefix: the
   * shorter prefixes stay directories, the longer ones stay missing, and
   * nothing off the path and no existing file changes.
   */
  lemma MkdirNewDir(n: Node, p: Path, i: nat)
    requires 1 <= i <= |p| && n.Dir? && !Exists(n, p[..i])
    requires forall j :: 0 <= j < i ==> IsDirAt(n, p[..j])
    ensures var n' := Put(n, p[..i], Dir([]));
      && n'.Dir?
      && (forall j :: 0 <= j <= i ==> IsDirAt(n', p[..j]))
      && (forall j :: i < j <= |p| ==> !Exists(n, p[..j]) && !Exists(n', p[..j]))
      && (forall q :: !IsPrefix(q, p) ==> Lookup(n', q) == Lookup(n, q))
      && (forall q :: IsFileAt(n, q) ==> Lookup(n', q) == Lookup(n, q))
  {
    var d := p[..i];
    var n' := Put(n, d, Dir([]));
    assert Parent(d) == p[..i - 1];
    PutNewDir(n, d);
    forall j | 0 <= j < i
      ensures IsDirAt(n', p[..j])
    {
      assert IsPrefix(p[..j], d);
    }
    forall j | i < j <= |p|
      ensures !Exists(n, p[..j]) && !Exists(n', p[..j])
    {
      assert IsPrefix(d, p[..j]);
      MissingBelow(n, d, p[..j]);
      PutBelow(n, d, Dir([]), p[..j]);
    }
    forall q | !IsPrefix(q, p)
      ensures Lookup(n', q) == Lookup(n, q)
    {
      if IsPrefix(d, q) {
        MissingBelow(n, d, q);
        PutBelow(n, d, Dir([]), q);
      }
    }
    forall q | IsFileAt(n, q)
      ensures Lookup(n', q) == Lookup(n, q)
    {
      if IsPrefix(d, q) {
        MissingBelow(n, d, q);
      } else {
        PutKeepsFiles(n, d, Dir([]), q);
      }
    }
  }

  /**
   * `mkdirSync(p, { recursive: true })` succeeds exactly when no prefix of `p`
   * is a file; it then leaves every prefix a directory and changes nothing
   * off the path to `p` and no existing file.
   */
  lemma MkdirsSpec(n: Node, p: Path)
    requires n.Dir?
    ensures var r := Mkdirs(n, p);
      && (r.Some? <==> forall j :: 0 < j <= |p| ==> !IsFileAt(n, p[..j]))
      && (r.Some? ==> r.value.Dir? && forall j :: 0 <= j <= |p| ==> IsDirAt(r.value, p[..j]))
      && (r.Some? ==> forall q :: !IsPrefix(q, p) ==> Lookup(r.value, q) == Lookup(n, q))
      && (r.Some? ==> forall q :: IsFileAt(n, q) ==> Lookup(r.value, q) == Lookup(n, q))
  {
    assert p[..0] == [];
    MkdirFromSpec(n, p, 1);
  }

  /** From the `i`-th prefix on, `mkdir -p` over directories that all exist changes nothing. */
  lemma {:induction false} MkdirFromExisting(n: Node, p: Path, i: nat)
    requires 1 <= i <= |p| + 1
    requires forall j :: i <= j <= |p| ==> IsDirAt(n, p[..j])
    ensures MkdirFrom(n, p, i) == Some(n)
    decreases |p| + 1 - i
  {
    if i <= |p| {
      MkdirFromExisting(n, p, i + 1);
    }
  }

  /**
   * `mkdirSync(p, { recursive: true })` is idempotent: once it has succeeded,
   * running it again succeeds and changes nothing.
   */
  lemma MkdirsIdempotent(n: Node, p: Path)
    requires n.Dir?
    ensures Mkdirs(n, p).Some? ==> Mkdirs(Mkdirs(n, p).value, p) == Mkdirs(n, p)
  {
    MkdirsSpec(n, p);
    if Mkdirs(n, p).Some? {
      MkdirFromExisting(Mkdirs(n, p).value, p, 1);
    }
  }

  /** `mkdir -p` creates directories only: after it, the files are exactly the files before. */
  lemma MkdirsFiles(n: Node, p: Path, q: Path)
    requires n.Dir? && Mkdirs(n, p).Some?
    ensures IsFileAt(Mkdirs(n, p).value, q) <==> IsFileAt(n, q)
  {
    MkdirsSpec(n, p);
    if IsPrefix(q, p) {
      assert q == p[..|q|];
    }
  }

  /** Whether `mkdir -p` succeeds depends only on which prefixes of the path are files. */
  lemma MkdirsAgree(a: Node, b: Node, p: Path)
    requires a.Dir? && b.Dir?
    requires forall j :: 0 < j <= |p| ==> (IsFileAt(a, p[..j]) <==> IsFileAt(b, p[..j]))
    ensures Mkdirs(a, p).Some? <==> Mkdirs(b, p).Some?
  {
    MkdirsSpec(a, p);
    MkdirsSpec(b, p);
  }

  class FileSystem {
    var root: Node

    /** The filesystem root is a directory. */
    ghost predicate Valid()
      reads this
    {
      root.Dir?
    }

    constructor (root: Node)
      requires root.Dir?
      ensures Valid() && this.root == root
    {
      this.root := root;
    }

    /**
     * `fs.mkdirSync(p, { recursive: true })`: create each missing directory
     * on the way to `p`. It fails (EEXIST / ENOTDIR) when a file is in the way,
     * and then changes nothing; an existing directory is not an error.
     */
    method MkdirP(p: Path) returns (ok: bool)
      requires Valid()
      modifies this
      ensures Valid()
      ensures ok <==> Mkdirs(old(root), p).Some?
      ensures ok ==> root == Mkdirs(old(root), p).value
      ensures ok <==> forall j :: 0 < j <= |p| ==> !IsFileAt(old(root), p[..j])
      ensures ok ==> forall j :: 0 <= j <= |p| ==> IsDirAt(root, p[..j])
      ensures ok ==> IsDirAt(root, p)
      ensures !ok ==> root == old(root)
      ensures forall q :: !IsPrefix(q, p) ==> Lookup(root, q) == Lookup(old(root), q)
      ensures forall q :: IsFileAt(old(root), q) ==> Lookup(root, q) == Lookup(old(root), q)
    {
      MkdirsSpec(root, p);
      var made := Mkdirs(root, p);
      if made.None? {
        return false;
      }
      root := made.value;
      assert p[..|p|] == p;
      return true;
    }

    /**
     * `fs.mkdtempSync(parent/prefix)` with the random characters already
     * chosen: `name` is the prefix followed by them. It fails when the parent is
     * not a directory or the name is taken.
     */
    method Mkdtemp(parent: Path, name: Name) returns (created: bool)
      requires Valid()
      modifies this
      ensures Valid()
      ensures created <==> IsDirAt(old(root), parent) && !Exists(old(root), parent + [name])
      ensures created ==> root == Put(old(root), parent + [name], Dir([]))
      ensures created ==> Lookup(root, parent + [name]) == Some(Dir([]))
      ensures created ==> forall q :: !IsPrefix(q, parent + [name]) ==> Lookup(root, q) == Lookup(old(root), q)
      ensures !created ==> root == old(root)
    {
      var tmp := parent + [name];
      assert Parent(tmp) == parent;
      if IsDirAt(root, parent) && !Exists(root, tmp) {
        PutNewDir(root, tmp);
        PutAt(root, tmp, Dir([]));
        root := Put(root, tmp, Dir([]));
        return true;
      }
      return false;
    }

    /**
     * `fs.copyFileSync(src, dest)`: `src` must be a file, the parent of `dest`
     * a directory and `dest` itself not a directory; an existing file at `dest`
     * is overwritten.
     */
    method CopyFile(src: Path, dest: Path) returns (ok: bool)
      requires Valid()
      modifies this
      ensures Valid()
      ensures ok <==> IsFileAt(old(root), src) && CanPlace(old(root), dest) && !IsDirAt(old(root), dest)
      ensures ok ==> root == Put(old(root), dest, Lookup(old(root), src).value)
      ensures ok ==> Lookup(root, dest) == Lookup(old(root), src)
      ensures ok ==> forall q :: Unrelated(q, dest) ==> Lookup(root, q) == Lookup(old(root), q)
      ensures ok ==> forall q :: IsFileAt(old(root), q) && q != dest ==> Lookup(root, q) == Lookup(old(root), q)
      ensures !ok ==> root == old(root)
    {
      if IsFileAt(root, src) && CanPlace(root, dest) && !IsDirAt(root, dest) {
        var copy := Lookup(root, src).value;
        ghost var before := root;
        PutAt(root, dest, copy);
        root := Put(root, dest, copy);
        forall q | Unrelated(q, dest)
          ensures Lookup(root, q) == Lookup(before, q)
        {
          PutElsewhere(before, dest, copy, q);
        }
        forall q | IsFileAt(before, q) && q != dest
          ensures Lookup(root, q) == Lookup(before, q)
        {
          if IsPrefix(dest, q) {
            LookupPrefixIsDir(before, dest, q);
          } else {
            PutKeepsFiles(before, dest, copy, q);
          }
        }
        return true;
      }
      return false;
    }

    /**
     * `fs.rmSync(p, { recursive: true, force: true })`. A missing path is not
     * an error; whether the removal itself fails (permissions, a busy file) is
     * decided outside the model and passed in as `succeeds`.
     */
    method Remove(p: Path, succeeds: bool) returns (ok: bool)
      requires Valid() && p != []
      modifies this
      ensures Valid()
      ensures ok == succeeds
      ensures ok ==> root == Delete(old(root), p)
      ensures ok ==> forall q :: IsPrefix(p, q) ==> !Exists(root, q)
      ensures ok ==> forall q :: Unrelated(p, q) ==> Lookup(root, q) == Lookup(old(root), q)
      ensures ok ==> forall q :: !IsPrefix(p, q) && IsFileAt(old(root), q) ==> Lookup(root, q) == Lookup(old(root), q)
      ensures !ok ==> root == old(root)
    {
      if !succeeds {
        return false;
      }
      ghost var before := root;
      root := Delete(root, p);
      forall q | IsPrefix(p, q)
        ensures !Exists(root, q)
      {
        DeleteBelow(before, p, q);
      }
      forall q | Unrelated(p, q)
        ensures Lookup(root, q) == Lookup(before, q)
      {
        DeleteElsewhere(before, p, q);
      }
      forall q | !IsPrefix(p, q) && IsFileAt(before, q)
        ensures Lookup(root, q) == Lookup(before, q)
      {
        DeleteKeepsFiles(before, p, q);
      }
      return true;
    }

    /**
     * An external program writing the tree `n` at `p` (the clone, the
     * compiler's output), replacing what was there; it needs `p`'s parent to be
     * a directory.
     */
    method Place(p: Path, n: Node) returns (ok: bool)
      requires Valid()
      modifies this
      ensures Valid()
      ensures ok <==> CanPlace(old(root), p)
      ensures ok ==> root == Put(old(root), p, n)
      ensures ok ==> forall q :: IsPrefix(p, q) ==> Lookup(root, q) == Lookup(n, q[|p|..])
      ensures ok ==> forall q :: Unrelated(p, q) ==> Lookup(root, q) == Lookup(old(root), q)
      ensures ok ==> forall q :: !IsPrefix(p, q) && IsFileAt(old(root), q) ==> Lookup(root, q) == Lookup(old(root), q)
      ensures !ok ==> root == old(root)
    {
      if !CanPlace(root, p) {
        return false;
      }
      ghost var before := root;
      root := Put(root, p, n);
      forall q | IsPrefix(p, q)
        ensures Lookup(root, q) == Lookup(n, q[|p|..])
      {
        PutBelow(before, p, n, q);
      }
      forall q | Unrelated(p, q)
        ensures Lookup(root, q) == Lookup(before, q)
      {
        PutElsewhere(before, p, n, q);
      }
      forall q | !IsPrefix(p, q) && IsFileAt(before, q)
        ensures Lookup(root, q) == Lookup(before, q)
      {
        PutKeepsFiles(before, p, n, q);
      }
      return true;
    }
  }
}
