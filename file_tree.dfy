/**
 * The filesystem as a tree: a directory is the sequence of its entries in the
 * order `fs.readdirSync` lists them. Lookup, the two updates the bundler's
 * filesystem calls amount to (placing a node, removing a subtree), and the
 * enumeration `walkDir` performs, with what each of them changes and keeps.
 */
module FileTree {
  import opened Wrappers
  import opened Paths

  type Bytes = seq<bv8>

  datatype Node = File(content: Bytes) | Dir(entries: seq<Entry>)

  datatype Entry = Entry(name: Name, node: Node)

  /** Position of the first entry called `name`, or -1 when there is none. */
  function IndexOf(es: seq<Entry>, name: Name): (i: int)
    ensures -1 <= i < |es|
    ensures 0 <= i ==> es[i].name == name
    ensures forall j :: 0 <= j < |es| && (i < 0 || j < i) ==> es[j].name != name
    decreases |es|
  {
    if es == [] then -1
    else if es[0].name == name then 0
    else
      var k := IndexOf(es[1..], name);
      if k < 0 then -1 else k + 1
  }

  /** The node a directory holds under `name`. */
  function Find(es: seq<Entry>, name: Name): Option<Node> {
    var i := IndexOf(es, name);
    if i < 0 then None else Some(es[i].node)
  }

  /** The node at `p` below `n`, if any (`fs.existsSync` / `fs.statSync`). */
  function Lookup(n: Node, p: Path): Option<Node>
    decreases |p|
  {
    if p == [] then Some(n)
    else match n
      case File(_) => None
      case Dir(es) =>
        match Find(es, p[0])
        case None => None
        case Some(c) => Lookup(c, p[1..])
  }

  predicate Exists(n: Node, p: Path) {
    Lookup(n, p).Some?
  }

  predicate IsFileAt(n: Node, p: Path) {
    Lookup(n, p).Some? && Lookup(n, p).value.File?
  }

  predicate IsDirAt(n: Node, p: Path) {
    Lookup(n, p).Some? && Lookup(n, p).value.Dir?
  }

  /** `p` can be created or overwritten: it has a parent and that parent is a directory. */
  predicate CanPlace(n: Node, p: Path) {
    p != [] && IsDirAt(n, Parent(p))
  }

  /** Directory entries with distinct, valid names, all the way down. */
  predicate WellFormed(n: Node)
    decreases n
  {
    match n
    case File(_) => true
    case Dir(es) =>
      && (forall i, j :: 0 <= i < j < |es| ==> es[i].name != es[j].name)
      && (forall i :: 0 <= i < |es| ==> ValidName(es[i].name) && WellFormed(es[i].node))
  }

  /** Replace the entry called `name`, or append one. */
  function SetChild(es: seq<Entry>, name: Name, v: Node): seq<Entry> {
    var i := IndexOf(es, name);
    if i < 0 then es + [Entry(name, v)] else es[i := Entry(name, v)]
  }

  /** Drop every entry called `name`. */
  function RemoveChild(es: seq<Entry>, name: Name): seq<Entry>
    decreases |es|
  {
    if es == [] then []
    else (if es[0].name == name then [] else [es[0]]) + RemoveChild(es[1..], name)
  }

  /**
   * Place `v` at `p`, replacing whatever is there. Nothing changes when a
   * directory on the way to `p` is missing or is a file.
   */
  function Put(n: Node, p: Path, v: Node): Node
    decreases |p|
  {
    if p == [] then v
    else match n
      case File(_) => n
      case Dir(es) =>
        match Find(es, p[0])
        case Some(c) => Dir(SetChild(es, p[0], Put(c, p[1..], v)))
        case None => if |p| == 1 then Dir(SetChild(es, p[0], v)) else n
  }

  /** Remove the subtree at `p` if there is one (the root itself is never removed). */
  function Delete(n: Node, p: Path): Node
    decreases |p|
  {
    if p == [] then n
    else match n
      case File(_) => n
      case Dir(es) =>
        if |p| == 1 then Dir(RemoveChild(es, p[0]))
        else match Find(es, p[0])
          case None => n
          case Some(c) => Dir(SetChild(es, p[0], Delete(c, p[1..])))
  }

  /**
   * The non-directory leaves below `n`, depth first in entry order, each as
   * the path `at` extended by the names leading to it.
   */
  function Leaves(n: Node, at: Path): seq<Path>
    decreases n, 1
  {
    match n
    case File(_) => [at]
    case Dir(es) => LeavesUpTo(n, |es|, at)
  }

  /** The leaves below the first `k` entries of directory `n`. */
  function LeavesUpTo(n: Node, k: nat, at: Path): seq<Path>
    requires n.Dir? && k <= |n.entries|
    decreases n, 0, k
  {
    if k == 0 then []
    else LeavesUpTo(n, k - 1, at) + Leaves(n.entries[k - 1].node, at + [n.entries[k - 1].name])
  }

  predicate NoDup<T(==)>(s: seq<T>) {
    forall i, j :: 0 <= i < j < |s| ==> s[i] != s[j]
  }

  // ---------------------------------------------------------------------------
  // Directory entries

  lemma FindCons(es: seq<Entry>, b: Name)
    requires es != []
    ensures Find(es, b) == if es[0].name == b then Some(es[0].node) else Find(es[1..], b)
  {
  }

  lemma FindSet(es: seq<Entry>, a: Name, v: Node, b: Name)
    ensures Find(SetChild(es, a, v), b) == if a == b then Some(v) else Find(es, b)
  {
    var es' := SetChild(es, a, v);
    var i, k, m := IndexOf(es, a), IndexOf(es', b), IndexOf(es, b);
    if i < 0 {
      assert es' == es + [Entry(a, v)];
      assert forall j :: 0 <= j < |es| ==> es'[j] == es[j];
      assert es'[|es|].name == a;
    } else {
      assert forall j :: 0 <= j < |es| ==> es'[j].name == es[j].name;
      assert k == m;
    }
  }

  lemma {:induction false} FindRemove(es: seq<Entry>, a: Name, b: Name)
    ensures Find(RemoveChild(es, a), b) == if a == b then None else Find(es, b)
    decreases |es|
  {
    if es != [] {
      var rest := RemoveChild(es[1..], a);
      FindRemove(es[1..], a, b);
      FindCons(es, b);
      if es[0].name == a {
        assert RemoveChild(es, a) == rest;
      } else {
        assert RemoveChild(es, a) == [es[0]] + rest;
        assert ([es[0]] + rest)[1..] == rest;
        FindCons([es[0]] + rest, b);
      }
    }
  }

  /** With distinct names, every entry is the one its name finds. */
  lemma FindDistinct(es: seq<Entry>, i: nat)
    requires i < |es|
    requires forall x, y :: 0 <= x < y < |es| ==> es[x].name != es[y].name
    ensures Find(es, es[i].name) == Some(es[i].node)
  {
    var k := IndexOf(es, es[i].name);
    assert k == i;
  }

  // ---------------------------------------------------------------------------
  // Lookup

  lemma {:induction false} LookupConcat(n: Node, a: Path, b: Path)
    ensures Lookup(n, a + b) == match Lookup(n, a) case None => None case Some(m) => Lookup(m, b)
    decreases |a|
  {
    if a != [] {
      assert (a + b)[0] == a[0] && (a + b)[1..] == a[1..] + b;
      match n
      case File(_) =>
      case Dir(es) =>
        match Find(es, a[0])
        case None =>
        case Some(c) => LookupConcat(c, a[1..], b);
    }
    else {
      assert a + b == b;
    }
  }

  /** Everything strictly above an existing path is a directory. */
  lemma LookupPrefixIsDir(n: Node, p: Path, q: Path)
    requires Exists(n, q) && IsPrefix(p, q) && p != q
    ensures IsDirAt(n, p)
  {
    var rest := q[|p|..];
    assert q == p + rest;
    LookupConcat(n, p, rest);
  }

  lemma WellFormedLookup(n: Node, p: Path)
    requires WellFormed(n) && Exists(n, p)
    ensures WellFormed(Lookup(n, p).value)
    decreases |p|
  {
    if p != [] {
      var es := n.entries;
      var i := IndexOf(es, p[0]);
      WellFormedLookup(es[i].node, p[1..]);
    }
  }

  /** In a well-formed tree, every path that leads somewhere is made of valid names. */
  lemma {:induction false} WellFormedNames(n: Node, p: Path)
    requires WellFormed(n) && Exists(n, p)
    ensures ValidPath(p)
    decreases |p|
  {
    if p != [] {
      var i := IndexOf(n.entries, p[0]);
      WellFormedNames(n.entries[i].node, p[1..]);
      assert forall k :: 1 <= k < |p| ==> p[k] == p[1..][k - 1];
    }
  }

  /** Nothing exists below a missing path. */
  lemma MissingBelow(n: Node, p: Path, q: Path)
    requires !Exists(n, p) && IsPrefix(p, q)
    ensures !Exists(n, q)
  {
    assert q == p + q[|p|..];
    LookupConcat(n, p, q[|p|..]);
  }

  // ---------------------------------------------------------------------------
  // Put

  /** Below the placed path, the tree is the placed node. */
  lemma {:induction false} PutBelow(n: Node, p: Path, v: Node, q: Path)
    requires CanPlace(n, p) && IsPrefix(p, q)
    ensures Lookup(Put(n, p, v), q) == Lookup(v, q[|p|..])
    decreases |p|
  {
    var a := p[0];
    assert n.Dir? by {
      if |p| > 1 {
        assert Parent(p)[0] == a;
      }
    }
    var es := n.entries;
    assert q[0] == a;
    match Find(es, a)
    case Some(c) =>
      var c' := Put(c, p[1..], v);
      assert Put(n, p, v) == Dir(SetChild(es, a, c'));
      LookupSetChild(es, a, c', q);
      if |p| > 1 {
        assert Parent(p) == [a] + Parent(p[1..]);
        assert IsDirAt(c, Parent(p[1..]));
        PutBelow(c, p[1..], v, q[1..]);
        assert q[1..][|p| - 1..] == q[|p|..];
      }
    case None =>
      assert |p| == 1 && Put(n, p, v) == Dir(SetChild(es, a, v));
      LookupSetChild(es, a, v, q);
  }

  /** Looking up through an entry that was just set reaches the node it was set to. */
  lemma LookupSetChild(es: seq<Entry>, a: Name, c: Node, q: Path)
    requires q != [] && q[0] == a
    ensures Lookup(Dir(SetChild(es, a, c)), q) == Lookup(c, q[1..])
  {
    FindSet(es, a, c, a);
  }

  /** Placing at `p` the node already there changes nothing. */
  lemma {:induction false} PutSame(n: Node, p: Path, v: Node)
    requires Lookup(n, p) == Some(v)
    ensures Put(n, p, v) == n
    decreases |p|
  {
    if p != [] {
      var es, a := n.entries, p[0];
      var c := Find(es, a).value;
      PutSame(c, p[1..], v);
      var i := IndexOf(es, a);
      assert es[i := Entry(a, c)] == es;
    }
  }

  lemma PutAt(n: Node, p: Path, v: Node)
    requires CanPlace(n, p)
    ensures Lookup(Put(n, p, v), p) == Some(v)
  {
    PutBelow(n, p, v, p);
  }

  /** Paths that neither contain nor lie below the placed path are untouched. */
  lemma {:induction false} PutElsewhere(n: Node, p: Path, v: Node, q: Path)
    requires Unrelated(p, q)
    ensures Lookup(Put(n, p, v), q) == Lookup(n, q)
    decreases |p|
  {
    match n
    case File(_) =>
    case Dir(es) =>
      var a := p[0];
      if q[0] != a {
        match Find(es, a)
        case Some(c) => FindSet(es, a, Put(c, p[1..], v), q[0]);
        case None => FindSet(es, a, v, q[0]);
      } else {
        match Find(es, a)
        case Some(c) =>
          FindSet(es, a, Put(c, p[1..], v), a);
          assert Unrelated(p[1..], q[1..]) by {
            assert p == [a] + p[1..] && q == [a] + q[1..];
          }
          PutElsewhere(c, p[1..], v, q[1..]);
        case None =>
      }
  }

  /** Directories above the placed path stay directories. */
  lemma {:induction false} PutKeepsAncestors(n: Node, p: Path, v: Node, q: Path)
    requires IsPrefix(q, p) && q != p && IsDirAt(n, q)
    ensures IsDirAt(Put(n, p, v), q)
    decreases |q|
  {
    if q != [] {
      var es, a := n.entries, p[0];
      assert q[0] == a;
      var c := Find(es, a).value;
      FindSet(es, a, Put(c, p[1..], v), a);
      PutKeepsAncestors(c, p[1..], v, q[1..]);
    }
  }

  /** Placing at a path that is not a directory keeps every file except the one at that path. */
  lemma PutKeepsFiles(n: Node, p: Path, v: Node, q: Path)
    requires CanPlace(n, p) && !IsPrefix(p, q) && IsFileAt(n, q)
    ensures Lookup(Put(n, p, v), q) == Lookup(n, q)
  {
    if !IsPrefix(q, p) {
      PutElsewhere(n, p, v, q);
    } else if q != Parent(p) {
      LookupPrefixIsDir(n, q, Parent(p));
    }
  }

  /**
   * Creating an empty directory at a missing path changes nothing but that
   * path and the listings of the directories above it.
   */
  lemma PutNewDir(n: Node, d: Path)
    requires CanPlace(n, d) && !Exists(n, d)
    ensures IsDirAt(Put(n, d, Dir([])), d)
    ensures forall q :: !IsPrefix(q, d) ==> Lookup(Put(n, d, Dir([])), q) == Lookup(n, q)
    ensures forall q :: IsPrefix(q, d) && IsDirAt(n, q) ==> IsDirAt(Put(n, d, Dir([])), q)
  {
    var n' := Put(n, d, Dir([]));
    PutAt(n, d, Dir([]));
    forall q | !IsPrefix(q, d)
      ensures Lookup(n', q) == Lookup(n, q)
    {
      if IsPrefix(d, q) {
        MissingBelow(n, d, q);
        PutBelow(n, d, Dir([]), q);
      } else {
        PutElsewhere(n, d, Dir([]), q);
      }
    }
    forall q | IsPrefix(q, d) && IsDirAt(n, q)
      ensures IsDirAt(n', q)
    {
      PutKeepsAncestors(n, d, Dir([]), q);
    }
  }

  // ---------------------------------------------------------------------------
  // Delete

  lemma {:induction false} DeleteBelow(n: Node, p: Path, q: Path)
    requires p != [] && IsPrefix(p, q)
    ensures Lookup(Delete(n, p), q) == None
    decreases |p|
  {
    match n
    case File(_) =>
    case Dir(es) =>
      var a := p[0];
      assert q[0] == a;
      if |p| == 1 {
        FindRemove(es, a, a);
      } else {
        match Find(es, a)
        case None =>
        case Some(c) =>
          FindSet(es, a, Delete(c, p[1..]), a);
          DeleteBelow(c, p[1..], q[1..]);
      }
  }

  /** Removing a subtree keeps every file outside it. */
  lemma {:induction false} DeleteKeepsFiles(n: Node, p: Path, q: Path)
    requires p != [] && !IsPrefix(p, q) && IsFileAt(n, q)
    ensures Lookup(Delete(n, p), q) == Lookup(n, q)
    decreases |p|
  {
    match n
    case File(_) =>
    case Dir(es) =>
      var a := p[0];
      if q[0] != a {
        if |p| == 1 {
          FindRemove(es, a, q[0]);
        } else {
          match Find(es, a)
          case None =>
          case Some(c) => FindSet(es, a, Delete(c, p[1..]), q[0]);
        }
      } else if |p| > 1 {
        var c := Find(es, a).value;
        FindSet(es, a, Delete(c, p[1..]), a);
        assert !IsPrefix(p[1..], q[1..]) by {
          assert p == [a] + p[1..] && q == [a] + q[1..];
        }
        DeleteKeepsFiles(c, p[1..], q[1..]);
      }
  }

  /** Removing a subtree leaves every path unrelated to it as it was. */
  lemma {:induction false} DeleteElsewhere(n: Node, p: Path, q: Path)
    requires Unrelated(p, q)
    ensures Lookup(Delete(n, p), q) == Lookup(n, q)
    decreases |p|
  {
    match n
    case File(_) =>
    case Dir(es) =>
      var a := p[0];
      if q[0] != a {
        if |p| == 1 {
          FindRemove(es, a, q[0]);
        } else {
          match Find(es, a)
          case None =>
          case Some(c) => FindSet(es, a, Delete(c, p[1..]), q[0]);
        }
      } else if |p| > 1 {
        match Find(es, a)
        case None =>
        case Some(c) =>
          FindSet(es, a, Delete(c, p[1..]), a);
          assert Unrelated(p[1..], q[1..]) by {
            assert p == [a] + p[1..] && q == [a] + q[1..];
          }
          DeleteElsewhere(c, p[1..], q[1..]);
      }
  }

  // ---------------------------------------------------------------------------
  // Leaves

  /** Each leaf of the first `k` entries comes from one of them and lies below it. */
  lemma {:induction false} LeavesUpToOrigin(n: Node, k: nat, at: Path, p: Path)
    requires n.Dir? && k <= |n.entries| && p in LeavesUpTo(n, k, at)
    ensures exists i :: 0 <= i < k && p in Leaves(n.entries[i].node, at + [n.entries[i].name])
    decreases k
  {
    if p !in Leaves(n.entries[k - 1].node, at + [n.entries[k - 1].name]) {
      LeavesUpToOrigin(n, k - 1, at, p);
    }
  }

  /** Each leaf of an earlier entry is among the leaves of the first `k` entries. */
  lemma {:induction false} LeavesUpToIncludes(n: Node, k: nat, at: Path, i: nat, p: Path)
    requires n.Dir? && i < k <= |n.entries|
    requires p in Leaves(n.entries[i].node, at + [n.entries[i].name])
    ensures p in LeavesUpTo(n, k, at)
    decreases k
  {
    if i < k - 1 {
      LeavesUpToIncludes(n, k - 1, at, i, p);
    }
  }

  /** Every leaf lies below the walked path, strictly below it when a directory is walked. */
  lemma {:induction false} LeavesUnder(n: Node, at: Path, p: Path)
    requires p in Leaves(n, at)
    ensures IsPrefix(at, p)
    ensures n.Dir? ==> |p| > |at|
    decreases n
  {
    if n.Dir? {
      LeavesUpToOrigin(n, |n.entries|, at, p);
      var i :| 0 <= i < |n.entries| && p in Leaves(n.entries[i].node, at + [n.entries[i].name]);
      LeavesUnder(n.entries[i].node, at + [n.entries[i].name], p);
    }
  }

  /** Leaves are files: the walk never reports a directory. */
  lemma {:induction false} LeavesAreFiles(n: Node, at: Path, p: Path)
    requires WellFormed(n) && p in Leaves(n, at)
    ensures IsPrefix(at, p) && IsFileAt(n, p[|at|..])
    decreases n
  {
    LeavesUnder(n, at, p);
    if n.Dir? {
      var es := n.entries;
      LeavesUpToOrigin(n, |es|, at, p);
      var i :| 0 <= i < |es| && p in Leaves(es[i].node, at + [es[i].name]);
      var at' := at + [es[i].name];
      LeavesAreFiles(es[i].node, at', p);
      FindDistinct(es, i);
      PrefixStep(at, es[i].name, p);
    } else {
      assert Leaves(n, at) == [at];
    }
  }

  /** A path below `at + [x]` continues `at` with `x`. */
  lemma PrefixStep(at: Path, x: Name, p: Path)
    requires IsPrefix(at + [x], p)
    ensures |p| > |at| && p[|at|..] == [x] + p[|at| + 1..]
  {
    assert p[|at|] == (at + [x])[|at|];
  }

  /** Every file below the walked node is a leaf: the walk omits nothing. */
  lemma {:induction false} LeavesComplete(n: Node, at: Path, rel: Path)
    requires IsFileAt(n, rel)
    ensures at + rel in Leaves(n, at)
    decreases |rel|
  {
    if rel == [] {
      assert at + rel == at;
    } else {
      var es := n.entries;
      var i := IndexOf(es, rel[0]);
      var at' := at + [rel[0]];
      LeavesComplete(es[i].node, at', rel[1..]);
      assert at' + rel[1..] == at + rel;
      LeavesUpToIncludes(n, |es|, at, i, at + rel);
    }
  }

  lemma NoDupConcat<T>(a: seq<T>, b: seq<T>)
    requires NoDup(a) && NoDup(b)
    requires forall x :: x in a ==> x !in b
    ensures NoDup(a + b)
  {
    forall i, j | 0 <= i < j < |a + b|
      ensures (a + b)[i] != (a + b)[j]
    {
      if i < |a| && j >= |a| {
        assert (a + b)[i] in a && (a + b)[j] == b[j - |a|];
      }
    }
  }

  /** In a well-formed tree every leaf is reported once. */
  lemma {:induction false} LeavesNoDup(n: Node, at: Path)
    requires WellFormed(n)
    ensures NoDup(Leaves(n, at))
    decreases n, 1
  {
    if n.Dir? {
      LeavesUpToNoDup(n, |n.entries|, at);
    }
  }

  /** A leaf of the first `k` entries continues the walked path with one of their names. */
  lemma LeavesUpToNames(n: Node, k: nat, at: Path, x: Path)
    requires n.Dir? && k <= |n.entries| && x in LeavesUpTo(n, k, at)
    ensures |x| > |at| && exists i :: 0 <= i < k && x[|at|] == n.entries[i].name
  {
    LeavesUpToOrigin(n, k, at, x);
    var i :| 0 <= i < k && x in Leaves(n.entries[i].node, at + [n.entries[i].name]);
    LeavesUnder(n.entries[i].node, at + [n.entries[i].name], x);
    assert x[|at|] == (at + [n.entries[i].name])[|at|];
  }

  lemma {:induction false} LeavesUpToNoDup(n: Node, k: nat, at: Path)
    requires WellFormed(n) && n.Dir? && k <= |n.entries|
    ensures NoDup(LeavesUpTo(n, k, at))
    decreases n, 0, k
  {
    if k > 0 {
      var es := n.entries;
      var name := es[k - 1].name;
      var front := LeavesUpTo(n, k - 1, at);
      var last := Leaves(es[k - 1].node, at + [name]);
      LeavesUpToNoDup(n, k - 1, at);
      LeavesNoDup(es[k - 1].node, at + [name]);
      forall x | x in front
        ensures x !in last
      {
        LeavesUpToNames(n, k - 1, at, x);
        if x in last {
          LeavesUnder(es[k - 1].node, at + [name], x);
        }
      }
      NoDupConcat(front, last);
    }
  }

  // ---------------------------------------------------------------------------
  // First existing candidate

  /** Index of the first candidate path that exists, as `candidates.find(existsSync)` picks it. */
  function FirstExisting(n: Node, candidates: seq<Path>): (r: Option<nat>)
    ensures r.Some? ==> r.value < |candidates|
  {
    if candidates == [] then None
    else if Exists(n, candidates[0]) then Some(0)
    else match FirstExisting(n, candidates[1..])
      case None => None
      case Some(k) => Some(k + 1)
  }

  /** The search looks only at which candidates exist. */
  lemma {:induction false} FirstExistingAgree(a: Node, b: Node, candidates: seq<Path>)
    requires forall k :: 0 <= k < |candidates| ==> (Exists(a, candidates[k]) <==> Exists(b, candidates[k]))
    ensures FirstExisting(a, candidates) == FirstExisting(b, candidates)
    decreases |candidates|
  {
    if candidates != [] {
      assert forall k :: 0 <= k < |candidates| - 1 ==> candidates[1..][k] == candidates[k + 1];
      FirstExistingAgree(a, b, candidates[1..]);
    }
  }

  /** A file has nothing below it: of two files, one is a prefix of the other only when they are the same. */
  lemma FilesNotNested(n: Node, a: Path, b: Path)
    requires IsFileAt(n, a) && IsFileAt(n, b) && IsPrefix(a, b)
    ensures a == b
  {
    assert b == a + b[|a|..];
    LookupConcat(n, a, b[|a|..]);
  }

  /** The search answers with the earliest existing candidate, and with nothing only when none exists. */
  lemma {:induction false} FirstExistingSpec(n: Node, candidates: seq<Path>)
    ensures FirstExisting(n, candidates).Some? ==>
      Exists(n, candidates[FirstExisting(n, candidates).value]) &&
      forall j :: 0 <= j < FirstExisting(n, candidates).value ==> !Exists(n, candidates[j])
    ensures FirstExisting(n, candidates).None? <==> forall j :: 0 <= j < |candidates| ==> !Exists(n, candidates[j])
  {
    if candidates != [] && !Exists(n, candidates[0]) {
      FirstExistingSpec(n, candidates[1..]);
      assert forall j :: 1 <= j < |candidates| ==> candidates[j] == candidates[1..][j - 1];
    }
  }
}
