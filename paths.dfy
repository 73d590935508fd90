/**
 * Normalised paths as sequences of segments, and the parts of Node's `path`
 * module the bundler relies on: `join`, `dirname`, `relative`, `resolve`,
 * and the rendering of a path as the string handed to other programs.
 */
module Paths {

  type Name = string

  /** An absolute, normalised path: `["tmp", "x", "proto"]` is `/tmp/x/proto`. */
  type Path = seq<Name>

  predicate IsPrefix(a: Path, b: Path) {
    |a| <= |b| && b[..|a|] == a
  }

  /** Neither path lies inside the other. */
  predicate Unrelated(a: Path, b: Path) {
    !IsPrefix(a, b) && !IsPrefix(b, a)
  }

  /** A segment a directory entry can carry: non-empty, no separator, not `.` or `..`. */
  predicate ValidName(s: Name) {
    s != "" && s != "." && s != ".." && '/' !in s
  }

  predicate ValidPath(p: Path) {
    forall i :: 0 <= i < |p| ==> ValidName(p[i])
  }

  /** `Path.dirname`; the root is its own parent. */
  function Parent(p: Path): Path {
    if p == [] then [] else p[..|p| - 1]
  }

  /** Segments joined with `/`, as `Path.relative` and `Path.join` print them. */
  function Join(p: seq<Name>): string {
    if |p| == 0 then "" else if |p| == 1 then p[0] else p[0] + "/" + Join(p[1..])
  }

  /** The string form of an absolute path. */
  function Absolute(p: Path): string {
    "/" + Join(p)
  }

  /** `String.prototype.endsWith`. */
  predicate EndsWith(s: string, suffix: string) {
    |suffix| <= |s| && s[|s| - |suffix|..] == suffix
  }

  /** Length of the longest common prefix of two paths. */
  function CommonLength(a: Path, b: Path): (n: nat)
    ensures n <= |a| && n <= |b| && a[..n] == b[..n]
    ensures n < |a| && n < |b| ==> a[n] != b[n]
    decreases |a|
  {
    if a == [] || b == [] || a[0] != b[0] then 0
    else 1 + CommonLength(a[1..], b[1..])
  }

  function Ups(k: nat): (r: seq<Name>)
    ensures |r| == k && forall i :: 0 <= i < k ==> r[i] == ".."
  {
    seq(k, _ => "..")
  }

  /** `Path.relative(from, to)`: climb to the deepest common ancestor, then descend to `to`. */
  function Relative(from: Path, to: Path): seq<Name> {
    var c := CommonLength(from, to);
    Ups(|from| - c) + to[c..]
  }

  /**
   * `Path.join(base, rel)` / `Path.resolve(base, rel)` for a relative `rel`:
   * `..` climbs (never above the root), any other segment descends.
   */
  function Resolve(base: Path, rel: seq<Name>): Path
    decreases |rel|
  {
    if rel == [] then base
    else Resolve(if rel[0] == ".." then Parent(base) else base + [rel[0]], rel[1..])
  }


  /** Index of the first `/` in `s`, or -1. */
  function SlashIndex(s: string): (i: int)
    ensures -1 <= i < |s|
    ensures i >= 0 ==> s[i] == '/' && '/' !in s[..i]
    ensures i < 0 ==> '/' !in s
    decreases |s|
  {
    if s == "" then -1
    else if s[0] == '/' then 0
    else
      var k := SlashIndex(s[1..]);
      if k < 0 then -1
      else
        assert s[..k + 1] == [s[0]] + s[1..][..k];
        k + 1
  }

  /** How a program reading a relative path string splits it into segments. */
  function Segments(s: string): seq<Name>
    decreases |s|
  {
    if s == "" then []
    else
      var i := SlashIndex(s);
      if i < 0 then [s] else [s[..i]] + Segments(s[i + 1..])
  }

  // ---------------------------------------------------------------------------
  // Lemmas

  /** Below its own root, `Path.relative` drops the root: `root ++ relative == p`. */
  lemma RelativeUnder(root: Path, p: Path)
    requires IsPrefix(root, p)
    ensures Relative(root, p) == p[|root|..]
    ensures root + Relative(root, p) == p
  {
    assert p[..|root|] == root;
  }

  lemma {:induction false} ResolveDescends(base: Path, rel: seq<Name>)
    requires forall i :: 0 <= i < |rel| ==> rel[i] != ".."
    ensures Resolve(base, rel) == base + rel
    decreases |rel|
  {
    if rel != [] {
      ResolveDescends(base + [rel[0]], rel[1..]);
      assert base + [rel[0]] + rel[1..] == base + rel;
    }
  }

  lemma {:induction false} ResolveClimbs(base: Path, k: nat, rest: seq<Name>)
    requires k <= |base|
    ensures Resolve(base, Ups(k) + rest) == Resolve(base[..|base| - k], rest)
    decreases k
  {
    if k > 0 {
      var rel := Ups(k) + rest;
      assert rel[0] == ".." && rel[1..] == Ups(k - 1) + rest;
      assert Resolve(base, rel) == Resolve(Parent(base), rel[1..]);
      ResolveClimbs(Parent(base), k - 1, rest);
      assert Parent(base)[..|Parent(base)| - (k - 1)] == base[..|base| - k];
    } else {
      assert Ups(0) + rest == rest && base[..|base|] == base;
    }
  }

  /** Round trip: resolving `Path.relative(from, to)` against `from` gives back `to`. */
  lemma ResolveRelative(from: Path, to: Path)
    requires ValidPath(to)
    ensures Resolve(from, Relative(from, to)) == to
  {
    var c := CommonLength(from, to);
    ResolveClimbs(from, |from| - c, to[c..]);
    assert from[..|from| - (|from| - c)] == from[..c];
    ResolveDescends(from[..c], to[c..]);
    assert from[..c] + to[c..] == to[..c] + to[c..] == to;
  }

  /** Paths that diverge keep diverging whatever is appended to them. */
  lemma UnrelatedExtend(a: Path, b: Path, x: Path, y: Path)
    requires Unrelated(a, b)
    ensures Unrelated(a + x, b + y)
  {
    var m := if |a| <= |b| then |a| else |b|;
    assert a[..m] != b[..m];
    var i :| 0 <= i < m && a[..m][i] != b[..m][i];
    assert (a + x)[i] == a[i] && (b + y)[i] == b[i];
  }

  function AbsoluteHead(p: Path): string
    requires |p| >= 1
  {
    if |p| == 1 then "" else Absolute(p[..|p| - 1])
  }

  lemma {:induction false} JoinLast(p: seq<Name>)
    requires |p| >= 2
    ensures Join(p) == Join(p[..|p| - 1]) + "/" + p[|p| - 1]
    decreases |p|
  {
    if |p| > 2 {
      JoinLast(p[1..]);
      assert p[1..][..|p| - 2] == p[..|p| - 1][1..];
    }
  }

  lemma AbsoluteLast(p: Path)
    requires |p| >= 1
    ensures Absolute(p) == AbsoluteHead(p) + "/" + p[|p| - 1]
  {
    if |p| >= 2 {
      JoinLast(p);
    }
  }

  /**
   * A suffix without a separator (`.proto`, `.hbs`) matches the rendered path
   * exactly when it matches the last segment.
   */
  lemma EndsWithLast(p: Path, suffix: string)
    requires |p| >= 1 && '/' !in suffix
    ensures EndsWith(Absolute(p), suffix) <==> EndsWith(p[|p| - 1], suffix)
  {
    AbsoluteLast(p);
    EndsWithAfterSlash(AbsoluteHead(p), p[|p| - 1], suffix);
  }

  /** A suffix without a separator cannot reach past the last `/`. */
  lemma EndsWithAfterSlash(head: string, last: string, suffix: string)
    requires '/' !in suffix
    ensures EndsWith(head + "/" + last, suffix) <==> EndsWith(last, suffix)
  {
    var s := head + "/" + last;
    if |suffix| <= |last| {
      assert s[|s| - |suffix|..] == last[|last| - |suffix|..];
    } else if |suffix| <= |s| {
      var k := |head|;
      assert s[k] == '/';
      assert s[|s| - |suffix|..][k - (|s| - |suffix|)] == '/';
    }
  }

  /** Round trip: splitting a joined path at `/` gives back its segments. */
  lemma {:induction false} SegmentsJoin(p: seq<Name>)
    requires forall i :: 0 <= i < |p| ==> p[i] != "" && '/' !in p[i]
    ensures Segments(Join(p)) == p
    decreases |p|
  {
    if |p| == 1 {
      assert Join(p) == p[0];
    } else if |p| > 1 {
      var s := Join(p);
      var n := |p[0]|;
      assert s == p[0] + "/" + Join(p[1..]);
      assert s[..n] == p[0] && s[n] == '/' && s[n + 1..] == Join(p[1..]);
      assert SlashIndex(s) == n;
      SegmentsJoin(p[1..]);
    }
  }

  /** Every segment of `Path.relative(from, to)` is `..` or a segment of `to`. */
  lemma RelativeSegments(from: Path, to: Path)
    requires ValidPath(to)
    ensures forall i :: 0 <= i < |Relative(from, to)| ==> Relative(from, to)[i] != "" && '/' !in Relative(from, to)[i]
  {
    var c := CommonLength(from, to);
    var r := Relative(from, to);
    forall i | 0 <= i < |r|
      ensures r[i] != "" && '/' !in r[i]
    {
      if i >= |from| - c {
        assert r[i] == to[c + i - (|from| - c)];
      }
    }
  }
}
