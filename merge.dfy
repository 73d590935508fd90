/**
 * `deepMerge(target, source)` (src/util/merge.ts): a recursive merge of
 * JSON-like objects. Plain objects are merged key by key; arrays, `null` and
 * scalars from the source replace; an `undefined` source value is ignored.
 * Objects are ordered member lists, as JavaScript enumerates string keys in
 * insertion order.
 */
module Merge {
  import opened Wrappers

  datatype Json =
    | Undefined
    | Null
    | Bool(b: bool)
    | Num(n: int)
    | Str(s: string)
    | Arr(items: seq<Json>)
    | Obj(members: seq<Member>)

  datatype Member = Member(key: string, value: Json)

  /** An object never carries a key twice. */
  predicate UniqueKeys(ms: seq<Member>) {
    forall i, j :: 0 <= i < j < |ms| ==> ms[i].key != ms[j].key
  }

  /** The value stored under `k`, if the key is present. */
  function Get(ms: seq<Member>, k: string): Option<Json> {
    if ms == [] then None
    else if ms[0].key == k then Some(ms[0].value)
    else Get(ms[1..], k)
  }

  /** A key is missing exactly when no member carries it. */
  lemma {:induction false} GetAbsent(ms: seq<Member>, k: string)
    ensures Get(ms, k).None? <==> forall i :: 0 <= i < |ms| ==> ms[i].key != k
    decreases |ms|
  {
    if ms != [] {
      GetAbsent(ms[1..], k);
      assert forall i :: 1 <= i < |ms| ==> ms[i] == ms[1..][i - 1];
    }
  }

  /** A key that is found is found in one of the members. */
  lemma {:induction false} GetFound(ms: seq<Member>, k: string)
    requires Get(ms, k).Some?
    ensures Member(k, Get(ms, k).value) in ms
    decreases |ms|
  {
    if ms[0].key != k {
      GetFound(ms[1..], k);
    }
  }

  /** `obj[k]`: an absent key reads as `undefined`. */
  function Prop(ms: seq<Member>, k: string): Json {
    match Get(ms, k)
    case Some(v) => v
    case None => Undefined
  }

  /**
   * `obj[k] = v`: a present key keeps its place and takes the new value, a
   * new key is added last.
   */
  function Set(ms: seq<Member>, k: string, v: Json): seq<Member>
  {
    if ms == [] then [Member(k, v)]
    else if ms[0].key == k then [Member(k, v)] + ms[1..]
    else
      [ms[0]] + Set(ms[1..], k, v)
  }

  /**
   * Setting a present key keeps every member in its place; setting a new key
   * adds one member, last.
   */
  lemma {:induction false} SetShape(ms: seq<Member>, k: string, v: Json)
    ensures var r := Set(ms, k, v);
      && |ms| <= |r| <= |ms| + 1
      && (forall i :: 0 <= i < |ms| ==> r[i].key == ms[i].key)
      && (|r| == |ms| + 1 <==> Get(ms, k).None?)
      && (|r| == |ms| + 1 ==> r[|ms|] == Member(k, v))
    decreases |ms|
  {
    if ms != [] && ms[0].key != k {
      SetShape(ms[1..], k, v);
      assert forall i :: 1 <= i < |ms| ==> ms[i] == ms[1..][i - 1];
    }
  }

  /** After setting `k`, `k` reads the new value and every other key reads as before. */
  lemma {:induction false} SetGet(ms: seq<Member>, k: string, v: Json, j: string)
    ensures Get(Set(ms, k, v), j) == if j == k then Some(v) else Get(ms, j)
    decreases |ms|
  {
    if ms != [] && ms[0].key != k {
      SetGet(ms[1..], k, v, j);
      assert Set(ms, k, v)[1..] == Set(ms[1..], k, v);
    }
  }

  /** Setting a key keeps the keys of an object unique. */
  lemma SetUnique(ms: seq<Member>, k: string, v: Json)
    requires UniqueKeys(ms)
    ensures UniqueKeys(Set(ms, k, v))
  {
    var r := Set(ms, k, v);
    SetShape(ms, k, v);
    GetAbsent(ms, k);
    forall i, j | 0 <= i < j < |r|
      ensures r[i].key != r[j].key
    {
      if j == |ms| {
        assert r[i].key == ms[i].key;
      } else {
        assert r[i].key == ms[i].key && r[j].key == ms[j].key;
      }
    }
  }

  /** `deepMerge(target, source)` on the members of both objects. */
  function Merge(t: seq<Member>, s: seq<Member>): seq<Member>
    decreases s, 2
  {
    MergeUpTo(t, s, |s|)
  }

  /** The result after the loop has handled the first `k` source keys. */
  function MergeUpTo(t: seq<Member>, s: seq<Member>, k: nat): seq<Member>
    requires k <= |s|
    decreases s, 1, k
  {
    if k == 0 then t
    else if s[k - 1].value.Undefined? then MergeUpTo(t, s, k - 1)
    else Set(MergeUpTo(t, s, k - 1), s[k - 1].key, Incoming(t, s, k - 1))
  }

  /**
   * The value the `i`-th source member brings: the merge of two plain
   * objects, or else the source value itself.
   */
  function Incoming(t: seq<Member>, s: seq<Member>, i: nat): Json
    requires i < |s|
    decreases s, 0
  {
    var sv, tv := s[i].value, Prop(t, s[i].key);
    if sv.Obj? && tv.Obj? then
      assert s[i] in s;
      Obj(Merge(tv.members, sv.members))
    else sv
  }

  /**
   * The rule for one key, stated on its own: a key the source lacks keeps the
   * target's value; two plain objects merge; any other defined source value
   * replaces; an `undefined` source value leaves the target's value.
   */
  function MergedValue(t: seq<Member>, s: seq<Member>, k: string): Option<Json>
    decreases s, 3
  {
    match Get(s, k)
    case None => Get(t, k)
    case Some(sv) =>
      var tv := Prop(t, k);
      if sv.Obj? && tv.Obj? then
        GetFound(s, k);
        Some(Obj(Merge(tv.members, sv.members)))
      else if !sv.Undefined? then Some(sv)
      else Get(t, k)
  }

  /**
   * `deepMerge`: start from a copy of `target`, then for each key of `source`
   * merge two plain objects recursively or take a defined source value.
   */
  method DeepMerge(target: seq<Member>, source: seq<Member>) returns (result: seq<Member>)
    ensures result == Merge(target, source)
    decreases source
  {
    result := target;
    var i := 0;
    while i < |source|
      invariant 0 <= i <= |source|
      invariant result == MergeUpTo(target, source, i)
    {
      var key, sv := source[i].key, source[i].value;
      if !sv.Undefined? {
        var v := sv;
        var tv := Prop(target, key);
        if sv.Obj? && tv.Obj? {
          assert source[i] in source;
          var merged := DeepMerge(tv.members, sv.members);
          v := Obj(merged);
        }
        assert v == Incoming(target, source, i);
        result := Set(result, key, v);
      }
      i := i + 1;
    }
  }

  /** Looking a key up in a longer source: a later duplicate never wins. */
  lemma {:induction false} GetSnoc(ms: seq<Member>, k: string, i: nat)
    requires i < |ms|
    ensures Get(ms[..i + 1], k) == if Get(ms[..i], k).Some? then Get(ms[..i], k)
                                   else if ms[i].key == k then Some(ms[i].value) else None
    decreases i
  {
    if i > 0 && ms[0].key != k {
      assert ms[..i + 1][1..] == ms[1..][..i];
      assert ms[..i][1..] == ms[1..][..i - 1];
      GetSnoc(ms[1..], k, i - 1);
    }
  }

  /** After the first `i` source keys, each key holds what the rule gives for those keys. */
  lemma {:induction false} MergeUpToGet(t: seq<Member>, s: seq<Member>, i: nat, k: string)
    requires UniqueKeys(s) && i <= |s|
    ensures Get(MergeUpTo(t, s, i), k) == MergedValue(t, s[..i], k)
    decreases i
  {
    if i == 0 {
      assert s[..0] == [];
    } else {
      MergeUpToGet(t, s, i - 1, k);
      GetSnoc(s, k, i - 1);
      var m := s[i - 1];
      if !m.value.Undefined? {
        SetGet(MergeUpTo(t, s, i - 1), m.key, Incoming(t, s, i - 1), k);
      }
      if m.key == k {
        GetAbsent(s[..i - 1], k);
        assert Get(s[..i - 1], k).None?;
      }
    }
  }

  /** Every key of the merged object holds what the per-key rule gives. */
  lemma MergeGet(t: seq<Member>, s: seq<Member>, k: string)
    requires UniqueKeys(s)
    ensures Get(Merge(t, s), k) == MergedValue(t, s, k)
  {
    MergeUpToGet(t, s, |s|, k);
    assert s[..|s|] == s;
  }

  /**
   * The merged object has exactly the target's keys and the source keys
   * whose value is defined.
   */
  lemma MergeKeys(t: seq<Member>, s: seq<Member>, k: string)
    requires UniqueKeys(s)
    ensures Get(Merge(t, s), k).Some? <==> Get(t, k).Some? || (Get(s, k).Some? && !Get(s, k).value.Undefined?)
  {
    MergeGet(t, s, k);
  }

  /**
   * The target's keys stay first and in their order, at most one member per
   * source key is added, and keys stay unique.
   */
  lemma {:induction false} MergeUpToShape(t: seq<Member>, s: seq<Member>, i: nat)
    requires i <= |s|
    ensures |t| <= |MergeUpTo(t, s, i)| <= |t| + i
    ensures forall j :: 0 <= j < |t| ==> MergeUpTo(t, s, i)[j].key == t[j].key
    ensures UniqueKeys(t) ==> UniqueKeys(MergeUpTo(t, s, i))
    decreases i
  {
    if i > 0 {
      MergeUpToShape(t, s, i - 1);
      SetShape(MergeUpTo(t, s, i - 1), s[i - 1].key, Incoming(t, s, i - 1));
      if UniqueKeys(t) && !s[i - 1].value.Undefined? {
        SetUnique(MergeUpTo(t, s, i - 1), s[i - 1].key, Incoming(t, s, i - 1));
      }
    }
  }

  lemma MergeShape(t: seq<Member>, s: seq<Member>)
    ensures |t| <= |Merge(t, s)| <= |t| + |s|
    ensures forall j :: 0 <= j < |t| ==> Merge(t, s)[j].key == t[j].key
    ensures UniqueKeys(t) ==> UniqueKeys(Merge(t, s))
  {
    MergeUpToShape(t, s, |s|);
  }

  /** A source that defines nothing, the empty source among them, leaves the target as it is. */
  lemma {:induction false} MergeNothing(t: seq<Member>, s: seq<Member>, i: nat)
    requires i <= |s| && forall j :: 0 <= j < |s| ==> s[j].value.Undefined?
    ensures MergeUpTo(t, s, i) == t
    decreases i
  {
    if i > 0 {
      MergeNothing(t, s, i - 1);
    }
  }

  lemma MergeIdentity(t: seq<Member>, s: seq<Member>)
    requires forall j :: 0 <= j < |s| ==> s[j].value.Undefined?
    ensures Merge(t, s) == t
  {
    MergeNothing(t, s, |s|);
  }
}
