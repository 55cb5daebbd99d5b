/** Sorting ids by the composite keys of the eviction rules, and taking the first few. */
module Ordering {
  import opened MemoryTypes

  /** Compared left to right; `late` sorts after every dated key. */
  datatype Key = Key(late: bool, a: real, b: real, id: nat)

  predicate Before(x: Key, y: Key) {
    || (!x.late && y.late)
    || (x.late == y.late &&
        (x.a < y.a || (x.a == y.a && (x.b < y.b || (x.b == y.b && x.id < y.id)))))
  }

  predicate Keyed(keys: map<nat, Key>) {
    forall id :: id in keys ==> keys[id].id == id
  }

  ghost predicate IsFirst(keys: map<nat, Key>, id: nat) {
    id in keys && forall j :: j in keys && j != id ==> Before(keys[id], keys[j])
  }

  lemma {:induction false} FirstExists(keys: map<nat, Key>) returns (id: nat)
    requires keys != map[] && Keyed(keys)
    ensures IsFirst(keys, id)
    decreases |keys|
  {
    var c :| c in keys;
    var rest := keys - {c};
    assert forall j :: j in keys ==> j == c || j in rest;
    if rest == map[] {
      id := c;
    } else {
      assert |rest| < |keys| by { assert rest.Keys == keys.Keys - {c}; }
      id := FirstExists(rest);
      if Before(keys[c], keys[id]) {
        id := c;
      }
    }
  }

  function First(keys: map<nat, Key>): (id: nat)
    requires keys != map[] && Keyed(keys)
    ensures IsFirst(keys, id)
  {
    assert exists id :: IsFirst(keys, id) by {
      var id := FirstExists(keys);
    }
    var id :| id in keys && forall j | j in keys :: j == id || Before(keys[id], keys[j]);
    id
  }

  function SortIds(keys: map<nat, Key>): (s: seq<nat>)
    requires Keyed(keys)
    decreases |keys|
  {
    if keys == map[] then []
    else
      var id := First(keys);
      assert (keys - {id}).Keys == keys.Keys - {id};
      [id] + SortIds(keys - {id})
  }

  function Elems(s: seq<nat>): set<nat> {
    set x | x in s
  }

  ghost predicate NoDup(s: seq<nat>) {
    forall i, j :: 0 <= i < j < |s| ==> s[i] != s[j]
  }

  ghost predicate SortedBy(s: seq<nat>, keys: map<nat, Key>) {
    forall i, j :: 0 <= i < j < |s| && s[i] in keys && s[j] in keys ==> Before(keys[s[i]], keys[s[j]])
  }

  lemma Prepended(id: nat, s: seq<nat>, keys: map<nat, Key>)
    requires NoDup(s) && SortedBy(s, keys) && id !in s
    requires forall x :: x in s && x in keys && id in keys ==> Before(keys[id], keys[x])
    ensures NoDup([id] + s) && SortedBy([id] + s, keys) && Elems([id] + s) == {id} + Elems(s)
  {
    hide Before;
    var r := [id] + s;
    forall i, j | 0 <= i < j < |r|
      ensures r[i] != r[j]
      ensures r[i] in keys && r[j] in keys ==> Before(keys[r[i]], keys[r[j]])
    {
      assert r[j] == s[j - 1];
      if i > 0 {
        assert r[i] == s[i - 1];
      }
    }
  }

  /** The sort lists every key once and in ascending order. */
  lemma {:induction false} SortIdsSorts(keys: map<nat, Key>)
    requires Keyed(keys)
    ensures Elems(SortIds(keys)) == keys.Keys && NoDup(SortIds(keys)) && SortedBy(SortIds(keys), keys)
    ensures |SortIds(keys)| == |keys|
    decreases |keys|
  {
    hide Before;
    if keys != map[] {
      var id := First(keys);
      var rest := keys - {id};
      assert rest.Keys == keys.Keys - {id};
      SortIdsSorts(rest);
      var s := SortIds(rest);
      forall x | x in s
        ensures x in rest
      {
        assert x in Elems(s);
      }
      assert SortedBy(s, keys);
      Prepended(id, s, keys);
    }
  }

  lemma {:induction false} NoDupCount(s: seq<nat>)
    requires NoDup(s)
    ensures |Elems(s)| == |s|
    decreases |s|
  {
    if s != [] {
      NoDupCount(s[1..]);
      assert Elems(s) == {s[0]} + Elems(s[1..]);
      assert s[0] !in s[1..];
    }
  }

  /** A list slice up to `n`, which may exceed the length. */
  function Take(s: seq<nat>, n: nat): seq<nat> {
    if n >= |s| then s else s[..n]
  }

  function Drop(s: seq<nat>, n: nat): seq<nat> {
    if n >= |s| then [] else s[n..]
  }

  function NonNegative(n: int): nat {
    if n >= 0 then n else 0
  }

  lemma SliceSorted(s: seq<nat>, keys: map<nat, Key>, lo: nat, hi: nat)
    requires NoDup(s) && SortedBy(s, keys) && lo <= hi <= |s|
    ensures NoDup(s[lo..hi]) && SortedBy(s[lo..hi], keys)
  {
    hide Before;
    var d := s[lo..hi];
    forall i, j | 0 <= i < j < |d|
      ensures d[i] != d[j]
      ensures d[i] in keys && d[j] in keys ==> Before(keys[d[i]], keys[d[j]])
    {
      assert d[i] == s[lo + i] && d[j] == s[lo + j];
    }
  }

  lemma SplitOrder(s: seq<nat>, keys: map<nat, Key>, n: nat, x: nat, y: nat)
    requires NoDup(s) && SortedBy(s, keys) && n <= |s| && x in s[..n] && y in s[n..]
    requires Elems(s) <= keys.Keys
    ensures x != y && x in keys && y in keys && Before(keys[x], keys[y])
  {
    hide Before;
    var i :| 0 <= i < n && s[..n][i] == x;
    var j :| 0 <= j < |s[n..]| && s[n..][j] == y;
    assert s[i] == x && s[n + j] == y;
    assert x in Elems(s) && y in Elems(s);
  }

  /** What a slice of a sorted list takes, what it leaves, and that the former all come first. */
  lemma TakeSplits(s: seq<nat>, keys: map<nat, Key>, n: nat)
    requires NoDup(s) && Elems(s) <= keys.Keys && SortedBy(s, keys)
    ensures NoDup(Take(s, n)) && NoDup(Drop(s, n)) && SortedBy(Drop(s, n), keys)
    ensures Elems(Take(s, n)) !! Elems(Drop(s, n))
    ensures Elems(Take(s, n)) + Elems(Drop(s, n)) == Elems(s)
    ensures |Elems(Take(s, n))| == if n <= |s| then n else |s|
    ensures forall x, y :: x in Elems(Take(s, n)) && y in Elems(Drop(s, n)) ==> Before(keys[x], keys[y])
  {
    hide Before, SortedBy, NoDup;
    var m := if n >= |s| then |s| else n;
    assert Take(s, n) == s[..m] && Drop(s, n) == s[m..];
    assert s == s[..m] + s[m..];
    SliceSorted(s, keys, 0, m);
    SliceSorted(s, keys, m, |s|);
    assert s[m..|s|] == s[m..] && s[0..m] == s[..m];
    NoDupCount(s[..m]);
    forall x, y | x in s[..m] && y in s[m..]
      ensures x != y && x in keys && y in keys && Before(keys[x], keys[y])
    {
      SplitOrder(s, keys, m, x, y);
    }
  }

  function Filter(s: seq<nat>, keep: set<nat>): seq<nat> {
    if s == [] then []
    else (if s[0] in keep then [s[0]] else []) + Filter(s[1..], keep)
  }

  lemma {:induction false} FilterKeeps(s: seq<nat>, keep: set<nat>, keys: map<nat, Key>)
    requires NoDup(s) && SortedBy(s, keys) && Elems(s) <= keys.Keys
    ensures Elems(Filter(s, keep)) == Elems(s) * keep
    ensures NoDup(Filter(s, keep)) && SortedBy(Filter(s, keep), keys)
    decreases |s|
  {
    hide Before, SortedBy, NoDup;
    if s != [] {
      var rest := Filter(s[1..], keep);
      SliceSorted(s, keys, 1, |s|);
      assert s[1..|s|] == s[1..];
      assert Elems(s) == {s[0]} + Elems(s[1..]);
      FilterKeeps(s[1..], keep, keys);
      forall x | x in rest
        ensures x != s[0] && x in keys && s[0] in keys && Before(keys[s[0]], keys[x])
      {
        assert x in Elems(rest);
        SplitOrder(s, keys, 1, s[0], x) by { assert s[..1][0] == s[0]; }
      }
      Prepended(s[0], rest, keys);
      assert [] + rest == rest;
    }
  }
}
