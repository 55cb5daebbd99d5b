/** The successor graph of memory versions and the walk that looks for a version's representative. */
module VersionGraph {
  import opened MemoryTypes

  // ---------------------------------------------------------------- the walk of the source

  datatype Walk = Walk(end: nat, whole: bool)

  /** The walk with its set of visited ids. It stops at a root; it also stops, and reports the
      chain as broken, where the next id is missing or was visited before. */
  function Follow(g: Graph, id: nat, seen: set<nat>): (w: Walk)
    requires id in g
    ensures w.end in g
    decreases g.Keys - seen
  {
    var next := g[id].Next();
    if next.None? then Walk(id, true)
    else if next.value in seen || next.value !in g then Walk(id, false)
    else Follow(g, next.value, seen + {next.value})
  }

  function RepOf(g: Graph, id: nat): nat
    requires id in g
  {
    Follow(g, id, {id}).end
  }

  // ---------------------------------------------------------------- chains without visited sets

  /** `r` is a root and is exactly `n` successor steps away from `id`. */
  ghost predicate Reaches(g: Graph, id: nat, n: nat, r: nat)
    decreases n
  {
    id in g &&
    if n == 0 then id == r && g[id].Root()
    else g[id].Next().Some? && Reaches(g, g[id].Next().value, n - 1, r)
  }

  /** Every pointer on the chain of `id` is present, up to a root. */
  ghost predicate Whole(g: Graph, id: nat) {
    exists n: nat, r: nat :: Reaches(g, id, n, r)
  }

  ghost predicate AllWhole(g: Graph) {
    forall id {:trigger Whole(g, id)} :: id in g ==> Whole(g, id)
  }

  /** The `n`-th successor, if the pointers go that far. */
  ghost function Succ(g: Graph, id: nat, n: nat): Option<nat>
    decreases n
  {
    if n == 0 then Some(id)
    else if id !in g || g[id].Next().None? then None
    else Succ(g, g[id].Next().value, n - 1)
  }

  ghost predicate NoCycle(g: Graph) {
    forall id: nat, n: nat | n > 0 :: Succ(g, id, n) != Some(id)
  }

  /** A rank that grows along every pointer: the invariant behind NoCycle. */
  ghost predicate Ranked(g: Graph, rank: nat -> nat) {
    forall id :: id in g && g[id].Next().Some? && g[id].Next().value in g
      ==> rank(id) < rank(g[id].Next().value)
  }

  ghost predicate Acyclic(g: Graph) {
    exists rank: nat -> nat :: Ranked(g, rank)
  }

  ghost function Roots(g: Graph): set<nat> {
    set id | id in g && g[id].Root()
  }

  // ---------------------------------------------------------------- the walk finds whole chains

  lemma {:induction false} ReachesUnique(g: Graph, id: nat, n: nat, r: nat, m: nat, q: nat)
    requires Reaches(g, id, n, r) && Reaches(g, id, m, q)
    ensures n == m && r == q
    decreases n
  {
    if n > 0 && m > 0 {
      ReachesUnique(g, g[id].Next().value, n - 1, r, m - 1, q);
    }
  }

  lemma {:induction false} ReachesRoot(g: Graph, id: nat, n: nat, r: nat)
    requires Reaches(g, id, n, r)
    ensures r in g && g[r].Root()
    decreases n
  {
    if n > 0 {
      ReachesRoot(g, g[id].Next().value, n - 1, r);
    }
  }

  /** Visited ids lie at least as far from the root, so the walk never stumbles over one. */
  lemma {:induction false} FollowReaches(g: Graph, id: nat, n: nat, r: nat, seen: set<nat>)
    requires Reaches(g, id, n, r)
    requires forall s, m: nat, q :: s in seen && Reaches(g, s, m, q) ==> m >= n
    ensures Follow(g, id, seen) == Walk(r, true)
    decreases n
  {
    if n > 0 {
      var next := g[id].Next().value;
      assert Reaches(g, next, n - 1, r);
      forall s, m: nat, q | s in seen + {next} && Reaches(g, s, m, q)
        ensures m >= n - 1
      {
        if s == next {
          ReachesUnique(g, next, n - 1, r, m, q);
        }
      }
      assert next !in seen;
      assert next in g;
      FollowReaches(g, next, n - 1, r, seen + {next});
    }
  }

  lemma {:induction false} FollowWholeReaches(g: Graph, id: nat, seen: set<nat>)
    requires id in g && Follow(g, id, seen).whole
    ensures exists n: nat :: Reaches(g, id, n, Follow(g, id, seen).end)
    decreases g.Keys - seen
  {
    var next := g[id].Next();
    if next.None? {
      assert Reaches(g, id, 0, id);
    } else {
      FollowWholeReaches(g, next.value, seen + {next.value});
      var n: nat :| Reaches(g, next.value, n, Follow(g, id, seen).end);
      assert Reaches(g, id, n + 1, Follow(g, id, seen).end);
    }
  }

  /** The walk counts a broken chain exactly when the chain is not whole; on a whole chain it ends
      at the one root the chain leads to. */
  lemma FollowExact(g: Graph, id: nat)
    requires id in g
    ensures Follow(g, id, {id}).whole <==> Whole(g, id)
    ensures Whole(g, id) ==> exists n: nat :: Reaches(g, id, n, RepOf(g, id))
    ensures Whole(g, id) ==> RepOf(g, id) in g && g[RepOf(g, id)].Root()
  {
    if Follow(g, id, {id}).whole {
      FollowWholeReaches(g, id, {id});
      var n: nat :| Reaches(g, id, n, RepOf(g, id));
      ReachesRoot(g, id, n, RepOf(g, id));
    }
    if Whole(g, id) {
      var n: nat, r :| Reaches(g, id, n, r);
      WalkEndsAt(g, id, n, r);
      ReachesRoot(g, id, n, r);
    }
  }

  lemma WalkEndsAt(g: Graph, id: nat, n: nat, r: nat)
    requires Reaches(g, id, n, r)
    ensures Follow(g, id, {id}) == Walk(r, true) && RepOf(g, id) == r
  {
    forall s, m: nat, q | s in {id} && Reaches(g, s, m, q)
      ensures m >= n
    {
      ReachesUnique(g, id, n, r, m, q);
    }
    FollowReaches(g, id, n, r, {id});
  }

  // ---------------------------------------------------------------- cycles

  lemma {:induction false} RankGrows(g: Graph, rank: nat -> nat, id: nat, n: nat)
    requires Ranked(g, rank) && n > 0 && Succ(g, id, n).Some? && Succ(g, id, n).value in g
    ensures rank(id) < rank(Succ(g, id, n).value)
    decreases n
  {
    var next := g[id].Next().value;
    if n > 1 {
      RankGrows(g, rank, next, n - 1);
    } else {
      assert Succ(g, next, 0) == Some(next);
    }
  }

  lemma AcyclicNoCycle(g: Graph)
    requires Acyclic(g)
    ensures NoCycle(g)
  {
    var rank: nat -> nat :| Ranked(g, rank);
    forall id: nat, n: nat | n > 0
      ensures Succ(g, id, n) != Some(id)
    {
      if Succ(g, id, n) == Some(id) {
        RankGrows(g, rank, id, n);
      }
    }
  }

  // ---------------------------------------------------------------- changes to the graph

  /** Only the roots `ds` got a pointer, and each of them now points at the root `k`. */
  ghost predicate Linked(g: Graph, g': Graph, ds: set<nat>, k: nat) {
    && k in g' && k !in ds && g'[k].Root()
    && g'.Keys == g.Keys + {k}
    && ds <= g.Keys
    && (k in g ==> g[k].Root())
    && (forall d :: d in ds ==> g[d].Root() && g'[d].Next() == Some(k))
    && (forall id :: id in g && id !in ds ==> g'[id].Next() == g[id].Next())
  }

  lemma {:induction false} LinkedReaches(g: Graph, g': Graph, ds: set<nat>, k: nat, id: nat, n: nat, r: nat)
    requires Linked(g, g', ds, k) && Reaches(g, id, n, r)
    ensures Reaches(g', id, if r in ds then n + 1 else n, if r in ds then k else r)
    decreases n
  {
    if n == 0 {
      if r in ds {
        assert Reaches(g', k, 0, k);
      }
    } else {
      ReachesRoot(g, id, n, r);
      assert id !in ds;
      LinkedReaches(g, g', ds, k, g[id].Next().value, n - 1, r);
    }
  }

  /** After linking, a whole chain is still whole, and only the chains that ended in `ds` moved. */
  lemma LinkedRep(g: Graph, g': Graph, ds: set<nat>, k: nat, id: nat)
    requires Linked(g, g', ds, k) && id in g && Whole(g, id)
    ensures Whole(g', id)
    ensures RepOf(g', id) == if RepOf(g, id) in ds then k else RepOf(g, id)
  {
    FollowExact(g, id);
    var n: nat :| Reaches(g, id, n, RepOf(g, id));
    LinkedReaches(g, g', ds, k, id, n, RepOf(g, id));
    if RepOf(g, id) in ds {
      WalkEndsAt(g', id, n + 1, k);
    } else {
      WalkEndsAt(g', id, n, RepOf(g, id));
    }
  }

  lemma LinkedRoots(g: Graph, g': Graph, ds: set<nat>, k: nat)
    requires Linked(g, g', ds, k)
    ensures Roots(g') == Roots(g) - ds + {k}
  {
  }

  lemma LinkedAcyclic(g: Graph, g': Graph, ds: set<nat>, k: nat)
    requires Linked(g, g', ds, k) && Acyclic(g)
    requires forall id :: id in g && g[id].Next().Some? && g[id].Next().value == k ==> k in g
    ensures Acyclic(g')
  {
    var rank: nat -> nat :| Ranked(g, rank);
    var bound := RankBound(ds, rank);
    var top := bound + rank(k) + 1;
    var rank' := (id: nat) => if id == k then top else rank(id);
    forall id | id in g' && g'[id].Next().Some? && g'[id].Next().value in g'
      ensures rank'(id) < rank'(g'[id].Next().value)
    {
      if id in ds {
        assert g'[id].Next() == Some(k);
      } else {
        assert id != k;
        assert g[id].Next() == g'[id].Next();
      }
    }
    assert Ranked(g', rank');
  }

  lemma RankBound(ds: set<nat>, rank: nat -> nat) returns (b: nat)
    ensures forall d :: d in ds ==> rank(d) <= b
  {
    if ds == {} {
      b := 0;
    } else {
      var d :| d in ds;
      var rest := RankBound(ds - {d}, rank);
      b := rank(d) + rest;
      assert forall c :: c in ds ==> c == d || c in ds - {d};
    }
  }

  /** `g'` lost some ids and kept every pointer of the others. */
  ghost predicate Trimmed(g: Graph, g': Graph) {
    g'.Keys <= g.Keys && forall id :: id in g' ==> g'[id].Next() == g[id].Next()
  }

  lemma TrimmedAcyclic(g: Graph, g': Graph)
    requires Trimmed(g, g') && Acyclic(g)
    ensures Acyclic(g')
  {
    var rank: nat -> nat :| Ranked(g, rank);
    assert Ranked(g', rank);
  }

  /** A set of kept ids that is closed under present successors keeps its whole chains whole. */
  lemma {:induction false} TrimmedReaches(g: Graph, g': Graph, kept: set<nat>, id: nat, n: nat, r: nat)
    requires Trimmed(g, g') && Reaches(g, id, n, r) && id in kept
    requires forall x :: x in kept && x in g ==> x in g'
    requires forall x :: x in kept && x in g && g[x].Next().Some? && g[x].Next().value in g
               ==> g[x].Next().value in kept
    ensures Reaches(g', id, n, r)
    decreases n
  {
    if n > 0 {
      var next := g[id].Next().value;
      assert Reaches(g, next, n - 1, r);
      TrimmedReaches(g, g', kept, next, n - 1, r);
    } else {
      assert g'[id].Next() == g[id].Next();
    }
  }
}
