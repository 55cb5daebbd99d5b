/** Which ids eviction must spare: the roots of unsettled work, closed under version pointers. */
module Pins {
  import opened MemoryTypes
  import opened VersionGraph

  /** Every id a version refers to. */
  function Refs(m: Mem): set<nat> {
    (if m.supersededBy.Some? then {m.supersededBy.value} else {}) +
    (if m.aggregatedInto.Some? then {m.aggregatedInto.value} else {}) +
    (set x | x in m.aggMembers)
  }

  /** Both ends of open tensions and of unsettled shadow hits, versions under review with their
      members, and the ids the service names. */
  function PinRoots(e: Engine, external: set<nat>): set<nat> {
    (set k | k in e.tensions :: k.0) + (set k | k in e.tensions :: k.1)
    + (set id | id in e.mems && e.mems[id].pendingReview)
    + (set id, x | id in e.mems && e.mems[id].pendingReview && x in e.mems[id].aggMembers :: x)
    + external
    + (set s | s in e.shadow :: s.key.0) + (set s | s in e.shadow :: s.key.1) + (set s | s in e.shadow :: s.mid)
  }

  /** Closed under references that are still present. */
  ghost predicate ClosedUnderRefs(g: Graph, pins: set<nat>) {
    forall id, x :: id in pins && id in g && x in Refs(g[id]) && x in g ==> x in pins
  }

  /** References out of `pins` that are not in it yet. */
  function Missing(g: Graph, pins: set<nat>): set<nat> {
    set id, x | id in pins && id in g && x in Refs(g[id]) && x in g && x !in pins :: x
  }

  /** The closure, adding all missing references round by round. */
  function PinClosure(g: Graph, pins: set<nat>): (closed: set<nat>)
    ensures pins <= closed
    decreases g.Keys - pins
  {
    var more := Missing(g, pins);
    if more == {} then pins
    else
      assert exists x :: x in more;
      PinClosure(g, pins + more)
  }

  function Pinned(e: Engine): set<nat> {
    PinClosure(e.mems, PinRoots(e, e.external))
  }

  /** The closure is the least closed set above its roots. */
  lemma {:induction false} PinClosureLeast(g: Graph, pins: set<nat>)
    ensures ClosedUnderRefs(g, PinClosure(g, pins))
    ensures forall s :: pins <= s && ClosedUnderRefs(g, s) ==> PinClosure(g, pins) <= s
    decreases g.Keys - pins
  {
    var more := Missing(g, pins);
    if more == {} {
      forall id, x | id in pins && id in g && x in Refs(g[id]) && x in g
        ensures x in pins
      {
        assert x !in pins ==> x in more;
      }
    } else {
      assert exists x :: x in more;
      PinClosureLeast(g, pins + more);
      forall s | pins <= s && ClosedUnderRefs(g, s)
        ensures PinClosure(g, pins) <= s
      {
        assert pins + more <= s;
      }
    }
  }

  lemma ClosureIsUnique(g: Graph, roots: set<nat>, pins: set<nat>)
    requires roots <= pins && ClosedUnderRefs(g, pins)
    requires pins <= PinClosure(g, roots)
    ensures pins == PinClosure(g, roots)
  {
    PinClosureLeast(g, roots);
  }

  // ---------------------------------------------------------------- eviction leaves pins alone

  /** Deleting ids outside the closure does not change the closure. */
  lemma TrimKeepsClosure(g: Graph, g': Graph, roots: set<nat>)
    requires g'.Keys <= g.Keys && g.Keys - g'.Keys !! PinClosure(g, roots)
    requires forall id :: id in g' ==> Refs(g'[id]) == Refs(g[id])
    ensures PinClosure(g', roots) == PinClosure(g, roots)
  {
    PinClosureLeast(g, roots);
    PinClosureLeast(g', roots);
    var p := PinClosure(g, roots);
    assert ClosedUnderRefs(g', p);
    var p' := PinClosure(g', roots) * p;
    assert ClosedUnderRefs(g, p') by {
      forall id, x | id in p' && id in g && x in Refs(g[id]) && x in g
        ensures x in p'
      {
        assert x in p;
        assert id in g' && x in g';
      }
    }
  }

  /** The ends of a whole chain stay whole when only unpinned ids disappear. */
  lemma TrimKeepsWhole(g: Graph, g': Graph, roots: set<nat>, id: nat)
    requires Trimmed(g, g') && g.Keys - g'.Keys !! PinClosure(g, roots)
    requires id in roots && Whole(g, id)
    ensures Whole(g', id) && RepOf(g', id) == RepOf(g, id)
  {
    PinClosureLeast(g, roots);
    var pins := PinClosure(g, roots);
    var n: nat, r :| Reaches(g, id, n, r);
    forall x | x in pins && x in g && g[x].Next().Some? && g[x].Next().value in g
      ensures g[x].Next().value in pins
    {
      assert g[x].Next().value in Refs(g[x]);
    }
    TrimmedReaches(g, g', pins, id, n, r);
    WalkEndsAt(g, id, n, r);
    WalkEndsAt(g', id, n, r);
  }
}
