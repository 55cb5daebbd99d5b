/** When the capacity plan accepts an effect, what carrying it out achieves, and when its refusal was
    avoidable. */
module CapacityPlan {
  import opened MemoryTypes
  import opened Ordering
  import opened Capacity

  lemma Split(x: set<nat>, y: set<nat>)
    ensures |x| == |x * y| + |x - y|
  {
    assert x == x * y + (x - y);
  }

  // ---------------------------------------------------------------- acceptance

  /** The unpinned candidates that are weaker than `id`. */
  ghost function WeakerFree(g: Graph, pinned: set<nat>, id: nat): set<nat>
    requires id in g
  {
    set x | x in InPool(g, Candidate) - pinned && x in g && Weaker(g, x, id)
  }

  /** The unpinned candidates that a plan leaves in place: at least as many unpinned ones are weaker as the
      pool overflows. */
  ghost function Outlasting(g: Graph, capC: int, pinned: set<nat>): set<nat> {
    set id | id in InPool(g, Candidate) - pinned && id in g && |WeakerFree(g, pinned, id)| >= |InPool(g, Candidate)| - capC
  }

  /** Current versions no plan deletes: those in the main pool, the candidates left in place, and the pinned
      part of the archive. */
  ghost function Stuck(g: Graph, capC: int, pinned: set<nat>): set<nat> {
    CurrentIds(g) * (InPool(g, Main) + InPool(g, Candidate) * pinned + Outlasting(g, capC, pinned) + InPool(g, Archive) * pinned)
  }

  lemma OutlastingStays(g: Graph, capC: int, pinned: set<nat>, id: nat)
    requires id in InPool(g, Candidate) - pinned
    ensures id in Outlasting(g, capC, pinned) <==> id !in Elems(OverflowingCandidates(g, capC, pinned))
  {
    hide OverflowingCandidates;
    var c, gone := InPool(g, Candidate), Elems(OverflowingCandidates(g, capC, pinned));
    var weaker := WeakerFree(g, pinned, id);
    ArchiveParts(g, capC, pinned);
    forall x | x in c - pinned
      ensures x in gone && id !in gone ==> x in weaker
      ensures x !in gone && id in gone ==> x !in weaker
    {
      if x in gone && id !in gone { WeakestLeave(g, capC, pinned, x, id); }
      if x !in gone && id in gone { WeakestLeave(g, capC, pinned, id, x); }
    }
    if id in gone {
      SubsetCount(weaker, gone - {id});
    } else {
      SubsetCount(gone, weaker);
      SubsetCount(gone, c - pinned - {id});
    }
  }


  /** The same for any set `arch` of candidates that is archived. */
  ghost function StuckWithout(g: Graph, arch: set<nat>, pinned: set<nat>): set<nat> {
    CurrentIds(g) * (InPool(g, Main) + (InPool(g, Candidate) - arch) + InPool(g, Archive) * pinned)
  }

  lemma StuckIs(g: Graph, capC: int, pinned: set<nat>)
    ensures var arch := Elems(OverflowingCandidates(g, capC, pinned));
            && StuckWithout(g, arch, pinned) == Stuck(g, capC, pinned)
            && InPool(g, Candidate) - pinned - arch == Outlasting(g, capC, pinned)
  {
    hide OverflowingCandidates, Outlasting, Elems, InPool, CurrentIds;
    var c, arch, out := InPool(g, Candidate), Elems(OverflowingCandidates(g, capC, pinned)), Outlasting(g, capC, pinned);
    assert arch <= c - pinned by { ArchiveParts(g, capC, pinned); }
    assert c - pinned - arch == out by {
      forall id | id in c - pinned
        ensures id in out <==> id !in arch
      {
        OutlastingStays(g, capC, pinned, id);
      }
      OutlastingIsFree(g, capC, pinned);
    }
    SameRest(c, pinned, arch, out);
  }

  lemma SameRest(c: set<nat>, pinned: set<nat>, arch: set<nat>, out: set<nat>)
    requires arch <= c - pinned && c - pinned - arch == out
    ensures c - arch == c * pinned + out
  {
  }

  lemma OutlastingIsFree(g: Graph, capC: int, pinned: set<nat>)
    ensures Outlasting(g, capC, pinned) <= InPool(g, Candidate) - pinned
  {
  }

  /** The bookkeeping of a plan in numbers. */
  lemma PlanArithmetic(capC: int, capA: int, capX: int, c: nat, cFree: nat, arch: nat, j: nat, jFree: nat, first: nat,
                       cur: nat, hit: nat, extra: nat, more: nat)
    requires cFree <= c && arch == Smaller(NonNegative(c - capC), cFree)
    requires jFree <= j && first == Smaller(NonNegative(j - capA), jFree)
    requires extra <= jFree - first && more == Smaller(NonNegative(cur - hit - capX), extra)
    ensures c - arch <= capC <==> c - cFree <= capC
    ensures j - first - more <= capA <==> j - jFree <= capA
    ensures cur - hit - more <= capX <==> cur - hit - extra <= capX
  {
  }

  lemma PoolsPartition(g: Graph)
    ensures InPool(g, Candidate) !! InPool(g, Archive) !! InPool(g, Main)
    ensures g.Keys == InPool(g, Candidate) + InPool(g, Archive) + InPool(g, Main)
    ensures CurrentIds(g) <= g.Keys
  {
  }

  lemma ThreeParts(all: set<nat>, x: set<nat>, y: set<nat>, z: set<nat>)
    requires x !! y && x !! z && y !! z
    requires forall id :: id in all <==> id in x || id in y || id in z
    ensures |all| == |x| + |y| + |z|
  {
    assert all == x + y + z;
    assert |x + y| == |x| + |y|;
    assert (x + y) !! z;
  }

  lemma StuckCount(g: Graph, pinned: set<nat>, p: Parts)
    requires p.arch <= InPool(g, Candidate) - pinned
    requires p.first !! p.later && p.first + p.later == InPool(g, Archive) + p.arch - pinned
    ensures var cur := CurrentIds(g);
            |StuckWithout(g, p.arch, pinned)| == |cur| - |p.first * cur| - |p.later * cur|
  {
    hide CurrentIds, InPool;
    PoolsPartition(g);
    var cur, c, a := CurrentIds(g), InPool(g, Candidate), InPool(g, Archive);
    var stuck := StuckWithout(g, p.arch, pinned);
    forall id | id in cur
      ensures id in stuck || id in p.first || id in p.later
    {
      if (id in a && id !in pinned) || id in p.arch {
        assert id in a + p.arch - pinned;
      }
    }
    forall id | id in stuck
      ensures id !in p.first && id !in p.later
    {
      assert id !in a + p.arch - pinned;
    }
    ThreeParts(cur, stuck, p.first * cur, p.later * cur);
  }

  /** A plan is accepted exactly when the pinned members fit both pools and the current versions out
      of its reach fit the context; all three can be counted before the plan is made. */
  lemma PlanAcceptedExactly(g: Graph, cfg: Cfg, pinned: set<nat>, t: Option<int>)
    requires cfg.capacityOn
    ensures var plan := PlanCapacity(g, cfg, pinned, t);
            plan.accepted <==>
              && |InPool(g, Candidate) * pinned| <= cfg.capC
              && |InPool(g, Archive) * pinned| <= cfg.capA
              && |Stuck(g, cfg.capC, pinned)| <= cfg.capContext
  {
    hide PlanCapacity, Elems, InPool, CurrentIds, Stuck, StuckWithout, PartsOf;
    PlanParts(g, cfg, pinned, t);
    StuckIs(g, cfg.capC, pinned);
    PartsArchive(g, cfg, pinned, t);
    var p, c, cur := PartsOf(g, cfg, pinned, t), InPool(g, Candidate), CurrentIds(g);
    var joined := InPool(g, Archive) + p.arch;
    StuckCount(g, pinned, p);
    Split(c, pinned);
    Split(joined, pinned);
    assert joined * pinned == InPool(g, Archive) * pinned;
    LaterFits(p, joined - pinned, cur);
    PlanArithmetic(cfg.capC, cfg.capA, cfg.capContext, |c|, |c - pinned|, |p.arch|, |joined|, |joined - pinned|,
                   |p.first|, |cur|, |p.first * cur|, |p.later * cur|, |p.more|);
  }

  lemma PartsArchive(g: Graph, cfg: Cfg, pinned: set<nat>, t: Option<int>)
    ensures PartsOf(g, cfg, pinned, t).arch == Elems(OverflowingCandidates(g, cfg.capC, pinned))
  {
    hide OverflowingCandidates, Elems, JoinedKeys, FreeList, Filter, Take, Drop, CurrentIds;
  }

  lemma LaterFits(p: Parts, free: set<nat>, cur: set<nat>)
    requires p.first !! p.later && p.first + p.later == free
    ensures |p.later * cur| <= |free| - |p.first|
  {
    Split(p.later, cur);
    assert |free| == |p.first| + |p.later|;
  }

  // ---------------------------------------------------------------- carrying it out

  lemma AppliedPools(g: Graph, plan: Plan, t: int, arch: set<nat>, gone: set<nat>)
    requires arch == Elems(plan.archive) && gone == Elems(plan.delete)
    requires arch <= InPool(g, Candidate) && gone <= InPool(g, Archive) + arch
    ensures var g' := ApplyPlan(g, plan, t);
            && InPool(g', Candidate) == InPool(g, Candidate) - arch
            && InPool(g', Archive) == InPool(g, Archive) + arch - gone
            && InPool(g', Main) == InPool(g, Main)
            && CurrentIds(g') == CurrentIds(g) - gone
            && g'.Keys == g.Keys - gone
            && (forall id :: id in g' && id !in arch ==> g'[id] == g[id])
  {
    var g' := ApplyPlan(g, plan, t);
    assert forall id :: id in plan.delete <==> id in gone;
    assert forall id :: id in plan.archive <==> id in arch;
    assert g'.Keys == g.Keys - gone;
    forall id | id in g'
      ensures g'[id].pool == if id in arch then Archive else g[id].pool
      ensures g'[id].Current() == g[id].Current()
    {
    }
  }

  /** An accepted plan brings both pools and the context under their limits, and neither deletes nor
      changes a pinned version. */
  lemma AcceptedPlanMeetsLimits(g: Graph, cfg: Cfg, pinned: set<nat>, t: int)
    requires cfg.capacityOn && PlanCapacity(g, cfg, pinned, Some(t)).accepted
    ensures var plan := PlanCapacity(g, cfg, pinned, Some(t));
            var g' := ApplyPlan(g, plan, t);
            && |InPool(g', Candidate)| <= cfg.capC
            && |InPool(g', Archive)| <= cfg.capA
            && |CurrentIds(g')| <= cfg.capContext
            && g'.Keys == plan.remaining
            && (forall id :: id in g && (id in pinned || g[id].pool == Main) ==> id in g' && g'[id] == g[id])
  {
    PlanParts(g, cfg, pinned, Some(t));
    var plan, p := PlanCapacity(g, cfg, pinned, Some(t)), PartsOf(g, cfg, pinned, Some(t));
    AcceptedSets(g, cfg, pinned, t, plan, p);
  }

  lemma AcceptedSets(g: Graph, cfg: Cfg, pinned: set<nat>, t: int, plan: Plan, p: Parts)
    requires PlanShape(g, cfg, pinned, p, true)
    requires p.arch == Elems(plan.archive) && Elems(plan.delete) == p.first + p.more
    ensures var g' := ApplyPlan(g, plan, t);
            && |InPool(g', Candidate)| <= cfg.capC
            && |InPool(g', Archive)| <= cfg.capA
            && |CurrentIds(g')| <= cfg.capContext
            && g'.Keys == g.Keys - Elems(plan.delete)
            && (forall id :: id in g && (id in pinned || g[id].pool == Main) ==> id in g' && g'[id] == g[id])
  {
    hide Elems, InPool, CurrentIds, ApplyPlan;
    var gone := p.first + p.more;
    PoolsPartition(g);
    assert forall id :: id in gone ==> id in InPool(g, Archive) + p.arch - pinned;
    AppliedPools(g, plan, t, p.arch, gone);
    LimitCounts(InPool(g, Candidate), InPool(g, Archive), CurrentIds(g), pinned, p);
    forall id | id in g && (id in pinned || g[id].pool == Main)
      ensures id in ApplyPlan(g, plan, t) && ApplyPlan(g, plan, t)[id] == g[id]
    {
      MainIsInPool(g, id);
      assert id !in p.arch && id !in gone;
    }
  }

  lemma MainIsInPool(g: Graph, id: nat)
    requires id in g
    ensures g[id].pool == Main <==> id in InPool(g, Main)
  {
  }

  lemma LimitCounts(c: set<nat>, a: set<nat>, cur: set<nat>, pinned: set<nat>, p: Parts)
    requires p.arch <= c - pinned && p.first !! p.later && p.first + p.later == a + p.arch - pinned && p.more <= p.later * cur
    ensures var gone := p.first + p.more;
            && |c - p.arch| == |c| - |p.arch|
            && |a + p.arch - gone| == |a + p.arch| - |p.first| - |p.more|
            && |cur - gone| == |cur| - |p.first * cur| - |p.more|
  {
    var gone := p.first + p.more;
    assert |gone| == |p.first| + |p.more|;
    assert gone <= a + p.arch;
    Split(cur, gone);
    assert cur * gone == p.first * cur + p.more;
    assert |cur * gone| == |p.first * cur| + |p.more|;
  }

  /** When a version was archived, seen at the time of the plan; a fresh arrival is dated `t`. */
  function ArchivedSince(g: Graph, plan: Plan, id: nat, t: int): int
    requires id in g
  {
    if id in plan.archive then t else g[id].Stamp()
  }

  /** Deletion is first in, first out: every current version that an accepted plan could delete but
      keeps was archived no earlier than every version it deletes, the smaller id going first. */
  lemma SurvivorsAreNewer(g: Graph, cfg: Cfg, pinned: set<nat>, t: int, gone: nat, kept: nat)
    requires cfg.capacityOn
    requires var plan := PlanCapacity(g, cfg, pinned, Some(t));
             gone in plan.delete && kept in plan.remaining && kept !in pinned && g[kept].Current()
             && (g[kept].pool == Archive || kept in plan.archive)
    ensures var plan := PlanCapacity(g, cfg, pinned, Some(t));
            gone in g &&
            (ArchivedSince(g, plan, gone, t) < ArchivedSince(g, plan, kept, t) ||
             (ArchivedSince(g, plan, gone, t) == ArchivedSince(g, plan, kept, t) && gone < kept))
  {
    hide PlanCapacity, PartsOf, JoinedKeys, Before;
    var plan, p := PlanCapacity(g, cfg, pinned, Some(t)), PartsOf(g, cfg, pinned, Some(t));
    PlanParts(g, cfg, pinned, Some(t));
    assert gone in Elems(plan.delete);
    assert kept in plan.archive ==> kept in Elems(plan.archive);
    RemainingIs(g, cfg, pinned, Some(t));
    assert kept in p.later - p.more;
    PlanDeletesOldest(g, cfg, pinned, Some(t), gone, kept);
    assert forall id :: id in Elems(plan.archive) ==> id in g;
    JoinedOrder(g, plan, t, gone, kept);
  }

  /** The order of the sort keys is the order of archiving. */
  lemma JoinedOrder(g: Graph, plan: Plan, t: int, x: nat, y: nat)
    requires var keys := JoinedKeys(g, plan.archive, Some(t)); x in keys && y in keys && Before(keys[x], keys[y])
    requires forall id :: id in Elems(plan.archive) ==> id in g
    ensures x in g && y in g
    ensures ArchivedSince(g, plan, x, t) < ArchivedSince(g, plan, y, t)
            || (ArchivedSince(g, plan, x, t) == ArchivedSince(g, plan, y, t) && x < y)
  {
    assert forall id :: id in plan.archive <==> id in Elems(plan.archive);
  }

  lemma RemainingIs(g: Graph, cfg: Cfg, pinned: set<nat>, t: Option<int>)
    ensures var plan := PlanCapacity(g, cfg, pinned, t); plan.remaining == g.Keys - Elems(plan.delete)
  {
    hide OverflowingCandidates, SortIds, Unpinned, JoinedKeys, InPool, CurrentIds, Filter, Take, Drop, Elems;
  }

  // ---------------------------------------------------------------- was the refusal avoidable?

  /** Any way of archiving unpinned candidates and deleting unpinned archived versions that meets all
      three limits. */
  ghost predicate Closes(g: Graph, cfg: Cfg, pinned: set<nat>, moved: set<nat>, gone: set<nat>) {
    var c, a := InPool(g, Candidate), InPool(g, Archive);
    && moved <= c - pinned && gone <= a + moved - pinned
    && |c - moved| <= cfg.capC && |a + moved - gone| <= cfg.capA && |CurrentIds(g) - gone| <= cfg.capContext
  }

  ghost predicate Closable(g: Graph, cfg: Cfg, pinned: set<nat>) {
    exists moved, gone :: Closes(g, cfg, pinned, moved, gone)
  }

  /** Current versions that no eviction may touch. */
  ghost function Untouchable(g: Graph, pinned: set<nat>): set<nat> {
    CurrentIds(g) * (InPool(g, Main) + (InPool(g, Candidate) + InPool(g, Archive)) * pinned)
  }

  lemma ClosesNeeds(g: Graph, cfg: Cfg, pinned: set<nat>, moved: set<nat>, gone: set<nat>)
    requires Closes(g, cfg, pinned, moved, gone)
    ensures |InPool(g, Candidate) * pinned| <= cfg.capC
    ensures |InPool(g, Archive) * pinned| <= cfg.capA
    ensures |Untouchable(g, pinned)| <= cfg.capContext
  {
    hide CurrentIds, InPool;
    PoolsPartition(g);
    var c, a := InPool(g, Candidate), InPool(g, Archive);
    SubsetCount(c * pinned, c - moved);
    SubsetCount(a * pinned, a + moved - gone);
    SubsetCount(Untouchable(g, pinned), CurrentIds(g) - gone);
  }

  lemma EmptyingCloses(g: Graph, cfg: Cfg, pinned: set<nat>)
    requires |InPool(g, Candidate) * pinned| <= cfg.capC
    requires |InPool(g, Archive) * pinned| <= cfg.capA
    requires |Untouchable(g, pinned)| <= cfg.capContext
    ensures Closable(g, cfg, pinned)
  {
    hide CurrentIds, InPool, Untouchable;
    var c, a := InPool(g, Candidate), InPool(g, Archive);
    var moved := c - pinned;
    var gone := a + moved - pinned;
    EmptiedPools(c, a, pinned, moved, gone);
    EmptiedContext(g, pinned, gone);
    assert Closes(g, cfg, pinned, moved, gone);
  }

  lemma EmptiedPools(c: set<nat>, a: set<nat>, pinned: set<nat>, moved: set<nat>, gone: set<nat>)
    requires moved == c - pinned && gone == a + moved - pinned
    ensures c - moved == c * pinned && a + moved - gone == a * pinned
  {
  }

  lemma EmptiedContext(g: Graph, pinned: set<nat>, gone: set<nat>)
    requires gone == InPool(g, Archive) + (InPool(g, Candidate) - pinned) - pinned
    ensures CurrentIds(g) - gone == Untouchable(g, pinned)
  {
    hide CurrentIds, InPool;
    PoolsPartition(g);
  }

  /** Closing the limits at all is possible exactly when the pinned members alone respect them. */
  lemma ClosableExactly(g: Graph, cfg: Cfg, pinned: set<nat>)
    ensures Closable(g, cfg, pinned) <==>
              && |InPool(g, Candidate) * pinned| <= cfg.capC
              && |InPool(g, Archive) * pinned| <= cfg.capA
              && |Untouchable(g, pinned)| <= cfg.capContext
  {
    hide CurrentIds, InPool, Untouchable, Closes;
    if Closable(g, cfg, pinned) {
      var moved, gone :| Closes(g, cfg, pinned, moved, gone);
      ClosesNeeds(g, cfg, pinned, moved, gone);
    } else if |InPool(g, Candidate) * pinned| <= cfg.capC && |InPool(g, Archive) * pinned| <= cfg.capA
              && |Untouchable(g, pinned)| <= cfg.capContext {
      EmptyingCloses(g, cfg, pinned);
    }
  }

  lemma SubsetCount(x: set<nat>, y: set<nat>)
    requires x <= y
    ensures |x| <= |y|
  {
    Split(y, x);
    assert y * x == x;
  }

  /** The refusal message blames pins or a full pool, but the plan archives no more candidates than
      the pool overflows. It accepts exactly the closable states whose current candidates that would be left in
      place fit the context as well, so it refuses a closable state exactly when they do not. */
  lemma RefusalExactly(g: Graph, cfg: Cfg, pinned: set<nat>, t: Option<int>)
    requires cfg.capacityOn
    ensures var left := CurrentIds(g) * Outlasting(g, cfg.capC, pinned);
            PlanCapacity(g, cfg, pinned, t).accepted <==>
              Closable(g, cfg, pinned) && |Untouchable(g, pinned)| + |left| <= cfg.capContext
  {
    hide PlanCapacity, InPool, CurrentIds, Closable, WithinLimits, Outlasting;
    PlanAcceptedExactly(g, cfg, pinned, t);
    ClosableExactly(g, cfg, pinned);
    StuckIsUntouchable(g, cfg.capC, pinned);
  }

  lemma StuckIsUntouchable(g: Graph, capC: int, pinned: set<nat>)
    ensures var left := CurrentIds(g) * Outlasting(g, capC, pinned);
            |Stuck(g, capC, pinned)| == |Untouchable(g, pinned)| + |left|
  {
    hide CurrentIds, InPool, Outlasting;
    PoolsPartition(g);
    OutlastingIsFree(g, capC, pinned);
    var left := CurrentIds(g) * Outlasting(g, capC, pinned);
    assert Stuck(g, capC, pinned) == Untouchable(g, pinned) + left;
    assert Untouchable(g, pinned) !! left;
  }

  function CrowdedMem(archived: bool): Mem {
    Mem(0, "", if archived then Archive else Candidate, 1.0, 0, 1, 0, None, 0, if archived then Some(0) else None,
        None, None, [], false, {}, 0.0, 0.0, 0.5, None)
  }

  /** Current archived versions beside current candidates. */
  function Crowded(archived: set<nat>, candidates: set<nat>): Graph {
    map id | id in archived + candidates :: CrowdedMem(id in archived)
  }

  lemma CrowdedPools(archived: set<nat>, candidates: set<nat>)
    requires archived !! candidates
    ensures var g := Crowded(archived, candidates);
            && InPool(g, Archive) == archived && InPool(g, Candidate) == candidates && InPool(g, Main) == {}
            && CurrentIds(g) == archived + candidates
  {
  }

  lemma CrowdedClosable(cfg: Cfg, archived: set<nat>, candidates: set<nat>)
    requires archived !! candidates && cfg.capC >= 0 && |archived| <= cfg.capA && |archived| <= cfg.capContext
    ensures Closable(Crowded(archived, candidates), cfg, archived)
  {
    hide Crowded, InPool, CurrentIds;
    var g := Crowded(archived, candidates);
    CrowdedPools(archived, candidates);
    assert candidates - candidates == {} && archived + candidates - candidates == archived;
    assert Closes(g, cfg, archived, candidates, candidates);
  }

  /** A pool that fits keeps all its unpinned candidates. */
  lemma AllOutlast(g: Graph, capC: int, pinned: set<nat>)
    requires |InPool(g, Candidate)| <= capC
    ensures Outlasting(g, capC, pinned) == InPool(g, Candidate) - pinned
  {
  }

  /** Candidates that fit their pool beside pinned archived versions that fit theirs: archiving and deleting the
      candidates would close the limits, and yet the plan refuses as soon as both together pass the context limit. */
  lemma ClosableButRefused(cfg: Cfg, archived: set<nat>, candidates: set<nat>, t: Option<int>)
    requires cfg.capacityOn && archived !! candidates
    requires |archived| <= cfg.capA && |archived| <= cfg.capContext && |candidates| <= cfg.capC
    requires |archived| + |candidates| > cfg.capContext
    ensures var g := Crowded(archived, candidates); Closable(g, cfg, archived) && !PlanCapacity(g, cfg, archived, t).accepted
  {
    hide PlanCapacity, Crowded, InPool, CurrentIds, Closable;
    var g := Crowded(archived, candidates);
    CrowdedPools(archived, candidates);
    CrowdedClosable(cfg, archived, candidates);
    AllOutlast(g, cfg.capC, archived);
    assert candidates - archived == candidates;
    assert Untouchable(g, archived) == archived;
    assert CurrentIds(g) * Outlasting(g, cfg.capC, archived) == candidates;
    RefusalExactly(g, cfg, archived, t);
  }

  function IdsFrom(lo: nat, n: nat): set<nat> {
    if n == 0 then {} else IdsFrom(lo, n - 1) + {lo + n - 1}
  }

  lemma {:induction false} IdsFromCount(lo: nat, n: nat)
    ensures |IdsFrom(lo, n)| == n && forall id :: id in IdsFrom(lo, n) ==> lo <= id < lo + n
    decreases n
  {
    if n > 0 {
      IdsFromCount(lo, n - 1);
    }
  }

  /** It happens under the limits the service's configuration starts from. */
  lemma DefaultLimitsRefuse(cfg: Cfg, t: Option<int>)
    requires cfg.capacityOn && cfg.capC == 200 && cfg.capA == 2000 && cfg.capContext == 500
    ensures var g := Crowded(IdsFrom(0, 400), IdsFrom(400, 150));
            Closable(g, cfg, IdsFrom(0, 400)) && !PlanCapacity(g, cfg, IdsFrom(0, 400), t).accepted
  {
    hide PlanCapacity, Crowded, Closable, IdsFrom;
    IdsFromCount(0, 400);
    IdsFromCount(400, 150);
    ClosableButRefused(cfg, IdsFrom(0, 400), IdsFrom(400, 150), t);
  }
}
