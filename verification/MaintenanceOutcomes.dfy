/** What one maintenance step does to each version, said of its result: worth, pool, archive, tensions. */
module MaintenanceOutcomes {
  import opened MemoryTypes
  import opened VersionGraph
  import opened Ordering
  import opened Capacity
  import opened Pins
  import opened Maintenance
  import opened Potential
  import opened ChainRuns
  import opened EngineSteps
  import opened CreditOutcomes

  // ---------------------------------------------------------------- idleness

  /** Steps since the last hit, or since birth. */
  function Unused(m: Mem, t: int): int {
    t - match m.lastHit case Some(hit) => hit case None => m.birth
  }

  /** How long a version may go unused; the more salient it is, the longer. */
  function Patience(m: Mem, cfg: Cfg): real
    requires cfg.Ok()
  {
    cfg.idleP * RetentionScale(m.salience, cfg)
  }

  lemma TrimOnlyDrops(g: Graph, cfg: Cfg, pins: set<nat>, id: nat)
    requires id in Trim(g, cfg, pins)
    ensures id in g && Trim(g, cfg, pins)[id] == g[id]
  {
    hide OverflowingArchive, Elems;
  }

  /** The step up to the idle archiving, by id. */
  lemma LastPhases(e: Engine, cfg: Cfg, t: int, id: nat)
    requires cfg.Ok() && id in Maintain(e, cfg, t).mems
    ensures var g2 := Shrink(Rebalance(DecayAll(e.mems, cfg), cfg), cfg, Pinned(e), t);
            && id in e.mems && id in g2 && SameVersions(e.mems, g2)
            && Maintain(e, cfg, t).mems[id] == Archived(g2, IdleIds(g2, cfg, Pinned(e), t), t)[id]
  {
    hide DecayAll, Rebalance, Shrink, Archived, IdleIds, Trim, Pinned, BrokenWalks;
    var pins, g1 := Pinned(e), Rebalance(DecayAll(e.mems, cfg), cfg);
    var g2 := Shrink(g1, cfg, pins, t);
    var idle := IdleIds(g2, cfg, pins, t);
    PinsAreStable(e, cfg, t);
    TrimOnlyDrops(Archived(g2, idle, t), cfg, pins, id);
    assert SameVersions(e.mems, g2) by {
      hide SameVersions;
      DecayKeepsVersions(e.mems, cfg);
      RebalanceKeepsVersions(DecayAll(e.mems, cfg), cfg);
      ShrinkKeepsVersions(g1, cfg, pins, t);
      SameVersionsTrans(e.mems, DecayAll(e.mems, cfg), g1);
      SameVersionsTrans(e.mems, g1, g2);
    }
  }

  lemma SameUse(g: Graph, g': Graph, cfg: Cfg, t: int, id: nat)
    requires cfg.Ok() && SameVersions(g, g') && id in g
    ensures id in g' && Unused(g'[id], t) == Unused(g[id], t) && Patience(g'[id], cfg) == Patience(g[id], cfg)
  {
    assert g'[id] == g[id].(pool := g'[id].pool, v := g'[id].v, archivedAt := g'[id].archivedAt, dHit := g'[id].dHit, dShadow := g'[id].dShadow);
  }

  /** No unpinned candidate outstays its patience. */
  lemma NoIdleCandidateStays(e: Engine, cfg: Cfg, t: int, id: nat)
    requires cfg.Ok() && id in Maintain(e, cfg, t).mems && id !in Pinned(e)
    requires Maintain(e, cfg, t).mems[id].pool == Candidate
    ensures id in e.mems && Unused(e.mems[id], t) as real <= Patience(e.mems[id], cfg)
  {
    hide Maintain, DecayAll, Rebalance, Shrink, Pinned, SameVersions, RetentionScale;
    LastPhases(e, cfg, t, id);
    SameUse(e.mems, Shrink(Rebalance(DecayAll(e.mems, cfg), cfg), cfg, Pinned(e), t), cfg, t, id);
  }

  /** Whoever a step archives is stamped with its time; without pool limits it was unpinned and outstayed its
      patience. */
  lemma OnlyIdleAreArchived(e: Engine, cfg: Cfg, t: int, id: nat)
    requires cfg.Ok() && id in e.mems && e.mems[id].pool != Archive
    requires id in Maintain(e, cfg, t).mems && Maintain(e, cfg, t).mems[id].pool == Archive
    ensures Maintain(e, cfg, t).mems[id].archivedAt == Some(t)
    ensures !cfg.capacityOn ==> id !in Pinned(e) && Unused(e.mems[id], t) as real > Patience(e.mems[id], cfg)
  {
    hide Maintain, Pinned, SameVersions, RetentionScale, DecayAll, Rebalance, Shrink;
    var g1 := Rebalance(DecayAll(e.mems, cfg), cfg);
    var g2 := Shrink(g1, cfg, Pinned(e), t);
    LastPhases(e, cfg, t, id);
    SameUse(e.mems, g2, cfg, t, id);
    RebalanceAvoidsArchive(e.mems, cfg, id);
    ShrinkStamps(g1, cfg, Pinned(e), t, id);
  }

  /** The pool limits archive with the time of the step, and move nobody when they are off. */
  lemma ShrinkStamps(g: Graph, cfg: Cfg, pins: set<nat>, t: int, id: nat)
    requires id in g
    ensures var g' := Shrink(g, cfg, pins, t);
            && id in g' && (g[id].pool != Archive && g'[id].pool == Archive ==> g'[id].archivedAt == Some(t))
            && (g[id].pool == Archive ==> g'[id].pool == Archive && g'[id].archivedAt == g[id].archivedAt)
            && (!cfg.capacityOn ==> g' == g)
  {
    hide OverflowingMain, OverflowingCandidates, Elems;
    if cfg.capacityOn {
      CandidatesBounded(EvictMain(g, cfg, t), cfg.capC, pins);
      MainOverflow(g, cfg);
    }
  }

  /** A step takes nobody out of the archive and leaves the old stamps as they are. */
  lemma ArchiveStays(e: Engine, cfg: Cfg, t: int, id: nat)
    requires cfg.Ok() && id in e.mems && e.mems[id].pool == Archive && id in Maintain(e, cfg, t).mems
    ensures Maintain(e, cfg, t).mems[id].pool == Archive && Maintain(e, cfg, t).mems[id].archivedAt == e.mems[id].archivedAt
  {
    hide Maintain, Pinned, SameVersions, RetentionScale, DecayAll, Rebalance, Shrink;
    var g1 := Rebalance(DecayAll(e.mems, cfg), cfg);
    LastPhases(e, cfg, t, id);
    RebalanceKeepsArchive(e.mems, cfg, id);
    ShrinkStamps(g1, cfg, Pinned(e), t, id);
  }

  lemma RebalanceKeepsArchive(g: Graph, cfg: Cfg, id: nat)
    requires cfg.Ok() && id in g && g[id].pool == Archive
    ensures var g1 := Rebalance(DecayAll(g, cfg), cfg); id in g1 && g1[id].pool == Archive && g1[id].archivedAt == g[id].archivedAt
  {
    hide Promoted, Elems;
    PromotedQualify(DemoteAll(DecayAll(g, cfg), cfg), cfg);
  }

  // ---------------------------------------------------------------- worth and the main pool

  /** What a version is worth after a step: its decayed worth, and what its hits since the last step earned. */
  lemma WorthAfterStep(e: Engine, cfg: Cfg, t: int, id: nat)
    requires cfg.Ok() && id in e.mems && id in Maintain(e, cfg, t).mems
    ensures var m, m' := e.mems[id], Maintain(e, cfg, t).mems[id];
            && m'.v == m.v * cfg.expNeg(cfg.lam / RetentionScale(m.salience, cfg)) + cfg.eta * m.dHit
                       + (if cfg.shadowCredit then cfg.etaShadow * m.dShadow else 0.0)
  {
    hide Maintain, RetentionScale, Decayed;
    ValueAfterStep(e, cfg, t, id);
    DecayedWorthIs(e.mems[id], cfg);
  }

  lemma DecayedWorthIs(m: Mem, cfg: Cfg)
    requires cfg.Ok()
    ensures Decayed(m, cfg).v == m.v * cfg.expNeg(cfg.lam / RetentionScale(m.salience, cfg)) + cfg.eta * m.dHit
                                 + (if cfg.shadowCredit then cfg.etaShadow * m.dShadow else 0.0)
  {
    hide RetentionScale;
  }

  /** With two pools and no limits, a step leaves in the main pool exactly the members that are still worth the
      demotion threshold, and the current ones of both pools that are worth more than the promotion threshold. */
  lemma MainAfterStep(e: Engine, cfg: Cfg, t: int, id: nat)
    requires cfg.Ok() && cfg.twoPool && !cfg.capacityOn && id in e.mems && id in Maintain(e, cfg, t).mems
    ensures var m, m' := e.mems[id], Maintain(e, cfg, t).mems[id];
            m'.pool == Main <==> (m.pool == Main && m'.v >= cfg.thetaD) || (m.pool != Archive && m.Current() && m'.v > cfg.thetaP)
  {
    hide Maintain, Pinned, SameVersions, RetentionScale, DecayAll, Rebalance, Shrink, IdleIds;
    var g0 := DecayAll(e.mems, cfg);
    var g1 := Rebalance(g0, cfg);
    var g2 := Shrink(g1, cfg, Pinned(e), t);
    LastPhases(e, cfg, t, id);
    DecayedPools(e.mems, cfg, id);
    RebalancedMain(g0, cfg, id);
    assert g2 == g1 by { ShrinkStamps(g1, cfg, Pinned(e), t, id); }
    assert forall x :: x in IdleIds(g2, cfg, Pinned(e), t) ==> x in InPool(g2, Candidate) by { IdleAreCandidates(g2, cfg, Pinned(e), t); }
    assert Maintain(e, cfg, t).mems[id].v == g1[id].v;
  }

  lemma DecayedPools(g: Graph, cfg: Cfg, id: nat)
    requires cfg.Ok() && id in g
    ensures id in DecayAll(g, cfg) && DecayAll(g, cfg)[id].pool == g[id].pool && DecayAll(g, cfg)[id].Current() == g[id].Current()
  {
  }

  lemma RebalancedMain(g: Graph, cfg: Cfg, id: nat)
    requires cfg.twoPool && !cfg.capacityOn && id in g
    ensures var g' := Rebalance(g, cfg);
            && id in g' && g'[id].v == g[id].v
            && (g'[id].pool == Main <==> (g[id].pool == Main && g[id].v >= cfg.thetaD) || (g[id].pool != Archive && g[id].Current() && g[id].v > cfg.thetaP))
  {
    hide SortIds, Elems;
    var d := DemoteAll(g, cfg);
    PromotionKeyed(d, cfg);
    SortIdsSorts(PromotionKeys(d, cfg));
  }

  /** Salience only ever prolongs: below the floor it does nothing, and at its full it adds the whole weight. */
  lemma RetentionGrows(cfg: Cfg, a: real, b: real)
    requires cfg.Ok() && a <= b
    ensures 1.0 <= RetentionScale(a, cfg) <= RetentionScale(b, cfg) <= 1.0 + cfg.retentionWeight
    ensures !cfg.salienceOn || b <= cfg.retentionFloor <= 0.999999 ==> RetentionScale(b, cfg) == 1.0
    ensures cfg.salienceOn && b >= 1.0 ==> RetentionScale(b, cfg) == 1.0 + cfg.retentionWeight
  {
    if cfg.salienceOn {
      var floor, x, y := Clamp(cfg.retentionFloor, 0.0, 0.999999), Clamp(a, 0.0, 1.0), Clamp(b, 0.0, 1.0);
      Clamped(a, b, cfg.retentionFloor);
      ScaleIs(a, cfg);
      ScaleIs(b, cfg);
      hide Clamp, Excess, Scale, RetentionScale;
      ExcessGrows(floor, x, y);
      ScaledExcess(cfg.retentionWeight, Excess(floor, x), Excess(floor, y));
    }
  }

  function Excess(floor: real, x: real): real
    requires floor < 1.0
  {
    Max(0.0, (x - floor) / (1.0 - floor))
  }

  function Scale(w: real, excess: real): real {
    1.0 + w * excess
  }

  lemma ScaleIs(salience: real, cfg: Cfg)
    requires cfg.Ok() && cfg.salienceOn
    ensures Clamp(cfg.retentionFloor, 0.0, 0.999999) < 1.0
    ensures RetentionScale(salience, cfg) ==
              Scale(cfg.retentionWeight, Excess(Clamp(cfg.retentionFloor, 0.0, 0.999999), Clamp(salience, 0.0, 1.0)))
  {
    var floor := Clamp(cfg.retentionFloor, 0.0, 0.999999);
    var excess := Max(0.0, (Clamp(salience, 0.0, 1.0) - floor) / (1.0 - floor));
    assert Excess(floor, Clamp(salience, 0.0, 1.0)) == excess;
    assert RetentionScale(salience, cfg) == 1.0 + cfg.retentionWeight * excess;
  }

  lemma Clamped(a: real, b: real, floor: real)
    requires a <= b
    ensures 0.0 <= Clamp(floor, 0.0, 0.999999) < 1.0 && 0.0 <= Clamp(a, 0.0, 1.0) <= Clamp(b, 0.0, 1.0) <= 1.0
    ensures b <= floor <= 0.999999 ==> Clamp(b, 0.0, 1.0) <= Clamp(floor, 0.0, 0.999999)
    ensures b >= 1.0 ==> Clamp(b, 0.0, 1.0) == 1.0
  {
  }

  lemma ExcessGrows(floor: real, x: real, y: real)
    requires 0.0 <= floor < 1.0 && x <= y <= 1.0
    ensures 0.0 <= Excess(floor, x) <= Excess(floor, y) <= 1.0
    ensures (y <= floor ==> Excess(floor, y) == 0.0) && (y == 1.0 ==> Excess(floor, y) == 1.0)
  {
    Ordered(x - floor, y - floor, 1.0 - floor);
    Ordered(y - floor, 1.0 - floor, 1.0 - floor);
    assert (1.0 - floor) / (1.0 - floor) == 1.0;
    if y <= floor { Ordered(y - floor, 0.0, 1.0 - floor); }
  }

  lemma ScaledExcess(w: real, x: real, y: real)
    requires w >= 0.0 && 0.0 <= x <= y <= 1.0
    ensures 1.0 <= Scale(w, x) <= Scale(w, y) <= 1.0 + w
    ensures (y == 0.0 ==> Scale(w, y) == 1.0) && (y == 1.0 ==> Scale(w, y) == 1.0 + w)
  {
    Scaled(w, x, y);
    assert w * y <= w by { Scaled(w, y, 1.0); }
  }

  lemma Ordered(x: real, y: real, c: real)
    requires x <= y && c > 0.0
    ensures x / c <= y / c
  {
  }

  lemma Scaled(w: real, x: real, y: real)
    requires w >= 0.0 && 0.0 <= x <= y
    ensures 0.0 <= w * x <= w * y
  {
  }

  // ---------------------------------------------------------------- tensions

  lemma EndsKeepReps(e: Engine, cfg: Cfg, t: int, k: Pair)
    requires cfg.Ok() && Safe(e) && k in e.tensions
    ensures var g' := MaintainGraph(e, cfg, t);
            k.0 in g' && k.1 in g' && k.0 in e.mems && k.1 in e.mems && RepOf(g', k.0) == RepOf(e.mems, k.0) && RepOf(g', k.1) == RepOf(e.mems, k.1)
  {
    hide MaintainGraph, Pinned, PinClosure, Follow, Whole, Sound, Trimmed;
    var g' := MaintainGraph(e, cfg, t);
    StepTrims(e, cfg, t);
    var roots := PinRoots(e, e.external);
    assert k.0 in roots && k.1 in roots;
    PinnedIsClosure(e);
    TrimKeepsWhole(e.mems, g', roots, k.0);
    TrimKeepsWhole(e.mems, g', roots, k.1);
    WholeIsPresent(e.mems, k.0);
    WholeIsPresent(e.mems, k.1);
    WholeIsPresent(g', k.0);
    WholeIsPresent(g', k.1);
  }

  lemma PinnedIsClosure(e: Engine)
    ensures Pinned(e) == PinClosure(e.mems, PinRoots(e, e.external))
  {
  }

  /** A step closes a tension exactly when its ends have come to lead to one version, and asks for a verdict on exactly
      the others that are open long enough. No eviction costs a tension. */
  lemma TensionsAfterStep(e: Engine, cfg: Cfg, t: int)
    requires cfg.Ok() && Safe(e)
    ensures forall k :: k in e.tensions ==> k.0 in e.mems && k.1 in e.mems
    ensures Maintain(e, cfg, t).tensions == map k | k in e.tensions && RepOf(e.mems, k.0) != RepOf(e.mems, k.1) :: e.tensions[k]
    ensures Aged(e.(mems := MaintainGraph(e, cfg, t)), cfg, t) ==
              set k | k in e.tensions && RepOf(e.mems, k.0) != RepOf(e.mems, k.1) && e.tensions[k].firstSeen + cfg.tensionDelay <= t
  {
    hide MaintainGraph, Follow, Safe, BrokenWalks;
    forall k | k in e.tensions
      ensures var g' := MaintainGraph(e, cfg, t);
              k.0 in g' && k.1 in g' && k.0 in e.mems && k.1 in e.mems && RepOf(g', k.0) == RepOf(e.mems, k.0) && RepOf(g', k.1) == RepOf(e.mems, k.1)
    {
      EndsKeepReps(e, cfg, t, k);
    }
  }

  // ---------------------------------------------------------------- closing the pools

  /** An effect that closes the pools archives unpinned candidates, stamped with its time, loses unpinned archived
      versions, and changes nothing else. */
  lemma ClosingOutcome(e: Engine, cfg: Cfg, roots: set<nat>, made: set<nat>, t: int)
    ensures var closed, pins := EnforceCapacity(e, cfg, roots, made, t), ProtectedIds(e, roots, made);
            closed.Some? ==>
              && var e' := closed.value;
              && e' == e.(mems := e'.mems, external := pins) && e'.mems.Keys <= e.mems.Keys
              && (forall id :: id in e'.mems ==>
                    e'.mems[id] == e.mems[id]
                    || (id !in pins && e.mems[id].pool == Candidate && e'.mems[id] == e.mems[id].(pool := Archive, archivedAt := Some(t))))
              && (forall id :: id in e.mems && id !in e'.mems ==> id !in pins && e.mems[id].pool != Main)
  {
    hide PinClosure, PlanCapacity, Elems, PartsOf;
    var pins := ProtectedIds(e, roots, made);
    if cfg.capacityOn {
      var plan := PlanCapacity(e.mems, cfg, pins, Some(t));
      PlanParts(e.mems, cfg, pins, Some(t));
      AppliedVersions(e.mems, plan, pins, PartsOf(e.mems, cfg, pins, Some(t)), t);
    }
  }

  lemma AppliedVersions(g: Graph, plan: Plan, pins: set<nat>, p: Parts, t: int)
    requires PlanSets(g, pins, p) && p.arch == Elems(plan.archive) && Elems(plan.delete) == p.first + p.more
    ensures var g' := ApplyPlan(g, plan, t);
            && g'.Keys <= g.Keys
            && (forall id :: id in g' ==>
                  g'[id] == g[id] || (id !in pins && g[id].pool == Candidate && g'[id] == g[id].(pool := Archive, archivedAt := Some(t))))
            && (forall id :: id in g && id !in g' ==> id !in pins && g[id].pool != Main)
  {
    assert forall id :: id in plan.archive <==> id in Elems(plan.archive);
    assert forall id :: id in plan.delete <==> id in Elems(plan.delete);
    forall id | id in Elems(plan.delete)
      ensures id !in pins && (id in g ==> g[id].pool != Main)
    {
      assert id in InPool(g, Archive) + p.arch - pins;
    }
  }

  // ---------------------------------------------------------------- pins

  /** `s` spares all unsettled work and whatever it refers to. */
  ghost predicate Spares(e: Engine, s: set<nat>) {
    && (forall k :: k in e.tensions ==> k.0 in s && k.1 in s)
    && (forall hit :: hit in e.shadow ==> hit.key.0 in s && hit.key.1 in s && hit.mid in s)
    && (forall id :: id in e.mems && e.mems[id].pendingReview ==> id in s && forall x :: x in e.mems[id].aggMembers ==> x in s)
    && (forall id :: id in e.external ==> id in s)
    && (forall id :: id in s && id in e.mems ==>
          && (e.mems[id].supersededBy.Some? && e.mems[id].supersededBy.value in e.mems ==> e.mems[id].supersededBy.value in s)
          && (e.mems[id].aggregatedInto.Some? && e.mems[id].aggregatedInto.value in e.mems ==> e.mems[id].aggregatedInto.value in s)
          && (forall x :: x in e.mems[id].aggMembers && x in e.mems ==> x in s))
  }

  lemma SparesExactly(e: Engine, s: set<nat>)
    ensures Spares(e, s) <==> PinRoots(e, e.external) <= s && ClosedUnderRefs(e.mems, s)
  {
  }

  /** The pins spare all that, and nothing beyond it. */
  lemma PinsAreLeast(e: Engine)
    ensures Spares(e, Pinned(e)) && forall s :: Spares(e, s) ==> Pinned(e) <= s
  {
    hide Spares, PinRoots, ClosedUnderRefs;
    PinClosureLeast(e.mems, PinRoots(e, e.external));
    SparesExactly(e, Pinned(e));
    forall s | Spares(e, s)
      ensures Pinned(e) <= s
    {
      SparesExactly(e, s);
    }
  }
}
