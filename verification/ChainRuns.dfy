/** What every run of the engine keeps: the chains of unsettled work are whole, no chain is cyclic,
    and no version's sources are lost. */
module ChainRuns {
  import opened MemoryTypes
  import opened VersionGraph
  import opened Ordering
  import opened Capacity
  import opened CapacityPlan
  import opened Pins
  import opened Maintenance
  import opened Verdicts
  import opened UnionFind
  import opened EngineSteps

  /** Along a pointer the sources only grow. */
  ghost predicate SourcesGrow(g: Graph) {
    forall id :: id in g && g[id].Next().Some? && g[id].Next().value in g
      ==> g[id].src <= g[g[id].Next().value].src
  }

  /** Ids and pointers are below the cursor, so a new id is fresh. */
  ghost predicate BelowCursor(g: Graph, n: nat) {
    && (forall id :: id in g ==> id < n)
    && (forall id :: id in g && g[id].Next().Some? ==> g[id].Next().value < n)
  }

  ghost predicate Sound(g: Graph, n: nat) {
    BelowCursor(g, n) && Acyclic(g) && SourcesGrow(g)
  }

  /** Both ends of every open tension and of every unsettled shadow hit lead to a root. */
  ghost predicate EndsWhole(g: Graph, tensions: map<Pair, Tension>, shadow: seq<Shadow>) {
    && (forall k :: k in tensions ==> Whole(g, k.0) && Whole(g, k.1))
    && (forall s :: s in shadow ==> Whole(g, s.key.0) && Whole(g, s.key.1) && s.mid in {s.key.0, s.key.1})
  }

  ghost predicate Safe(e: Engine) {
    Sound(e.mems, e.nextId) && EndsWhole(e.mems, e.tensions, e.shadow)
  }

  // ---------------------------------------------------------------- general transport

  /** Whole chains of `g` are whole in `g'`. */
  ghost predicate KeepsWhole(g: Graph, g': Graph) {
    forall id :: Whole(g, id) ==> Whole(g', id)
  }

  lemma SamePointersSound(g: Graph, g': Graph, n: nat)
    requires Sound(g, n) && SamePointers(g, g')
    requires forall id :: id in g ==> g'[id].src == g[id].src
    ensures Sound(g', n) && KeepsWhole(g, g')
  {
    TrimmedAcyclic(g, g');
    forall id | Whole(g, id)
      ensures Whole(g', id)
    {
      SameWhole(g, g', id) by { WholeIsPresent(g, id); }
    }
  }

  lemma WholeIsPresent(g: Graph, id: nat)
    requires Whole(g, id)
    ensures id in g
  {
    var n: nat, r :| Reaches(g, id, n, r);
  }

  lemma EndsKept(g: Graph, g': Graph, tensions: map<Pair, Tension>, shadow: seq<Shadow>)
    requires EndsWhole(g, tensions, shadow) && KeepsWhole(g, g')
    ensures EndsWhole(g', tensions, shadow)
  {
  }

  lemma LinkedKeepsWhole(g: Graph, g': Graph, ds: set<nat>, k: nat)
    requires Linked(g, g', ds, k)
    ensures KeepsWhole(g, g')
  {
    forall id | Whole(g, id)
      ensures Whole(g', id)
    {
      WholeIsPresent(g, id);
      LinkedRep(g, g', ds, k, id);
    }
  }

  // ---------------------------------------------------------------- late credit

  lemma CreditStep(e: Engine, cfg: Cfg, id: nat, t: int)
    requires Whole(e.mems, id) && id in e.mems
    ensures var e' := CreditHit(e, cfg, id, t); CreditOnly(e.mems, e'.mems) && e' == e.(mems := e'.mems)
    ensures var e' := IssueShadow(e, cfg, id, t); CreditOnly(e.mems, e'.mems) && e' == e.(mems := e'.mems)
  {
    var r := RepOf(e.mems, id);
    assert Follow(e.mems, id, {id}).whole && r in e.mems by { FollowExact(e.mems, id); }
    hide Whole, Follow, CreditOnly;
    CreditNothing(e.mems);
    CreditOne(e.mems, r, HitMem(e.mems[r], cfg, t));
    CreditOne(e.mems, r, ShadowMem(e.mems[r], cfg, t));
  }

  lemma CreditSound(g: Graph, g': Graph, n: nat)
    requires Sound(g, n) && CreditOnly(g, g')
    ensures Sound(g', n) && KeepsWhole(g, g')
  {
    SamePointersSound(g, g', n);
  }

  lemma {:induction false} SettleEntriesSafe(e: Engine, cfg: Cfg, entries: seq<Shadow>, key: Pair, verdict: Verdict)
    requires Sound(e.mems, e.nextId)
    requires forall s :: s in entries ==> Whole(e.mems, s.mid)
    ensures var e' := SettleEntries(e, cfg, entries, key, verdict);
            Sound(e'.mems, e'.nextId) && KeepsWhole(e.mems, e'.mems) && e' == e.(mems := e'.mems)
    decreases |entries|
  {
    hide Sound, Whole, IssueShadow;
    if entries != [] {
      var s := entries[0];
      assert s in entries;
      var e1 := if s.key == key && verdict != Synonym && s.relevant && s.mid in e.mems
                then IssueShadow(e, cfg, s.mid, s.tRet) else e;
      if e1 != e {
        CreditStep(e, cfg, s.mid, s.tRet);
        CreditSound(e.mems, e1.mems, e.nextId);
      }
      SettleEntriesSafe(e1, cfg, entries[1..], key, verdict);
    }
  }

  lemma {:induction false} KeepOtherIn(entries: seq<Shadow>, key: Pair)
    ensures forall s :: s in KeepOther(entries, key) ==> s in entries
    decreases |entries|
  {
    if entries != [] {
      KeepOtherIn(entries[1..], key);
    }
  }

  lemma SettleSafe(e: Engine, cfg: Cfg, key: Pair, verdict: Verdict)
    requires Safe(e)
    ensures var e' := SettleShadow(e, cfg, key, verdict);
            Safe(e') && e'.broken == e.broken && e'.tensions == e.tensions && KeepsWhole(e.mems, e'.mems)
  {
    hide Sound, Whole, SettleEntries;
    SettleEntriesSafe(e, cfg, e.shadow, key, verdict);
    KeepOtherIn(e.shadow, key);
  }

  // ---------------------------------------------------------------- verdicts

  lemma ResolutionSound(e: Engine, cfg: Cfg, a: nat, b: nat, verdict: Verdict, t: int)
    requires Sound(e.mems, e.nextId)
    requires a in e.mems && b in e.mems && a != b && e.mems[a].Root() && e.mems[b].Root()
    ensures var e' := ApplyResolution(e, cfg, a, b, verdict, t);
            Sound(e'.mems, e'.nextId) && KeepsWhole(e.mems, e'.mems) && e' == e.(mems := e'.mems, nextId := e'.nextId)
  {
    hide Linked, HandsSources, Acyclic;
    if verdict in {Synonym, Update, Contradiction} {
      var e' := ApplyResolution(e, cfg, a, b, verdict, t);
      var ds, k := ResolutionLinks(e, cfg, a, b, verdict, t);
      ResolutionCursor(e, cfg, a, b, verdict, t, ds, k);
      if verdict == Contradiction {
        AggregateHandsSources(e, cfg, a, b, t);
      } else {
        var ds1, k1 := MergeHandsSources(e, cfg, a, b, verdict, t);
        assert k1 == k && ds1 == ds by { LinkedKeepRoot(e.mems, e'.mems, ds, k); }
      }
      LinkedSources(e.mems, e'.mems, ds, k);
      LinkedAcyclic(e.mems, e'.mems, ds, k);
      LinkedKeepsWhole(e.mems, e'.mems, ds, k);
    }
  }

  lemma ResolutionCursor(e: Engine, cfg: Cfg, a: nat, b: nat, verdict: Verdict, t: int, ds: set<nat>, k: nat)
    requires BelowCursor(e.mems, e.nextId) && a in e.mems && b in e.mems && a != b
    requires Linked(e.mems, ApplyResolution(e, cfg, a, b, verdict, t).mems, ds, k)
    requires verdict in {Synonym, Update, Contradiction}
    requires if verdict == Contradiction then ds == {a, b} && k == e.nextId
             else (ds == {a} && k == b) || (ds == {b} && k == a)
    ensures var e' := ApplyResolution(e, cfg, a, b, verdict, t); BelowCursor(e'.mems, e'.nextId)
    ensures forall id :: id in e.mems && e.mems[id].Next().Some? && e.mems[id].Next().value == k ==> k in e.mems
  {
    hide Absorb, Replace, Aggregate, Retire;
    var e' := ApplyResolution(e, cfg, a, b, verdict, t);
    forall id | id in e'.mems
      ensures id < e'.nextId && (e'.mems[id].Next().Some? ==> e'.mems[id].Next().value < e'.nextId)
    {
      if id != k {
        assert id in e.mems;
      }
    }
  }

  /** Every version keeps at least its sources, and each re-pointed one hands them to `k`. */
  ghost predicate HandsSources(g: Graph, g': Graph, ds: set<nat>, k: nat) {
    && (forall id :: id in g ==> id in g' && g[id].src <= g'[id].src)
    && (forall id :: id in g && id !in ds && id != k ==> g'[id].src == g[id].src)
    && (k in g' ==> forall d :: d in ds && d in g' ==> g'[d].src <= g'[k].src)
    && (forall d :: d in ds && d in g && d in g' ==> g'[d].src == g[d].src)
  }

  lemma PairHandsSources(g: Graph, k: nat, d: nat, keep: Mem, drop: Mem)
    requires k in g && d in g && k != d
    requires keep.src == g[k].src + g[d].src && drop.src == g[d].src
    ensures HandsSources(g, g[k := keep][d := drop], {d}, k)
    ensures HandsSources(g, g[d := drop][k := keep], {d}, k)
  {
  }

  /** The kept version takes over the sources of the one it replaces. */
  lemma MergeHandsSources(e: Engine, cfg: Cfg, a: nat, b: nat, verdict: Verdict, t: int) returns (ds: set<nat>, k: nat)
    requires a in e.mems && b in e.mems && a != b
    requires e.mems[a].Root() && e.mems[b].Root()
    requires verdict in {Synonym, Update}
    ensures (ds == {a} && k == b) || (ds == {b} && k == a)
    ensures ApplyResolution(e, cfg, a, b, verdict, t).mems[k].Root()
    ensures HandsSources(e.mems, ApplyResolution(e, cfg, a, b, verdict, t).mems, ds, k)
  {
    hide HandsSources, UpdateKeeps, SynonymKeeps;
    var x, y := e.mems[a], e.mems[b];
    if verdict == Synonym {
      if SynonymKeeps(x, y) {
        ds, k := {b}, a;
        PairHandsSources(e.mems, a, b, Absorb(x, y, cfg), Retire(y, a, t));
      } else {
        ds, k := {a}, b;
        PairHandsSources(e.mems, b, a, Absorb(y, x, cfg), Retire(x, b, t));
      }
    } else if UpdateKeeps(x, a, y, b) {
      ds, k := {b}, a;
      PairHandsSources(e.mems, a, b, Replace(x, y), Retire(y, a, t));
    } else {
      ds, k := {a}, b;
      PairHandsSources(e.mems, b, a, Replace(y, x), Retire(x, b, t));
    }
  }

  lemma AggregateHandsSources(e: Engine, cfg: Cfg, a: nat, b: nat, t: int)
    requires a in e.mems && b in e.mems && a != b && e.nextId !in e.mems
    ensures HandsSources(e.mems, ApplyResolution(e, cfg, a, b, Contradiction, t).mems, {a, b}, e.nextId)
  {
    hide ConditionalScopes, MakeAggregate, HandsSources;
    AggregateSources(e, a, b, false, t);
    AggregateSources(HalveBoth(e, a, b), a, b, true, t);
    HalvedSources(e, a, b, MakeAggregate(HalveBoth(e, a, b), a, b, true, t).mems);
  }

  lemma AggregateSources(e: Engine, a: nat, b: nat, pending: bool, t: int)
    requires a in e.mems && b in e.mems && a != b && e.nextId !in e.mems
    ensures HandsSources(e.mems, MakeAggregate(e, a, b, pending, t).mems, {a, b}, e.nextId)
  {
    hide Digits;
  }

  lemma HalvedSources(e: Engine, a: nat, b: nat, g': Graph)
    requires a in e.mems && b in e.mems && HandsSources(HalveBoth(e, a, b).mems, g', {a, b}, e.nextId)
    ensures HandsSources(e.mems, g', {a, b}, e.nextId)
  {
    var h := HalveBoth(e, a, b).mems;
    assert h.Keys == e.mems.Keys && forall id :: id in h ==> h[id].src == e.mems[id].src;
    hide HalveBoth;
  }

  lemma LinkedKeepRoot(g: Graph, g': Graph, ds: set<nat>, k: nat)
    requires Linked(g, g', ds, k)
    ensures g'.Keys == g.Keys + {k} && ds <= g.Keys && forall d :: d in ds ==> !g'[d].Root()
  {
  }

  lemma LinkedSources(g: Graph, g': Graph, ds: set<nat>, k: nat)
    requires SourcesGrow(g) && Linked(g, g', ds, k) && HandsSources(g, g', ds, k)
    requires forall id :: id in g && g[id].Next().Some? && g[id].Next().value == k ==> k in g
    ensures SourcesGrow(g')
  {
    forall id | id in g' && g'[id].Next().Some? && g'[id].Next().value in g'
      ensures g'[id].src <= g'[g'[id].Next().value].src
    {
      if id !in ds {
        assert id != k;
        assert g'[id].Next() == g[id].Next();
      }
    }
  }

  lemma SubmitOneSafe(e: Engine, cfg: Cfg, j: Judgement, t: int)
    requires Safe(e)
    ensures var e' := SubmitOne(e, cfg, j, t); Safe(e') && e'.broken == e.broken
  {
    hide Sound, Whole, SettleShadow, ApplyResolution, Follow;
    var key := SortedPair(j.left, j.right);
    SettleSafe(e, cfg, key, j.verdict);
    var e1 := SettleShadow(e, cfg, key, j.verdict);
    if key in e1.tensions && key.0 in e1.mems && key.1 in e1.mems {
      FollowExact(e1.mems, key.0);
      FollowExact(e1.mems, key.1);
      var a, b := RepOf(e1.mems, key.0), RepOf(e1.mems, key.1);
      var e2 := e1.(tensions := e1.tensions - {key});
      if a != b && j.verdict != Pending {
        ResolutionSound(e2, cfg, a, b, j.verdict, t);
        EndsKept(e2.mems, ApplyResolution(e2, cfg, a, b, j.verdict, t).mems, e2.tensions, e2.shadow);
      }
    }
  }

  lemma {:induction false} SubmitSafe(e: Engine, cfg: Cfg, js: seq<Judgement>, t: int)
    requires Safe(e)
    ensures var e' := SubmitVerdicts(e, cfg, js, t); Safe(e') && e'.broken == e.broken
    decreases |js|
  {
    hide Safe, SubmitOne;
    if js != [] {
      SubmitOneSafe(e, cfg, js[0], t);
      SubmitSafe(SubmitOne(e, cfg, js[0], t), cfg, js[1..], t);
    }
  }

  // ---------------------------------------------------------------- observing and retrieving

  lemma TensionSafe(e: Engine, cfg: Cfg, left: nat, right: nat, t: int)
    requires Safe(e) && Whole(e.mems, left) && Whole(e.mems, right)
    ensures var e' := AddTension(e, cfg, left, right, t); Safe(e') && e' == e.(tensions := e'.tensions)
  {
    hide Sound, Whole;
  }

  lemma RootIsWhole(g: Graph, id: nat)
    requires id in g && g[id].Root()
    ensures Whole(g, id)
  {
    assert Reaches(g, id, 0, id);
  }

  lemma NewMemSound(g: Graph, n: nat, m: Mem)
    requires Sound(g, n) && m.Root()
    ensures var g' := g[n := m]; Sound(g', n + 1) && KeepsWhole(g, g') && Whole(g', n)
  {
    var g' := g[n := m];
    assert Linked(g, g', {}, n);
    LinkedAcyclic(g, g', {}, n);
    LinkedKeepsWhole(g, g', {}, n);
    RootIsWhole(g', n);
  }

  lemma ConfirmSound(g: Graph, n: nat, b: nat, m: Mem)
    requires Sound(g, n) && b in g && g[b].Root()
    requires m.Next() == g[b].Next() && g[b].src <= m.src
    ensures var g' := g[b := m]; Sound(g', n) && KeepsWhole(g, g')
  {
    var g' := g[b := m];
    assert SamePointers(g, g');
    TrimmedAcyclic(g, g');
    forall id | Whole(g, id)
      ensures Whole(g', id)
    {
      WholeIsPresent(g, id);
      SameWhole(g, g', id);
    }
  }

  ghost predicate ActiveRoots(g: Graph, active: seq<nat>) {
    forall id :: id in active ==> id in g && g[id].Root()
  }

  lemma IngestOneSafe(e: Engine, cfg: Cfg, active: seq<nat>, o: Observation, t: int)
    requires Safe(e) && ActiveRoots(e.mems, active)
    ensures var (e', active') := IngestOne(e, cfg, active, o, t);
            Safe(e') && ActiveRoots(e'.mems, active') && e'.broken == e.broken
  {
    hide Sound, Whole, Clamp, Max;
    if active != [] && Verbatim(cfg, e.mems[BestOf(active, o.sim)], o.ev, o.sim(BestOf(active, o.sim))) {
      var b := BestOf(active, o.sim);
      var m := Confirm(e.mems[b], cfg, o.ev, t);
      ConfirmSound(e.mems, e.nextId, b, m);
      EndsKept(e.mems, e.mems[b := m], e.tensions, e.shadow);
    } else {
      var novelty := if active == [] then 1.0 else Clamp(1.0 - o.sim(BestOf(active, o.sim)), 0.0, 1.0);
      var m := NewMem(cfg, o.ev, novelty, t);
      NewMemSound(e.mems, e.nextId, m);
      EndsKept(e.mems, e.mems[e.nextId := m], e.tensions, e.shadow);
      NewIsNotOld(e.mems, e.nextId);
      var e1 := e.(mems := e.mems[e.nextId := m], nextId := e.nextId + 1);
      if active != [] && o.sim(BestOf(active, o.sim)) > cfg.tauDup {
        RootIsWhole(e1.mems, BestOf(active, o.sim));
        TensionSafe(e1, cfg, e.nextId, BestOf(active, o.sim), t);
      }
    }
  }

  lemma NewIsNotOld(g: Graph, n: nat)
    requires Sound(g, n)
    ensures n !in g
  {
  }

  lemma {:induction false} IngestAllSafe(e: Engine, cfg: Cfg, active: seq<nat>, os: seq<Observation>, t: int)
    requires Safe(e) && ActiveRoots(e.mems, active)
    ensures var e' := IngestAll(e, cfg, active, os, t); Safe(e') && e'.broken == e.broken
    decreases |os|
  {
    hide Safe, IngestOne;
    if os != [] {
      IngestOneSafe(e, cfg, active, os[0], t);
      var (e1, active1) := IngestOne(e, cfg, active, os[0], t);
      IngestAllSafe(e1, cfg, active1, os[1..], t);
    }
  }

  lemma IngestSafe(e: Engine, cfg: Cfg, os: seq<Observation>, t: int)
    requires Safe(e)
    ensures var e' := Ingest(e, cfg, os, t); Safe(e') && e'.broken == e.broken
  {
    hide Safe, IngestAll;
    VisibleIn(e.mems, e.nextId);
    IngestAllSafe(e, cfg, VisibleUpTo(e.mems, e.nextId), os, t);
  }

  lemma LookSafe(e: Engine, cfg: Cfg, look: Look, t: int)
    requires Safe(e)
    ensures var e' := LookOne(e, cfg, look, t); Safe(e') && e'.broken == e.broken
  {
    hide Sound, Whole, CreditHit, AddTension;
    if Allowed(e, look) {
      RootIsWhole(e.mems, look.id);
      match look
      case Suppressed(id, rival, relevant, derived) =>
        RootIsWhole(e.mems, rival);
        if !derived {
          var e1 := if cfg.shadowCredit then RecordShadow(e, cfg, id, rival, t, relevant) else e;
          assert Safe(e1) by {
            forall s | s in e1.shadow
              ensures s in e.shadow || s == Shadow(SortedPair(id, rival), id, t, relevant)
            {
            }
          }
          TensionSafe(e1, cfg, id, rival, t);
        }
      case Selected(id) =>
        CreditStep(e, cfg, id, t);
        CreditSound(e.mems, CreditHit(e, cfg, id, t).mems, e.nextId);
        EndsKept(e.mems, CreditHit(e, cfg, id, t).mems, e.tensions, e.shadow);
    }
  }

  lemma {:induction false} RetrieveSafe(e: Engine, cfg: Cfg, looks: seq<Look>, t: int)
    requires Safe(e)
    ensures var e' := Retrieve(e, cfg, looks, t); Safe(e') && e'.broken == e.broken
    decreases |looks|
  {
    hide Safe, LookOne;
    if looks != [] {
      LookSafe(e, cfg, looks[0], t);
      RetrieveSafe(LookOne(e, cfg, looks[0], t), cfg, looks[1..], t);
    }
  }

  // ---------------------------------------------------------------- eviction

  lemma TrimmedSound(g: Graph, g': Graph, n: nat)
    requires Sound(g, n) && Trimmed(g, g') && forall id :: id in g' ==> g'[id].src == g[id].src
    ensures Sound(g', n)
  {
    TrimmedAcyclic(g, g');
  }

  /** Eviction that spares the pins keeps the ends of unsettled work whole. */
  lemma TrimmedEnds(e: Engine, g': Graph, external: set<nat>)
    requires Safe(e) && Trimmed(e.mems, g')
    requires e.mems.Keys - g'.Keys !! PinClosure(e.mems, PinRoots(e, external))
    ensures EndsWhole(g', e.tensions, e.shadow)
  {
    hide Sound, Whole, Trimmed, PinClosure;
    var roots := PinRoots(e, external);
    forall k | k in e.tensions
      ensures Whole(g', k.0) && Whole(g', k.1)
    {
      TrimKeepsWhole(e.mems, g', roots, k.0);
      TrimKeepsWhole(e.mems, g', roots, k.1);
    }
    forall s | s in e.shadow
      ensures Whole(g', s.key.0) && Whole(g', s.key.1)
    {
      TrimKeepsWhole(e.mems, g', roots, s.key.0);
      TrimKeepsWhole(e.mems, g', roots, s.key.1);
    }
  }

  lemma StepTrims(e: Engine, cfg: Cfg, t: int)
    requires cfg.Ok()
    ensures var g' := MaintainGraph(e, cfg, t);
            && Trimmed(e.mems, g') && (forall id :: id in g' ==> g'[id].src == e.mems[id].src)
            && e.mems.Keys - g'.Keys !! Pinned(e)
  {
    hide Pinned, DecayAll, Rebalance, Shrink, Archived, OverflowingArchive, Elems;
    PinsAreStable(e, cfg, t);
    var g3 := MaintainWith(e.mems, cfg, Pinned(e), t).0;
    ArchiveBounded(g3, cfg.capA, Pinned(e));
  }

  lemma WholeNeverBroken(g: Graph, tensions: map<Pair, Tension>, shadow: seq<Shadow>)
    requires EndsWhole(g, tensions, shadow)
    ensures BrokenWalks(g, tensions) == 0
  {
    hide Whole, Follow;
    forall k | k in tensions && Present(g, k)
      ensures Follow(g, k.0, {k.0}).whole && Follow(g, k.1, {k.1}).whole
    {
      FollowExact(g, k.0);
      FollowExact(g, k.1);
    }
    assert BrokenEnds(g, tensions, true) == {} && BrokenEnds(g, tensions, false) == {};
  }

  lemma StepSafe(e: Engine, cfg: Cfg, t: int)
    requires cfg.Ok() && Safe(e)
    ensures var e' := Maintain(e, cfg, t); Safe(e') && e'.broken == e.broken
  {
    hide Sound, Whole, MaintainGraph, BrokenWalks, Trimmed, PinClosure, PinRoots;
    var g' := MaintainGraph(e, cfg, t);
    StepTrims(e, cfg, t);
    TrimmedSound(e.mems, g', e.nextId);
    TrimmedEnds(e, g', e.external);
    WholeNeverBroken(g', e.tensions, e.shadow);
  }

  lemma CloseTrims(e: Engine, cfg: Cfg, pins: set<nat>, t: int)
    requires cfg.capacityOn && PlanCapacity(e.mems, cfg, pins, Some(t)).accepted
    ensures var g' := ApplyPlan(e.mems, PlanCapacity(e.mems, cfg, pins, Some(t)), t);
            && Trimmed(e.mems, g') && (forall id :: id in g' ==> g'[id].src == e.mems[id].src)
            && e.mems.Keys - g'.Keys !! pins
  {
    hide PlanCapacity, InPool, CurrentIds;
    AcceptedPlanMeetsLimits(e.mems, cfg, pins, t);
  }

  lemma CloseSafe(e: Engine, cfg: Cfg, roots: set<nat>, made: set<nat>, t: int)
    requires Safe(e)
    ensures var r := EnforceCapacity(e, cfg, roots, made, t);
            r.Some? ==> Safe(r.value) && r.value.broken == e.broken
  {
    hide Sound, Whole, PlanCapacity, ApplyPlan, Trimmed, PinClosure, PinRoots;
    var pins := ProtectedIds(e, roots, made);
    if cfg.capacityOn && PlanCapacity(e.mems, cfg, pins, Some(t)).accepted {
      var g' := ApplyPlan(e.mems, PlanCapacity(e.mems, cfg, pins, Some(t)), t);
      CloseTrims(e, cfg, pins, t);
      TrimmedSound(e.mems, g', e.nextId);
      TrimmedEnds(e, g', roots);
    }
  }

  // ---------------------------------------------------------------- whole runs

  lemma NextSafe(e: Engine, cfg: Cfg, step: EngineStep)
    requires cfg.Ok() && Safe(e)
    ensures var e' := EngineNext(e, cfg, step); Safe(e') && e'.broken == e.broken
  {
    hide Safe, Ingest, Retrieve, SubmitVerdicts, Maintain, EnforceCapacity, ProtectedIds;
    match step
    case Observe(os, t) => IngestSafe(e, cfg, os, t);
    case Search(looks, t) => RetrieveSafe(e, cfg, looks, t);
    case Submit(js, t) => SubmitSafe(e, cfg, js, t);
    case Step(t) => StepSafe(e, cfg, t);
    case Protect(roots) => ExternalSafe(e, ProtectedIds(e, roots, {}));
    case Close(roots, made, t) => CloseSafe(e, cfg, roots, made, t);
  }

  lemma ExternalSafe(e: Engine, external: set<nat>)
    requires Safe(e)
    ensures Safe(e.(external := external))
  {
    hide Sound, Whole;
  }

  /** Over every run of observing, searching, judging, maintaining and closing the pools: every walk
      from an open tension or an unsettled shadow hit reaches a root, and no walk ever counted a
      broken chain. */
  lemma {:induction false} RunsNeverBreakChains(e: Engine, cfg: Cfg, steps: seq<EngineStep>)
    requires cfg.Ok() && Safe(e)
    ensures var e' := EngineRun(e, cfg, steps); Safe(e') && e'.broken == e.broken
    decreases |steps|
  {
    hide Safe, EngineNext;
    if steps != [] {
      NextSafe(e, cfg, steps[0]);
      RunsNeverBreakChains(EngineNext(e, cfg, steps[0]), cfg, steps[1..]);
    }
  }

  /** What a safe state means for one end of an open tension. */
  lemma TensionEndReachesRoot(e: Engine, k: Pair)
    requires Safe(e) && k in e.tensions
    ensures NoCycle(e.mems)
    ensures forall id :: id in {k.0, k.1} ==>
              id in e.mems && Follow(e.mems, id, {id}).whole && e.mems[RepOf(e.mems, id)].Root()
  {
    AcyclicNoCycle(e.mems);
    forall id | id in {k.0, k.1}
      ensures id in e.mems && Follow(e.mems, id, {id}).whole && e.mems[RepOf(e.mems, id)].Root()
    {
      WholeIsPresent(e.mems, id);
      FollowExact(e.mems, id);
    }
  }

  lemma {:induction false} SourcesAlongChain(g: Graph, id: nat, n: nat, r: nat)
    requires SourcesGrow(g) && Reaches(g, id, n, r)
    ensures r in g && g[id].src <= g[r].src
    decreases n
  {
    if n > 0 {
      SourcesAlongChain(g, g[id].Next().value, n - 1, r);
    }
  }

  /** Provenance: whatever a run did, a version whose chain is intact finds all its sources in its
      representative. */
  lemma ProvenanceReachesRepresentative(e: Engine, cfg: Cfg, steps: seq<EngineStep>, id: nat)
    requires cfg.Ok() && Safe(e)
    requires var g := EngineRun(e, cfg, steps).mems; id in g && Follow(g, id, {id}).whole
    ensures var g := EngineRun(e, cfg, steps).mems; g[id].src <= g[RepOf(g, id)].src
  {
    RunsNeverBreakChains(e, cfg, steps);
    var g := EngineRun(e, cfg, steps).mems;
    FollowExact(g, id);
    var n: nat :| Reaches(g, id, n, RepOf(g, id));
    SourcesAlongChain(g, id, n, RepOf(g, id));
  }

  /** A new engine is safe. */
  lemma EmptyEngineIsSafe()
    ensures Safe(Engine(map[], map[], [], {}, 0, 0))
  {
    assert Ranked(map[], (id: nat) => 0);
  }
}
