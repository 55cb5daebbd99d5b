/** The total value of root versions: verdicts never raise it, and without new memories or hits it decays
    geometrically. */
module Potential {
  import opened MemoryTypes
  import opened VersionGraph
  import opened Ordering
  import opened Capacity
  import opened CapacityPlan
  import opened Pins
  import opened Maintenance
  import opened Verdicts
  import opened UnionFind
  import opened EngineSteps
  import opened ChainRuns

  function Worth(g: Graph, id: nat): real {
    if id in g && g[id].Root() then g[id].v else 0.0
  }

  /** The value of all roots with an id below `n`. */
  function TotalBelow(g: Graph, n: nat): real {
    if n == 0 then 0.0 else TotalBelow(g, n - 1) + Worth(g, n - 1)
  }

  function Total(e: Engine): real {
    TotalBelow(e.mems, e.nextId)
  }

  ghost predicate NonNegativeValues(g: Graph) {
    forall id :: id in g ==> g[id].v >= 0.0
  }

  // ---------------------------------------------------------------- sums

  lemma {:induction false} TotalUpdate(g: Graph, id: nat, m: Mem, n: nat)
    ensures TotalBelow(g[id := m], n) == TotalBelow(g, n) + (if id < n then Worth(g[id := m], id) - Worth(g, id) else 0.0)
    decreases n
  {
    if n > 0 {
      TotalUpdate(g, id, m, n - 1);
      if n - 1 != id {
        assert Worth(g[id := m], n - 1) == Worth(g, n - 1);
      }
    }
  }

  lemma {:induction false} TotalScales(g: Graph, g': Graph, n: nat, c: real)
    requires forall id :: 0 <= id < n ==> Worth(g', id) <= c * Worth(g, id)
    ensures TotalBelow(g', n) <= c * TotalBelow(g, n)
    decreases n
  {
    hide Worth;
    if n > 0 {
      TotalScales(g, g', n - 1, c);
      Distributes(c, TotalBelow(g, n - 1), Worth(g, n - 1));
    }
  }

  lemma Distributes(c: real, x: real, y: real)
    ensures c * (x + y) == c * x + c * y
  {
  }

  lemma {:induction false} TotalNonNegative(g: Graph, n: nat)
    requires NonNegativeValues(g)
    ensures TotalBelow(g, n) >= 0.0
    decreases n
  {
    if n > 0 {
      TotalNonNegative(g, n - 1);
    }
  }

  // ---------------------------------------------------------------- verdicts

  lemma ShrinkingProduct(c: real, x: real)
    requires 0.0 <= c <= 1.0 && x >= 0.0
    ensures 0.0 <= c * x <= x
  {
  }

  /** Two roots are replaced by versions that are worth no more together. */
  lemma PairTotal(g: Graph, a: nat, b: nat, ma: Mem, mb: Mem, n: nat)
    requires a in g && b in g && a != b && a < n && b < n && g[a].Root() && g[b].Root()
    requires (if ma.Root() then ma.v else 0.0) + (if mb.Root() then mb.v else 0.0) <= g[a].v + g[b].v
    ensures TotalBelow(g[a := ma][b := mb], n) <= TotalBelow(g, n)
    ensures TotalBelow(g[b := mb][a := ma], n) <= TotalBelow(g, n)
  {
    TotalUpdate(g, a, ma, n);
    TotalUpdate(g[a := ma], b, mb, n);
    assert g[a := ma][b := mb] == g[b := mb][a := ma];
  }

  ghost predicate MergeFits(e: Engine, a: nat, b: nat) {
    && NonNegativeValues(e.mems)
    && a in e.mems && b in e.mems && a != b && a < e.nextId && b < e.nextId && e.mems[a].Root() && e.mems[b].Root()
  }

  /** One of two roots is kept with a new value, and the other is retired. */
  lemma KeepTotal(e: Engine, k: nat, d: nat, keep: Mem, t: int)
    requires MergeFits(e, k, d) && keep.Root() && 0.0 <= keep.v <= e.mems[k].v + e.mems[d].v
    ensures var g := e.mems[k := keep][d := Retire(e.mems[d], k, t)];
            TotalBelow(g, e.nextId) <= Total(e) && NonNegativeValues(g)
  {
    PairTotal(e.mems, k, d, keep, Retire(e.mems[d], k, t), e.nextId);
  }

  lemma AbsorbValue(x: Mem, y: Mem, cfg: Cfg)
    requires 0.0 <= cfg.etaC <= 1.0 && x.v >= 0.0 && y.v >= 0.0 && x.Root()
    ensures Absorb(x, y, cfg).Root() && 0.0 <= Absorb(x, y, cfg).v <= x.v + y.v
    ensures Replace(x, y).Root() && 0.0 <= Replace(x, y).v <= x.v + y.v
  {
    ShrinkingProduct(cfg.etaC, x.v + y.v);
  }

  lemma MergeTotal(e: Engine, cfg: Cfg, a: nat, b: nat, verdict: Verdict, t: int)
    requires 0.0 <= cfg.etaC <= 1.0 && MergeFits(e, a, b) && (verdict == Synonym || verdict == Update)
    ensures var e' := ApplyResolution(e, cfg, a, b, verdict, t);
            Total(e') <= Total(e) && NonNegativeValues(e'.mems)
  {
    hide Absorb, Replace, Retire, TotalBelow, SynonymKeeps, UpdateKeeps;
    var x, y := e.mems[a], e.mems[b];
    AbsorbValue(x, y, cfg);
    AbsorbValue(y, x, cfg);
    if verdict == Synonym {
      if SynonymKeeps(x, y) { KeepTotal(e, a, b, Absorb(x, y, cfg), t); } else { KeepTotal(e, b, a, Absorb(y, x, cfg), t); }
    } else {
      if UpdateKeeps(x, a, y, b) { KeepTotal(e, a, b, Replace(x, y), t); } else { KeepTotal(e, b, a, Replace(y, x), t); }
    }
  }

  lemma AggregateTotal(e: Engine, a: nat, b: nat, pending: bool, t: int)
    requires NonNegativeValues(e.mems) && e.nextId !in e.mems
    requires a in e.mems && b in e.mems && a != b && a < e.nextId && b < e.nextId && e.mems[a].Root() && e.mems[b].Root()
    ensures var e' := MakeAggregate(e, a, b, pending, t);
            Total(e') <= Total(e) && NonNegativeValues(e'.mems)
  {
    hide Digits;
    var x, y, id := e.mems[a], e.mems[b], e.nextId;
    var agg := Aggregate(x, a, y, b, pending, t);
    var g1 := e.mems[id := agg];
    TotalUpdate(e.mems, id, agg, id + 1);
    TotalUpdate(g1, a, x.(aggregatedInto := Some(id)), id + 1);
    TotalUpdate(g1[a := x.(aggregatedInto := Some(id))], b, y.(aggregatedInto := Some(id)), id + 1);
  }

  lemma HalvedTotal(e: Engine, a: nat, b: nat)
    requires NonNegativeValues(e.mems) && a in e.mems && b in e.mems && a != b && a < e.nextId && b < e.nextId
    requires e.mems[a].Root() && e.mems[b].Root()
    ensures Total(HalveBoth(e, a, b)) <= Total(e) && NonNegativeValues(HalveBoth(e, a, b).mems)
  {
    PairTotal(e.mems, a, b, e.mems[a].(v := e.mems[a].v * 0.5), e.mems[b].(v := e.mems[b].v * 0.5), e.nextId);
  }

  lemma ResolutionTotal(e: Engine, cfg: Cfg, a: nat, b: nat, verdict: Verdict, t: int)
    requires 0.0 <= cfg.etaC <= 1.0 && NonNegativeValues(e.mems) && e.nextId !in e.mems
    requires a in e.mems && b in e.mems && a != b && a < e.nextId && b < e.nextId && e.mems[a].Root() && e.mems[b].Root()
    ensures var e' := ApplyResolution(e, cfg, a, b, verdict, t);
            Total(e') <= Total(e) && NonNegativeValues(e'.mems)
  {
    hide MakeAggregate, TotalBelow;
    match verdict
    case Synonym => MergeTotal(e, cfg, a, b, verdict, t);
    case Update => MergeTotal(e, cfg, a, b, verdict, t);
    case Contradiction =>
      if ConditionalScopes(e.mems[a], e.mems[b], cfg) {
        AggregateTotal(e, a, b, false, t);
      } else {
        HalvedTotal(e, a, b);
        AggregateTotal(HalveBoth(e, a, b), a, b, true, t);
      }
    case _ =>
  }

  lemma SameWorth(g: Graph, g': Graph, n: nat)
    requires forall id :: 0 <= id < n ==> Worth(g', id) == Worth(g, id)
    ensures TotalBelow(g', n) == TotalBelow(g, n)
  {
    TotalScales(g, g', n, 1.0);
    TotalScales(g', g, n, 1.0);
  }

  lemma CreditTotal(e: Engine, g': Graph)
    requires CreditOnly(e.mems, g')
    ensures TotalBelow(g', e.nextId) == Total(e) && (NonNegativeValues(e.mems) ==> NonNegativeValues(g'))
  {
    SameWorth(e.mems, g', e.nextId);
  }

  lemma SubmitOneTotal(e: Engine, cfg: Cfg, j: Judgement, t: int)
    requires Safe(e) && 0.0 <= cfg.etaC <= 1.0 && NonNegativeValues(e.mems)
    ensures var e' := SubmitOne(e, cfg, j, t); Total(e') <= Total(e) && NonNegativeValues(e'.mems)
  {
    hide ApplyResolution, SettleShadow, Follow, TotalBelow, NonNegativeValues, Acyclic, SourcesGrow;
    var key := SortedPair(j.left, j.right);
    var e1 := SettleShadow(e, cfg, key, j.verdict);
    SettleCredits(e, cfg, key, j.verdict);
    SettleSafe(e, cfg, key, j.verdict);
    CreditTotal(e, e1.mems);
    if key in e1.tensions && key.0 in e1.mems && key.1 in e1.mems {
      FollowExact(e1.mems, key.0);
      FollowExact(e1.mems, key.1);
      var a, b := RepOf(e1.mems, key.0), RepOf(e1.mems, key.1);
      if a != b && j.verdict != Pending {
        ResolutionTotal(Walked(Walked(e1, key.0), key.1).(tensions := e1.tensions - {key}), cfg, a, b, j.verdict, t);
      }
    }
  }

  /** Verdicts never raise the total value of the roots. */
  lemma {:induction false} VerdictsNeverRaiseTotal(e: Engine, cfg: Cfg, js: seq<Judgement>, t: int)
    requires Safe(e) && 0.0 <= cfg.etaC <= 1.0 && NonNegativeValues(e.mems)
    ensures var e' := SubmitVerdicts(e, cfg, js, t); Total(e') <= Total(e) && NonNegativeValues(e'.mems)
    decreases |js|
  {
    hide Safe, SubmitOne, Total;
    if js != [] {
      SubmitOneTotal(e, cfg, js[0], t);
      SubmitOneSafe(e, cfg, js[0], t);
      VerdictsNeverRaiseTotal(SubmitOne(e, cfg, js[0], t), cfg, js[1..], t);
    }
  }

  function Version(v: real, next: Option<nat>): Mem {
    Mem(0, "", Main, v, 0, 1, 0, None, 0, None, next, None, [], false, {}, 0.0, 0.0, 0.5, None)
  }

  /** Unbroken chains are needed: version 0 points at a missing version 9, so its walk ends at itself, and
      a synonym verdict with the root 1 passes its value on to that root. */
  lemma BrokenChainsRaiseTotal(cfg: Cfg)
    requires cfg.etaC == 1.0
    ensures var e := Engine(map[0 := Version(1.0, Some(9)), 1 := Version(2.0, None)], map[(0, 1) := Tension(0, 0, 1)], [], {}, 10, 0);
            && NonNegativeValues(e.mems) && !Whole(e.mems, 0)
            && Total(SubmitOne(e, cfg, Judgement(0, 1, Synonym), 0)) == Total(e) + 1.0
  {
    var e := Engine(map[0 := Version(1.0, Some(9)), 1 := Version(2.0, None)], map[(0, 1) := Tension(0, 0, 1)], [], {}, 10, 0);
    var e' := SubmitOne(e, cfg, Judgement(0, 1, Synonym), 0);
    FollowExact(e.mems, 0);
    assert e'.mems[1].v == 3.0 && e'.mems[1].Root() && e'.mems.Keys == {0, 1} && !e'.mems[0].Root();
    OnlyOne(e.mems, 10);
    OnlyOne(e'.mems, 10);
  }

  lemma {:induction false} OnlyOne(g: Graph, n: nat)
    requires 1 in g && g[1].Root() && forall id :: id in g && id != 1 ==> !g[id].Root()
    ensures TotalBelow(g, n) == if n > 1 then g[1].v else 0.0
    decreases n
  {
    if n > 0 {
      OnlyOne(g, n - 1);
    }
  }

  // ---------------------------------------------------------------- decay

  /** No hit waits to be turned into value, and none can arrive late. */
  ghost predicate Idle(e: Engine) {
    e.shadow == [] && NonNegativeValues(e.mems) && NoHits(e.mems)
  }

  /** The decay factor of one step with salience scaling off. */
  function Factor(cfg: Cfg): real {
    cfg.expNeg(cfg.lam)
  }

  ghost predicate Decays(cfg: Cfg) {
    cfg.Ok() && !cfg.salienceOn && 0.0 <= Factor(cfg) <= 1.0 && 0.0 <= cfg.etaC <= 1.0
  }

  function DecayPower(d: real, n: nat): real {
    if n == 0 then 1.0 else d * DecayPower(d, n - 1)
  }

  lemma {:induction false} PowerBounds(d: real, n: nat)
    requires 0.0 <= d <= 1.0
    ensures 0.0 <= DecayPower(d, n) <= 1.0
    decreases n
  {
    if n > 0 {
      PowerBounds(d, n - 1);
      ShrinkingProduct(d, DecayPower(d, n - 1));
    }
  }

  lemma DecayedValue(m: Mem, cfg: Cfg)
    requires Decays(cfg) && m.dHit == 0.0 && m.dShadow == 0.0
    ensures Decayed(m, cfg).v == Factor(cfg) * m.v && Decayed(m, cfg).dHit == 0.0 && Decayed(m, cfg).dShadow == 0.0
    ensures Decayed(m, cfg).Root() == m.Root()
  {
    var gain := cfg.eta * m.dHit + (if cfg.shadowCredit then cfg.etaShadow * m.dShadow else 0.0);
    assert gain == 0.0;
    assert cfg.lam / RetentionScale(m.salience, cfg) == cfg.lam;
    assert Decayed(m, cfg).v == m.v * cfg.expNeg(cfg.lam) + gain;
    assert m.v * cfg.expNeg(cfg.lam) == Factor(cfg) * m.v;
  }

  /** The phases after the decay change no value and no pointer, and only lose versions. */
  ghost predicate SameValues(g: Graph, g': Graph) {
    && g'.Keys <= g.Keys
    && forall id :: id in g' ==> g'[id].v == g[id].v && g'[id].Root() == g[id].Root()
                                  && g'[id].dHit == g[id].dHit && g'[id].dShadow == g[id].dShadow
  }

  lemma SameValuesTrans(a: Graph, b: Graph, c: Graph)
    requires SameValues(a, b) && SameValues(b, c)
    ensures SameValues(a, c)
  {
  }

  lemma PhasesKeepValues(e: Engine, cfg: Cfg, t: int)
    requires cfg.Ok()
    ensures SameValues(DecayAll(e.mems, cfg), MaintainGraph(e, cfg, t))
  {
    hide Decayed, Promoted, Elems, OverflowingMain, OverflowingCandidates, OverflowingArchive, IdleIds, Pinned, Demotable, SameValues;
    var g0 := DecayAll(e.mems, cfg);
    var g1 := Rebalance(g0, cfg);
    RebalanceValues(g0, cfg);
    var pins1 := Pinned(e.(mems := g1));
    var g2 := Shrink(g1, cfg, pins1, t);
    ShrinkValues(g1, cfg, pins1, t);
    var g3 := Archived(g2, IdleIds(g2, cfg, Pinned(e.(mems := g2)), t), t);
    MoveValues(g2, IdleIds(g2, cfg, Pinned(e.(mems := g2)), t), Main, t);
    var g4 := Trim(g3, cfg, Pinned(e.(mems := g3)));
    TrimValues(g3, cfg, Pinned(e.(mems := g3)));
    SameValuesTrans(g0, g1, g2);
    SameValuesTrans(g0, g2, g3);
    SameValuesTrans(g0, g3, g4);
  }

  lemma MoveValues(g: Graph, ids: set<nat>, pool: Pool, t: int)
    ensures SameValues(g, Moved(g, ids, pool)) && SameValues(g, Archived(g, ids, t))
  {
  }

  lemma RebalanceValues(g: Graph, cfg: Cfg)
    ensures SameValues(g, Rebalance(g, cfg))
  {
    hide Promoted, Elems, Moved;
    var d := DemoteAll(g, cfg);
    assert SameValues(g, d);
    MoveValues(d, Elems(Promoted(d, cfg)), Main, 0);
    SameValuesTrans(g, d, Moved(d, Elems(Promoted(d, cfg)), Main));
  }

  lemma ShrinkValues(g: Graph, cfg: Cfg, pins: set<nat>, t: int)
    ensures SameValues(g, Shrink(g, cfg, pins, t))
  {
    hide OverflowingMain, OverflowingCandidates, Elems, Moved, Archived;
    MoveValues(g, Elems(OverflowingMain(g, cfg)), Candidate, t);
    var e := EvictMain(g, cfg, t);
    MoveValues(e, Elems(OverflowingCandidates(e, cfg.capC, pins)), Candidate, t);
    SameValuesTrans(g, e, Archived(e, Elems(OverflowingCandidates(e, cfg.capC, pins)), t));
  }

  lemma TrimValues(g: Graph, cfg: Cfg, pins: set<nat>)
    ensures SameValues(g, Trim(g, cfg, pins))
  {
    hide OverflowingArchive, Elems;
  }

  ghost predicate NoHits(g: Graph) {
    forall id :: id in g ==> g[id].dHit == 0.0 && g[id].dShadow == 0.0
  }

  lemma DecayedWorth(g: Graph, g': Graph, cfg: Cfg, id: nat)
    requires Decays(cfg) && SameValues(DecayAll(g, cfg), g') && NonNegativeValues(g) && NoHits(g)
    ensures Worth(g', id) <= Factor(cfg) * Worth(g, id)
    ensures id in g' ==> g'[id].v >= 0.0 && g'[id].dHit == 0.0 && g'[id].dShadow == 0.0
  {
    hide Decayed;
    if id in g {
      DecayedValue(g[id], cfg);
      ShrinkingProduct(Factor(cfg), g[id].v);
    }
    if id in g' {
      assert id in DecayAll(g, cfg);
    }
  }

  lemma DecayIdle(g: Graph, g': Graph, cfg: Cfg, n: nat)
    requires Decays(cfg) && SameValues(DecayAll(g, cfg), g') && NonNegativeValues(g) && NoHits(g)
    ensures TotalBelow(g', n) <= Factor(cfg) * TotalBelow(g, n) && NonNegativeValues(g') && NoHits(g')
  {
    hide Worth, SameValues, DecayAll, TotalBelow;
    forall id: nat
      ensures Worth(g', id) <= Factor(cfg) * Worth(g, id)
      ensures id in g' ==> g'[id].v >= 0.0 && g'[id].dHit == 0.0 && g'[id].dShadow == 0.0
    {
      DecayedWorth(g, g', cfg, id);
    }
    TotalScales(g, g', n, Factor(cfg));
  }

  lemma StepDecays(e: Engine, cfg: Cfg, t: int)
    requires Decays(cfg) && Idle(e)
    ensures var e' := Maintain(e, cfg, t); Total(e') <= Factor(cfg) * Total(e) && Idle(e')
  {
    hide MaintainGraph, DecayAll, BrokenWalks, SameValues, TotalBelow;
    PhasesKeepValues(e, cfg, t);
    DecayIdle(e.mems, MaintainGraph(e, cfg, t), cfg, e.nextId);
  }

  lemma WriteNoHits(g: Graph, id: nat, m: Mem)
    requires NoHits(g) && m.dHit == 0.0 && m.dShadow == 0.0
    ensures NoHits(g[id := m])
  {
  }

  lemma PairNoHits(g: Graph, a: nat, b: nat, x: Mem, y: Mem)
    requires NoHits(g) && x.dHit == 0.0 && x.dShadow == 0.0 && y.dHit == 0.0 && y.dShadow == 0.0
    ensures NoHits(g[a := x][b := y])
  {
    hide NoHits;
    WriteNoHits(g, a, x);
    WriteNoHits(g[a := x], b, y);
  }

  lemma AggregateNoHits(e: Engine, a: nat, b: nat, pending: bool, t: int)
    requires NoHits(e.mems) && a in e.mems && b in e.mems
    ensures NoHits(MakeAggregate(e, a, b, pending, t).mems)
  {
    var id := e.nextId;
    var g := e.mems[id := Aggregate(e.mems[a], a, e.mems[b], b, pending, t)];
    var g1 := g[a := g[a].(aggregatedInto := Some(id))];
    var x, y := g[a].(aggregatedInto := Some(id)), g1[b].(aggregatedInto := Some(id));
    assert NoHits(g) && x.dHit == 0.0 && x.dShadow == 0.0 && y.dHit == 0.0 && y.dShadow == 0.0 by {
      hide Digits;
      WriteNoHits(e.mems, id, Aggregate(e.mems[a], a, e.mems[b], b, pending, t));
    }
    hide NoHits, Aggregate;
    PairNoHits(g, a, b, x, y);
  }

  lemma ResolutionNoHits(e: Engine, cfg: Cfg, a: nat, b: nat, verdict: Verdict, t: int)
    requires NoHits(e.mems) && a in e.mems && b in e.mems && a != b
    ensures NoHits(ApplyResolution(e, cfg, a, b, verdict, t).mems)
  {
    var x, y := e.mems[a], e.mems[b];
    assert x.dHit == 0.0 && x.dShadow == 0.0 && y.dHit == 0.0 && y.dShadow == 0.0;
    hide NoHits, MakeAggregate, NewEvidence, Max, ConditionalScopes, SynonymKeeps, UpdateKeeps;
    match verdict
    case Synonym =>
      PairNoHits(e.mems, a, b, Absorb(x, y, cfg), Retire(y, a, t));
      PairNoHits(e.mems, b, a, Absorb(y, x, cfg), Retire(x, b, t));
    case Update =>
      PairNoHits(e.mems, a, b, Replace(x, y), Retire(y, a, t));
      PairNoHits(e.mems, b, a, Replace(y, x), Retire(x, b, t));
    case Contradiction =>
      AggregateNoHits(e, a, b, false, t);
      PairNoHits(e.mems, a, b, x.(v := x.v * 0.5), y.(v := y.v * 0.5));
      AggregateNoHits(HalveBoth(e, a, b), a, b, true, t);
    case _ =>
  }

  lemma SubmitOneIdle(e: Engine, cfg: Cfg, j: Judgement, t: int)
    requires Safe(e) && Decays(cfg) && Idle(e)
    ensures Idle(SubmitOne(e, cfg, j, t))
  {
    hide ApplyResolution, Follow, TotalBelow, Safe, Total;
    SubmitOneTotal(e, cfg, j, t);
    var key := SortedPair(j.left, j.right);
    var e1 := SettleShadow(e, cfg, key, j.verdict);
    assert e1.mems == e.mems && e1.shadow == [];
    if key in e1.tensions && key.0 in e1.mems && key.1 in e1.mems {
      var a, b := RepOf(e1.mems, key.0), RepOf(e1.mems, key.1);
      if a != b && j.verdict != Pending {
        var e2 := Walked(Walked(e1, key.0), key.1).(tensions := e1.tensions - {key});
        ResolutionNoHits(e2, cfg, a, b, j.verdict, t);
        ResolutionKeepsShadow(e2, cfg, a, b, j.verdict, t);
      }
    }
  }

  lemma ResolutionKeepsShadow(e: Engine, cfg: Cfg, a: nat, b: nat, verdict: Verdict, t: int)
    requires a in e.mems && b in e.mems && a != b
    ensures ApplyResolution(e, cfg, a, b, verdict, t).shadow == e.shadow
  {
  }

  lemma {:induction false} SubmitIdle(e: Engine, cfg: Cfg, js: seq<Judgement>, t: int)
    requires Safe(e) && Decays(cfg) && Idle(e)
    ensures Idle(SubmitVerdicts(e, cfg, js, t))
    decreases |js|
  {
    hide Safe, SubmitOne, Idle;
    if js != [] {
      SubmitOneIdle(e, cfg, js[0], t);
      SubmitOneSafe(e, cfg, js[0], t);
      SubmitIdle(SubmitOne(e, cfg, js[0], t), cfg, js[1..], t);
    }
  }

  lemma CloseIdle(e: Engine, cfg: Cfg, roots: set<nat>, made: set<nat>, t: int)
    requires Idle(e)
    ensures var r := EnforceCapacity(e, cfg, roots, made, t);
            r.Some? ==> Idle(r.value) && Total(r.value) <= Total(e)
  {
    hide PlanCapacity, PinClosure, PinRoots;
    var r := EnforceCapacity(e, cfg, roots, made, t);
    if r.Some? {
      forall id: nat
        ensures Worth(r.value.mems, id) <= 1.0 * Worth(e.mems, id)
      {
      }
      TotalScales(e.mems, r.value.mems, e.nextId, 1.0);
    }
  }

  // ---------------------------------------------------------------- quiet runs

  /** No new memories and no hits: only verdicts, maintenance, and the closing of pools. */
  predicate Quiet(step: EngineStep) {
    step.Submit? || step.Step? || step.Protect? || step.Close?
  }

  function Steps(steps: seq<EngineStep>): nat {
    if steps == [] then 0 else (if steps[0].Step? then 1 else 0) + Steps(steps[1..])
  }

  lemma QuietStep(e: Engine, cfg: Cfg, step: EngineStep)
    requires Safe(e) && Decays(cfg) && Idle(e) && Quiet(step)
    ensures var e' := EngineNext(e, cfg, step);
            Idle(e') && Total(e') <= (if step.Step? then Factor(cfg) else 1.0) * Total(e)
  {
    hide Safe, SubmitVerdicts, Maintain, EnforceCapacity, Idle, TotalBelow;
    match step
    case Submit(js, t) =>
      assert NonNegativeValues(e.mems) by { IdleValues(e); }
      VerdictsNeverRaiseTotal(e, cfg, js, t);
      SubmitIdle(e, cfg, js, t);
    case Step(t) => StepDecays(e, cfg, t);
    case Protect(roots) => ProtectIdle(e, ProtectedIds(e, roots, {}));
    case Close(roots, made, t) => CloseIdle(e, cfg, roots, made, t);
  }

  lemma IdleValues(e: Engine)
    requires Idle(e)
    ensures NonNegativeValues(e.mems) && Total(e) >= 0.0
  {
    TotalNonNegative(e.mems, e.nextId);
  }

  lemma ProtectIdle(e: Engine, external: set<nat>)
    requires Idle(e)
    ensures Idle(e.(external := external)) && Total(e.(external := external)) == Total(e)
  {
  }

  lemma ScaledBound(c: real, p: real, x: real, y: real, z: real)
    requires 0.0 <= p && y <= c * x && z <= p * y
    ensures z <= (c * p) * x
  {
    assert p * y <= p * (c * x);
  }

  /** Without new memories or hits, `n` maintenance steps leave at most the `n`-th power of the decay factor
      of the total value, whatever verdicts and evictions come between them. */
  lemma {:induction false} QuietRunsDecay(e: Engine, cfg: Cfg, steps: seq<EngineStep>)
    requires Safe(e) && Decays(cfg) && Idle(e) && forall s :: s in steps ==> Quiet(s)
    ensures var e' := EngineRun(e, cfg, steps);
            Idle(e') && Total(e') <= DecayPower(Factor(cfg), Steps(steps)) * Total(e)
    decreases |steps|
  {
    hide Safe, EngineNext, Idle, Total;
    if steps != [] {
      var e1 := EngineNext(e, cfg, steps[0]);
      assert steps[0] in steps;
      assert forall s :: s in steps[1..] ==> s in steps;
      QuietStep(e, cfg, steps[0]);
      NextSafe(e, cfg, steps[0]);
      QuietRunsDecay(e1, cfg, steps[1..]);
      var n := Steps(steps[1..]);
      PowerBounds(Factor(cfg), n);
      ScaledBound(if steps[0].Step? then Factor(cfg) else 1.0, DecayPower(Factor(cfg), n), Total(e), Total(e1), Total(EngineRun(e, cfg, steps)));
    }
  }
}
