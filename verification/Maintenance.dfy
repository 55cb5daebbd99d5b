/** One maintenance step: decay, promotion and demotion, the pool limits, and the upkeep of tensions. */
module Maintenance {
  import opened MemoryTypes
  import opened VersionGraph
  import opened Ordering
  import opened Capacity
  import opened Pins

  // ---------------------------------------------------------------- the phases

  function Decayed(m: Mem, cfg: Cfg): Mem
    requires cfg.Ok()
  {
    var gain := cfg.eta * m.dHit + (if cfg.shadowCredit then cfg.etaShadow * m.dShadow else 0.0);
    m.(v := m.v * cfg.expNeg(cfg.lam / RetentionScale(m.salience, cfg)) + gain, dHit := 0.0, dShadow := 0.0)
  }

  function DecayAll(g: Graph, cfg: Cfg): Graph
    requires cfg.Ok()
  {
    map id | id in g :: Decayed(g[id], cfg)
  }

  predicate Demotable(m: Mem, cfg: Cfg) {
    m.pool == Main && m.v < cfg.thetaD
  }

  function DemoteAll(g: Graph, cfg: Cfg): Graph {
    map id | id in g :: if Demotable(g[id], cfg) then g[id].(pool := Candidate) else g[id]
  }

  predicate Promotable(m: Mem, cfg: Cfg) {
    m.pool == Candidate && m.v > cfg.thetaP && m.Current()
  }

  /** Most valuable first. */
  function PromotionKeys(g: Graph, cfg: Cfg): map<nat, Key> {
    map id | id in g && Promotable(g[id], cfg) :: Key(false, -g[id].v, 0.0, id)
  }

  /** The ids promoted: all that qualify, or as many as the main pool has room for. */
  function Promoted(g: Graph, cfg: Cfg): seq<nat> {
    var ranked := SortIds(PromotionKeys(g, cfg));
    if cfg.capacityOn then Take(ranked, NonNegative(cfg.capM - |InPool(g, Main)|)) else ranked
  }

  function Moved(g: Graph, ids: set<nat>, pool: Pool): Graph {
    map id | id in g :: if id in ids then g[id].(pool := pool) else g[id]
  }

  function Archived(g: Graph, ids: set<nat>, t: int): Graph {
    map id | id in g :: if id in ids then g[id].(pool := Archive, archivedAt := Some(t)) else g[id]
  }

  /** The weakest members of an overfull main pool. */
  function OverflowingMain(g: Graph, cfg: Cfg): seq<nat> {
    var m := InPool(g, Main);
    Take(SortIds(CandidateKeys(g, m)), NonNegative(|m| - cfg.capM))
  }

  function EvictMain(g: Graph, cfg: Cfg, t: int): Graph {
    var out := Elems(OverflowingMain(g, cfg));
    if cfg.twoPool then Moved(g, out, Candidate) else Archived(g, out, t)
  }

  predicate Idle(m: Mem, cfg: Cfg, t: int)
    requires cfg.Ok()
  {
    m.pool == Candidate && (t - m.IdleSince()) as real > cfg.idleP * RetentionScale(m.salience, cfg)
  }

  function IdleIds(g: Graph, cfg: Cfg, pins: set<nat>, t: int): set<nat>
    requires cfg.Ok()
  {
    set id | id in g && id !in pins && Idle(g[id], cfg, t)
  }

  function Rebalance(g: Graph, cfg: Cfg): Graph {
    if !cfg.twoPool then g
    else
      var d := DemoteAll(g, cfg);
      Moved(d, Elems(Promoted(d, cfg)), Main)
  }

  function Shrink(g: Graph, cfg: Cfg, pins: set<nat>, t: int): Graph {
    if !cfg.capacityOn then g
    else
      var e := EvictMain(g, cfg, t);
      Archived(e, Elems(OverflowingCandidates(e, cfg.capC, pins)), t)
  }

  function Trim(g: Graph, cfg: Cfg, pins: set<nat>): Graph {
    if !cfg.capacityOn then g else g - Elems(OverflowingArchive(g, cfg.capA, pins))
  }

  // ---------------------------------------------------------------- tensions

  predicate Present(g: Graph, k: Pair) {
    k.0 in g && k.1 in g
  }

  /** Both ends still exist and still lead to different representatives. */
  predicate Unsettled(g: Graph, k: Pair) {
    Present(g, k) && RepOf(g, k.0) != RepOf(g, k.1)
  }

  function End(k: Pair, left: bool): nat {
    if left then k.0 else k.1
  }

  predicate BrokenEnd(g: Graph, k: Pair, left: bool) {
    Present(g, k) && !Follow(g, End(k, left), {End(k, left)}).whole
  }

  function BrokenEnds(g: Graph, tensions: map<Pair, Tension>, left: bool): set<Pair> {
    set k | k in tensions && BrokenEnd(g, k, left)
  }

  /** Walks of this sweep that meet a broken chain. */
  function BrokenWalks(g: Graph, tensions: map<Pair, Tension>): nat {
    |BrokenEnds(g, tensions, true)| + |BrokenEnds(g, tensions, false)|
  }

  function SweepTensions(e: Engine): Engine {
    e.(tensions := map k | k in e.tensions && Unsettled(e.mems, k) :: e.tensions[k],
       broken := e.broken + BrokenWalks(e.mems, e.tensions))
  }

  /** The pairs handed out for judgement: unsettled long enough. */
  function Aged(e: Engine, cfg: Cfg, t: int): set<Pair> {
    set k | k in e.tensions && Unsettled(e.mems, k) && t - e.tensions[k].firstSeen >= cfg.tensionDelay
  }

  // ---------------------------------------------------------------- the step

  /** The graph after every phase of the step. */
  function MaintainGraph(e: Engine, cfg: Cfg, t: int): Graph
    requires cfg.Ok()
  {
    var g1 := Rebalance(DecayAll(e.mems, cfg), cfg);
    var g2 := Shrink(g1, cfg, Pinned(e.(mems := g1)), t);
    var g3 := Archived(g2, IdleIds(g2, cfg, Pinned(e.(mems := g2)), t), t);
    Trim(g3, cfg, Pinned(e.(mems := g3)))
  }

  function Maintain(e: Engine, cfg: Cfg, t: int): Engine
    requires cfg.Ok()
  {
    SweepTensions(e.(mems := MaintainGraph(e, cfg, t)))
  }

  // ---------------------------------------------------------------- what the phases leave alone

  /** Pools, values, stamps and step counters may differ; pointers, members and sources may not. */
  ghost predicate SameVersions(g: Graph, g': Graph) {
    g'.Keys == g.Keys &&
    forall id :: id in g ==>
      g'[id] == g[id].(pool := g'[id].pool, v := g'[id].v, archivedAt := g'[id].archivedAt,
                       dHit := g'[id].dHit, dShadow := g'[id].dShadow)
  }

  lemma SameVersionsPins(e: Engine, g: Graph, g': Graph)
    requires SameVersions(g, g')
    ensures Pinned(e.(mems := g')) == Pinned(e.(mems := g))
  {
    var a, b := e.(mems := g), e.(mems := g');
    assert (set id | id in g && g[id].pendingReview) == (set id | id in g' && g'[id].pendingReview);
    assert (set id, x | id in g && g[id].pendingReview && x in g[id].aggMembers :: x)
        == (set id, x | id in g' && g'[id].pendingReview && x in g'[id].aggMembers :: x);
    assert PinRoots(a, e.external) == PinRoots(b, e.external);
    assert forall id :: id in g' ==> Refs(g'[id]) == Refs(g[id]);
    TrimKeepsClosure(g, g', PinRoots(a, e.external));
  }

  lemma MovesKeepVersions(g: Graph, ids: set<nat>, pool: Pool, t: int)
    ensures SameVersions(g, Moved(g, ids, pool)) && SameVersions(g, Archived(g, ids, t))
  {
  }

  lemma DecayKeepsVersions(g: Graph, cfg: Cfg)
    requires cfg.Ok()
    ensures SameVersions(g, DecayAll(g, cfg))
  {
  }

  lemma RebalanceKeepsVersions(g: Graph, cfg: Cfg)
    ensures SameVersions(g, Rebalance(g, cfg))
  {
    hide Promoted, Elems, Moved;
    var d := DemoteAll(g, cfg);
    assert SameVersions(g, d);
    MovesKeepVersions(d, Elems(Promoted(d, cfg)), Main, 0);
  }

  lemma ShrinkKeepsVersions(g: Graph, cfg: Cfg, pins: set<nat>, t: int)
    ensures SameVersions(g, Shrink(g, cfg, pins, t))
  {
    hide OverflowingMain, OverflowingCandidates, Elems, Moved, Archived, SameVersions;
    if cfg.capacityOn {
      MovesKeepVersions(g, Elems(OverflowingMain(g, cfg)), Candidate, t);
      var e := EvictMain(g, cfg, t);
      MovesKeepVersions(e, Elems(OverflowingCandidates(e, cfg.capC, pins)), Candidate, t);
      SameVersionsTrans(g, e, Shrink(g, cfg, pins, t));
    } else {
      SameVersionsSelf(g);
    }
  }

  lemma SameVersionsSelf(g: Graph)
    ensures SameVersions(g, g)
  {
  }

  lemma SameVersionsTrans(a: Graph, b: Graph, c: Graph)
    requires SameVersions(a, b) && SameVersions(b, c)
    ensures SameVersions(a, c)
  {
  }

  /** The step with its three pin computations replaced by the pins at its start. */
  function MaintainWith(g: Graph, cfg: Cfg, pins: set<nat>, t: int): (Graph, Graph)
    requires cfg.Ok()
  {
    var g1 := Rebalance(DecayAll(g, cfg), cfg);
    var g2 := Shrink(g1, cfg, pins, t);
    var g3 := Archived(g2, IdleIds(g2, cfg, pins, t), t);
    (g3, Trim(g3, cfg, pins))
  }

  /** No phase changes what is pinned, so the pins taken before the step serve all of it. */
  lemma PinsAreStable(e: Engine, cfg: Cfg, t: int)
    requires cfg.Ok()
    ensures var pins := Pinned(e);
            && MaintainGraph(e, cfg, t) == MaintainWith(e.mems, cfg, pins, t).1
            && SameVersions(e.mems, MaintainWith(e.mems, cfg, pins, t).0)
  {
    hide DecayAll, Rebalance, Shrink, Archived, IdleIds, Trim, Pinned, SameVersions;
    var pins := Pinned(e);
    assert e.(mems := e.mems) == e;
    var g0 := DecayAll(e.mems, cfg);
    DecayKeepsVersions(e.mems, cfg);
    RebalanceKeepsVersions(g0, cfg);
    var g1 := Rebalance(g0, cfg);
    SameVersionsTrans(e.mems, g0, g1);
    SameVersionsPins(e, e.mems, g1);
    ShrinkKeepsVersions(g1, cfg, pins, t);
    var g2 := Shrink(g1, cfg, pins, t);
    SameVersionsTrans(e.mems, g1, g2);
    SameVersionsPins(e, e.mems, g2);
    var idle := IdleIds(g2, cfg, pins, t);
    MovesKeepVersions(g2, idle, Candidate, t);
    var g3 := Archived(g2, idle, t);
    SameVersionsTrans(e.mems, g2, g3);
    SameVersionsPins(e, e.mems, g3);
  }

  // ---------------------------------------------------------------- the pool limits

  lemma MovedPools(g: Graph, ids: set<nat>, pool: Pool)
    requires ids <= g.Keys
    ensures InPool(Moved(g, ids, pool), pool) == InPool(g, pool) + ids
    ensures forall p :: p != pool ==> InPool(Moved(g, ids, pool), p) == InPool(g, p) - ids
  {
  }

  lemma ArchivedPools(g: Graph, ids: set<nat>, t: int)
    requires ids <= g.Keys
    ensures InPool(Archived(g, ids, t), Archive) == InPool(g, Archive) + ids
    ensures forall p :: p != Archive ==> InPool(Archived(g, ids, t), p) == InPool(g, p) - ids
  {
  }

  lemma MainOverflow(g: Graph, cfg: Cfg)
    ensures var out := Elems(OverflowingMain(g, cfg));
            out <= InPool(g, Main) && (cfg.capM >= 0 ==> |InPool(g, Main) - out| <= cfg.capM)
  {
    hide *;
    var m := InPool(g, Main);
    PoolIds(g, Main);
    KeysOf(g, m);
    OverflowBounds(m, m, {}, cfg.capM, CandidateKeys(g, m));
    MainSlice(g, cfg);
    assert m - {} == m && m * {} == {};
    LargerOfZero(cfg.capM);
  }

  lemma LargerOfZero(cap: int)
    ensures cap >= 0 ==> Larger(cap, 0) == cap
  {
  }

  lemma MainSlice(g: Graph, cfg: Cfg)
    ensures var m := InPool(g, Main);
            OverflowingMain(g, cfg) == Take(SortIds(CandidateKeys(g, m)), NonNegative(|m| - cfg.capM))
  {
  }

  /** After the main pool gave up its overflow it respects its limit. */
  lemma EvictMainBounds(g: Graph, cfg: Cfg, t: int)
    requires cfg.capM >= 0
    ensures var g' := EvictMain(g, cfg, t);
            && |InPool(g', Main)| <= cfg.capM
            && InPool(g, Candidate) <= InPool(g', Candidate)
            && (cfg.twoPool ==> InPool(g, Main) <= InPool(g', Main) + InPool(g', Candidate))
  {
    hide Moved, Archived, OverflowingMain, Elems, InPool;
    MainOverflow(g, cfg);
    var out := Elems(OverflowingMain(g, cfg));
    PoolIds(g, Main);
    DisjointPools(g);
    MovedPools(g, out, Candidate);
    ArchivedPools(g, out, t);
  }

  lemma DisjointPools(g: Graph)
    ensures InPool(g, Candidate) !! InPool(g, Archive) !! InPool(g, Main)
  {
  }

  /** What the limit phases achieve, in terms of pools. */
  ghost predicate Bounded(g: Graph, cfg: Cfg, pins: set<nat>) {
    && |InPool(g, Main)| <= cfg.capM
    && |InPool(g, Candidate)| <= Larger(cfg.capC, |InPool(g, Candidate) * pins|)
    && |InPool(g, Archive)| <= Larger(cfg.capA, |InPool(g, Archive) * pins|)
  }

  lemma ShrinkBounds(g: Graph, cfg: Cfg, pins: set<nat>, t: int)
    requires cfg.capacityOn && cfg.capM >= 0
    ensures var g' := Shrink(g, cfg, pins, t);
            && |InPool(g', Main)| <= cfg.capM
            && |InPool(g', Candidate)| <= Larger(cfg.capC, |InPool(g', Candidate) * pins|)
            && InPool(g, Candidate) * pins <= InPool(g', Candidate)
            && (cfg.twoPool ==> InPool(g, Main) * pins <= InPool(g', Main) + InPool(g', Candidate))
  {
    hide EvictMain, Archived, Elems, OverflowingCandidates, InPool, Larger;
    var e := EvictMain(g, cfg, t);
    EvictMainBounds(g, cfg, t);
    CandidatesBounded(e, cfg.capC, pins);
    var gone := Elems(OverflowingCandidates(e, cfg.capC, pins));
    PoolIds(e, Candidate);
    ArchivedPools(e, gone, t);
    DisjointPools(e);
    ShrunkSets(InPool(g, Candidate), InPool(g, Main), InPool(e, Candidate), InPool(e, Main), gone, pins);
  }

  /** Sets before and after unpinned candidates left. */
  lemma ShrunkSets(beforeC: set<nat>, beforeM: set<nat>, c: set<nat>, m: set<nat>, gone: set<nat>, pins: set<nat>)
    requires m !! c && gone <= c - pins && beforeC <= c
    ensures m - gone == m && (c - gone) * pins == c * pins
    ensures beforeC * pins <= c - gone && (beforeM <= m + c ==> beforeM * pins <= m + (c - gone))
  {
  }

  lemma FewerCandidates(c: set<nat>, gone: set<nat>, pins: set<nat>, cap: int)
    requires gone !! pins && |c| <= Larger(cap, |c * pins|)
    ensures |c - gone| <= Larger(cap, |(c - gone) * pins|)
  {
    assert (c - gone) * pins == c * pins;
    assert c == (c - gone) + c * gone;
  }

  lemma IdleBounds(g: Graph, cfg: Cfg, pins: set<nat>, t: int)
    requires cfg.Ok() && |InPool(g, Main)| <= cfg.capM
    requires |InPool(g, Candidate)| <= Larger(cfg.capC, |InPool(g, Candidate) * pins|)
    ensures var g' := Archived(g, IdleIds(g, cfg, pins, t), t);
            && |InPool(g', Main)| <= cfg.capM
            && |InPool(g', Candidate)| <= Larger(cfg.capC, |InPool(g', Candidate) * pins|)
            && InPool(g, Candidate) * pins <= InPool(g', Candidate) && InPool(g', Main) == InPool(g, Main)
  {
    hide Archived, InPool, IdleIds, Larger;
    var idle, c, m := IdleIds(g, cfg, pins, t), InPool(g, Candidate), InPool(g, Main);
    IdleAreCandidates(g, cfg, pins, t);
    PoolIds(g, Candidate);
    ArchivedPools(g, idle, t);
    FewerCandidates(c, idle, pins, cfg.capC);
    DisjointPools(g);
    MainUntouched(m, c, idle, pins);
  }

  lemma MainUntouched(m: set<nat>, c: set<nat>, gone: set<nat>, pins: set<nat>)
    requires m !! c && gone <= c - pins
    ensures m - gone == m && c * pins <= c - gone && gone !! pins
  {
  }

  lemma IdleAreCandidates(g: Graph, cfg: Cfg, pins: set<nat>, t: int)
    requires cfg.Ok()
    ensures IdleIds(g, cfg, pins, t) <= InPool(g, Candidate) - pins
  {
  }

  lemma TrimBounds(g: Graph, cfg: Cfg, pins: set<nat>)
    requires cfg.capacityOn && |InPool(g, Main)| <= cfg.capM
    requires |InPool(g, Candidate)| <= Larger(cfg.capC, |InPool(g, Candidate) * pins|)
    ensures var g' := Trim(g, cfg, pins);
            Bounded(g', cfg, pins) && InPool(g', Candidate) == InPool(g, Candidate) && InPool(g', Main) == InPool(g, Main)
  {
    hide OverflowingArchive, Elems, InPool, Larger;
    ArchiveBounded(g, cfg.capA, pins);
    var gone := Elems(OverflowingArchive(g, cfg.capA, pins));
    TrimPools(g, gone);
    DisjointPools(g);
    ShrunkSets({}, {}, InPool(g, Archive), InPool(g, Main), gone, pins);
    ShrunkSets({}, {}, InPool(g, Archive), InPool(g, Candidate), gone, pins);
  }

  lemma TrimPools(g: Graph, gone: set<nat>)
    ensures forall p :: InPool(g - gone, p) == InPool(g, p) - gone
  {
  }

  /** With capacity on, every step ends with the main pool within its limit, and each other pool
      within its limit or full of pinned versions. The pins are those at the start of the step. */
  lemma MaintenanceBounds(e: Engine, cfg: Cfg, t: int)
    requires cfg.Ok() && cfg.capacityOn && cfg.capM >= 0
    ensures Bounded(Maintain(e, cfg, t).mems, cfg, Pinned(e))
  {
    hide DecayAll, Rebalance, Shrink, Archived, IdleIds, Trim, Bounded, InPool, Pinned;
    var pins := Pinned(e);
    PinsAreStable(e, cfg, t);
    var g1 := Rebalance(DecayAll(e.mems, cfg), cfg);
    ShrinkBounds(g1, cfg, pins, t);
    var g2 := Shrink(g1, cfg, pins, t);
    IdleBounds(g2, cfg, pins, t);
    TrimBounds(Archived(g2, IdleIds(g2, cfg, pins, t), t), cfg, pins);
  }

  // ---------------------------------------------------------------- pinned versions

  /** A step deletes no pinned version and never moves a pinned candidate to the archive; with two
      pools it does not archive a pinned main version either. */
  lemma PinnedSurviveStep(e: Engine, cfg: Cfg, t: int, id: nat)
    requires cfg.Ok() && id in e.mems && id in Pinned(e)
    ensures var g := Maintain(e, cfg, t).mems;
            && id in g
            && (e.mems[id].pool == Candidate || (e.mems[id].pool == Main && cfg.twoPool) ==> g[id].pool != Archive)
  {
    hide DecayAll, Rebalance, Shrink, Archived, IdleIds, Trim, Pinned, SameVersions;
    var pins := Pinned(e);
    PinsAreStable(e, cfg, t);
    var g0 := DecayAll(e.mems, cfg);
    var g1 := Rebalance(g0, cfg);
    var g2 := Shrink(g1, cfg, pins, t);
    var g3 := Archived(g2, IdleIds(g2, cfg, pins, t), t);
    RebalanceAvoidsArchive(e.mems, cfg, id);
    ShrinkSparesPinned(g1, cfg, pins, t, id);
    TrimSparesPinned(g2, cfg, pins, t, id);
  }

  lemma RebalanceAvoidsArchive(g: Graph, cfg: Cfg, id: nat)
    requires cfg.Ok() && id in g
    ensures var g1 := Rebalance(DecayAll(g, cfg), cfg);
            && id in g1 && (g[id].pool != Archive ==> g1[id].pool != Archive)
            && (g[id].pool == Candidate && !cfg.twoPool ==> g1[id].pool == Candidate)
  {
    hide Promoted, Elems;
  }

  lemma ShrinkSparesPinned(g: Graph, cfg: Cfg, pins: set<nat>, t: int, id: nat)
    requires id in g && id in pins
    ensures var g' := Shrink(g, cfg, pins, t);
            id in g' && (g[id].pool == Candidate || (g[id].pool == Main && cfg.twoPool) ==> g'[id].pool != Archive)
  {
    hide OverflowingMain, OverflowingCandidates, Elems;
    if cfg.capacityOn {
      var e := EvictMain(g, cfg, t);
      CandidatesBounded(e, cfg.capC, pins);
      MainOverflow(g, cfg);
    }
  }

  lemma TrimSparesPinned(g: Graph, cfg: Cfg, pins: set<nat>, t: int, id: nat)
    requires cfg.Ok() && id in g && id in pins
    ensures var g3 := Archived(g, IdleIds(g, cfg, pins, t), t);
            id in Trim(g3, cfg, pins) && Trim(g3, cfg, pins)[id].pool == g[id].pool
  {
    hide OverflowingArchive, Elems;
    var g3 := Archived(g, IdleIds(g, cfg, pins, t), t);
    ArchiveBounded(g3, cfg.capA, pins);
  }

  // ---------------------------------------------------------------- who moves

  /** Whoever leaves the main pool is weaker than whoever stays. */
  lemma WeakestLeaveMain(g: Graph, cfg: Cfg, out: nat, kept: nat)
    requires out in OverflowingMain(g, cfg) && kept in InPool(g, Main) && kept !in OverflowingMain(g, cfg)
    ensures out in g && Weaker(g, out, kept)
  {
    hide SortIds, Take;
    var m := InPool(g, Main);
    SliceIsFirst(CandidateKeys(g, m), NonNegative(|m| - cfg.capM), out, kept);
  }

  /** A full main pool takes the most valuable of those that qualify, the smaller id first. */
  lemma BestArePromoted(g: Graph, cfg: Cfg, up: nat, left: nat)
    requires up in Promoted(g, cfg) && left in g && Promotable(g[left], cfg) && left !in Promoted(g, cfg)
    ensures up in g && Promotable(g[up], cfg) && (g[up].v > g[left].v || (g[up].v == g[left].v && up < left))
  {
    hide SortIds, Promotable;
    var keys := PromotionKeys(g, cfg);
    SortIdsSorts(keys);
    assert left in Elems(SortIds(keys)) && (up in SortIds(keys) ==> up in Elems(SortIds(keys)));
    SliceIsFirst(keys, NonNegative(cfg.capM - |InPool(g, Main)|), up, left);
  }

  // ---------------------------------------------------------------- hysteresis

  /** The two phases of a rebalancing; with one pool neither does anything. */
  function DemotePhase(g: Graph, cfg: Cfg): Graph {
    if cfg.twoPool then DemoteAll(g, cfg) else g
  }

  function PromotePhase(g: Graph, cfg: Cfg): Graph {
    if cfg.twoPool then Moved(g, Elems(Promoted(g, cfg)), Main) else g
  }

  lemma RebalanceInPhases(g: Graph, cfg: Cfg)
    ensures Rebalance(g, cfg) == PromotePhase(DemotePhase(g, cfg), cfg)
  {
    hide Promoted, Elems, Moved;
  }

  /** Ids that the first phase takes out of the main pool, and ids that the second phase puts into it. */
  function DemotedIds(g: Graph, cfg: Cfg): set<nat> {
    InPool(g, Main) - InPool(DemotePhase(g, cfg), Main)
  }

  function PromotedIds(g: Graph, cfg: Cfg): set<nat> {
    InPool(Rebalance(g, cfg), Main) - InPool(DemotePhase(g, cfg), Main)
  }

  lemma PromotedQualify(g: Graph, cfg: Cfg)
    ensures forall id :: id in Elems(Promoted(g, cfg)) ==> id in g && Promotable(g[id], cfg)
  {
    hide Take, SortIds, Elems, Before, Keyed, NoDup, SortedBy, Promotable;
    var keys := PromotionKeys(g, cfg);
    assert Elems(Promoted(g, cfg)) <= keys.Keys by {
      hide PromotionKeys, InPool;
      assert Keyed(keys) by { PromotionKeyed(g, cfg); }
      SortIdsSorts(keys);
      TakeSplits(SortIds(keys), keys, NonNegative(cfg.capM - |InPool(g, Main)|));
    }
  }

  lemma PromotionKeyed(g: Graph, cfg: Cfg)
    ensures Keyed(PromotionKeys(g, cfg))
  {
    hide Promotable;
  }

  function FlappingMem(v: real): Mem {
    Mem(0, "", Main, v, 0, 1, 0, None, 0, None, None, None, [], false, {}, 0.0, 0.0, 0.5, None)
  }

  /** Whatever is demoted was below one threshold, and whatever is promoted is above the other one. */
  lemma PhaseValues(g: Graph, cfg: Cfg)
    ensures forall id :: id in DemotedIds(g, cfg) ==> id in g && g[id].v < cfg.thetaD
    ensures forall id :: id in PromotedIds(g, cfg) ==> id in g && g[id].v > cfg.thetaP
  {
    hide Promoted, Elems, Rebalance;
    var d := DemotePhase(g, cfg);
    RebalanceInPhases(g, cfg);
    PromotedQualify(d, cfg);
    forall id | id in PromotedIds(g, cfg)
      ensures id in g && g[id].v > cfg.thetaP
    {
      assert id in Elems(Promoted(d, cfg)) && d[id].v == g[id].v;
    }
  }

  /** A step that promotes nobody: with one pool, or with no room in the main pool at all. */
  lemma NobodyPromoted(g: Graph, cfg: Cfg)
    requires !cfg.twoPool || (cfg.capacityOn && cfg.capM < 1)
    ensures PromotedIds(g, cfg) == {}
  {
    hide SortIds;
    RebalanceInPhases(g, cfg);
    if cfg.twoPool {
      assert Promoted(DemotePhase(g, cfg), cfg) == [];
    }
  }

  /** No version is demoted and promoted in one step, whatever the versions and their values are, exactly when
      there is one pool, or no room in the main pool, or the promotion threshold is not below the other one. */
  lemma HysteresisExactly(cfg: Cfg)
    ensures (forall g :: DemotedIds(g, cfg) !! PromotedIds(g, cfg)) <==>
              !cfg.twoPool || (cfg.capacityOn && cfg.capM < 1) || cfg.thetaD <= cfg.thetaP
  {
    hide DemotedIds, PromotedIds;
    if !cfg.twoPool || (cfg.capacityOn && cfg.capM < 1) || cfg.thetaD <= cfg.thetaP {
      forall g
        ensures DemotedIds(g, cfg) !! PromotedIds(g, cfg)
      {
        if cfg.thetaD <= cfg.thetaP { PhaseValues(g, cfg); } else { NobodyPromoted(g, cfg); }
      }
    } else {
      var g: Graph := map[0 := FlappingMem((cfg.thetaD + cfg.thetaP) / 2.0)];
      Flaps(g, cfg);
    }
  }

  /** A version between the thresholds. */
  lemma Flaps(g: Graph, cfg: Cfg)
    requires cfg.twoPool && (!cfg.capacityOn || cfg.capM >= 1) && cfg.thetaP < cfg.thetaD
    requires g == map[0 := FlappingMem((cfg.thetaD + cfg.thetaP) / 2.0)]
    ensures 0 in DemotedIds(g, cfg) && 0 in PromotedIds(g, cfg)
  {
    hide Promoted, Elems, Rebalance;
    var m := FlappingMem((cfg.thetaD + cfg.thetaP) / 2.0);
    var d := DemotePhase(g, cfg);
    assert d == map[0 := m.(pool := Candidate)];
    RebalanceInPhases(g, cfg);
    OnlyOnePromoted(d, cfg);
  }

  lemma OnlyOnePromoted(g: Graph, cfg: Cfg)
    requires !cfg.capacityOn || cfg.capM >= 1
    requires g.Keys == {0} && Promotable(g[0], cfg)
    ensures 0 in Elems(Promoted(g, cfg))
  {
    hide SortIds;
    var keys := PromotionKeys(g, cfg);
    assert keys.Keys == {0};
    SortIdsSorts(keys);
    assert |keys| == |keys.Keys| == 1;
    assert InPool(g, Main) == {};
  }
}
