/** One maintenance step over the engine object, phase by phase. */
module MaintenanceRun {
  import opened MemoryTypes
  import opened VersionGraph
  import opened Ordering
  import opened Capacity
  import opened Pins
  import opened Maintenance
  import opened EngineHeap
  import Verdicts

  // ---------------------------------------------------------------- pins

  method PinnedIds(eng: MemoryEngine, external: set<nat>) returns (pins: set<nat>)
    requires eng.Valid()
    ensures pins == PinClosure(eng.Graph(), PinRoots(eng.State(), external))
  {
    hide PinClosure, PinRoots;
    ghost var e := eng.State();
    pins := CloseOver(eng.Graph(), PinRoots(eng.State(), external));
    assert eng.Graph() == e.mems;
  }

  /** The worklist: every id on it is pinned but its references were not looked at yet. */
  method CloseOver(mems: Graph, roots: set<nat>) returns (pins: set<nat>)
    ensures pins == PinClosure(mems, roots)
  {
    hide PinClosure, Refs;
    pins := roots;
    var pending := pins;
    PinClosureLeast(mems, roots);
    while pending != {}
      invariant roots <= pins <= PinClosure(mems, roots) && pending <= pins
      invariant forall id, x :: id in pins && id !in pending && id in mems && x in Refs(mems[id]) && x in mems ==> x in pins
      decreases mems.Keys - pins, |pending|
    {
      var mid :| mid in pending;
      pending := pending - {mid};
      if mid in mems {
        var found := set x | x in Refs(mems[mid]) && x in mems && x !in pins;
        ghost var before := pins;
        pins := pins + found;
        pending := pending + found;
        if found != {} {
          var x :| x in found;
          assert x in mems.Keys - before && x !in mems.Keys - pins;
        }
      }
    }
    ClosureIsUnique(mems, roots, pins);
  }

  // ---------------------------------------------------------------- sweeps over all memories

  /** The graph when the sweep has reached id `n`. */
  function DecayedUpTo(g: Graph, cfg: Cfg, n: nat): Graph
    requires cfg.Ok()
  {
    map id | id in g :: if id < n then Decayed(g[id], cfg) else g[id]
  }

  function DemotedUpTo(g: Graph, cfg: Cfg, n: nat): Graph {
    map id | id in g :: if id < n && Demotable(g[id], cfg) then g[id].(pool := Candidate) else g[id]
  }

  lemma SweepNext(g: Graph, cfg: Cfg, n: nat)
    requires cfg.Ok()
    ensures n !in g ==> DecayedUpTo(g, cfg, n + 1) == DecayedUpTo(g, cfg, n) && DemotedUpTo(g, cfg, n + 1) == DemotedUpTo(g, cfg, n)
    ensures n in g ==> n in DecayedUpTo(g, cfg, n) && DecayedUpTo(g, cfg, n)[n] == g[n]
                       && DecayedUpTo(g, cfg, n + 1) == DecayedUpTo(g, cfg, n)[n := Decayed(g[n], cfg)]
    ensures n in g ==> n in DemotedUpTo(g, cfg, n) && DemotedUpTo(g, cfg, n)[n] == g[n]
                       && DemotedUpTo(g, cfg, n + 1)
                          == if Demotable(g[n], cfg) then DemotedUpTo(g, cfg, n)[n := g[n].(pool := Candidate)] else DemotedUpTo(g, cfg, n)
  {
    hide Decayed, Demotable;
  }

  lemma SweepBounds(g: Graph, cfg: Cfg, n: nat)
    requires cfg.Ok() && forall id :: id in g ==> id < n
    ensures DecayedUpTo(g, cfg, 0) == g && DemotedUpTo(g, cfg, 0) == g
    ensures DecayedUpTo(g, cfg, n) == DecayAll(g, cfg) && DemotedUpTo(g, cfg, n) == DemoteAll(g, cfg)
  {
    hide Decayed, Demotable;
  }

  method DecayMemories(eng: MemoryEngine)
    requires eng.Valid()
    modifies eng.Objects()
    ensures eng.Valid() && eng.Graph() == DecayAll(old(eng.Graph()), eng.cfg)
  {
    hide DecayedUpTo, DemotedUpTo, Decayed, DecayAll;
    ghost var g := eng.Graph();
    SweepBounds(g, eng.cfg, eng.nextId);
    for id := 0 to eng.nextId
      invariant eng.Valid() && eng.Graph() == DecayedUpTo(g, eng.cfg, id)
    {
      SweepNext(g, eng.cfg, id);
      if id in eng.mems {
        eng.DecayOne(eng.mems[id]);
      }
    }
  }

  method DemoteWeak(eng: MemoryEngine)
    requires eng.Valid()
    modifies eng.Objects()
    ensures eng.Valid() && eng.Graph() == DemoteAll(old(eng.Graph()), eng.cfg)
  {
    hide DecayedUpTo, DemotedUpTo, Decayed, DemoteAll;
    ghost var g := eng.Graph();
    SweepBounds(g, eng.cfg, eng.nextId);
    for id := 0 to eng.nextId
      invariant eng.Valid() && eng.Graph() == DemotedUpTo(g, eng.cfg, id)
    {
      SweepNext(g, eng.cfg, id);
      if id in eng.mems {
        var m := eng.mems[id];
        assert eng.Graph()[id] == m.View();
        if m.pool == Main && m.v < eng.cfg.thetaD {
          eng.MoveOne(m, Candidate);
        }
      }
    }
  }

  // ---------------------------------------------------------------- moving several memories

  lemma MovedMore(g: Graph, ids: seq<nat>, k: nat, pool: Pool)
    requires k < |ids| && ids[k] in g
    ensures var moved := Moved(g, Elems(ids[..k]), pool);
            moved[ids[k] := moved[ids[k]].(pool := pool)] == Moved(g, Elems(ids[..k + 1]), pool)
  {
    assert ids[..k + 1] == ids[..k] + [ids[k]];
  }

  lemma ArchivedMore(g: Graph, ids: seq<nat>, k: nat, t: int)
    requires k < |ids| && ids[k] in g
    ensures var moved := Archived(g, Elems(ids[..k]), t);
            moved[ids[k] := moved[ids[k]].(pool := Archive, archivedAt := Some(t))] == Archived(g, Elems(ids[..k + 1]), t)
  {
    assert ids[..k + 1] == ids[..k] + [ids[k]];
  }

  lemma NoneMoved(g: Graph, ids: seq<nat>, pool: Pool, t: int)
    ensures Moved(g, Elems(ids[..0]), pool) == g && Archived(g, Elems(ids[..0]), t) == g && ids[..|ids|] == ids
    ensures forall s, p :: Moved(g, s, p).Keys == g.Keys && Archived(g, s, t).Keys == g.Keys
  {
  }

  method ArchiveAll(eng: MemoryEngine, ids: seq<nat>, t: int)
    requires eng.Valid() && forall i :: 0 <= i < |ids| ==> ids[i] in eng.mems
    modifies eng.Objects()
    ensures eng.Valid() && eng.Graph() == Archived(old(eng.Graph()), Elems(ids), t)
  {
    hide Archived, Elems, Moved;
    ghost var g := eng.Graph();
    NoneMoved(g, ids, Main, t);
    for i := 0 to |ids|
      invariant eng.Valid() && eng.Graph() == Archived(g, Elems(ids[..i]), t)
    {
      ArchivedMore(g, ids, i, t);
      eng.PutAwayOne(eng.mems[ids[i]], t);
    }
  }

  method PromoteStrong(eng: MemoryEngine)
    requires eng.Valid()
    modifies eng.Objects()
    ensures eng.Valid() && eng.Graph() == Moved(old(eng.Graph()), Elems(Promoted(old(eng.Graph()), eng.cfg)), Main)
  {
    hide SortIds, Moved, Promotable, Elems;
    var g := eng.Graph();
    PromotableIds(g, eng.cfg);
    var ranked := SortIds(PromotionKeys(g, eng.cfg));
    assert g.Keys == eng.mems.Keys;
    PromoteRanked(eng, ranked, |InPool(g, Main)|);
  }

  /** Promote in order of rank, and leave the rest where it is once the main pool is full. */
  method PromoteRanked(eng: MemoryEngine, ranked: seq<nat>, members: nat)
    requires eng.Valid() && forall i :: 0 <= i < |ranked| ==> ranked[i] in eng.mems
    modifies eng.Objects()
    ensures eng.Valid()
    ensures var chosen := if eng.cfg.capacityOn then Take(ranked, NonNegative(eng.cfg.capM - members)) else ranked;
            eng.Graph() == Moved(old(eng.Graph()), Elems(chosen), Main)
  {
    hide Moved, Archived, Elems;
    ghost var g := eng.Graph();
    NoneMoved(g, ranked, Main, 0);
    ghost var n := if eng.cfg.capacityOn then NonNegative(eng.cfg.capM - members) else |ranked|;
    var inMain := members;
    ghost var k := 0;
    for i := 0 to |ranked|
      invariant k == (if i <= n then i else n) <= |ranked| && inMain == members + k
      invariant eng.Valid() && eng.Graph() == Moved(g, Elems(ranked[..k]), Main)
    {
      if !eng.cfg.capacityOn || inMain < eng.cfg.capM {
        MovedMore(g, ranked, i, Main);
        eng.MoveOne(eng.mems[ranked[i]], Main);
        inMain := inMain + 1;
        k := k + 1;
      }
    }
    assert ranked[..k] == Take(ranked, n);
  }

  lemma PromotableIds(g: Graph, cfg: Cfg)
    ensures forall i {:trigger SortIds(PromotionKeys(g, cfg))[i]} ::
              0 <= i < |SortIds(PromotionKeys(g, cfg))| ==> SortIds(PromotionKeys(g, cfg))[i] in g
  {
    SortIdsSorts(PromotionKeys(g, cfg));
    var ranked := SortIds(PromotionKeys(g, cfg));
    forall i | 0 <= i < |ranked|
      ensures ranked[i] in g
    {
      assert ranked[i] in Elems(ranked);
    }
  }

  // ---------------------------------------------------------------- the pool limits

  /** The sorted list is what repeatedly taking the first one yields. */
  lemma FirstIsNext(keys: map<nat, Key>, sorted: seq<nat>, i: nat)
    requires Keyed(keys) && i <= |sorted| && SortIds(keys) == sorted[i..] && |keys| > 0
    ensures i < |sorted| && First(keys) == sorted[i] && First(keys) in keys
    ensures Keyed(keys - {First(keys)}) && SortIds(keys - {First(keys)}) == sorted[i + 1..]
    ensures |keys - {First(keys)}| == |keys| - 1 && (keys - {First(keys)}).Keys <= keys.Keys
  {
    var id := First(keys);
    assert (keys - {id}).Keys == keys.Keys - {id};
    assert SortIds(keys) == [id] + SortIds(keys - {id});
    assert |sorted[i..]| > 0;
    assert sorted[i..][0] == sorted[i] && sorted[i..][1..] == sorted[i + 1..];
  }

  /** While the main pool is too large, its weakest member leaves. */
  method EvictWeakest(eng: MemoryEngine, t: int)
    requires eng.Valid()
    modifies eng.Objects()
    ensures eng.Valid() && eng.Graph() == EvictMain(old(eng.Graph()), eng.cfg, t)
  {
    hide SortIds, Moved, Archived, Elems, CandidateKeys;
    var g := eng.Graph();
    KeysOf(g, InPool(g, Main));
    var sorted := WeakestFirst(eng, CandidateKeys(g, InPool(g, Main)), t);
  }

  method WeakestFirst(eng: MemoryEngine, keys: map<nat, Key>, t: int) returns (ghost sorted: seq<nat>)
    requires eng.Valid() && Keyed(keys) && keys.Keys <= eng.mems.Keys
    modifies eng.Objects()
    ensures eng.Valid() && sorted == SortIds(keys)
    ensures eng.Graph() == EvictedFirst(old(eng.Graph()), Take(sorted, NonNegative(|keys| - eng.cfg.capM)), eng.cfg, t)
  {
    hide First, SortIds, Elems, Keyed, EvictedFirst, Evicted;
    ghost var g := eng.Graph();
    sorted := SortIds(keys);
    NoneEvicted(g, sorted, eng.cfg, t);
    var inMain := keys;
    ghost var i := 0;
    assert sorted[0..] == sorted;
    SortIdsSorts(keys);
    while |inMain| > eng.cfg.capM && |inMain| > 0
      invariant eng.Valid() && Keyed(inMain) && inMain.Keys <= eng.mems.Keys
      invariant i <= |sorted| && SortIds(inMain) == sorted[i..] && |inMain| == |keys| - i && i <= NonNegative(|keys| - eng.cfg.capM)
      invariant eng.Graph() == EvictedFirst(g, sorted[..i], eng.cfg, t)
      decreases |inMain|
    {
      FirstIsNext(inMain, sorted, i);
      EvictedMore(g, sorted, i, eng.cfg, t);
      var weakest := First(inMain);
      EvictOne(eng, weakest, t);
      inMain := inMain - {weakest};
      i := i + 1;
    }
    assert sorted[..i] == Take(sorted, NonNegative(|keys| - eng.cfg.capM));
  }

  function Evicted(m: Mem, cfg: Cfg, t: int): Mem {
    if cfg.twoPool then m.(pool := Candidate) else m.(pool := Archive, archivedAt := Some(t))
  }

  lemma NoneEvicted(g: Graph, ids: seq<nat>, cfg: Cfg, t: int)
    ensures EvictedFirst(g, ids[..0], cfg, t) == g
  {
    NoneMoved(g, ids, Candidate, t);
  }

  lemma EvictedMore(g: Graph, ids: seq<nat>, k: nat, cfg: Cfg, t: int)
    requires k < |ids| && ids[k] in EvictedFirst(g, ids[..k], cfg, t)
    ensures var now := EvictedFirst(g, ids[..k], cfg, t);
            EvictedFirst(g, ids[..k + 1], cfg, t) == now[ids[k] := Evicted(now[ids[k]], cfg, t)]
  {
    MovedMore(g, ids, k, Candidate);
    ArchivedMore(g, ids, k, t);
  }

  method EvictOne(eng: MemoryEngine, id: nat, t: int)
    requires eng.Valid() && id in eng.mems
    modifies eng.Objects()
    ensures eng.Valid() && eng.Graph() == old(eng.Graph())[id := Evicted(old(eng.Graph())[id], eng.cfg, t)]
  {
    if eng.cfg.twoPool {
      eng.MoveOne(eng.mems[id], Candidate);
    } else {
      eng.PutAwayOne(eng.mems[id], t);
    }
  }

  function EvictedFirst(g: Graph, ids: seq<nat>, cfg: Cfg, t: int): Graph {
    if cfg.twoPool then Moved(g, Elems(ids), Candidate) else Archived(g, Elems(ids), t)
  }

  lemma OverflowStored(g: Graph, cap: int, pins: set<nat>)
    ensures forall i {:trigger OverflowingCandidates(g, cap, pins)[i]} ::
              0 <= i < |OverflowingCandidates(g, cap, pins)| ==> OverflowingCandidates(g, cap, pins)[i] in g
    ensures forall i {:trigger OverflowingArchive(g, cap, pins)[i]} ::
              0 <= i < |OverflowingArchive(g, cap, pins)| ==> OverflowingArchive(g, cap, pins)[i] in g
  {
    hide OverflowingCandidates, OverflowingArchive;
    CandidatesBounded(g, cap, pins);
    ArchiveBounded(g, cap, pins);
    var c, a := OverflowingCandidates(g, cap, pins), OverflowingArchive(g, cap, pins);
    forall i | 0 <= i < |c|
      ensures c[i] in g
    {
      assert c[i] in Elems(c);
    }
    forall i | 0 <= i < |a|
      ensures a[i] in g
    {
      assert a[i] in Elems(a);
    }
  }

  method ShrinkPools(eng: MemoryEngine, t: int)
    requires eng.Valid()
    modifies eng.Objects()
    ensures eng.Valid()
    ensures eng.Graph() == Shrink(old(eng.Graph()), eng.cfg, old(Pinned(eng.State())), t)
  {
    hide EvictMain, OverflowingCandidates, Archived, Elems, PinClosure, PinRoots;
    ghost var e := eng.State();
    if eng.cfg.capacityOn {
      EvictWeakest(eng, t);
      var pins := PinnedIds(eng, eng.external);
      EvictKeepsPins(e, eng.cfg, t);
      var g := eng.Graph();
      OverflowStored(g, eng.cfg.capC, pins);
      ArchiveAll(eng, OverflowingCandidates(g, eng.cfg.capC, pins), t);
    }
  }

  /** Eviction from the main pool changes no pin. */
  lemma EvictKeepsPins(e: Engine, cfg: Cfg, t: int)
    ensures Pinned(e.(mems := EvictMain(e.mems, cfg, t))) == Pinned(e)
  {
    hide OverflowingMain, Elems, Pinned, Moved, Archived, SameVersions;
    MovesKeepVersions(e.mems, Elems(OverflowingMain(e.mems, cfg)), Candidate, t);
    SameVersionsPins(e, e.mems, EvictMain(e.mems, cfg, t));
    assert e.(mems := e.mems) == e;
  }

  method ArchiveIdle(eng: MemoryEngine, t: int)
    requires eng.Valid()
    modifies eng.Objects()
    ensures eng.Valid()
    ensures eng.Graph() == Archived(old(eng.Graph()), IdleIds(old(eng.Graph()), eng.cfg, old(Pinned(eng.State())), t), t)
  {
    hide PinClosure, PinRoots;
    ghost var e := eng.State();
    var protected := PinnedIds(eng, eng.external);
    assert eng.Graph() == e.mems;
    ArchiveIdleExcept(eng, protected, t);
  }

  method ArchiveIdleExcept(eng: MemoryEngine, protected: set<nat>, t: int)
    requires eng.Valid()
    modifies eng.Objects()
    ensures eng.Valid()
    ensures eng.Graph() == Archived(old(eng.Graph()), IdleIds(old(eng.Graph()), eng.cfg, protected, t), t)
  {
    hide Idle, Archived, IdleIds, IdleBelow;
    ghost var g := eng.Graph();
    NoneArchived(g, t);
    IdleBelowEnds(g, eng.cfg, protected, t, eng.nextId);
    for id := 0 to eng.nextId
      invariant eng.Valid() && eng.Graph() == Archived(g, IdleBelow(g, eng.cfg, protected, t, id), t)
    {
      IdleNext(g, eng.cfg, protected, t, id);
      if id in eng.mems && id !in protected {
        ghost var done := IdleBelow(g, eng.cfg, protected, t, id);
        IdleUnchanged(g, done, id, t);
        ArchivedOne(g, done, id, t);
        var idle := PutAwayIdle(eng, id, t);
      }
    }
  }

  function IdleBelow(g: Graph, cfg: Cfg, protected: set<nat>, t: int, n: nat): set<nat>
    requires cfg.Ok()
  {
    set j | j in g && j < n && j !in protected && Idle(g[j], cfg, t)
  }

  lemma IdleBelowEnds(g: Graph, cfg: Cfg, protected: set<nat>, t: int, n: nat)
    requires cfg.Ok() && forall id :: id in g ==> id < n
    ensures IdleBelow(g, cfg, protected, t, 0) == {} && IdleBelow(g, cfg, protected, t, n) == IdleIds(g, cfg, protected, t)
  {
    hide Idle;
  }

  lemma IdleNext(g: Graph, cfg: Cfg, protected: set<nat>, t: int, id: nat)
    requires cfg.Ok()
    ensures id !in IdleBelow(g, cfg, protected, t, id)
    ensures var done := IdleBelow(g, cfg, protected, t, id);
            IdleBelow(g, cfg, protected, t, id + 1)
              == if id in g && id !in protected && Idle(g[id], cfg, t) then done + {id} else done
  {
    hide Idle;
  }

  method PutAwayIdle(eng: MemoryEngine, id: nat, t: int) returns (idle: bool)
    requires eng.Valid() && id in eng.mems
    modifies eng.Objects()
    ensures eng.Valid() && idle == Idle(old(eng.Graph())[id], eng.cfg, t)
    ensures eng.Graph() == if idle then old(eng.Graph())[id := old(eng.Graph())[id].(pool := Archive, archivedAt := Some(t))]
                           else old(eng.Graph())
  {
    hide RetentionScale;
    var m := eng.mems[id];
    var idleSince := if m.lastHit.Some? then m.lastHit.value else m.birth;
    var horizon := eng.cfg.idleP * RetentionScale(m.salience, eng.cfg);
    idle := m.pool == Candidate && (t - idleSince) as real > horizon;
    if idle {
      eng.PutAwayOne(m, t);
    }
  }

  lemma NoneArchived(g: Graph, t: int)
    ensures Archived(g, {}, t) == g
  {
  }

  lemma IdleUnchanged(g: Graph, done: set<nat>, id: nat, t: int)
    requires id in g && id !in done
    ensures id in Archived(g, done, t) && Archived(g, done, t)[id] == g[id]
  {
  }

  lemma ArchivedOne(g: Graph, done: set<nat>, id: nat, t: int)
    requires id in g
    ensures var a := Archived(g, done, t);
            a[id := a[id].(pool := Archive, archivedAt := Some(t))] == Archived(g, done + {id}, t)
  {
  }

  method TrimArchive(eng: MemoryEngine)
    requires eng.Valid()
    modifies eng`mems
    ensures eng.Valid() && eng.mems.Keys <= old(eng.mems.Keys)
    ensures forall id :: id in eng.mems ==> eng.mems[id] == old(eng.mems)[id]
    ensures eng.State() == old(eng.State()).(mems := Trim(old(eng.Graph()), eng.cfg, old(Pinned(eng.State()))))
  {
    hide OverflowingArchive, PinClosure, PinRoots;
    ghost var e := eng.State();
    if eng.cfg.capacityOn {
      var pins := PinnedIds(eng, eng.external);
      assert eng.Graph() == e.mems;
      var victims := OverflowingArchive(eng.Graph(), eng.cfg.capA, pins);
      for i := 0 to |victims|
        invariant eng.Valid() && eng.mems == old(eng.mems) - Elems(victims[..i])
      {
        assert victims[..i + 1] == victims[..i] + [victims[i]];
        eng.mems := eng.mems - {victims[i]};
      }
      assert victims[..|victims|] == victims;
      assert pins == Pinned(e);
      assert eng.Graph() == e.mems - Elems(victims);
    } else {
      assert eng.Graph() == e.mems;
    }
  }

  // ---------------------------------------------------------------- tensions

  function Restrict(tensions: map<Pair, Tension>, keys: set<Pair>): map<Pair, Tension> {
    map k | k in tensions && k in keys :: tensions[k]
  }

  function BrokenAt(g: Graph, k: Pair): nat {
    (if BrokenEnd(g, k, true) then 1 else 0) + (if BrokenEnd(g, k, false) then 1 else 0)
  }

  lemma BrokenEndsMore(g: Graph, tensions: map<Pair, Tension>, done: set<Pair>, k: Pair, left: bool)
    requires k in tensions && k !in done
    ensures |BrokenEnds(g, Restrict(tensions, done + {k}), left)|
         == |BrokenEnds(g, Restrict(tensions, done), left)| + if BrokenEnd(g, k, left) then 1 else 0
  {
    hide BrokenEnd;
    var ends := BrokenEnds(g, Restrict(tensions, done), left);
    assert BrokenEnds(g, Restrict(tensions, done + {k}), left) == if BrokenEnd(g, k, left) then ends + {k} else ends;
    assert k !in ends;
  }

  lemma BrokenMore(g: Graph, tensions: map<Pair, Tension>, done: set<Pair>, k: Pair)
    requires k in tensions && k !in done
    ensures BrokenWalks(g, Restrict(tensions, done + {k})) == BrokenWalks(g, Restrict(tensions, done)) + BrokenAt(g, k)
  {
    hide BrokenEnds, Restrict, BrokenEnd;
    BrokenEndsMore(g, tensions, done, k, true);
    BrokenEndsMore(g, tensions, done, k, false);
  }

  lemma NotWalked(e: Engine, k: Pair)
    requires !Present(e.mems, k)
    ensures BrokenAt(e.mems, k) == 0
  {
  }

  lemma WalkedTwice(e: Engine, k: Pair)
    requires Present(e.mems, k)
    ensures Verdicts.Walked(e, k.0).mems == e.mems
    ensures Verdicts.Walked(Verdicts.Walked(e, k.0), k.1) == e.(broken := e.broken + BrokenAt(e.mems, k))
  {
    hide Follow;
  }

  /** Keep a tension whose ends still lead to different representatives; report whether it is kept. */
  method SweepOne(eng: MemoryEngine, key: Pair) returns (kept: bool)
    requires eng.Valid()
    modifies eng`tensions, eng`broken
    ensures kept == Unsettled(old(eng.Graph()), key)
    ensures eng.State() == old(eng.State()).(
              tensions := if kept then old(eng.tensions) else old(eng.tensions) - {key},
              broken := old(eng.broken) + BrokenAt(old(eng.Graph()), key))
  {
    hide Follow, BrokenAt, Verdicts.Walked;
    ghost var e := eng.State();
    if key.0 !in eng.mems || key.1 !in eng.mems {
      NotWalked(e, key);
      eng.DropTension(key);
      return false;
    }
    WalkedTwice(e, key);
    var a := eng.FollowChain(eng.mems[key.0]);
    var b := eng.FollowChain(eng.mems[key.1]);
    if a.id == b.id {
      eng.DropTension(key);
      return false;
    }
    kept := true;
  }

  /** The state when the sweep still has `todo` before it. */
  function SweptBut(e: Engine, todo: set<Pair>): Engine {
    e.(tensions := map k | k in e.tensions && (k in todo || Unsettled(e.mems, k)) :: e.tensions[k],
       broken := e.broken + BrokenWalks(e.mems, Restrict(e.tensions, e.tensions.Keys - todo)))
  }

  lemma SweepMore(e: Engine, todo: set<Pair>, key: Pair)
    requires key in todo && todo <= e.tensions.Keys
    ensures var s := SweptBut(e, todo);
            s.mems == e.mems &&
            SweptBut(e, todo - {key}) ==
              s.(tensions := if Unsettled(e.mems, key) then s.tensions else s.tensions - {key}, broken := s.broken + BrokenAt(e.mems, key))
  {
    hide Unsettled, BrokenAt, BrokenWalks;
    BrokenMore(e.mems, e.tensions, e.tensions.Keys - todo, key);
    assert e.tensions.Keys - (todo - {key}) == (e.tensions.Keys - todo) + {key};
  }

  lemma SweepEnds(e: Engine)
    ensures SweptBut(e, e.tensions.Keys) == e && SweptBut(e, {}) == SweepTensions(e)
  {
    hide Unsettled, BrokenWalks, Restrict;
    assert e.tensions.Keys - e.tensions.Keys == {} && e.tensions.Keys - {} == e.tensions.Keys;
    NothingSwept(e.mems, e.tensions);
  }

  lemma NothingSwept(g: Graph, tensions: map<Pair, Tension>)
    ensures BrokenWalks(g, Restrict(tensions, {})) == 0 && Restrict(tensions, tensions.Keys) == tensions
  {
    hide BrokenEnd;
    assert Restrict(tensions, {}) == map[] && BrokenEnds(g, map[], true) == {} && BrokenEnds(g, map[], false) == {};
  }

  /** Prune the settled tensions and hand out the pairs that have waited long enough. */
  method EmitPendingConflicts(eng: MemoryEngine, t: int) returns (aged: set<Pair>)
    requires eng.Valid()
    modifies eng`tensions, eng`broken
    ensures eng.State() == SweepTensions(old(eng.State())) && aged == Aged(old(eng.State()), eng.cfg, t)
  {
    hide Unsettled, BrokenAt, SweptBut, SweepTensions;
    ghost var e := eng.State();
    var all := eng.tensions;
    var todo := all.Keys;
    aged := {};
    SweepEnds(e);
    while todo != {}
      invariant todo <= all.Keys && eng.State() == SweptBut(e, todo)
      invariant aged == set k | k in all && k !in todo && Unsettled(e.mems, k) && t - all[k].firstSeen >= eng.cfg.tensionDelay
      decreases |todo|
    {
      var key :| key in todo;
      SweepMore(e, todo, key);
      todo := todo - {key};
      var kept := SweepOne(eng, key);
      if kept && t - all[key].firstSeen >= eng.cfg.tensionDelay {
        aged := aged + {key};
      }
    }
  }

  // ---------------------------------------------------------------- the step

  method RunMaintenance(eng: MemoryEngine, t: int) returns (aged: set<Pair>)
    requires eng.Valid()
    modifies eng, eng.Objects()
    ensures eng.Valid() && eng.mems.Keys <= old(eng.mems.Keys)
    ensures eng.State() == Maintain(old(eng.State()), eng.cfg, t)
    ensures aged == Aged(old(eng.State()).(mems := eng.Graph()), eng.cfg, t)
  {
    hide DecayAll, DemoteAll, Promoted, Moved, Shrink, Archived, IdleIds, Trim, Pinned, Aged, Elems, Unsettled, BrokenWalks;
    ghost var e := eng.State();
    DecayMemories(eng);
    if eng.cfg.twoPool {
      DemoteWeak(eng);
      PromoteStrong(eng);
    }
    assert eng.State() == e.(mems := Rebalance(DecayAll(e.mems, eng.cfg), eng.cfg));
    ShrinkPools(eng, t);
    ArchiveIdle(eng, t);
    TrimArchive(eng);
    assert eng.State() == e.(mems := MaintainGraph(e, eng.cfg, t));
    aged := EmitPendingConflicts(eng, t);
  }
}
