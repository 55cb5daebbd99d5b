/** Eviction rules of the bounded pools and the capacity plan made before an effect commits. */
module Capacity {
  import opened MemoryTypes
  import opened Ordering

  function InPool(g: Graph, pool: Pool): set<nat> {
    set id | id in g && g[id].pool == pool
  }

  /** Versions that count against the context limit. */
  function CurrentIds(g: Graph): set<nat> {
    set id | id in g && g[id].Current()
  }

  /** Lowest value first, then longest idle, then the smaller id. */
  function CandidateKey(m: Mem, id: nat): Key {
    Key(false, m.v, m.IdleSince() as real, id)
  }

  /** Longest archived first. */
  function ArchiveKey(m: Mem, id: nat): Key {
    Key(false, m.Stamp() as real, 0.0, id)
  }

  function CandidateKeys(g: Graph, ids: set<nat>): map<nat, Key> {
    map id | id in ids && id in g :: CandidateKey(g[id], id)
  }

  function ArchiveKeys(g: Graph, ids: set<nat>): map<nat, Key> {
    map id | id in ids && id in g :: ArchiveKey(g[id], id)
  }

  // ---------------------------------------------------------------- eviction inside a step

  /** The candidates a step must archive: the weakest unpinned ones, as many as the pool overflows. */
  function OverflowingCandidates(g: Graph, capC: int, pinned: set<nat>): seq<nat> {
    var c := InPool(g, Candidate);
    Take(SortIds(CandidateKeys(g, c - pinned)), NonNegative(|c| - capC))
  }

  /** The archived versions a step must delete: the oldest unpinned ones. */
  function OverflowingArchive(g: Graph, capA: int, pinned: set<nat>): seq<nat> {
    var a := InPool(g, Archive);
    Take(SortIds(ArchiveKeys(g, a - pinned)), NonNegative(|a| - capA))
  }

  function Larger(a: int, b: int): int {
    if a >= b then a else b
  }

  lemma OverflowBounds(all: set<nat>, free: set<nat>, pinned: set<nat>, cap: int, keys: map<nat, Key>)
    requires free == all - pinned && Keyed(keys) && keys.Keys == free
    ensures var gone := Elems(Take(SortIds(keys), NonNegative(|all| - cap)));
            gone <= free && |all - gone| <= Larger(cap, |all * pinned|)
  {
    hide Before, SortedBy, NoDup;
    var n := NonNegative(|all| - cap);
    SortIdsSorts(keys);
    TakeSplits(SortIds(keys), keys, n);
    var gone := Elems(Take(SortIds(keys), n));
    assert |keys| == |keys.Keys|;
    RemovedCount(all, free, pinned, gone);
  }

  lemma RemovedCount(all: set<nat>, free: set<nat>, pinned: set<nat>, gone: set<nat>)
    requires free == all - pinned && gone <= free
    ensures |all - gone| == |all| - |gone| && |all * pinned| == |all| - |free|
  {
    assert all == all * pinned + free && all * pinned !! free;
    assert all == (all - gone) + gone;
  }

  lemma KeysOf(g: Graph, ids: set<nat>)
    requires ids <= g.Keys
    ensures Keyed(CandidateKeys(g, ids)) && CandidateKeys(g, ids).Keys == ids && |CandidateKeys(g, ids)| == |ids|
    ensures Keyed(ArchiveKeys(g, ids)) && ArchiveKeys(g, ids).Keys == ids
  {
    assert CandidateKeys(g, ids).Keys == ids;
    assert |CandidateKeys(g, ids)| == |CandidateKeys(g, ids).Keys|;
  }

  lemma PoolIds(g: Graph, pool: Pool)
    ensures InPool(g, pool) <= g.Keys
  {
  }

  lemma CandidateSlice(g: Graph, capC: int, pinned: set<nat>)
    ensures var c := InPool(g, Candidate);
            OverflowingCandidates(g, capC, pinned) == Take(SortIds(CandidateKeys(g, c - pinned)), NonNegative(|c| - capC))
  {
  }

  lemma ArchiveSlice(g: Graph, capA: int, pinned: set<nat>)
    ensures var a := InPool(g, Archive);
            OverflowingArchive(g, capA, pinned) == Take(SortIds(ArchiveKeys(g, a - pinned)), NonNegative(|a| - capA))
  {
  }

  /** After archiving the overflow, the pool holds at most its limit or its pinned members. */
  lemma CandidatesBounded(g: Graph, capC: int, pinned: set<nat>)
    ensures var gone := Elems(OverflowingCandidates(g, capC, pinned));
            && gone <= InPool(g, Candidate) - pinned
            && |InPool(g, Candidate) - gone| <= Larger(capC, |InPool(g, Candidate) * pinned|)
  {
    hide *;
    var c := InPool(g, Candidate);
    PoolIds(g, Candidate);
    var free := c - pinned;
    KeysOf(g, free);
    OverflowBounds(c, free, pinned, capC, CandidateKeys(g, free));
    CandidateSlice(g, capC, pinned);
  }

  lemma ArchiveBounded(g: Graph, capA: int, pinned: set<nat>)
    ensures var gone := Elems(OverflowingArchive(g, capA, pinned));
            && gone <= InPool(g, Archive) - pinned
            && |InPool(g, Archive) - gone| <= Larger(capA, |InPool(g, Archive) * pinned|)
  {
    hide *;
    var a := InPool(g, Archive);
    PoolIds(g, Archive);
    var free := a - pinned;
    KeysOf(g, free);
    OverflowBounds(a, free, pinned, capA, ArchiveKeys(g, free));
    ArchiveSlice(g, capA, pinned);
  }

  /** Of a sorted pool, a slice takes those that come first. */
  lemma SliceIsFirst(keys: map<nat, Key>, n: nat, out: nat, kept: nat)
    requires Keyed(keys) && out in Take(SortIds(keys), n) && kept in keys && kept !in Take(SortIds(keys), n)
    ensures out in keys && Before(keys[out], keys[kept])
  {
    hide Before, SortIds;
    SortIdsSorts(keys);
    TakeSplits(SortIds(keys), keys, n);
    assert out in Elems(Take(SortIds(keys), n)) && kept in Elems(SortIds(keys));
    assert kept in Elems(Drop(SortIds(keys), n));
  }

  /** Worth less, or worth the same and idle for longer, or the smaller id. */
  predicate Weaker(g: Graph, x: nat, y: nat)
    requires x in g && y in g
  {
    g[x].v < g[y].v || (g[x].v == g[y].v && (g[x].IdleSince() < g[y].IdleSince() || (g[x].IdleSince() == g[y].IdleSince() && x < y)))
  }

  /** Every candidate that is archived is weaker than every unpinned one that stays. */
  lemma WeakestLeave(g: Graph, capC: int, pinned: set<nat>, out: nat, kept: nat)
    requires out in OverflowingCandidates(g, capC, pinned)
    requires kept in InPool(g, Candidate) - pinned && kept !in OverflowingCandidates(g, capC, pinned)
    ensures out in g && Weaker(g, out, kept)
  {
    hide SortIds, Take;
    var c := InPool(g, Candidate);
    SliceIsFirst(CandidateKeys(g, c - pinned), NonNegative(|c| - capC), out, kept);
  }

  /** Every archived version that is deleted was archived before every unpinned one that stays. */
  lemma OldestLeave(g: Graph, capA: int, pinned: set<nat>, out: nat, kept: nat)
    requires out in OverflowingArchive(g, capA, pinned)
    requires kept in InPool(g, Archive) - pinned && kept !in OverflowingArchive(g, capA, pinned)
    ensures out in g && (g[out].Stamp() < g[kept].Stamp() || (g[out].Stamp() == g[kept].Stamp() && out < kept))
  {
    hide SortIds, Take;
    var a := InPool(g, Archive);
    SliceIsFirst(ArchiveKeys(g, a - pinned), NonNegative(|a| - capA), out, kept);
  }

  // ---------------------------------------------------------------- the plan

  datatype Plan = Plan(archive: seq<nat>, delete: seq<nat>, remaining: set<nat>, accepted: bool)

  function NewStamp(t: Option<int>, id: nat): Key {
    Key(t.None?, if t.Some? then t.value as real else 0.0, 0.0, id)
  }

  /** Sort keys of the archive once `moved` have joined it: a fresh arrival is dated `t`. */
  function JoinedKeys(g: Graph, moved: seq<nat>, t: Option<int>): map<nat, Key> {
    map id | id in InPool(g, Archive) + Elems(moved) ::
      if id in moved || id !in g then NewStamp(t, id) else ArchiveKey(g[id], id)
  }

  function Unpinned(keys: map<nat, Key>, pinned: set<nat>): map<nat, Key> {
    map id | id in keys && id !in pinned :: keys[id]
  }

  predicate WithinLimits(cfg: Cfg, candidates: int, archived: int, context: int) {
    candidates <= cfg.capC && archived <= cfg.capA && context <= cfg.capContext
  }

  function PlanCapacity(g: Graph, cfg: Cfg, pinned: set<nat>, t: Option<int>): Plan {
    var c := InPool(g, Candidate);
    var archive := OverflowingCandidates(g, cfg.capC, pinned);
    var keys := JoinedKeys(g, archive, t);
    var free := SortIds(Unpinned(keys, pinned));
    var overflow := NonNegative(|keys| - cfg.capA);
    var oldest := Take(free, overflow);
    var current := CurrentIds(g);
    var context := |current| - |Filter(oldest, current)|;
    var extra := Filter(Drop(free, overflow), current);
    var need := NonNegative(context - cfg.capContext);
    var delete := if cfg.capacityOn then oldest + Take(extra, need) else oldest;
    var left := context - (if need <= |extra| then need else |extra|);
    var accepted := !cfg.capacityOn ||
                    WithinLimits(cfg, |c| - |archive|, |keys| - |delete|, left);
    Plan(archive, delete, g.Keys - Elems(delete), accepted)
  }

  /** Carry out a plan at time `t`. */
  function ApplyPlan(g: Graph, plan: Plan, t: int): Graph {
    map id | id in g && id !in plan.delete ::
      if id in plan.archive then g[id].(pool := Archive, archivedAt := Some(t)) else g[id]
  }

  // ---------------------------------------------------------------- what the plan consists of

  function Smaller(a: int, b: int): int {
    if a <= b then a else b
  }

  lemma TakeSorted(s: seq<nat>, keys: map<nat, Key>, n: nat)
    requires NoDup(s) && SortedBy(s, keys)
    ensures SortedBy(Take(s, n), keys)
  {
    hide Before, SortedBy, NoDup;
    var m := if n >= |s| then |s| else n;
    SliceSorted(s, keys, 0, m);
    assert s[0..m] == Take(s, n);
  }

  /** The slices of a deletion: the `n` oldest of `free`, then the `need` oldest current ones of the
      others. */
  lemma DeleteSizes(free: seq<nat>, keys: map<nat, Key>, cur: set<nat>, n: nat, need: nat)
    requires NoDup(free) && SortedBy(free, keys) && Elems(free) <= keys.Keys
    ensures var oldest, later := Take(free, n), Drop(free, n);
            var extra := Filter(later, cur);
            var more := Take(extra, need);
            && |oldest| == |Elems(oldest)| == Smaller(n, |free|)
            && Elems(oldest) !! Elems(later) && Elems(oldest) + Elems(later) == Elems(free)
            && |Filter(oldest, cur)| == |Elems(oldest) * cur| && |extra| == |Elems(later) * cur|
            && Elems(more) <= Elems(later) * cur && |more| == |Elems(more)| == Smaller(need, |extra|)
  {
    hide Before, SortedBy, NoDup, Filter, Elems, Take, Drop;
    TakeSplits(free, keys, n);
    TakeSorted(free, keys, n);
    NoDupCount(free);
    NoDupCount(Take(free, n));
    FilterKeeps(Take(free, n), cur, keys);
    NoDupCount(Filter(Take(free, n), cur));
    FilterKeeps(Drop(free, n), cur, keys);
    var extra := Filter(Drop(free, n), cur);
    NoDupCount(extra);
    TakeSplits(extra, keys, need);
    NoDupCount(Take(extra, need));
  }

  lemma DeleteOrder(free: seq<nat>, keys: map<nat, Key>, cur: set<nat>, n: nat, need: nat, x: nat, y: nat)
    requires NoDup(free) && SortedBy(free, keys) && Elems(free) <= keys.Keys
    requires var more := Elems(Take(Filter(Drop(free, n), cur), need));
             x in Elems(Take(free, n)) + more && y in Elems(Drop(free, n)) - more && y in cur
    ensures x in keys && y in keys && Before(keys[x], keys[y])
  {
    hide Before, SortedBy, NoDup, Filter, Elems, Take, Drop;
    TakeSplits(free, keys, n);
    FilterKeeps(Drop(free, n), cur, keys);
    TakeSplits(Filter(Drop(free, n), cur), keys, need);
  }

  /** A plan in sets: the overflow it archives, what it may then delete -- the unpinned archive, split
      into the `first` part the archive limit costs and the `later` one -- and the current versions of
      the latter that the context limit costs. */
  datatype Parts = Parts(arch: set<nat>, first: set<nat>, later: set<nat>, more: set<nat>)

  ghost predicate PlanShape(g: Graph, cfg: Cfg, pinned: set<nat>, p: Parts, accepted: bool) {
    PlanSets(g, pinned, p) && PlanCounts(g, cfg, pinned, p, accepted)
  }

  ghost predicate PlanSets(g: Graph, pinned: set<nat>, p: Parts) {
    && p.arch <= InPool(g, Candidate) - pinned && p.first !! p.later
    && p.first + p.later == InPool(g, Archive) + p.arch - pinned && p.more <= p.later * CurrentIds(g)
  }

  ghost predicate PlanCounts(g: Graph, cfg: Cfg, pinned: set<nat>, p: Parts, accepted: bool) {
    var c, joined, cur := InPool(g, Candidate), InPool(g, Archive) + p.arch, CurrentIds(g);
    PlanSizes(cfg, |c|, |c - pinned|, |joined|, |joined - pinned|, |cur|,
              |p.arch|, |p.first|, |p.first * cur|, |p.later * cur|, |p.more|, accepted)
  }

  /** The limits in numbers, for pools of `c` candidates, `joined` archived ones and `cur` current versions. */
  predicate PlanSizes(cfg: Cfg, c: nat, cFree: nat, joined: nat, free: nat, cur: nat,
                      arch: nat, first: nat, hit: nat, extra: nat, more: nat, accepted: bool) {
    && arch == Smaller(NonNegative(c - cfg.capC), cFree)
    && first == Smaller(NonNegative(joined - cfg.capA), free)
    && more == Smaller(NonNegative(cur - hit - cfg.capContext), extra)
    && (accepted <==> WithinLimits(cfg, c - arch, joined - first - more, cur - hit - more))
  }

  lemma SortSlice(keys: map<nat, Key>, free: set<nat>, n: nat)
    requires Keyed(keys) && keys.Keys == free && |keys| == |free|
    ensures var s := Take(SortIds(keys), n);
            Elems(s) <= free && |s| == |Elems(s)| == Smaller(n, |free|)
  {
    hide Before, SortedBy, NoDup, Elems, Take, SortIds;
    SortIdsSorts(keys);
    TakeSplits(SortIds(keys), keys, n);
    NoDupCount(Take(SortIds(keys), n));
  }

  lemma ArchiveParts(g: Graph, capC: int, pinned: set<nat>)
    ensures var archive, c := OverflowingCandidates(g, capC, pinned), InPool(g, Candidate);
            && Elems(archive) <= c - pinned
            && |archive| == |Elems(archive)| == Smaller(NonNegative(|c| - capC), |c - pinned|)
  {
    hide *;
    var c := InPool(g, Candidate);
    PoolIds(g, Candidate);
    var free := c - pinned;
    KeysOf(g, free);
    CandidateSlice(g, capC, pinned);
    SortSlice(CandidateKeys(g, free), free, NonNegative(|c| - capC));
  }

  lemma JoinedKeysKeys(g: Graph, moved: seq<nat>, t: Option<int>, pinned: set<nat>, joined: set<nat>)
    requires joined == InPool(g, Archive) + Elems(moved)
    ensures var keys, fk := JoinedKeys(g, moved, t), Unpinned(JoinedKeys(g, moved, t), pinned);
            && keys.Keys == joined && |keys| == |joined|
            && Keyed(fk) && fk.Keys == joined - pinned && |fk| == |joined - pinned|
            && (forall id :: id in fk ==> id in keys && fk[id] == keys[id])
  {
    var keys, fk := JoinedKeys(g, moved, t), Unpinned(JoinedKeys(g, moved, t), pinned);
    assert keys.Keys == joined && fk.Keys == joined - pinned;
    assert |keys| == |keys.Keys| && |fk| == |fk.Keys|;
  }

  lemma ElemsAppend(s: seq<nat>, t: seq<nat>)
    ensures Elems(s + t) == Elems(s) + Elems(t)
  {
  }

  /** The plan, once the two sorted lists it slices are named. */
  lemma PlanFields(g: Graph, cfg: Cfg, pinned: set<nat>, t: Option<int>, archive: seq<nat>, keys: map<nat, Key>, free: seq<nat>,
                   n: nat, need: nat)
    requires cfg.capacityOn
    requires archive == OverflowingCandidates(g, cfg.capC, pinned) && keys == JoinedKeys(g, archive, t)
    requires Keyed(Unpinned(keys, pinned)) && free == SortIds(Unpinned(keys, pinned))
    requires n == NonNegative(|keys| - cfg.capA)
    requires need == NonNegative(|CurrentIds(g)| - |Filter(Take(free, n), CurrentIds(g))| - cfg.capContext)
    ensures var plan, cur := PlanCapacity(g, cfg, pinned, t), CurrentIds(g);
            var oldest, extra := Take(free, n), Filter(Drop(free, n), cur);
            var context := |cur| - |Filter(oldest, cur)|;
            && plan.archive == archive && plan.delete == oldest + Take(extra, need)
            && (plan.accepted <==> WithinLimits(cfg, |InPool(g, Candidate)| - |archive|,
                                                |keys| - (|oldest| + |Take(extra, need)|), context - Smaller(need, |extra|)))
  {
    hide OverflowingCandidates, SortIds, Unpinned, JoinedKeys, InPool, CurrentIds, Filter, Take, Drop, Elems;
  }

  /** The ids a plan may delete, oldest first. */
  function FreeList(g: Graph, cfg: Cfg, pinned: set<nat>, t: Option<int>): seq<nat> {
    SortIds(Unpinned(JoinedKeys(g, OverflowingCandidates(g, cfg.capC, pinned), t), pinned))
  }

  /** A plan in sets. */
  ghost function PartsOf(g: Graph, cfg: Cfg, pinned: set<nat>, t: Option<int>): Parts {
    var archive, cur := OverflowingCandidates(g, cfg.capC, pinned), CurrentIds(g);
    var free, n := FreeList(g, cfg, pinned, t), NonNegative(|JoinedKeys(g, archive, t)| - cfg.capA);
    var need := NonNegative(|cur| - |Filter(Take(free, n), cur)| - cfg.capContext);
    Parts(Elems(archive), Elems(Take(free, n)), Elems(Drop(free, n)), Elems(Take(Filter(Drop(free, n), cur), need)))
  }

  lemma FreeListSorted(g: Graph, cfg: Cfg, pinned: set<nat>, t: Option<int>, archive: seq<nat>)
    requires archive == OverflowingCandidates(g, cfg.capC, pinned)
    ensures var keys, fk, free := JoinedKeys(g, archive, t), Unpinned(JoinedKeys(g, archive, t), pinned), FreeList(g, cfg, pinned, t);
            var joined := InPool(g, Archive) + Elems(archive);
            && keys.Keys == joined && |keys| == |joined| && fk.Keys == joined - pinned
            && (forall id :: id in fk ==> id in keys && fk[id] == keys[id])
            && Keyed(fk) && free == SortIds(fk)
            && Elems(free) == joined - pinned && |free| == |joined - pinned| && NoDup(free) && SortedBy(free, fk)
  {
    hide OverflowingCandidates, JoinedKeys, Unpinned, InPool, SortIds, Elems, NoDup, SortedBy, Keyed, Before;
    JoinedKeysKeys(g, archive, t, pinned, InPool(g, Archive) + Elems(archive));
    SortIdsSorts(Unpinned(JoinedKeys(g, archive, t), pinned));
  }

  lemma PartsAre(g: Graph, cfg: Cfg, pinned: set<nat>, t: Option<int>, archive: seq<nat>, free: seq<nat>, n: nat, need: nat)
    requires archive == OverflowingCandidates(g, cfg.capC, pinned) && free == FreeList(g, cfg, pinned, t)
    requires n == NonNegative(|JoinedKeys(g, archive, t)| - cfg.capA)
    requires need == NonNegative(|CurrentIds(g)| - |Filter(Take(free, n), CurrentIds(g))| - cfg.capContext)
    ensures PartsOf(g, cfg, pinned, t) ==
            Parts(Elems(archive), Elems(Take(free, n)), Elems(Drop(free, n)), Elems(Take(Filter(Drop(free, n), CurrentIds(g)), need)))
  {
    hide OverflowingCandidates, Elems, JoinedKeys, FreeList, Filter, Take, Drop, CurrentIds, NonNegative;
  }

  /** The shape of a plan from the lists it slices. */
  lemma SlicesShape(g: Graph, cfg: Cfg, pinned: set<nat>, t: Option<int>, archive: seq<nat>, keys: map<nat, Key>, free: seq<nat>,
                    n: nat, need: nat, accepted: bool)
    requires archive == OverflowingCandidates(g, cfg.capC, pinned) && keys == JoinedKeys(g, archive, t)
    requires free == FreeList(g, cfg, pinned, t) && n == NonNegative(|keys| - cfg.capA)
    requires need == NonNegative(|CurrentIds(g)| - |Filter(Take(free, n), CurrentIds(g))| - cfg.capContext)
    requires var oldest, extra := Take(free, n), Filter(Drop(free, n), CurrentIds(g));
             accepted <==> WithinLimits(cfg, |InPool(g, Candidate)| - |archive|, |keys| - (|oldest| + |Take(extra, need)|),
                                        |CurrentIds(g)| - |Filter(oldest, CurrentIds(g))| - Smaller(need, |extra|))
    ensures PlanShape(g, cfg, pinned, Parts(Elems(archive), Elems(Take(free, n)), Elems(Drop(free, n)),
                                            Elems(Take(Filter(Drop(free, n), CurrentIds(g)), need))), accepted)
  {
    hide PlanSets, PlanCounts, WithinLimits, NonNegative, Smaller;
    SlicesSets(g, cfg, pinned, t, archive, free, n, need);
    SlicesCounts(g, cfg, pinned, t, archive, keys, free, n, need, accepted);
  }

  lemma SlicesSets(g: Graph, cfg: Cfg, pinned: set<nat>, t: Option<int>, archive: seq<nat>, free: seq<nat>, n: nat, need: nat)
    requires archive == OverflowingCandidates(g, cfg.capC, pinned) && free == FreeList(g, cfg, pinned, t)
    ensures PlanSets(g, pinned, Parts(Elems(archive), Elems(Take(free, n)), Elems(Drop(free, n)),
                                      Elems(Take(Filter(Drop(free, n), CurrentIds(g)), need))))
  {
    hide OverflowingCandidates, JoinedKeys, Unpinned, FreeList, Take, Drop, Filter, Elems, CurrentIds, InPool, SortIds;
    ArchiveParts(g, cfg.capC, pinned);
    FreeListSorted(g, cfg, pinned, t, archive);
    DeleteSizes(free, Unpinned(JoinedKeys(g, archive, t), pinned), CurrentIds(g), n, need);
  }

  lemma SlicesCounts(g: Graph, cfg: Cfg, pinned: set<nat>, t: Option<int>, archive: seq<nat>, keys: map<nat, Key>, free: seq<nat>,
                     n: nat, need: nat, accepted: bool)
    requires archive == OverflowingCandidates(g, cfg.capC, pinned) && keys == JoinedKeys(g, archive, t)
    requires free == FreeList(g, cfg, pinned, t) && n == NonNegative(|keys| - cfg.capA)
    requires need == NonNegative(|CurrentIds(g)| - |Filter(Take(free, n), CurrentIds(g))| - cfg.capContext)
    requires var oldest, extra := Take(free, n), Filter(Drop(free, n), CurrentIds(g));
             accepted <==> WithinLimits(cfg, |InPool(g, Candidate)| - |archive|, |keys| - (|oldest| + |Take(extra, need)|),
                                        |CurrentIds(g)| - |Filter(oldest, CurrentIds(g))| - Smaller(need, |extra|))
    ensures PlanCounts(g, cfg, pinned, Parts(Elems(archive), Elems(Take(free, n)), Elems(Drop(free, n)),
                                             Elems(Take(Filter(Drop(free, n), CurrentIds(g)), need))), accepted)
  {
    hide OverflowingCandidates, JoinedKeys, Unpinned, FreeList, Take, Drop, Filter, Elems, CurrentIds, InPool, SortIds, NoDup, SortedBy;
    hide Keyed, PlanSizes, Smaller, NonNegative, WithinLimits;
    var cur, c := CurrentIds(g), InPool(g, Candidate);
    var oldest, later, extra := Take(free, n), Drop(free, n), Filter(Drop(free, n), cur);
    var more := Take(extra, need);
    assert |archive| == |Elems(archive)| == Smaller(NonNegative(|c| - cfg.capC), |c - pinned|) by { ArchiveParts(g, cfg.capC, pinned); }
    assert |keys| == |InPool(g, Archive) + Elems(archive)| && |free| == |InPool(g, Archive) + Elems(archive) - pinned|
      by { FreeListSorted(g, cfg, pinned, t, archive); }
    assert && |oldest| == |Elems(oldest)| == Smaller(n, |free|) && |more| == |Elems(more)| == Smaller(need, |extra|)
           && |Filter(oldest, cur)| == |Elems(oldest) * cur| && |extra| == |Elems(later) * cur|
      by { FreeListSorted(g, cfg, pinned, t, archive); DeleteSizes(free, Unpinned(keys, pinned), cur, n, need); }
    NumbersFit(cfg, |c|, |c - pinned|, |keys|, |free|, |cur|,
               |archive|, |oldest|, |Filter(oldest, cur)|, |extra|, |more|, n, need, accepted);
  }

  lemma NumbersFit(cfg: Cfg, c: nat, cFree: nat, keys: nat, free: nat, cur: nat,
                   arch: nat, oldest: nat, hit: nat, extra: nat, more: nat, n: nat, need: nat, accepted: bool)
    requires arch == Smaller(NonNegative(c - cfg.capC), cFree)
    requires n == NonNegative(keys - cfg.capA) && oldest == Smaller(n, free)
    requires need == NonNegative(cur - hit - cfg.capContext) && more == Smaller(need, extra)
    requires accepted <==> WithinLimits(cfg, c - arch, keys - (oldest + more), cur - hit - Smaller(need, extra))
    ensures PlanSizes(cfg, c, cFree, keys, free, cur, arch, oldest, hit, extra, more, accepted)
  {
  }

  /** A plan is described by its parts. */
  lemma PlanParts(g: Graph, cfg: Cfg, pinned: set<nat>, t: Option<int>)
    requires cfg.capacityOn
    ensures var plan, p := PlanCapacity(g, cfg, pinned, t), PartsOf(g, cfg, pinned, t);
            && PlanShape(g, cfg, pinned, p, plan.accepted)
            && p.arch == Elems(plan.archive) && Elems(plan.delete) == p.first + p.more
  {
    hide *;
    var archive, cur := OverflowingCandidates(g, cfg.capC, pinned), CurrentIds(g);
    var keys, free := JoinedKeys(g, archive, t), FreeList(g, cfg, pinned, t);
    assert Keyed(Unpinned(keys, pinned)) && free == SortIds(Unpinned(keys, pinned)) by { FreeListSorted(g, cfg, pinned, t, archive); }
    var n := NonNegative(|keys| - cfg.capA);
    var oldest, extra := Take(free, n), Filter(Drop(free, n), cur);
    var need := NonNegative(|cur| - |Filter(oldest, cur)| - cfg.capContext);
    PlanFields(g, cfg, pinned, t, archive, keys, free, n, need);
    ElemsAppend(oldest, Take(extra, need));
    PartsAre(g, cfg, pinned, t, archive, free, n, need);
    SlicesShape(g, cfg, pinned, t, archive, keys, free, n, need, PlanCapacity(g, cfg, pinned, t).accepted);
  }

  /** The plan deletes in order of age: no current version that it may delete survives an older one. */
  lemma PlanDeletesOldest(g: Graph, cfg: Cfg, pinned: set<nat>, t: Option<int>, x: nat, y: nat)
    requires cfg.capacityOn
    requires var p := PartsOf(g, cfg, pinned, t); x in p.first + p.more && y in p.later - p.more && y in CurrentIds(g)
    ensures var keys := JoinedKeys(g, PlanCapacity(g, cfg, pinned, t).archive, t);
            x in keys && y in keys && Before(keys[x], keys[y])
  {
    hide OverflowingCandidates, Elems, JoinedKeys, Unpinned, Keyed, SortIds, Take, Filter, Drop, InPool, CurrentIds;
    hide PlanCapacity, NoDup, SortedBy, Before, FreeList;
    var archive, cur := OverflowingCandidates(g, cfg.capC, pinned), CurrentIds(g);
    var keys := JoinedKeys(g, archive, t);
    FreeListSorted(g, cfg, pinned, t, archive);
    var free := FreeList(g, cfg, pinned, t);
    var n := NonNegative(|keys| - cfg.capA);
    var need := NonNegative(|cur| - |Filter(Take(free, n), cur)| - cfg.capContext);
    PlanFields(g, cfg, pinned, t, archive, keys, free, n, need);
    DeleteOrder(free, Unpinned(keys, pinned), cur, n, need, x, y);
  }
}
