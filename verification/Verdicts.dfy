/** What a verdict on a pair of conflicting memories does to the engine state. */
module Verdicts {
  import opened MemoryTypes
  import opened VersionGraph

  datatype Verdict = Synonym | Update | Contradiction | Collision | Pending

  datatype Judgement = Judgement(left: nat, right: nat, verdict: Verdict)

  // ---------------------------------------------------------------- late credit

  /** Walk to the representative of `id`; a broken chain is counted. */
  function Walked(e: Engine, id: nat): Engine
    requires id in e.mems
  {
    if Follow(e.mems, id, {id}).whole then e else e.(broken := e.broken + 1)
  }

  function Revived(m: Mem, cfg: Cfg): Pool {
    if m.pool == Archive then (if cfg.twoPool then Candidate else Main) else m.pool
  }

  function HitMem(m: Mem, cfg: Cfg, t: int): Mem {
    m.(lastHit := Some(t), pool := Revived(m, cfg), hits := m.hits + 1, dHit := m.dHit + 1.0)
  }

  function ShadowMem(m: Mem, cfg: Cfg, tRet: int): Mem {
    m.(lastHit := Some(tRet), pool := Revived(m, cfg), dShadow := m.dShadow + 1.0)
  }

  /** A useful hit, recorded on the current representative; a retired one gets nothing. */
  function CreditHit(e: Engine, cfg: Cfg, id: nat, t: int): Engine
    requires id in e.mems
  {
    var r := RepOf(e.mems, id);
    var m := e.mems[r];
    if !m.Current() then Walked(e, id)
    else Walked(e, id).(mems := e.mems[r := HitMem(m, cfg, t)])
  }

  function IssueShadow(e: Engine, cfg: Cfg, id: nat, tRet: int): Engine
    requires id in e.mems
  {
    var r := RepOf(e.mems, id);
    var m := e.mems[r];
    if !m.Current() then Walked(e, id)
    else Walked(e, id).(mems := e.mems[r := ShadowMem(m, cfg, tRet)])
  }

  function SettleOne(e: Engine, cfg: Cfg, s: Shadow, key: Pair, verdict: Verdict): Engine {
    if s.key == key && verdict != Synonym && s.relevant && s.mid in e.mems then IssueShadow(e, cfg, s.mid, s.tRet) else e
  }

  function SettleEntries(e: Engine, cfg: Cfg, entries: seq<Shadow>, key: Pair, verdict: Verdict): Engine
    decreases |entries|
  {
    if entries == [] then e else SettleEntries(SettleOne(e, cfg, entries[0], key, verdict), cfg, entries[1..], key, verdict)
  }

  function KeepOther(entries: seq<Shadow>, key: Pair): seq<Shadow> {
    if entries == [] then []
    else (if entries[0].key == key then [] else [entries[0]]) + KeepOther(entries[1..], key)
  }

  function SettleShadow(e: Engine, cfg: Cfg, key: Pair, verdict: Verdict): Engine {
    SettleEntries(e, cfg, e.shadow, key, verdict).(shadow := KeepOther(e.shadow, key))
  }

  // ---------------------------------------------------------------- resolution

  function Retire(m: Mem, into: nat, t: int): Mem {
    m.(supersededBy := Some(into), pool := Archive, archivedAt := Some(t))
  }

  function SynonymKeeps(a: Mem, b: Mem): bool {
    a.v >= b.v
  }

  /** The later one is kept; within one time step the later id. */
  function UpdateKeeps(a: Mem, ida: nat, b: Mem, idb: nat): bool {
    a.birth > b.birth || (a.birth == b.birth && ida >= idb)
  }

  /** Sources that are new to the kept version count once each; without sources, the counts add up. */
  function NewEvidence(keep: set<nat>, drop: set<nat>, evid: int): int {
    if drop != {} && keep != {} then |drop - keep| else evid
  }

  function Absorb(keep: Mem, drop: Mem, cfg: Cfg): Mem {
    keep.(v := cfg.etaC * (keep.v + drop.v),
          evid := keep.evid + NewEvidence(keep.src, drop.src, drop.evid),
          hits := keep.hits + drop.hits,
          src := keep.src + drop.src,
          lastSeen := if keep.lastSeen >= drop.lastSeen then keep.lastSeen else drop.lastSeen,
          salience := Max(keep.salience, drop.salience))
  }

  function Replace(keep: Mem, drop: Mem): Mem {
    keep.(evid := keep.evid + 1, src := keep.src + drop.src, salience := Max(keep.salience, drop.salience))
  }

  function Digits(n: nat): string {
    if n < 10 then ["0123456789"[n]] else Digits(n / 10) + ["0123456789"[n % 10]]
  }

  function Aggregate(a: Mem, ida: nat, b: Mem, idb: nat, pending: bool, t: int): Mem {
    Mem(a.belief, "agg:" + Digits(ida) + "+" + Digits(idb), Candidate, Max(a.v, b.v),
        a.hits + b.hits, a.evid + b.evid, t, None, t, None, None, None, [ida, idb], pending,
        a.src + b.src, 0.0, 0.0, Max(a.salience, b.salience), None)
  }

  function MakeAggregate(e: Engine, ida: nat, idb: nat, pending: bool, t: int): Engine
    requires ida in e.mems && idb in e.mems
  {
    var a, b, id := e.mems[ida], e.mems[idb], e.nextId;
    var g := e.mems[id := Aggregate(a, ida, b, idb, pending, t)];
    var g1 := g[ida := g[ida].(aggregatedInto := Some(id))];
    e.(mems := g1[idb := g1[idb].(aggregatedInto := Some(id))], nextId := id + 1)
  }

  function HalveBoth(e: Engine, ida: nat, idb: nat): Engine
    requires ida in e.mems && idb in e.mems
  {
    var a, b := e.mems[ida], e.mems[idb];
    e.(mems := e.mems[ida := a.(v := a.v * 0.5)][idb := b.(v := b.v * 0.5)])
  }

  function ConditionalScopes(a: Mem, b: Mem, cfg: Cfg): bool {
    cfg.scope(a.belief) != "" && cfg.scope(b.belief) != "" && cfg.scope(a.belief) != cfg.scope(b.belief)
  }

  function ApplyResolution(e: Engine, cfg: Cfg, ida: nat, idb: nat, verdict: Verdict, t: int): Engine
    requires ida in e.mems && idb in e.mems && ida != idb
  {
    var a, b := e.mems[ida], e.mems[idb];
    match verdict
    case Synonym =>
      if SynonymKeeps(a, b) then e.(mems := e.mems[ida := Absorb(a, b, cfg)][idb := Retire(b, ida, t)])
      else e.(mems := e.mems[idb := Absorb(b, a, cfg)][ida := Retire(a, idb, t)])
    case Update =>
      if UpdateKeeps(a, ida, b, idb) then e.(mems := e.mems[ida := Replace(a, b)][idb := Retire(b, ida, t)])
      else e.(mems := e.mems[idb := Replace(b, a)][ida := Retire(a, idb, t)])
    case Contradiction =>
      if ConditionalScopes(a, b, cfg) then MakeAggregate(e, ida, idb, false, t)
      else
        MakeAggregate(HalveBoth(e, ida, idb), ida, idb, true, t)
    case _ => e
  }

  // ---------------------------------------------------------------- submitting verdicts

  function AddTension(e: Engine, cfg: Cfg, left: nat, right: nat, t: int): Engine {
    if !cfg.tensionOn || left == right then e
    else
      var key := SortedPair(left, right);
      if key in e.tensions then
        var seen := e.tensions[key];
        e.(tensions := e.tensions[key := seen.(lastSeen := t, observations := seen.observations + 1)])
      else e.(tensions := e.tensions[key := Tension(t, t, 1)])
  }

  function ResolveRoots(e: Engine, cfg: Cfg, a: nat, b: nat, key: Pair, verdict: Verdict, t: int): Engine
    requires a in e.mems && b in e.mems
  {
    if a == b then e.(tensions := e.tensions - {key})
    else if verdict == Pending then e
    else ApplyResolution(e.(tensions := e.tensions - {key}), cfg, a, b, verdict, t)
  }

  /** Apply a verdict on an open tension to the representatives of its ends. */
  function ResolvePair(e: Engine, cfg: Cfg, key: Pair, verdict: Verdict, t: int): Engine {
    if key.0 !in e.mems || key.1 !in e.mems then e.(tensions := e.tensions - {key})
    else ResolveRoots(Walked(Walked(e, key.0), key.1), cfg, RepOf(e.mems, key.0), RepOf(e.mems, key.1), key, verdict, t)
  }

  function SubmitOne(e: Engine, cfg: Cfg, j: Judgement, t: int): Engine {
    var key := SortedPair(j.left, j.right);
    var e1 := SettleShadow(e, cfg, key, j.verdict);
    if key !in e1.tensions then e1 else ResolvePair(e1, cfg, key, j.verdict, t)
  }

  function SubmitVerdicts(e: Engine, cfg: Cfg, js: seq<Judgement>, t: int): Engine
    decreases |js|
  {
    if js == [] then e else SubmitVerdicts(SubmitOne(e, cfg, js[0], t), cfg, js[1..], t)
  }

  /** How many tensions a batch resolves: the number the call returns. */
  function Resolves(e: Engine, cfg: Cfg, j: Judgement): bool {
    var key := SortedPair(j.left, j.right);
    var e1 := SettleShadow(e, cfg, key, j.verdict);
    key in e1.tensions && key.0 in e1.mems && key.1 in e1.mems &&
    RepOf(e1.mems, key.0) != RepOf(e1.mems, key.1) && j.verdict != Pending
  }

  function Resolved(e: Engine, cfg: Cfg, js: seq<Judgement>, t: int): nat
    decreases |js|
  {
    if js == [] then 0
    else (if Resolves(e, cfg, js[0]) then 1 else 0) + Resolved(SubmitOne(e, cfg, js[0], t), cfg, js[1..], t)
  }

  // ---------------------------------------------------------------- credit moves no pointer

  /** Only the pool and the hit statistics of some versions differ. */
  ghost predicate CreditOnly(g: Graph, g': Graph) {
    g'.Keys == g.Keys &&
    forall id :: id in g ==>
      g'[id] == g[id].(pool := g'[id].pool, lastHit := g'[id].lastHit, hits := g'[id].hits,
                       dHit := g'[id].dHit, dShadow := g'[id].dShadow)
  }

  lemma {:induction false} SettleEntriesCredits(e: Engine, cfg: Cfg, entries: seq<Shadow>, key: Pair, verdict: Verdict)
    ensures var e' := SettleEntries(e, cfg, entries, key, verdict);
            CreditOnly(e.mems, e'.mems) && e' == e.(mems := e'.mems, broken := e'.broken)
    decreases |entries|
  {
    hide IssueShadow, CreditOnly;
    CreditNothing(e.mems);
    if |entries| > 0 {
      var s := entries[0];
      var e1 := e;
      if s.key == key && verdict != Synonym && s.relevant && s.mid in e.mems {
        e1 := IssueShadow(e, cfg, s.mid, s.tRet);
        ShadowCredits(e, cfg, s.mid, s.tRet);
      }
      SettleEntriesCredits(e1, cfg, entries[1..], key, verdict);
      CreditTwice(e.mems, e1.mems, SettleEntries(e, cfg, entries, key, verdict).mems);
    }
  }

  lemma SettleFirst(e: Engine, cfg: Cfg, entries: seq<Shadow>, key: Pair, verdict: Verdict)
    requires |entries| > 0
    ensures SettleEntries(e, cfg, entries, key, verdict) == SettleEntries(SettleOne(e, cfg, entries[0], key, verdict), cfg, entries[1..], key, verdict)
    ensures KeepOther(entries, key) == (if entries[0].key == key then [] else [entries[0]]) + KeepOther(entries[1..], key)
  {
    hide SettleOne;
  }

  lemma ShadowCredits(e: Engine, cfg: Cfg, mid: nat, tRet: int)
    requires mid in e.mems
    ensures var e' := IssueShadow(e, cfg, mid, tRet);
            CreditOnly(e.mems, e'.mems) && e' == e.(mems := e'.mems, broken := e'.broken)
  {
    hide Follow;
  }

  lemma CreditOne(g: Graph, id: nat, m: Mem)
    requires id in g
    requires m == g[id].(pool := m.pool, lastHit := m.lastHit, hits := m.hits, dHit := m.dHit, dShadow := m.dShadow)
    ensures CreditOnly(g, g[id := m])
  {
  }

  lemma CreditNothing(g: Graph)
    ensures CreditOnly(g, g)
  {
  }

  lemma CreditTwice(a: Graph, b: Graph, c: Graph)
    requires CreditOnly(a, b) && CreditOnly(b, c)
    ensures CreditOnly(a, c)
  {
  }

  lemma SettleCredits(e: Engine, cfg: Cfg, key: Pair, verdict: Verdict)
    ensures var e' := SettleShadow(e, cfg, key, verdict);
            CreditOnly(e.mems, e'.mems) &&
            e' == e.(mems := e'.mems, broken := e'.broken, shadow := KeepOther(e.shadow, key))
  {
    SettleEntriesCredits(e, cfg, e.shadow, key, verdict);
  }

  ghost predicate SamePointers(g: Graph, g': Graph) {
    g'.Keys == g.Keys && forall id :: id in g ==> g'[id].Next() == g[id].Next()
  }

  lemma {:induction false} SameFollow(g: Graph, g': Graph, id: nat, seen: set<nat>)
    requires SamePointers(g, g') && id in g
    ensures Follow(g', id, seen) == Follow(g, id, seen)
    decreases g.Keys - seen
  {
    var next := g[id].Next();
    if next.Some? && next.value !in seen && next.value in g {
      SameFollow(g, g', next.value, seen + {next.value});
    }
  }

  lemma SameWhole(g: Graph, g': Graph, id: nat)
    requires SamePointers(g, g') && id in g
    ensures Whole(g', id) <==> Whole(g, id)
    ensures RepOf(g', id) == RepOf(g, id)
  {
    SameFollow(g, g', id, {id});
    FollowExact(g, id);
    FollowExact(g', id);
  }
}
