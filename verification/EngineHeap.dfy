/** The engine as an object over mutable memory objects. Every method is proved to turn the abstract
    state into what the function of the same name says. */
module EngineHeap {
  import opened MemoryTypes
  import opened VersionGraph
  import Verdicts
  import Maintenance
  import EngineSteps

  class Memory {
    const id: nat
    const belief: int
    const value: string
    var pool: Pool
    var v: real
    var hits: int
    var evid: int
    const birth: int
    var lastHit: Option<int>
    var lastSeen: int
    var archivedAt: Option<int>
    var supersededBy: Option<nat>
    var aggregatedInto: Option<nat>
    const aggMembers: seq<nat>
    var pendingReview: bool
    var src: set<nat>
    var dHit: real
    var dShadow: real
    var salience: real
    var withdrawnAt: Option<int>

    function View(): Mem
      reads this
    {
      Mem(belief, value, pool, v, hits, evid, birth, lastHit, lastSeen, archivedAt, supersededBy, aggregatedInto,
          aggMembers, pendingReview, src, dHit, dShadow, salience, withdrawnAt)
    }

    constructor (id: nat, m: Mem)
      ensures this.id == id && View() == m
    {
      this.id, belief, value, pool, v, hits, evid := id, m.belief, m.value, m.pool, m.v, m.hits, m.evid;
      birth, lastHit, lastSeen, archivedAt := m.birth, m.lastHit, m.lastSeen, m.archivedAt;
      supersededBy, aggregatedInto, aggMembers := m.supersededBy, m.aggregatedInto, m.aggMembers;
      pendingReview, src, dHit, dShadow := m.pendingReview, m.src, m.dHit, m.dShadow;
      salience, withdrawnAt := m.salience, m.withdrawnAt;
    }

    /** Whether a value can be written back into this object. */
    predicate Fits(m: Mem) {
      m.belief == belief && m.value == value && m.birth == birth && m.aggMembers == aggMembers
    }

    method Set(m: Mem)
      modifies this
      ensures Fits(m) ==> View() == m
    {
      SetStatistics(m);
      SetStatus(m);
    }

    method SetStatistics(m: Mem)
      modifies `v, `hits, `evid, `lastHit, `lastSeen, `dHit, `dShadow, `salience
      ensures v == m.v && hits == m.hits && evid == m.evid && lastHit == m.lastHit && lastSeen == m.lastSeen
      ensures dHit == m.dHit && dShadow == m.dShadow && salience == m.salience
    {
      v, hits, evid, lastHit, lastSeen := m.v, m.hits, m.evid, m.lastHit, m.lastSeen;
      dHit, dShadow, salience := m.dHit, m.dShadow, m.salience;
    }

    method SetStatus(m: Mem)
      modifies `pool, `archivedAt, `supersededBy, `aggregatedInto, `pendingReview, `src, `withdrawnAt
      ensures pool == m.pool && archivedAt == m.archivedAt && supersededBy == m.supersededBy && aggregatedInto == m.aggregatedInto
      ensures pendingReview == m.pendingReview && src == m.src && withdrawnAt == m.withdrawnAt
    {
      pool, archivedAt, supersededBy, aggregatedInto := m.pool, m.archivedAt, m.supersededBy, m.aggregatedInto;
      pendingReview, src, withdrawnAt := m.pendingReview, m.src, m.withdrawnAt;
    }

    method Revive(cfg: Cfg)
      modifies `pool
      ensures pool == Verdicts.Revived(old(View()), cfg)
    {
      if pool == Archive {
        pool := if cfg.twoPool then Candidate else Main;
      }
    }

    method Decay(cfg: Cfg)
      requires cfg.Ok()
      modifies this
      ensures View() == Maintenance.Decayed(old(View()), cfg)
    {
      hide RetentionScale;
      var gain := cfg.eta * dHit;
      if cfg.shadowCredit {
        gain := gain + cfg.etaShadow * dShadow;
      }
      v := v * cfg.expNeg(cfg.lam / RetentionScale(salience, cfg)) + gain;
      dHit, dShadow := 0.0, 0.0;
    }

    method Confirm(cfg: Cfg, ev: EngineSteps.Event, t: int)
      modifies this
      ensures View() == EngineSteps.Confirm(old(View()), cfg, ev, t)
    {
      hide Max, Clamp;
      var added := if ev.src != {} then |ev.src - src| else 1;
      evid, lastSeen, src := evid + added, t, src + ev.src;
      if cfg.salienceOn {
        salience := Max(salience, Clamp(ev.salience, 0.0, 1.0));
      }
    }

    method Move(to: Pool)
      modifies this
      ensures View() == old(View()).(pool := to)
    {
      pool := to;
    }

    method PutAway(t: int)
      modifies this
      ensures View() == old(View()).(pool := Archive, archivedAt := Some(t))
    {
      pool, archivedAt := Archive, Some(t);
    }

    method Hit(cfg: Cfg, t: int)
      modifies this
      ensures View() == Verdicts.HitMem(old(View()), cfg, t)
    {
      Revive(cfg);
      lastHit, hits, dHit := Some(t), hits + 1, dHit + 1.0;
    }

    method ShadowHit(cfg: Cfg, tRet: int)
      modifies this
      ensures View() == Verdicts.ShadowMem(old(View()), cfg, tRet)
    {
      Revive(cfg);
      dShadow, lastHit := dShadow + 1.0, Some(tRet);
    }

    method Retire(into: nat, t: int)
      modifies this
      ensures View() == Verdicts.Retire(old(View()), into, t)
    {
      supersededBy, pool, archivedAt := Some(into), Archive, Some(t);
    }

    method Absorb(drop: Memory, cfg: Cfg)
      requires drop != this
      modifies this
      ensures View() == Verdicts.Absorb(old(View()), drop.View(), cfg)
    {
      hide Max, Verdicts.NewEvidence;
      AbsorbEvidence(drop);
      v, salience := cfg.etaC * (v + drop.v), Max(salience, drop.salience);
      lastSeen := if lastSeen >= drop.lastSeen then lastSeen else drop.lastSeen;
    }

    method AbsorbEvidence(drop: Memory)
      requires drop != this
      modifies `evid, `hits, `src
      ensures evid == old(evid) + Verdicts.NewEvidence(old(src), drop.src, drop.evid)
      ensures hits == old(hits) + drop.hits && src == old(src) + drop.src
    {
      hide Verdicts.NewEvidence;
      evid := evid + Verdicts.NewEvidence(src, drop.src, drop.evid);
      hits, src := hits + drop.hits, src + drop.src;
    }

    method Replace(drop: Memory)
      requires drop != this
      modifies this
      ensures View() == Verdicts.Replace(old(View()), drop.View())
    {
      evid := evid + 1;
      src := src + drop.src;
      salience := Max(salience, drop.salience);
    }

    method Halve()
      modifies this
      ensures View() == old(View()).(v := old(v) * 0.5)
    {
      v := v * 0.5;
    }

    method Collect(into: nat)
      modifies this
      ensures View() == old(View()).(aggregatedInto := Some(into))
    {
      aggregatedInto := Some(into);
    }
  }

  class MemoryEngine {
    const cfg: Cfg
    var mems: map<nat, Memory>
    var tensions: map<Pair, Tension>
    var shadow: seq<Shadow>
    var external: set<nat>
    var nextId: nat
    var broken: nat

    function Objects(): set<Memory>
      reads this
    {
      set id | id in mems :: mems[id]
    }

    /** Every memory is stored under its own id, so different ids are different objects. */
    ghost predicate Valid()
      reads this
    {
      cfg.Ok() && (forall id :: id in mems ==> mems[id].id == id) && (forall id :: id in mems ==> id < nextId)
    }

    function Graph(): Graph
      reads this, Objects()
    {
      map id | id in mems :: mems[id].View()
    }

    function State(): Engine
      reads this, Objects()
    {
      Engine(Graph(), tensions, shadow, external, nextId, broken)
    }

    constructor (cfg: Cfg)
      requires cfg.Ok()
      ensures Valid() && State() == Engine(map[], map[], [], {}, 0, 0)
    {
      this.cfg := cfg;
      mems, tensions, shadow, external, nextId, broken := map[], map[], [], {}, 0, 0;
    }

    // -------------------------------------------------------------- chains

    method FollowChain(start: Memory) returns (m: Memory)
      requires Valid() && start.id in mems && mems[start.id] == start
      modifies `broken
      ensures m.id in mems && mems[m.id] == m && m.id == RepOf(Graph(), start.id)
      ensures State() == Verdicts.Walked(old(State()), start.id)
    {
      ghost var g := Graph();
      m := start;
      var seen: set<nat> := {start.id};
      while m.supersededBy.Some? || m.aggregatedInto.Some?
        invariant m.id in mems && mems[m.id] == m && broken == old(broken)
        invariant Follow(g, m.id, seen) == Follow(g, start.id, {start.id})
        decreases mems.Keys - seen
      {
        var next := if m.supersededBy.Some? then m.supersededBy.value else m.aggregatedInto.value;
        assert g[m.id].Next() == Some(next);
        if next in seen || next !in mems {
          broken := broken + 1;
          assert Graph() == g;
          return;
        }
        seen := seen + {next};
        m := mems[next];
      }
    }

    // -------------------------------------------------------------- one memory at a time

    ghost predicate Stores(m: Memory)
      reads this
    {
      m.id in mems && mems[m.id] == m
    }

    method HitOne(m: Memory, t: int)
      requires Valid() && Stores(m)
      modifies m
      ensures Valid()
      ensures Graph() == old(Graph())[m.id := Verdicts.HitMem(old(Graph())[m.id], cfg, t)]
    {
      m.Hit(cfg, t);
    }

    method ConfirmOne(m: Memory, ev: EngineSteps.Event, t: int)
      requires Valid() && Stores(m)
      modifies m
      ensures Valid()
      ensures Graph() == old(Graph())[m.id := EngineSteps.Confirm(old(Graph())[m.id], cfg, ev, t)]
    {
      hide EngineSteps.Confirm;
      m.Confirm(cfg, ev, t);
    }

    method MoveOne(m: Memory, to: Pool)
      requires Valid() && Stores(m)
      modifies m
      ensures Valid()
      ensures Graph() == old(Graph())[m.id := old(Graph())[m.id].(pool := to)]
    {
      m.Move(to);
    }

    method DecayOne(m: Memory)
      requires Valid() && Stores(m)
      modifies m
      ensures Valid()
      ensures Graph() == old(Graph())[m.id := Maintenance.Decayed(old(Graph())[m.id], cfg)]
    {
      hide Maintenance.Decayed;
      m.Decay(cfg);
    }

    method PutAwayOne(m: Memory, t: int)
      requires Valid() && Stores(m)
      modifies m
      ensures Valid()
      ensures Graph() == old(Graph())[m.id := old(Graph())[m.id].(pool := Archive, archivedAt := Some(t))]
    {
      m.PutAway(t);
    }

    method ShadowOne(m: Memory, tRet: int)
      requires Valid() && Stores(m)
      modifies m
      ensures Valid()
      ensures Graph() == old(Graph())[m.id := Verdicts.ShadowMem(old(Graph())[m.id], cfg, tRet)]
    {
      m.ShadowHit(cfg, tRet);
    }

    method RetireOne(m: Memory, into: nat, t: int)
      requires Valid() && Stores(m)
      modifies m
      ensures Valid()
      ensures Graph() == old(Graph())[m.id := Verdicts.Retire(old(Graph())[m.id], into, t)]
    {
      m.Retire(into, t);
    }

    method AbsorbOne(keep: Memory, drop: Memory)
      requires Valid() && Stores(keep) && Stores(drop) && keep != drop
      modifies keep
      ensures Valid()
      ensures Graph() == old(Graph())[keep.id := Verdicts.Absorb(old(Graph())[keep.id], old(Graph())[drop.id], cfg)]
    {
      hide Verdicts.Absorb;
      keep.Absorb(drop, cfg);
    }

    method ReplaceOne(keep: Memory, drop: Memory)
      requires Valid() && Stores(keep) && Stores(drop) && keep != drop
      modifies keep
      ensures Valid()
      ensures Graph() == old(Graph())[keep.id := Verdicts.Replace(old(Graph())[keep.id], old(Graph())[drop.id])]
    {
      hide Verdicts.Replace;
      keep.Replace(drop);
    }

    method HalveOne(m: Memory)
      requires Valid() && Stores(m)
      modifies m
      ensures Valid()
      ensures Graph() == old(Graph())[m.id := old(Graph())[m.id].(v := old(Graph())[m.id].v * 0.5)]
    {
      m.Halve();
    }

    method CollectOne(m: Memory, into: nat)
      requires Valid() && Stores(m)
      modifies m
      ensures Valid()
      ensures Graph() == old(Graph())[m.id := old(Graph())[m.id].(aggregatedInto := Some(into))]
    {
      m.Collect(into);
    }

    method Insert(m: Mem) returns (made: Memory)
      requires Valid()
      modifies `mems, `nextId
      ensures Valid() && fresh(made) && made.id == old(nextId) && mems == old(mems)[old(nextId) := made]
      ensures State() == old(State()).(mems := old(Graph())[old(nextId) := m], nextId := old(nextId) + 1)
    {
      ghost var g, id := Graph(), nextId;
      made := new Memory(nextId, m);
      mems := mems[nextId := made];
      nextId := nextId + 1;
      assert Graph() == g[id := m] by {
        forall k | k in mems
          ensures mems[k].View() == g[id := m][k]
        {
        }
      }
    }

    /** Memories that are stored now were stored before or are new. */
    twostate predicate Grew()
      reads this
    {
      && (forall id :: id in old(mems) ==> id in mems && mems[id] == old(mems)[id])
      && (forall id :: id in mems && id !in old(mems) ==> fresh(mems[id]))
    }

    // -------------------------------------------------------------- credit

    method CreditHit(m: Memory, t: int) returns (credited: bool)
      requires Valid() && Stores(m)
      modifies this, Objects()
      ensures Valid() && mems == old(mems)
      ensures State() == Verdicts.CreditHit(old(State()), cfg, m.id, t)
      ensures credited <==> old(Graph())[RepOf(old(Graph()), m.id)].Current()
    {
      hide Follow, Verdicts.HitMem;
      var target := FollowChain(m);
      if target.supersededBy.Some? || target.aggregatedInto.Some? || target.withdrawnAt.Some? {
        return false;
      }
      HitOne(target, t);
      credited := true;
    }

    method IssueShadowCredit(m: Memory, tRet: int)
      requires Valid() && Stores(m)
      modifies this, Objects()
      ensures Valid() && mems == old(mems)
      ensures State() == Verdicts.IssueShadow(old(State()), cfg, m.id, tRet)
    {
      hide Follow, Verdicts.ShadowMem;
      var target := FollowChain(m);
      if target.supersededBy.Some? || target.aggregatedInto.Some? || target.withdrawnAt.Some? {
        return;
      }
      ShadowOne(target, tRet);
    }

    method SettleShadow(key: Pair, verdict: Verdicts.Verdict)
      requires Valid()
      modifies this, Objects()
      ensures Valid() && mems == old(mems)
      ensures State() == Verdicts.SettleShadow(old(State()), cfg, key, verdict)
    {
      hide Verdicts.IssueShadow, Verdicts.SettleEntries, Verdicts.KeepOther;
      var entries := shadow;
      var keep := SettleAll(entries, key, verdict);
      KeepShadow(keep);
    }

    /** Settle the entries of the pair, and collect the others. */
    method SettleAll(entries: seq<Shadow>, key: Pair, verdict: Verdicts.Verdict) returns (keep: seq<Shadow>)
      requires Valid()
      modifies this, Objects()
      ensures Valid() && mems == old(mems)
      ensures State() == Verdicts.SettleEntries(old(State()), cfg, entries, key, verdict)
      ensures keep == Verdicts.KeepOther(entries, key)
    {
      hide Verdicts.IssueShadow;
      ghost var all := Verdicts.SettleEntries(State(), cfg, entries, key, verdict);
      ghost var others := Verdicts.KeepOther(entries, key);
      keep := [];
      assert entries[0..] == entries && keep + others == others;
      for i := 0 to |entries|
        invariant Valid() && mems == old(mems)
        invariant Verdicts.SettleEntries(State(), cfg, entries[i..], key, verdict) == all
        invariant keep + Verdicts.KeepOther(entries[i..], key) == others
      {
        Verdicts.SettleFirst(State(), cfg, entries[i..], key, verdict);
        assert entries[i..][1..] == entries[i + 1..];
        if entries[i].key != key {
          keep := keep + [entries[i]];
        }
        SettleEntry(entries[i], key, verdict);
      }
      assert keep + [] == keep;
    }

    method SettleEntry(s: Shadow, key: Pair, verdict: Verdicts.Verdict)
      requires Valid()
      modifies this, Objects()
      ensures Valid() && mems == old(mems)
      ensures State() == Verdicts.SettleOne(old(State()), cfg, s, key, verdict)
    {
      hide Verdicts.IssueShadow;
      if s.key == key && verdict != Verdicts.Synonym && s.relevant && s.mid in mems {
        IssueShadowCredit(mems[s.mid], s.tRet);
      }
    }

    method KeepShadow(keep: seq<Shadow>)
      modifies `shadow
      ensures State() == old(State()).(shadow := keep)
    {
      ghost var g := Graph();
      shadow := keep;
      assert Graph() == g;
    }

    // -------------------------------------------------------------- verdicts

    method AddTension(left: nat, right: nat, t: int)
      modifies `tensions
      ensures State() == Verdicts.AddTension(old(State()), cfg, left, right, t)
    {
      ghost var g := Graph();
      if cfg.tensionOn && left != right {
        var key := SortedPair(left, right);
        if key in tensions {
          tensions := tensions[key := Tension(tensions[key].firstSeen, t, tensions[key].observations + 1)];
        } else {
          tensions := tensions[key := Tension(t, t, 1)];
        }
      }
      assert Graph() == g;
    }

    method MakeAggregate(a: Memory, b: Memory, pending: bool, t: int)
      requires Valid() && Stores(a) && Stores(b) && a != b
      modifies this, a, b
      ensures Valid() && Grew()
      ensures State() == Verdicts.MakeAggregate(old(State()), a.id, b.id, pending, t)
    {
      hide Verdicts.Aggregate;
      var agg := Insert(Verdicts.Aggregate(a.View(), a.id, b.View(), b.id, pending, t));
      CollectBoth(a, b, agg.id);
    }

    method CollectBoth(a: Memory, b: Memory, into: nat)
      requires Valid() && Stores(a) && Stores(b) && a != b
      modifies a, b
      ensures Valid()
      ensures Graph() == var g := old(Graph())[a.id := old(Graph())[a.id].(aggregatedInto := Some(into))];
                         g[b.id := g[b.id].(aggregatedInto := Some(into))]
    {
      CollectOne(a, into);
      CollectOne(b, into);
    }

    method Synonymize(a: Memory, b: Memory, t: int)
      requires Valid() && Stores(a) && Stores(b) && a != b
      modifies a, b
      ensures Valid()
      ensures State() == Verdicts.ApplyResolution(old(State()), cfg, a.id, b.id, Verdicts.Synonym, t)
    {
      hide Verdicts.Absorb, Verdicts.Retire;
      var keep, drop := a, b;
      if a.v < b.v {
        keep, drop := b, a;
      }
      AbsorbOne(keep, drop);
      RetireOne(drop, keep.id, t);
    }

    method Supersede(a: Memory, b: Memory, t: int)
      requires Valid() && Stores(a) && Stores(b) && a != b
      modifies a, b
      ensures Valid()
      ensures State() == Verdicts.ApplyResolution(old(State()), cfg, a.id, b.id, Verdicts.Update, t)
    {
      hide Verdicts.Replace, Verdicts.Retire;
      var keep, drop := b, a;
      if a.birth > b.birth || (a.birth == b.birth && a.id >= b.id) {
        keep, drop := a, b;
      }
      ReplaceOne(keep, drop);
      RetireOne(drop, keep.id, t);
    }

    method Contradict(a: Memory, b: Memory, t: int)
      requires Valid() && Stores(a) && Stores(b) && a != b
      modifies this, a, b
      ensures Valid() && Grew()
      ensures State() == Verdicts.ApplyResolution(old(State()), cfg, a.id, b.id, Verdicts.Contradiction, t)
    {
      hide Verdicts.MakeAggregate, Verdicts.HalveBoth;
      var pa, pb := cfg.scope(a.belief), cfg.scope(b.belief);
      if pa != "" && pb != "" && pa != pb {
        MakeAggregate(a, b, false, t);
      } else {
        HalveBoth(a, b);
        MakeAggregate(a, b, true, t);
      }
    }

    method HalveBoth(a: Memory, b: Memory)
      requires Valid() && Stores(a) && Stores(b) && a != b
      modifies a, b
      ensures Valid()
      ensures State() == Verdicts.HalveBoth(old(State()), a.id, b.id)
    {
      HalveEach(a, b);
    }

    method HalveEach(a: Memory, b: Memory)
      requires Valid() && Stores(a) && Stores(b) && a != b
      modifies a, b
      ensures Valid()
      ensures Graph() == old(Graph())[a.id := old(Graph())[a.id].(v := old(Graph())[a.id].v * 0.5)]
                                     [b.id := old(Graph())[b.id].(v := old(Graph())[b.id].v * 0.5)]
    {
      HalveOne(a);
      HalveOne(b);
    }

    method ApplyResolution(a: Memory, b: Memory, verdict: Verdicts.Verdict, t: int)
      requires Valid() && Stores(a) && Stores(b) && a != b
      modifies this, a, b
      ensures Valid() && Grew()
      ensures State() == Verdicts.ApplyResolution(old(State()), cfg, a.id, b.id, verdict, t)
    {
      hide Verdicts.MakeAggregate, Verdicts.Absorb, Verdicts.Replace, Verdicts.Retire;
      match verdict
      case Synonym => Synonymize(a, b, t);
      case Update => Supersede(a, b, t);
      case Contradiction => Contradict(a, b, t);
      case _ =>
    }

    method SubmitOne(j: Verdicts.Judgement, t: int) returns (resolved: bool)
      requires Valid()
      modifies this, Objects()
      ensures Valid() && Grew()
      ensures State() == Verdicts.SubmitOne(old(State()), cfg, j, t)
      ensures resolved == Verdicts.Resolves(old(State()), cfg, j)
    {
      hide Verdicts.SettleShadow, Verdicts.ResolvePair;
      var key := SortedPair(j.left, j.right);
      SettleShadow(key, j.verdict);
      resolved := false;
      if key in tensions {
        resolved := ResolvePair(key, j.verdict, t);
      }
    }

    method ResolvePair(key: Pair, verdict: Verdicts.Verdict, t: int) returns (resolved: bool)
      requires Valid()
      modifies this, Objects()
      ensures Valid() && Grew()
      ensures State() == Verdicts.ResolvePair(old(State()), cfg, key, verdict, t)
      ensures resolved <==> key.0 in old(mems) && key.1 in old(mems)
                            && RepOf(old(Graph()), key.0) != RepOf(old(Graph()), key.1) && verdict != Verdicts.Pending
    {
      hide Verdicts.ResolveRoots, Follow;
      if key.0 !in mems || key.1 !in mems {
        DropTension(key);
        return false;
      }
      var a, b := FollowEnds(key);
      resolved := ResolveRoots(a, b, key, verdict, t);
    }

    method FollowEnds(key: Pair) returns (a: Memory, b: Memory)
      requires Valid() && key.0 in mems && key.1 in mems
      modifies `broken
      ensures Stores(a) && Stores(b) && a.id == RepOf(Graph(), key.0) && b.id == RepOf(Graph(), key.1)
      ensures State() == Verdicts.Walked(Verdicts.Walked(old(State()), key.0), key.1)
    {
      hide Verdicts.Walked, Follow;
      ghost var g := Graph();
      a := FollowChain(mems[key.0]);
      assert Graph() == g;
      b := FollowChain(mems[key.1]);
      assert Graph() == g;
    }

    method ResolveRoots(a: Memory, b: Memory, key: Pair, verdict: Verdicts.Verdict, t: int) returns (resolved: bool)
      requires Valid() && Stores(a) && Stores(b)
      modifies this, a, b
      ensures Valid() && Grew()
      ensures State() == Verdicts.ResolveRoots(old(State()), cfg, a.id, b.id, key, verdict, t)
      ensures resolved <==> a.id != b.id && verdict != Verdicts.Pending
    {
      hide Verdicts.ApplyResolution;
      if a.id == b.id {
        DropTension(key);
        return false;
      }
      if verdict == Verdicts.Pending {
        return false;
      }
      DropTension(key);
      ApplyResolution(a, b, verdict, t);
      resolved := true;
    }

    method DropTension(key: Pair)
      modifies `tensions
      ensures State() == old(State()).(tensions := old(tensions) - {key})
    {
      ghost var g := Graph();
      tensions := tensions - {key};
      assert Graph() == g;
    }

    /** Returns how many tensions the verdicts resolved. */
    method SubmitVerdicts(js: seq<Verdicts.Judgement>, t: int) returns (n: nat)
      requires Valid()
      modifies this, Objects()
      ensures Valid() && Grew()
      ensures State() == Verdicts.SubmitVerdicts(old(State()), cfg, js, t)
      ensures n == Verdicts.Resolved(old(State()), cfg, js, t)
    {
      hide Verdicts.SubmitOne, Verdicts.Resolves;
      ghost var begin := State();
      n := 0;
      assert js[0..] == js;
      for i := 0 to |js|
        invariant Valid() && Grew()
        invariant Verdicts.SubmitVerdicts(State(), cfg, js[i..], t) == Verdicts.SubmitVerdicts(begin, cfg, js, t)
        invariant n + Verdicts.Resolved(State(), cfg, js[i..], t) == Verdicts.Resolved(begin, cfg, js, t)
      {
        assert js[i..][1..] == js[i + 1..];
        var resolved := SubmitOne(js[i], t);
        if resolved {
          n := n + 1;
        }
      }
    }
  }
}
