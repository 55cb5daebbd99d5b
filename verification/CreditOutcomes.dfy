/** What late credit gives: how much a version gains, when, and what the gain is worth at the next step. */
module CreditOutcomes {
  import opened MemoryTypes
  import opened VersionGraph
  import opened Verdicts
  import opened Maintenance
  import opened EngineSteps
  import opened Potential
  import opened Credit

  // ---------------------------------------------------------------- one hit

  /** `m'` is `m` after credit at `t`: back out of the archive, used at `t`. */
  ghost predicate Revives(m: Mem, m': Mem, cfg: Cfg, t: int) {
    && m'.lastHit == Some(t) && m'.pool != Archive
    && (m.pool != Archive ==> m'.pool == m.pool)
    && (m.pool == Archive ==> (m'.pool == Candidate <==> cfg.twoPool) && (m'.pool == Main <==> !cfg.twoPool))
  }

  /** A hit goes to the current version that the id leads to, and nowhere else: that version is back out of the
      archive and has one useful hit more. An id that leads to a retired version earns nothing. */
  lemma HitOutcome(e: Engine, cfg: Cfg, id: nat, t: int)
    requires id in e.mems
    ensures var g, g', r := e.mems, CreditHit(e, cfg, id, t).mems, RepOf(e.mems, id);
            && g'.Keys == g.Keys
            && (forall x :: x in g && x != r ==> g'[x] == g[x])
            && (!g[r].Root() || g[r].withdrawnAt.Some? ==> g'[r] == g[r])
            && (g[r].Root() && g[r].withdrawnAt.None? ==>
                  && Revives(g[r], g'[r], cfg, t)
                  && g'[r] == g[r].(lastHit := g'[r].lastHit, pool := g'[r].pool, hits := g[r].hits + 1, dHit := g[r].dHit + 1.0))
  {
    hide Follow;
  }

  lemma HitKeepsPointers(e: Engine, cfg: Cfg, id: nat, t: int)
    requires id in e.mems
    ensures SamePointers(e.mems, CreditHit(e, cfg, id, t).mems)
    ensures forall x :: x in e.mems ==> (CreditHit(e, cfg, id, t).mems[x].Current() <==> e.mems[x].Current())
  {
    hide Follow;
  }

  // ---------------------------------------------------------------- all hits of a settlement

  /** How many of the shown ids that were used lead to `r`. */
  function Uses(g: Graph, ids: seq<nat>, used: seq<bool>, r: nat): nat
    decreases |ids|
  {
    if ids == [] || used == [] then 0
    else (if used[0] && ids[0] in g && RepOf(g, ids[0]) == r then 1 else 0) + Uses(g, ids[1..], used[1..], r)
  }

  /** How many of them lead to a current version: the number a settlement reports as useful. */
  function Useful(g: Graph, ids: seq<nat>, used: seq<bool>): nat
    decreases |ids|
  {
    if ids == [] || used == [] then 0
    else (if used[0] && ids[0] in g && g[RepOf(g, ids[0])].Current() then 1 else 0) + Useful(g, ids[1..], used[1..])
  }

  lemma {:induction false} SameUses(g: Graph, g': Graph, ids: seq<nat>, used: seq<bool>, r: nat)
    requires SamePointers(g, g') && forall x :: x in g ==> (g'[x].Current() <==> g[x].Current())
    ensures Uses(g', ids, used, r) == Uses(g, ids, used, r) && Useful(g', ids, used) == Useful(g, ids, used)
    decreases |ids|
  {
    hide Follow;
    if ids != [] && used != [] {
      SameUses(g, g', ids[1..], used[1..], r);
      if ids[0] in g { SameWhole(g, g', ids[0]); }
    }
  }

  /** `r` has `n` useful hits more, the last of them at `t`. */
  ghost predicate Gains(m: Mem, m': Mem, n: nat, t: int) {
    && m' == m.(lastHit := m'.lastHit, pool := m'.pool, hits := m.hits + n, dHit := m.dHit + n as real)
    && (n == 0 ==> m' == m)
    && (n > 0 ==> m'.lastHit == Some(t) && m'.pool != Archive)
  }

  /** A settlement gives each current version exactly one hit for every used id that leads to it, leaves all others
      alone, and reports how many ids earned one. */
  lemma {:induction false} CreditCounts(e: Engine, cfg: Cfg, ids: seq<nat>, used: seq<bool>, t: int, r: nat)
    requires r in e.mems
    ensures var (e', credited) := CreditAll(e, cfg, ids, used, t);
            && e'.mems.Keys == e.mems.Keys && |credited| == Useful(e.mems, ids, used)
            && Gains(e.mems[r], e'.mems[r], if e.mems[r].Current() then Uses(e.mems, ids, used, r) else 0, t)
    decreases |ids|
  {
    hide Follow, CreditHit, Gains, Revives, SamePointers;
    if ids == [] || used == [] {
      NoGain(e.mems[r], t);
    } else if used[0] && ids[0] in e.mems {
      var e1 := CreditHit(e, cfg, ids[0], t);
      HitOutcome(e, cfg, ids[0], t);
      HitKeepsPointers(e, cfg, ids[0], t);
      CreditCounts(e1, cfg, ids[1..], used[1..], t, r);
      SameUses(e.mems, e1.mems, ids[1..], used[1..], r);
      var m, m1, n := e.mems[r], e1.mems[r], Uses(e.mems, ids[1..], used[1..], r);
      if r == RepOf(e.mems, ids[0]) && m.Current() {
        OneMore(m, m1, CreditAll(e, cfg, ids, used, t).0.mems[r], n, cfg, t);
      }
    } else {
      CreditCounts(e, cfg, ids[1..], used[1..], t, r);
    }
  }

  lemma NoGain(m: Mem, t: int)
    ensures Gains(m, m, 0, t)
  {
  }

  lemma OneMore(m: Mem, m1: Mem, m': Mem, n: nat, cfg: Cfg, t: int)
    requires Revives(m, m1, cfg, t)
    requires m1 == m.(lastHit := m1.lastHit, pool := m1.pool, hits := m.hits + 1, dHit := m.dHit + 1.0) && Gains(m1, m', n, t)
    ensures Gains(m, m', n + 1, t)
  {
    assert (n + 1) as real == n as real + 1.0;
  }

  // ---------------------------------------------------------------- suppressed hits

  /** How many relevant suppressed hits that wait for the verdict on `key` lead to `r`. */
  function Waiting(g: Graph, entries: seq<Shadow>, key: Pair, r: nat): nat
    decreases |entries|
  {
    if entries == [] then 0
    else
      var s := entries[0];
      (if s.key == key && s.relevant && s.mid in g && RepOf(g, s.mid) == r then 1 else 0) + Waiting(g, entries[1..], key, r)
  }

  lemma ShadowOutcome(e: Engine, cfg: Cfg, id: nat, t: int)
    requires id in e.mems
    ensures var g, g', r := e.mems, IssueShadow(e, cfg, id, t).mems, RepOf(e.mems, id);
            && g'.Keys == g.Keys
            && (forall x :: x in g && x != r ==> g'[x] == g[x])
            && (!g[r].Current() ==> g'[r] == g[r])
            && (g[r].Current() ==>
                  && Revives(g[r], g'[r], cfg, t)
                  && g'[r] == g[r].(lastHit := g'[r].lastHit, pool := g'[r].pool, dShadow := g[r].dShadow + 1.0))
    ensures SamePointers(e.mems, IssueShadow(e, cfg, id, t).mems)
  {
    hide Follow;
  }

  lemma {:induction false} SameWaiting(g: Graph, g': Graph, entries: seq<Shadow>, key: Pair, r: nat)
    requires SamePointers(g, g')
    ensures Waiting(g', entries, key, r) == Waiting(g, entries, key, r)
    decreases |entries|
  {
    hide Follow;
    if entries != [] {
      SameWaiting(g, g', entries[1..], key, r);
      if entries[0].mid in g { SameWhole(g, g', entries[0].mid); }
    }
  }

  ghost predicate ShadowGains(m: Mem, m': Mem, n: nat) {
    && m' == m.(lastHit := m'.lastHit, pool := m'.pool, dShadow := m.dShadow + n as real)
    && (n == 0 ==> m' == m)
    && (n > 0 ==> m'.pool != Archive)
  }

  lemma {:induction false} EntriesCount(e: Engine, cfg: Cfg, entries: seq<Shadow>, key: Pair, verdict: Verdict, r: nat)
    requires r in e.mems
    ensures var g' := SettleEntries(e, cfg, entries, key, verdict).mems;
            && g'.Keys == e.mems.Keys
            && ShadowGains(e.mems[r], g'[r], if verdict != Synonym && e.mems[r].Current() then Waiting(e.mems, entries, key, r) else 0)
    decreases |entries|
  {
    hide Follow, IssueShadow, Revives, SamePointers;
    if entries != [] {
      var s := entries[0];
      var e1 := SettleOne(e, cfg, s, key, verdict);
      if s.key == key && verdict != Synonym && s.relevant && s.mid in e.mems {
        ShadowOutcome(e, cfg, s.mid, s.tRet);
        SameWaiting(e.mems, e1.mems, entries[1..], key, r);
        EntriesCount(e1, cfg, entries[1..], key, verdict, r);
        assert e1.mems[r].Current() <==> e.mems[r].Current();
        var n := Waiting(e.mems, entries[1..], key, r);
        assert (n + 1) as real == n as real + 1.0;
        assert RepOf(e.mems, s.mid) == r && e.mems[r].Current() ==> e1.mems[r].pool != Archive by {
          if RepOf(e.mems, s.mid) == r && e.mems[r].Current() { RevivedIsOut(e.mems[r], e1.mems[r], cfg, s.tRet); }
        }
      } else {
        EntriesCount(e, cfg, entries[1..], key, verdict, r);
      }
    }
  }

  lemma RevivedIsOut(m: Mem, m': Mem, cfg: Cfg, t: int)
    requires Revives(m, m', cfg, t)
    ensures m'.pool != Archive
  {
  }

  lemma {:induction false} KeptOthers(entries: seq<Shadow>, key: Pair)
    ensures forall s :: s in KeepOther(entries, key) <==> s in entries && s.key != key
    decreases |entries|
  {
    if entries != [] {
      KeptOthers(entries[1..], key);
    }
  }

  /** The first verdict on a pair settles its suppressed hits: unless the two are the same, each current version
      gains a shadow hit for every relevant one that leads to it. Hits of other pairs go on waiting. */
  lemma SettlementOfShadows(e: Engine, cfg: Cfg, key: Pair, verdict: Verdict, r: nat)
    requires r in e.mems
    ensures var e' := SettleShadow(e, cfg, key, verdict);
            && e'.mems.Keys == e.mems.Keys
            && ShadowGains(e.mems[r], e'.mems[r], if verdict != Synonym && e.mems[r].Current() then Waiting(e.mems, e.shadow, key, r) else 0)
            && (forall s :: s in e'.shadow <==> s in e.shadow && s.key != key)
  {
    hide SettleEntries, ShadowGains;
    EntriesCount(e, cfg, e.shadow, key, verdict, r);
    KeptOthers(e.shadow, key);
  }

  /** A suppression queues a hit of the suppressed version, not of its rival, at the time of the search; a full
      queue drops its oldest entry. */
  lemma SuppressionOutcome(e: Engine, cfg: Cfg, id: nat, rival: nat, relevant: bool, t: int)
    requires id in e.mems && rival in e.mems && id != rival && e.mems[id].Current() && e.mems[rival].Current()
    ensures var e' := LookOne(e, cfg, EngineSteps.Suppressed(id, rival, relevant, false), t); var pair := SortedPair(id, rival);
            && e'.mems == e.mems
            && (cfg.shadowCredit ==>
                  var all := e.shadow + [Shadow(pair, id, t, relevant)];
                  e'.shadow == if |all| <= cfg.shadowPendingCap then all else all[1..])
            && (!cfg.shadowCredit ==> e'.shadow == e.shadow)
            && (cfg.tensionOn ==> e'.tensions.Keys == e.tensions.Keys + {pair} && e'.tensions[pair].lastSeen == t)
            && (cfg.tensionOn && pair in e.tensions ==> e'.tensions[pair].firstSeen == e.tensions[pair].firstSeen
                                                         && e'.tensions[pair].observations == e.tensions[pair].observations + 1)
            && (cfg.tensionOn && pair !in e.tensions ==> e'.tensions[pair].firstSeen == t && e'.tensions[pair].observations == 1)
  {
  }

  // ---------------------------------------------------------------- what credit is worth

  /** Two versions of one memory that differ in credit only. */
  ghost predicate Richer(m: Mem, m': Mem, hits: real, shadows: real) {
    m'.v == m.v && m'.salience == m.salience && m'.dHit == m.dHit + hits && m'.dShadow == m.dShadow + shadows
  }

  lemma DecayedCredit(m: Mem, m': Mem, cfg: Cfg, hits: real, shadows: real)
    requires cfg.Ok() && Richer(m, m', hits, shadows)
    ensures Decayed(m', cfg).v == Decayed(m, cfg).v + cfg.eta * hits + if cfg.shadowCredit then cfg.etaShadow * shadows else 0.0
    ensures Decayed(m', cfg).dHit == 0.0 && Decayed(m', cfg).dShadow == 0.0
  {
    Distributes(cfg.eta, m.dHit, hits);
    Distributes(cfg.etaShadow, m.dShadow, shadows);
    var kept := m.v * cfg.expNeg(cfg.lam / RetentionScale(m.salience, cfg));
    assert m'.v * cfg.expNeg(cfg.lam / RetentionScale(m'.salience, cfg)) == kept;
    assert Decayed(m', cfg).v == kept + (cfg.eta * (m.dHit + hits) + if cfg.shadowCredit then cfg.etaShadow * (m.dShadow + shadows) else 0.0);
  }

  /** At the next step every hit is worth `eta`, whatever else the step does: a version that is there after the step
      with and without the settlement is worth more by exactly `eta` for each used id that led to it. */
  lemma CreditIsWorth(e: Engine, cfg: Cfg, ids: seq<nat>, used: seq<bool>, t: int, now: int, id: nat)
    requires cfg.Ok() && id in e.mems
    requires id in Maintain(e, cfg, now).mems && id in Maintain(CreditAll(e, cfg, ids, used, t).0, cfg, now).mems
    ensures var plain, paid := Maintain(e, cfg, now).mems[id], Maintain(CreditAll(e, cfg, ids, used, t).0, cfg, now).mems[id];
            paid.v == plain.v + cfg.eta * (if e.mems[id].Current() then Uses(e.mems, ids, used, id) else 0) as real
  {
    hide MaintainGraph, DecayAll, BrokenWalks, SameValues, CreditAll, Uses, Useful, Decayed;
    var e' := CreditAll(e, cfg, ids, used, t).0;
    var n := if e.mems[id].Current() then Uses(e.mems, ids, used, id) else 0;
    CreditCounts(e, cfg, ids, used, t, id);
    assert Richer(e.mems[id], e'.mems[id], n as real, 0.0);
    ValueAfterStep(e, cfg, now, id);
    ValueAfterStep(e', cfg, now, id);
    DecayedCredit(e.mems[id], e'.mems[id], cfg, n as real, 0.0);
  }

  lemma ValueAfterStep(e: Engine, cfg: Cfg, t: int, id: nat)
    requires cfg.Ok() && id in e.mems && id in Maintain(e, cfg, t).mems
    ensures Maintain(e, cfg, t).mems[id].v == Decayed(e.mems[id], cfg).v
  {
    hide MaintainGraph, Decayed, BrokenWalks;
    PhasesKeepValues(e, cfg, t);
  }
}
