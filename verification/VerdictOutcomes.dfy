/** What a verdict decides: which version stays current, what it takes over, and what becomes of the other. */
module VerdictOutcomes {
  import opened MemoryTypes
  import opened VersionGraph
  import opened Verdicts
  import opened UnionFind
  import opened CreditOutcomes

  /** Of two versions, the one that counts as later: born later, or stored later within one time step. */
  predicate Later(g: Graph, x: nat, y: nat)
    requires x in g && y in g
  {
    g[x].birth > g[y].birth || (g[x].birth == g[y].birth && x > y)
  }

  /** A walk counts one broken chain exactly when some pointer on it is missing or cyclic. */
  lemma WalkOutcome(e: Engine, id: nat)
    requires id in e.mems
    ensures Walked(e, id) == if Whole(e.mems, id) then e else e.(broken := e.broken + 1)
  {
    hide Follow;
    FollowExact(e.mems, id);
  }

  // ---------------------------------------------------------------- what the resolution works on

  /** The pair is open, and the chains of both ends lead to roots. */
  ghost predicate OpenPair(e: Engine, left: nat, right: nat) {
    var key := SortedPair(left, right);
    && key in e.tensions && left in e.mems && right in e.mems && Whole(e.mems, left) && Whole(e.mems, right)
    && e.nextId !in e.mems
  }

  /** The representative of the end with the smaller id, and that of the other. */
  function Low(g: Graph, left: nat, right: nat): nat
    requires left in g && right in g
  {
    RepOf(g, SortedPair(left, right).0)
  }

  function High(g: Graph, left: nat, right: nat): nat
    requires left in g && right in g
  {
    RepOf(g, SortedPair(left, right).1)
  }

  /** The state in which the resolution finds the pair: its suppressed hits are settled. */
  lemma Resolving(e: Engine, cfg: Cfg, left: nat, right: nat, verdict: Verdict, t: int) returns (e2: Engine)
    requires OpenPair(e, left, right) && verdict != Pending && Low(e.mems, left, right) != High(e.mems, left, right)
    ensures var a, b, key := Low(e.mems, left, right), High(e.mems, left, right), SortedPair(left, right);
            && a in e2.mems && b in e2.mems && a != b && e2.mems[a].Root() && e2.mems[b].Root()
            && CreditOnly(e.mems, e2.mems) && e2.nextId == e.nextId && e2.tensions == e.tensions - {key}
            && (verdict == Synonym ==> e2.mems == e.mems)
            && (forall x :: x in e.mems ==> e2.mems[x].hits == e.mems[x].hits)
            && (forall x :: x in e.mems && e.mems[x].pool != Archive ==> e2.mems[x].pool == e.mems[x].pool)
            && SubmitOne(e, cfg, Judgement(left, right, verdict), t) == ApplyResolution(e2, cfg, a, b, verdict, t)
  {
    hide ApplyResolution, SettleEntries;
    var key := SortedPair(left, right);
    var e1 := SettleShadow(e, cfg, key, verdict);
    SettleCredits(e, cfg, key, verdict);
    SettledPools(e, cfg, e.shadow, key, verdict);
    assert SamePointers(e.mems, e1.mems);
    SameWhole(e.mems, e1.mems, key.0);
    SameWhole(e.mems, e1.mems, key.1);
    FollowExact(e1.mems, key.0);
    FollowExact(e1.mems, key.1);
    e2 := Walked(Walked(e1, key.0), key.1).(tensions := e1.tensions - {key});
  }

  /** Settling suppressed hits counts no useful hit and takes nobody out of a pool but the archive; for a synonym it
      changes no version. */
  lemma SettledPools(e: Engine, cfg: Cfg, entries: seq<Shadow>, key: Pair, verdict: Verdict)
    ensures var g' := SettleEntries(e, cfg, entries, key, verdict).mems;
            && g'.Keys == e.mems.Keys && (verdict == Synonym ==> g' == e.mems)
            && (forall x :: x in e.mems ==> g'[x].hits == e.mems[x].hits)
            && (forall x :: x in e.mems && e.mems[x].pool != Archive ==> g'[x].pool == e.mems[x].pool)
    decreases |entries|
  {
    hide IssueShadow, Revives, SamePointers;
    if entries != [] {
      var s := entries[0];
      var e1 := SettleOne(e, cfg, s, key, verdict);
      SettledPools(e1, cfg, entries[1..], key, verdict);
      if s.mid in e.mems {
        ShadowOutcome(e, cfg, s.mid, s.tRet);
        var r := RepOf(e.mems, s.mid);
        if e.mems[r].Current() { RevivesElsewhere(e.mems[r], IssueShadow(e, cfg, s.mid, s.tRet).mems[r], cfg, s.tRet); }
      }
    }
  }

  lemma RevivesElsewhere(m: Mem, m': Mem, cfg: Cfg, t: int)
    requires Revives(m, m', cfg, t)
    ensures m.pool != Archive ==> m'.pool == m.pool
  {
  }

  // ---------------------------------------------------------------- one version wins

  /** `keep` stays current in place of both; `drop` is archived at `t` and refers to it. Nothing else is written but
      late credit, and no version is lost. */
  ghost predicate Wins(g: Graph, g': Graph, keep: nat, drop: nat, t: int) {
    && keep in g && drop in g && keep != drop && g'.Keys == g.Keys
    && g'[keep].Root() && g'[keep].withdrawnAt == g[keep].withdrawnAt
    && g'[keep].belief == g[keep].belief && g'[keep].value == g[keep].value && g'[keep].birth == g[keep].birth
    && (g[keep].pool != Archive ==> g'[keep].pool == g[keep].pool)
    && g'[keep].src == g[keep].src + g[drop].src
    && g'[keep].salience == (if g[keep].salience >= g[drop].salience then g[keep].salience else g[drop].salience)
    && g'[drop].supersededBy == Some(keep) && g'[drop].pool == Archive && g'[drop].archivedAt == Some(t)
    && g'[drop].belief == g[drop].belief && g'[drop].value == g[drop].value && g'[drop].v == g[drop].v
    && g'[drop].birth == g[drop].birth && g'[drop].src == g[drop].src
    && (forall x :: x in g && x != keep && x != drop ==>
          g'[x] == g[x].(pool := g'[x].pool, lastHit := g'[x].lastHit, hits := g'[x].hits, dHit := g'[x].dHit, dShadow := g'[x].dShadow))
  }

  /** Both ends of the pair now lead to `keep`, and the pair is closed. */
  ghost predicate Settled(e: Engine, e': Engine, left: nat, right: nat, keep: nat) {
    && left in e'.mems && right in e'.mems && RepOf(e'.mems, left) == keep && RepOf(e'.mems, right) == keep
    && e'.tensions == e.tensions - {SortedPair(left, right)} && e'.nextId == e.nextId
  }

  lemma LeadTo(e: Engine, e': Engine, left: nat, right: nat, keep: nat, drop: nat, t: int)
    requires OpenPair(e, left, right) && Wins(e.mems, e'.mems, keep, drop, t)
    requires {keep, drop} == {Low(e.mems, left, right), High(e.mems, left, right)}
    requires e'.tensions == e.tensions - {SortedPair(left, right)} && e'.nextId == e.nextId
    ensures Settled(e, e', left, right, keep)
  {
    hide Linked, Wins, Follow, Whole;
    assert e.mems[keep].Root() && e.mems[drop].Root() by { EndsAreRoots(e, left, right); }
    WinsLinks(e.mems, e'.mems, keep, drop, t);
    LinkedRep(e.mems, e'.mems, {drop}, keep, left);
    LinkedRep(e.mems, e'.mems, {drop}, keep, right);
    WinsKeys(e.mems, e'.mems, keep, drop, t);
  }

  lemma WinsLinks(g: Graph, g': Graph, keep: nat, drop: nat, t: int)
    requires Wins(g, g', keep, drop, t) && g[keep].Root() && g[drop].Root()
    ensures Linked(g, g', {drop}, keep)
  {
  }

  lemma EndsAreRoots(e: Engine, left: nat, right: nat)
    requires OpenPair(e, left, right)
    ensures e.mems[Low(e.mems, left, right)].Root() && e.mems[High(e.mems, left, right)].Root()
  {
    hide Follow;
    FollowExact(e.mems, left);
    FollowExact(e.mems, right);
  }

  lemma WinsKeys(g: Graph, g': Graph, keep: nat, drop: nat, t: int)
    requires Wins(g, g', keep, drop, t)
    ensures g'.Keys == g.Keys
  {
  }

  /** Late credit before the resolution changes nothing that the outcome speaks of. */
  lemma WinsFrom(g: Graph, g2: Graph, g': Graph, keep: nat, drop: nat, t: int)
    requires CreditOnly(g, g2) && Wins(g2, g', keep, drop, t)
    requires forall x :: x in g && g[x].pool != Archive ==> g2[x].pool == g[x].pool
    ensures Wins(g, g', keep, drop, t)
  {
  }

  /** The outcome, from the two versions that are written. */
  lemma PairWins(g: Graph, keep: nat, drop: nat, m: Mem, gone: Mem, t: int)
    requires keep in g && drop in g && keep != drop && g[keep].Root()
    requires m == g[keep].(v := m.v, evid := m.evid, hits := m.hits, lastSeen := m.lastSeen, src := g[keep].src + g[drop].src,
                           salience := if g[keep].salience >= g[drop].salience then g[keep].salience else g[drop].salience)
    requires gone == g[drop].(supersededBy := Some(keep), pool := Archive, archivedAt := Some(t))
    ensures Wins(g, g[keep := m][drop := gone], keep, drop, t)
  {
  }

  lemma UpdateApplied(e: Engine, cfg: Cfg, a: nat, b: nat, t: int)
    requires a in e.mems && b in e.mems && a != b && e.mems[a].Root() && e.mems[b].Root()
    ensures var g, e' := e.mems, ApplyResolution(e, cfg, a, b, Update, t);
            var keep, drop := if Later(g, a, b) then a else b, if Later(g, a, b) then b else a;
            && Wins(g, e'.mems, keep, drop, t) && e'.tensions == e.tensions && e'.nextId == e.nextId
            && e'.mems[keep].v == g[keep].v && e'.mems[keep].hits == g[keep].hits && e'.mems[keep].evid == g[keep].evid + 1
  {
    hide Wins;
    var g := e.mems;
    if Later(g, a, b) {
      PairWins(g, a, b, Replace(g[a], g[b]), Retire(g[b], a, t), t);
    } else {
      PairWins(g, b, a, Replace(g[b], g[a]), Retire(g[a], b, t), t);
    }
  }

  lemma SynonymApplied(e: Engine, cfg: Cfg, a: nat, b: nat, t: int)
    requires a in e.mems && b in e.mems && a != b && e.mems[a].Root() && e.mems[b].Root()
    ensures var g, e' := e.mems, ApplyResolution(e, cfg, a, b, Synonym, t);
            var keep, drop := if g[a].v >= g[b].v then a else b, if g[a].v >= g[b].v then b else a;
            && Wins(g, e'.mems, keep, drop, t) && e'.tensions == e.tensions && e'.nextId == e.nextId
            && TakesOver(g[keep], g[drop], e'.mems[keep], cfg)
  {
    hide Wins, TakesOver;
    var g := e.mems;
    if g[a].v >= g[b].v {
      AbsorbTakesOver(g[a], g[b], cfg);
      PairWins(g, a, b, Absorb(g[a], g[b], cfg), Retire(g[b], a, t), t);
    } else {
      AbsorbTakesOver(g[b], g[a], cfg);
      PairWins(g, b, a, Absorb(g[b], g[a], cfg), Retire(g[a], b, t), t);
    }
  }

  /** What a kept version takes over: with sources on both sides, each source new to it counts as one more piece of
      evidence; without, the evidence adds up. */
  ghost predicate TakesOver(keep: Mem, drop: Mem, m: Mem, cfg: Cfg) {
    && m.v == cfg.etaC * (keep.v + drop.v) && m.hits == keep.hits + drop.hits
    && m.lastSeen >= keep.lastSeen && m.lastSeen >= drop.lastSeen && m.lastSeen in {keep.lastSeen, drop.lastSeen}
    && (keep.src == {} || drop.src == {} ==> m.evid == keep.evid + drop.evid)
    && (keep.src != {} && drop.src != {} ==> m.evid - |m.src| == keep.evid - |keep.src|)
  }

  lemma AbsorbTakesOver(keep: Mem, drop: Mem, cfg: Cfg)
    ensures TakesOver(keep, drop, Absorb(keep, drop, cfg), cfg)
  {
    NewSources(keep.src, drop.src);
  }

  /** An update keeps the later version of the two, with its belief, value and worth; the other is archived and refers
      to it. */
  lemma UpdateOutcome(e: Engine, cfg: Cfg, left: nat, right: nat, t: int)
    requires OpenPair(e, left, right) && Low(e.mems, left, right) != High(e.mems, left, right)
    ensures var g, e', a, b := e.mems, SubmitOne(e, cfg, Judgement(left, right, Update), t), Low(e.mems, left, right), High(e.mems, left, right);
            var keep, drop := if Later(g, a, b) then a else b, if Later(g, a, b) then b else a;
            && Later(g, keep, drop) && Wins(g, e'.mems, keep, drop, t) && Settled(e, e', left, right, keep)
            && e'.mems[keep].v == g[keep].v && e'.mems[keep].hits == g[keep].hits && e'.mems[keep].evid == g[keep].evid + 1
  {
    hide SubmitOne, Follow, Whole, ApplyResolution, Wins;
    var g, a, b := e.mems, Low(e.mems, left, right), High(e.mems, left, right);
    var keep, drop := if Later(g, a, b) then a else b, if Later(g, a, b) then b else a;
    var e2 := Resolving(e, cfg, left, right, Update, t);
    var e' := SubmitOne(e, cfg, Judgement(left, right, Update), t);
    UpdateApplied(e2, cfg, a, b, t);
    WinsFrom(g, e2.mems, e'.mems, keep, drop, t);
    LeadTo(e, e', left, right, keep, drop, t);
  }

  /** A synonym keeps the more valuable version, the one at the smaller id in case of a tie; it takes over what the
      other was worth, its hits and its evidence. */
  lemma SynonymOutcome(e: Engine, cfg: Cfg, left: nat, right: nat, t: int)
    requires OpenPair(e, left, right) && Low(e.mems, left, right) != High(e.mems, left, right)
    ensures var g, e', a, b := e.mems, SubmitOne(e, cfg, Judgement(left, right, Synonym), t), Low(e.mems, left, right), High(e.mems, left, right);
            var keep, drop := if g[a].v >= g[b].v then a else b, if g[a].v >= g[b].v then b else a;
            && g[keep].v >= g[drop].v && Wins(g, e'.mems, keep, drop, t) && Settled(e, e', left, right, keep)
            && TakesOver(g[keep], g[drop], e'.mems[keep], cfg)
  {
    hide SubmitOne, Follow, Whole;
    var g, a, b := e.mems, Low(e.mems, left, right), High(e.mems, left, right);
    var keep, drop := if g[a].v >= g[b].v then a else b, if g[a].v >= g[b].v then b else a;
    var e2 := Resolving(e, cfg, left, right, Synonym, t);
    var e' := SubmitOne(e, cfg, Judgement(left, right, Synonym), t);
    hide ApplyResolution, Wins, TakesOver;
    SynonymApplied(e2, cfg, a, b, t);
    LeadTo(e, e', left, right, keep, drop, t);
  }

  lemma NewSources(had: set<nat>, more: set<nat>)
    ensures |had + more| == |had| + |more - had|
  {
    assert had + more == had + (more - had);
  }

  // ---------------------------------------------------------------- contradictions

  /** Both versions stand under their own, different scopes. */
  predicate Scoped(g: Graph, a: nat, b: nat, cfg: Cfg)
    requires a in g && b in g
  {
    cfg.scope(g[a].belief) != "" && cfg.scope(g[b].belief) != "" && cfg.scope(g[a].belief) != cfg.scope(g[b].belief)
  }

  /** `m` collects the versions `a` and `b`, worth as much as the better of them. */
  ghost predicate Collects(m: Mem, a: nat, b: nat, x: Mem, y: Mem, t: int) {
    && m.belief == x.belief && m.value == "agg:" + Digits(a) + "+" + Digits(b) && m.aggMembers == [a, b] && m.Current() && m.pool == Candidate && m.birth == t && m.lastSeen == t
    && m.v in {x.v, y.v} && m.v >= x.v && m.v >= y.v
    && m.hits == x.hits + y.hits && m.evid == x.evid + y.evid && m.src == x.src + y.src
    && m.salience in {x.salience, y.salience} && m.salience >= x.salience && m.salience >= y.salience
    && m.lastHit.None? && m.dHit == 0.0 && m.dShadow == 0.0
  }

  /** The number that a text of digits stands for. */
  function Number(text: string): nat {
    if text == [] then 0
    else
      var n := |text| - 1;
      10 * Number(text[..n]) + if '0' <= text[n] <= '9' then text[n] as nat - '0' as nat else 0
  }

  /** A number is written in the decimal digits that stand for it. */
  lemma {:induction false} DigitsStandFor(n: nat)
    ensures Number(Digits(n)) == n && Digits(n) != [] && forall c :: c in Digits(n) ==> '0' <= c <= '9'
  {
    var last := "0123456789"[n % 10];
    assert last as nat - '0' as nat == n % 10;
    if n >= 10 {
      DigitsStandFor(n / 10);
      assert Digits(n)[..|Digits(n)| - 1] == Digits(n / 10);
    }
  }

  /** Both versions stand behind `id`, each worth `share` of what it was; nothing else is written but late credit. */
  ghost predicate Behind(g: Graph, g': Graph, a: nat, b: nat, id: nat, share: real) {
    && g'.Keys == g.Keys + {id} && a in g && b in g
    && (forall x :: x in {a, b} ==>
          && g'[x].aggregatedInto == Some(id) && g'[x].supersededBy.None? && g'[x].v == share * g[x].v
          && g'[x].belief == g[x].belief && g'[x].value == g[x].value && g'[x].hits == g[x].hits
          && g'[x].evid == g[x].evid && g'[x].src == g[x].src && g'[x].salience == g[x].salience
          && (g[x].pool != Archive ==> g'[x].pool == g[x].pool))
    && (forall x :: x in g && x !in {a, b} ==>
          g'[x] == g[x].(pool := g'[x].pool, lastHit := g'[x].lastHit, hits := g'[x].hits, dHit := g'[x].dHit, dShadow := g'[x].dShadow))
  }

  lemma CreditKeepsScope(g: Graph, g2: Graph, a: nat, b: nat, cfg: Cfg)
    requires CreditOnly(g, g2) && a in g && b in g
    ensures Scoped(g2, a, b, cfg) == Scoped(g, a, b, cfg) && SamePointers(g, g2) && g2.Keys == g.Keys
  {
  }

  lemma BehindFrom(g: Graph, g2: Graph, g': Graph, a: nat, b: nat, id: nat, share: real)
    requires CreditOnly(g, g2) && Behind(g2, g', a, b, id, share)
    requires forall x :: x in g ==> g2[x].hits == g[x].hits
    requires forall x :: x in g && g[x].pool != Archive ==> g2[x].pool == g[x].pool
    ensures Behind(g, g', a, b, id, share)
  {
    assert g2.Keys == g.Keys;
    forall x | x in {a, b}
      ensures g2[x].v == g[x].v && g2[x].belief == g[x].belief && g2[x].value == g[x].value
              && g2[x].evid == g[x].evid && g2[x].src == g[x].src && g2[x].salience == g[x].salience
    {
      assert x in g;
    }
    forall x | x in g && x !in {a, b}
      ensures g'[x] == g[x].(pool := g'[x].pool, lastHit := g'[x].lastHit, hits := g'[x].hits, dHit := g'[x].dHit, dShadow := g'[x].dShadow)
    {
      SameButCredit(g[x], g2[x], g'[x]);
    }
    hide CreditOnly;
  }

  lemma SameButCredit(m: Mem, m1: Mem, m2: Mem)
    requires m1 == m.(pool := m1.pool, lastHit := m1.lastHit, hits := m1.hits, dHit := m1.dHit, dShadow := m1.dShadow)
    requires m2 == m1.(pool := m2.pool, lastHit := m2.lastHit, hits := m2.hits, dHit := m2.dHit, dShadow := m2.dShadow)
    ensures m2 == m.(pool := m2.pool, lastHit := m2.lastHit, hits := m2.hits, dHit := m2.dHit, dShadow := m2.dShadow)
  {
  }

  lemma AggregateApplied(e: Engine, a: nat, b: nat, pending: bool, t: int)
    requires a in e.mems && b in e.mems && a != b && e.mems[a].Root() && e.mems[b].Root() && e.nextId !in e.mems
    ensures var e', id := MakeAggregate(e, a, b, pending, t), e.nextId;
            && Behind(e.mems, e'.mems, a, b, id, 1.0) && e'.nextId == id + 1 && e'.tensions == e.tensions
            && Collects(e'.mems[id], a, b, e'.mems[a], e'.mems[b], t) && e'.mems[id].pendingReview == pending
  {
    hide Digits;
  }

  lemma HalvedBehind(e: Engine, g': Graph, a: nat, b: nat, id: nat)
    requires a in e.mems && b in e.mems && a != b && Behind(HalveBoth(e, a, b).mems, g', a, b, id, 1.0)
    ensures Behind(e.mems, g', a, b, id, 0.5)
  {
  }

  lemma ContradictionApplied(e: Engine, cfg: Cfg, a: nat, b: nat, t: int)
    requires a in e.mems && b in e.mems && a != b && e.mems[a].Root() && e.mems[b].Root() && e.nextId !in e.mems
    ensures var g, e', id := e.mems, ApplyResolution(e, cfg, a, b, Contradiction, t), e.nextId;
            && Behind(g, e'.mems, a, b, id, if Scoped(g, a, b, cfg) then 1.0 else 0.5) && e'.nextId == id + 1 && e'.tensions == e.tensions
            && Collects(e'.mems[id], a, b, e'.mems[a], e'.mems[b], t) && (e'.mems[id].pendingReview <==> !Scoped(g, a, b, cfg))
  {
    hide Behind, Collects, MakeAggregate;
    AggregateApplied(e, a, b, false, t);
    AggregateApplied(HalveBoth(e, a, b), a, b, true, t);
    if !Scoped(e.mems, a, b, cfg) {
      HalvedBehind(e, ApplyResolution(e, cfg, a, b, Contradiction, t).mems, a, b, e.nextId);
    }
  }

  /** A contradiction keeps both versions behind a new one that speaks for them. Under different scopes they keep their
      worth; otherwise each is worth half, and the new version waits for a review. */
  lemma ContradictionOutcome(e: Engine, cfg: Cfg, left: nat, right: nat, t: int)
    requires OpenPair(e, left, right) && Low(e.mems, left, right) != High(e.mems, left, right)
    ensures var g, e', a, b := e.mems, SubmitOne(e, cfg, Judgement(left, right, Contradiction), t), Low(e.mems, left, right), High(e.mems, left, right);
            var id, g', share := e.nextId, e'.mems, if Scoped(g, a, b, cfg) then 1.0 else 0.5;
            && Behind(g, g', a, b, id, share)
            && e'.nextId == id + 1 && e'.tensions == e.tensions - {SortedPair(left, right)}
            && Collects(g'[id], a, b, g'[a], g'[b], t) && (g'[id].pendingReview <==> !Scoped(g, a, b, cfg))
            && RepOf(g', left) == id && RepOf(g', right) == id
  {
    hide SubmitOne, Follow, Whole, ApplyResolution, Behind, Collects, CreditOnly, Linked, SamePointers;
    var g, a, b := e.mems, Low(e.mems, left, right), High(e.mems, left, right);
    var e2 := Resolving(e, cfg, left, right, Contradiction, t);
    var e' := SubmitOne(e, cfg, Judgement(left, right, Contradiction), t);
    assert Scoped(e2.mems, a, b, cfg) == Scoped(g, a, b, cfg) && SamePointers(g, e2.mems) && e2.mems.Keys == g.Keys by {
      CreditKeepsScope(g, e2.mems, a, b, cfg);
    }
    ContradictionApplied(e2, cfg, a, b, t);
    BehindFrom(g, e2.mems, e'.mems, a, b, e.nextId, if Scoped(g, a, b, cfg) then 1.0 else 0.5);
    BothLinked(e2, cfg, a, b, t);
    LinkedFrom(g, e2.mems, e'.mems, {a, b}, e.nextId);
    LinkedRep(g, e'.mems, {a, b}, e.nextId, left);
    LinkedRep(g, e'.mems, {a, b}, e.nextId, right);
  }

  /** A collision closes the pair and a pending verdict leaves it open; neither touches a version but for late credit.
      So does any verdict on ends that lead to one version already, which closes the pair. */
  lemma NoResolution(e: Engine, cfg: Cfg, left: nat, right: nat, verdict: Verdict, t: int)
    requires OpenPair(e, left, right)
    requires verdict == Collision || verdict == Pending || Low(e.mems, left, right) == High(e.mems, left, right)
    ensures var e' := SubmitOne(e, cfg, Judgement(left, right, verdict), t); var one := Low(e.mems, left, right) == High(e.mems, left, right);
            && CreditOnly(e.mems, e'.mems) && e'.nextId == e.nextId
            && e'.tensions == if verdict == Pending && !one then e.tensions else e.tensions - {SortedPair(left, right)}
  {
    hide Follow, Whole, CreditOnly, SettleEntries;
    var key := SortedPair(left, right);
    var e1 := SettleShadow(e, cfg, key, verdict);
    SettleCredits(e, cfg, key, verdict);
    CreditKeepsPointers(e.mems, e1.mems);
    CreditKeepsKeys(e.mems, e1.mems);
    SameWhole(e.mems, e1.mems, key.0);
    SameWhole(e.mems, e1.mems, key.1);
  }

  lemma CreditKeepsKeys(g: Graph, g': Graph)
    requires CreditOnly(g, g')
    ensures g'.Keys == g.Keys
  {
  }

  // ---------------------------------------------------------------- how many were resolved

  /** A verdict counts as resolved exactly when its pair is open, both ends exist and lead to different versions, and it
      is not pending; without collisions each one costs exactly one root. */
  lemma ResolvedExactly(e: Engine, cfg: Cfg, j: Judgement, t: int)
    requires Good(e)
    ensures Resolved(e, cfg, [j], t) == if && SortedPair(j.left, j.right) in e.tensions && j.left in e.mems && j.right in e.mems
                                           && RepOf(e.mems, j.left) != RepOf(e.mems, j.right) && j.verdict != Pending then 1 else 0
  {
    hide Follow, SettleEntries, Whole, SubmitOne, CreditOnly;
    var key := SortedPair(j.left, j.right);
    var e1 := SettleShadow(e, cfg, key, j.verdict);
    SettleCredits(e, cfg, key, j.verdict);
    CreditKeepsKeys(e.mems, e1.mems);
    CreditKeepsPointers(e.mems, e1.mems);
    if key.0 in e.mems && key.1 in e.mems {
      SameWhole(e.mems, e1.mems, key.0);
      SameWhole(e.mems, e1.mems, key.1);
    }
    assert [j][1..] == [];
  }

  lemma {:induction false} ResolvedCostRoots(e: Engine, cfg: Cfg, js: seq<Judgement>, t: int)
    requires Good(e) && forall j :: j in js ==> j.verdict != Collision
    ensures |Roots(SubmitVerdicts(e, cfg, js, t).mems)| + Resolved(e, cfg, js, t) == |Roots(e.mems)|
    decreases |js|
  {
    if js != [] {
      hide Good, Roots, SubmitOne, Resolves;
      assert js[0] in js && forall j :: j in js[1..] ==> j in js;
      StepMerges(e, cfg, Judge(js[0], t));
      ResolvedCostRoots(SubmitOne(e, cfg, js[0], t), cfg, js[1..], t);
    }
  }

  // ---------------------------------------------------------------- over runs of updates

  /** Every version's representative is the version itself or a later one. */
  ghost predicate LatestReps(g: Graph) {
    forall id :: id in g ==> id == RepOf(g, id) || Later(g, RepOf(g, id), id)
  }

  ghost predicate SameBirths(g: Graph, g': Graph) {
    g'.Keys == g.Keys && forall id :: id in g ==> g'[id].birth == g[id].birth
  }

  ghost predicate OnlyUpdates(steps: seq<LineageStep>) {
    forall s :: s in steps && s.Judge? ==> s.j.verdict in {Update, Collision, Pending}
  }

  /** However updates chain up: of all versions that they tie together, the latest one stays current. */
  lemma {:induction false} LatestWins(e: Engine, cfg: Cfg, steps: seq<LineageStep>)
    requires Good(e) && LatestReps(e.mems) && OnlyUpdates(steps)
    ensures var e' := Lineage(e, cfg, steps); Good(e') && LatestReps(e'.mems) && SameBirths(e.mems, e'.mems)
    decreases |steps|
  {
    hide Good, LatestReps, LineageNext, SameBirths;
    if steps == [] {
      SameBirthsSelf(e.mems);
    } else {
      assert steps[0] in steps && forall s :: s in steps[1..] ==> s in steps;
      var e1 := LineageNext(e, cfg, steps[0]);
      StepKeepsLatest(e, cfg, steps[0]);
      LatestWins(e1, cfg, steps[1..]);
      SameBirthsTwice(e.mems, e1.mems, Lineage(e, cfg, steps).mems);
    }
  }

  lemma SameBirthsSelf(g: Graph)
    ensures SameBirths(g, g)
  {
  }

  lemma SameBirthsTwice(a: Graph, b: Graph, c: Graph)
    requires SameBirths(a, b) && SameBirths(b, c)
    ensures SameBirths(a, c)
  {
  }

  lemma SamePointersLatest(g: Graph, g': Graph)
    requires LatestReps(g) && SamePointers(g, g') && SameBirths(g, g')
    ensures LatestReps(g')
  {
    hide Follow;
    forall id | id in g'
      ensures id == RepOf(g', id) || Later(g', RepOf(g', id), id)
    {
      SameWhole(g, g', id);
    }
  }

  /** What a step leaves of the versions unless it is an update that resolves its pair. */
  lemma QuietCredits(e: Engine, cfg: Cfg, step: LineageStep)
    requires Good(e) && (step.Judge? ==> !Resolves(e, cfg, step.j) || step.j.verdict == Collision)
    ensures CreditOnly(e.mems, LineageNext(e, cfg, step).mems)
  {
    hide SettleShadow, CreditOnly, Follow;
    CreditNothing(e.mems);
    if step.Judge? {
      SettleCredits(e, cfg, SortedPair(step.j.left, step.j.right), step.j.verdict);
    }
  }

  lemma CreditKeepsBirths(g: Graph, g': Graph)
    requires CreditOnly(g, g')
    ensures SameBirths(g, g') && SamePointers(g, g')
  {
  }

  lemma ResolvesOpenPair(e: Engine, cfg: Cfg, j: Judgement)
    requires Good(e) && Resolves(e, cfg, j)
    ensures OpenPair(e, j.left, j.right) && Low(e.mems, j.left, j.right) != High(e.mems, j.left, j.right)
  {
    hide Follow, SettleEntries, Whole;
    var key := SortedPair(j.left, j.right);
    var e1 := SettleShadow(e, cfg, key, j.verdict);
    SettleCredits(e, cfg, key, j.verdict);
    CreditKeepsBirths(e.mems, e1.mems);
    SameWhole(e.mems, e1.mems, key.0);
    SameWhole(e.mems, e1.mems, key.1);
  }

  lemma WinnerIsLatest(g: Graph, g': Graph, keep: nat, drop: nat, t: int)
    requires AllWhole(g) && LatestReps(g) && Wins(g, g', keep, drop, t) && Later(g, keep, drop) && g[keep].Root() && g[drop].Root()
    ensures LatestReps(g') && SameBirths(g, g')
  {
    assert Linked(g, g', {drop}, keep) && SameBirths(g, g');
    hide Linked, Follow, Whole, Wins;
    LinkKeeps(g, g', {drop}, keep);
    forall id | id in g'
      ensures id == RepOf(g', id) || Later(g', RepOf(g', id), id)
    {
      assert id == RepOf(g, id) || Later(g, RepOf(g, id), id);
    }
  }

  lemma StepKeepsLatest(e: Engine, cfg: Cfg, step: LineageStep)
    requires Good(e) && LatestReps(e.mems) && (step.Judge? ==> step.j.verdict in {Update, Collision, Pending})
    ensures var e' := LineageNext(e, cfg, step); Good(e') && LatestReps(e'.mems) && SameBirths(e.mems, e'.mems)
  {
    hide LatestReps, SameBirths, AllWhole, Resolves, SubmitOne, Wins, Settled, Follow, Whole;
    var e' := LineageNext(e, cfg, step);
    StepMerges(e, cfg, step);
    if step.Judge? && Resolves(e, cfg, step.j) && step.j.verdict == Update {
      var j := step.j;
      ResolvesOpenPair(e, cfg, j);
      UpdateOutcome(e, cfg, j.left, j.right, step.t);
      var a, b := Low(e.mems, j.left, j.right), High(e.mems, j.left, j.right);
      var keep, drop := if Later(e.mems, a, b) then a else b, if Later(e.mems, a, b) then b else a;
      assert e.mems[a].Root() && e.mems[b].Root() by { EndsAreRoots(e, j.left, j.right); }
      WinnerIsLatest(e.mems, e'.mems, keep, drop, step.t);
    } else {
      assert CreditOnly(e.mems, e'.mems) by { NotResolved(e, cfg, step); QuietCredits(e, cfg, step); }
      CreditKeepsBirths(e.mems, e'.mems);
      SamePointersLatest(e.mems, e'.mems);
    }
  }

  lemma NotResolved(e: Engine, cfg: Cfg, step: LineageStep)
    requires step.Judge? ==> step.j.verdict in {Update, Collision, Pending}
    requires !(step.Judge? && Resolves(e, cfg, step.j) && step.j.verdict == Update)
    ensures step.Judge? ==> !Resolves(e, cfg, step.j) || step.j.verdict == Collision
  {
    hide Follow, SettleShadow;
  }

  /** Where nothing was replaced yet, every version stands for itself. */
  lemma RootsAreLatest(g: Graph)
    requires forall id :: id in g ==> g[id].Root()
    ensures LatestReps(g)
  {
  }
}
