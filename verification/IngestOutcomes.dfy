/** What observing leaves: every event is held with its content and sources, nothing old is overwritten, and a
    neighbour that says something else is put in tension. */
module IngestOutcomes {
  import opened MemoryTypes
  import opened VersionGraph
  import opened Verdicts
  import opened EngineSteps

  ghost predicate Numbered(e: Engine) {
    forall id :: id in e.mems ==> id < e.nextId
  }

  // ---------------------------------------------------------------- a batch is its events, one by one

  /** What an event is compared with are the visible memories of its moment, with those that the batch added. */
  lemma ActiveIsVisible(e: Engine, cfg: Cfg, o: Observation, t: int)
    requires Numbered(e)
    ensures var active := VisibleUpTo(e.mems, e.nextId);
            && (forall id :: id in active ==> id in e.mems)
            && var (e1, active1) := IngestOne(e, cfg, active, o, t);
            Numbered(e1) && active1 == VisibleUpTo(e1.mems, e1.nextId)
  {
    hide Confirm, NewMem, Verbatim, VisibleUpTo, BestOf, AddTension;
    var active := VisibleUpTo(e.mems, e.nextId);
    VisibleIn(e.mems, e.nextId);
    var (e1, active1) := IngestOne(e, cfg, active, o, t);
    if active != [] && Verbatim(cfg, e.mems[BestOf(active, o.sim)], o.ev, o.sim(BestOf(active, o.sim))) {
      var b := BestOf(active, o.sim);
      ConfirmKeepsVisible(e.mems[b], cfg, o.ev, t);
      SameVisible(e.mems, e1.mems, e.nextId);
    } else {
      var novelty := if active == [] then 1.0 else Clamp(1.0 - o.sim(BestOf(active, o.sim)), 0.0, 1.0);
      var near := if active != [] && o.sim(BestOf(active, o.sim)) > cfg.tauDup then Some(BestOf(active, o.sim)) else None;
      hide IngestOne;
      AdmittedIsVisible(e, cfg, active, o.ev, novelty, near, t);
    }
  }

  lemma AdmittedIsVisible(e: Engine, cfg: Cfg, active: seq<nat>, ev: Event, novelty: real, near: Option<nat>, t: int)
    requires Numbered(e) && active == VisibleUpTo(e.mems, e.nextId)
    ensures var (e1, active1) := Admit(e, cfg, active, ev, novelty, near, t); Numbered(e1) && active1 == VisibleUpTo(e1.mems, e1.nextId)
  {
    var (e1, active1) := Admit(e, cfg, active, ev, novelty, near, t);
    assert e1.nextId == e.nextId + 1 && e1.mems == e.mems[e.nextId := NewMem(cfg, ev, novelty, t)];
    SameVisible(e.mems, e1.mems, e.nextId);
  }

  lemma ConfirmKeepsVisible(m: Mem, cfg: Cfg, ev: Event, t: int)
    ensures Confirm(m, cfg, ev, t).Visible() <==> m.Visible()
  {
  }

  lemma {:induction false} SameVisible(g: Graph, g': Graph, n: nat)
    requires forall id :: id < n ==> (id in g' <==> id in g)
    requires forall id :: id < n && id in g ==> (g'[id].Visible() <==> g[id].Visible())
    ensures VisibleUpTo(g', n) == VisibleUpTo(g, n)
  {
    if n > 0 {
      SameVisible(g, g', n - 1);
    }
  }

  lemma IngestOneByOne(e: Engine, cfg: Cfg, os: seq<Observation>, t: int)
    requires Numbered(e) && os != []
    ensures Ingest(e, cfg, os, t) == Ingest(Ingest(e, cfg, [os[0]], t), cfg, os[1..], t) && Numbered(Ingest(e, cfg, [os[0]], t))
  {
    hide IngestOne;
    ActiveIsVisible(e, cfg, os[0], t);
    VisibleIn(e.mems, e.nextId);
    var (e1, active1) := IngestOne(e, cfg, VisibleUpTo(e.mems, e.nextId), os[0], t);
    VisibleIn(e1.mems, e1.nextId);
    assert [os[0]][1..] == [];
    assert IngestAll(e1, cfg, active1, [], t) == e1;
  }

  // ---------------------------------------------------------------- one event

  /** `n` is the visible memory most similar to the event, the first of several. */
  ghost predicate Nearest(g: Graph, sim: nat -> real, n: nat) {
    && n in g && g[n].Visible()
    && forall id :: id in g && g[id].Visible() ==> sim(id) <= sim(n) && (id < n ==> sim(id) < sim(n))
  }

  ghost predicate Ascending(active: seq<nat>) {
    forall i, j :: 0 <= i < j < |active| ==> active[i] < active[j]
  }

  lemma {:induction false} VisibleAscends(g: Graph, n: nat)
    ensures Ascending(VisibleUpTo(g, n)) && forall id :: id in VisibleUpTo(g, n) ==> id < n
  {
    if n > 0 {
      VisibleAscends(g, n - 1);
      var before := VisibleUpTo(g, n - 1);
      assert forall i :: 0 <= i < |before| ==> before[i] in before;
    }
  }

  lemma {:induction false} BestIsFirst(active: seq<nat>, sim: nat -> real)
    requires active != [] && Ascending(active)
    ensures var b := BestOf(active, sim); forall id :: id in active ==> sim(id) <= sim(b) && (id < b ==> sim(id) < sim(b))
    decreases |active|
  {
    var n := |active| - 1;
    if n > 0 {
      BestIsFirst(active[..n], sim);
      var c := BestOf(active[..n], sim);
      assert c in active[..n] && forall id :: id in active ==> id in active[..n] || id == active[n];
      assert forall id :: id in active[..n] ==> id < active[n];
    }
  }

  /** `x`, or the nearer end of the unit interval. */
  function Unit(x: real): real {
    if x < 0.0 then 0.0 else if x > 1.0 then 1.0 else x
  }

  /** A repeated event counts every source that is new, or one when it names none. */
  ghost predicate Confirms(m: Mem, m': Mem, cfg: Cfg, ev: Event, t: int) {
    && m' == m.(src := m.src + ev.src, evid := m'.evid, lastSeen := t, salience := m'.salience)
    && (ev.src == {} ==> m'.evid == m.evid + 1)
    && (ev.src != {} ==> m'.evid - |m'.src| == m.evid - |m.src|)
    && m'.salience == (if cfg.salienceOn && Unit(ev.salience) > m.salience then Unit(ev.salience) else m.salience)
  }

  /** A new memory with the event's content: born at `t`, unused, and worth more the less it resembles the others. */
  ghost predicate Holds(m: Mem, cfg: Cfg, ev: Event, novelty: real, t: int) {
    && m.belief == ev.belief && m.value == ev.value && m.src == ev.src && m.evid == 1
    && m.birth == t && m.lastSeen == t && m.lastHit.None? && m.hits == 0 && m.dHit == 0.0 && m.dShadow == 0.0
    && m.Current() && m.archivedAt.None? && !m.pendingReview && m.aggMembers == []
    && m.pool != Archive && (m.pool == Candidate <==> cfg.twoPool)
    && m.v == cfg.vInit + (if cfg.noveltyOn then cfg.noveltyBonus * novelty else 0.0)
    && m.salience == (if cfg.salienceOn then Unit(ev.salience) else cfg.salienceDefault)
  }

  lemma NewSources(had: set<nat>, more: set<nat>)
    ensures |had + more| == |had| + |more - had|
  {
    assert had + more == had + (more - had);
  }

  lemma ConfirmConfirms(m: Mem, cfg: Cfg, ev: Event, t: int)
    ensures Confirms(m, Confirm(m, cfg, ev, t), cfg, ev, t)
  {
    NewSources(m.src, ev.src);
  }

  lemma NewHolds(cfg: Cfg, ev: Event, novelty: real, t: int)
    ensures Holds(NewMem(cfg, ev, novelty, t), cfg, ev, novelty, t)
  {
  }

  lemma NearestIsBest(e: Engine, sim: nat -> real, n: nat)
    requires Numbered(e) && Nearest(e.mems, sim, n)
    ensures var active := VisibleUpTo(e.mems, e.nextId); active != [] && BestOf(active, sim) == n
  {
    var active := VisibleUpTo(e.mems, e.nextId);
    VisibleIn(e.mems, e.nextId);
    VisibleAscends(e.mems, e.nextId);
    assert n in active;
    BestIsFirst(active, sim);
    assert BestOf(active, sim) in active;
  }

  lemma OneEvent(e: Engine, cfg: Cfg, o: Observation, t: int)
    requires Numbered(e)
    ensures var active := VisibleUpTo(e.mems, e.nextId);
            (forall id :: id in active ==> id in e.mems) && Ingest(e, cfg, [o], t) == IngestOne(e, cfg, active, o, t).0
  {
    hide IngestOne;
    ActiveIsVisible(e, cfg, o, t);
    assert [o][1..] == [];
    var (e1, active1) := IngestOne(e, cfg, VisibleUpTo(e.mems, e.nextId), o, t);
    VisibleIn(e1.mems, e1.nextId);
    assert IngestAll(e1, cfg, active1, [], t) == e1;
  }

  /** An event that repeats the nearest memory above the threshold confirms it and changes nothing else. Any other
      event becomes a memory of its own; one that is too near to a memory that says something else is in tension with
      it, and with no other. */
  lemma EventOutcome(e: Engine, cfg: Cfg, o: Observation, t: int, n: nat)
    requires Numbered(e) && Nearest(e.mems, o.sim, n)
    ensures var g, e', id, near := e.mems, Ingest(e, cfg, [o], t), e.nextId, o.sim(n) > cfg.tauDup;
            if cfg.ingestDedup && near && o.ev.belief == g[n].belief && o.ev.value == g[n].value then
              && n in e'.mems && e' == e.(mems := g[n := e'.mems[n]]) && Confirms(g[n], e'.mems[n], cfg, o.ev, t)
            else
              && e'.mems.Keys == g.Keys + {id} && e'.mems == g[id := e'.mems[id]] && e'.nextId == id + 1
              && Holds(e'.mems[id], cfg, o.ev, Unit(1.0 - o.sim(n)), t)
              && (!near || !cfg.tensionOn ==> e'.tensions == e.tensions)
              && (near && cfg.tensionOn ==> e'.tensions.Keys == e.tensions.Keys + {(n, id)}
                                             && forall k :: k in e.tensions && k != (n, id) ==> e'.tensions[k] == e.tensions[k])
              && (near && cfg.tensionOn && (n, id) !in e.tensions ==> e'.tensions[(n, id)] == Tension(t, t, 1))
  {
    hide Confirm, NewMem, Holds, Confirms, Nearest, VisibleUpTo, BestOf;
    NearestIsBest(e, o.sim, n);
    OneEvent(e, cfg, o, t);
    ConfirmConfirms(e.mems[n], cfg, o.ev, t);
    NewHolds(cfg, o.ev, Unit(1.0 - o.sim(n)), t);
    assert n < e.nextId by { NearestIsThere(e.mems, o.sim, n); }
  }

  lemma NearestIsThere(g: Graph, sim: nat -> real, n: nat)
    requires Nearest(g, sim, n)
    ensures n in g
  {
  }

  /** Without a visible memory every event is entirely new. */
  lemma FirstEventOutcome(e: Engine, cfg: Cfg, o: Observation, t: int)
    requires Numbered(e) && forall id :: id in e.mems ==> !e.mems[id].Visible()
    ensures var e', id := Ingest(e, cfg, [o], t), e.nextId;
            && id in e'.mems && e' == e.(mems := e.mems[id := e'.mems[id]], nextId := id + 1) && Holds(e'.mems[id], cfg, o.ev, 1.0, t)
  {
    hide NewMem, Holds, Confirm;
    VisibleIn(e.mems, e.nextId);
    var active := VisibleUpTo(e.mems, e.nextId);
    assert active != [] ==> active[0] in active;
    OneEvent(e, cfg, o, t);
    NewHolds(cfg, o.ev, 1.0, t);
  }

  // ---------------------------------------------------------------- whole batches

  /** Old memories keep their content, worth and place, and lose no source; old tensions stay open. */
  ghost predicate Grows(e: Engine, e': Engine) {
    && e.nextId <= e'.nextId && e.tensions.Keys <= e'.tensions.Keys
    && forall id :: id in e.mems ==>
         && id in e'.mems && e.mems[id].src <= e'.mems[id].src
         && e'.mems[id] == e.mems[id].(src := e'.mems[id].src, evid := e'.mems[id].evid,
                                       lastSeen := e'.mems[id].lastSeen, salience := e'.mems[id].salience)
  }

  ghost predicate Held(g: Graph, ev: Event) {
    exists id :: id in g && g[id].belief == ev.belief && g[id].value == ev.value && ev.src <= g[id].src
  }

  lemma GrowsSelf(e: Engine)
    ensures Grows(e, e)
  {
  }

  lemma GrowsTwice(a: Engine, b: Engine, c: Engine)
    requires Grows(a, b) && Grows(b, c)
    ensures Grows(a, c)
  {
  }

  lemma HeldStays(e: Engine, e': Engine, ev: Event)
    requires Grows(e, e') && Held(e.mems, ev)
    ensures Held(e'.mems, ev)
  {
  }

  lemma NearestOrNone(e: Engine, sim: nat -> real) returns (n: Option<nat>)
    requires Numbered(e)
    ensures n.Some? ==> Nearest(e.mems, sim, n.value)
    ensures n.None? ==> forall id :: id in e.mems ==> !e.mems[id].Visible()
  {
    var active := VisibleUpTo(e.mems, e.nextId);
    VisibleIn(e.mems, e.nextId);
    VisibleAscends(e.mems, e.nextId);
    if active == [] {
      n := None;
    } else {
      BestIsFirst(active, sim);
      n := Some(BestOf(active, sim));
    }
  }

  lemma EventHeld(e: Engine, cfg: Cfg, o: Observation, t: int)
    requires Numbered(e)
    ensures var e' := Ingest(e, cfg, [o], t); Numbered(e') && Grows(e, e') && Held(e'.mems, o.ev)
  {
    hide Ingest, Nearest;
    var n := NearestOrNone(e, o.sim);
    if n.Some? {
      EventOutcome(e, cfg, o, t, n.value);
      NearestIsThere(e.mems, o.sim, n.value);
    } else {
      FirstEventOutcome(e, cfg, o, t);
    }
  }

  /** No event of a batch is lost: each is held with its belief, its value and its sources, and nothing that was there
      before is overwritten. */
  lemma {:induction false} EventsAreHeld(e: Engine, cfg: Cfg, os: seq<Observation>, t: int)
    requires Numbered(e)
    ensures var e' := Ingest(e, cfg, os, t);
            Numbered(e') && Grows(e, e') && forall o :: o in os ==> Held(e'.mems, o.ev)
    decreases |os|
  {
    hide Numbered, Grows, Held;
    if os == [] {
      NothingObserved(e, cfg, t);
    } else {
      var e1, e' := Ingest(e, cfg, [os[0]], t), Ingest(e, cfg, os, t);
      EventHeld(e, cfg, os[0], t);
      IngestOneByOne(e, cfg, os, t);
      EventsAreHeld(e1, cfg, os[1..], t);
      GrowsTwice(e, e1, e');
      forall o | o in os
        ensures Held(e'.mems, o.ev)
      {
        if o == os[0] { HeldStays(e1, e', o.ev); } else { assert o in os[1..]; }
      }
    }
  }

  lemma NothingObserved(e: Engine, cfg: Cfg, t: int)
    ensures Ingest(e, cfg, [], t) == e && Grows(e, e)
  {
  }

  /** Every conflict that a batch brings in is put up for judgement: an event that is too near to a memory of its moment
      and says something else ends as a memory in tension with it. */
  lemma {:induction false} ConflictsAreOpened(e: Engine, cfg: Cfg, os: seq<Observation>, t: int, k: nat, n: nat)
    requires Numbered(e) && k < |os| && cfg.tensionOn
    requires var g := Ingest(e, cfg, os[..k], t).mems;
             && Nearest(g, os[k].sim, n) && os[k].sim(n) > cfg.tauDup
             && (g[n].belief != os[k].ev.belief || g[n].value != os[k].ev.value)
    ensures var e', id := Ingest(e, cfg, os, t), Ingest(e, cfg, os[..k], t).nextId;
            && id in e'.mems && e'.mems[id].belief == os[k].ev.belief && e'.mems[id].value == os[k].ev.value
            && (n, id) in e'.tensions
    decreases |os|
  {
    hide Numbered, Ingest, Nearest;
    if k == 0 {
      var e1 := Ingest(e, cfg, [os[0]], t);
      assert os[..0] == [] && Ingest(e, cfg, [], t) == e by { NothingObserved(e, cfg, t); }
      EventOutcome(e, cfg, os[0], t, n);
      IngestOneByOne(e, cfg, os, t);
      EventsAreHeld(e1, cfg, os[1..], t);
    } else {
      var e1 := Ingest(e, cfg, [os[0]], t);
      IngestOneByOne(e, cfg, os, t);
      IngestOneByOne(e, cfg, os[..k], t);
      assert os[..k][1..] == os[1..][..k - 1] && os[1..][k - 1] == os[k];
      ConflictsAreOpened(e1, cfg, os[1..], t, k - 1, n);
    }
  }
}
