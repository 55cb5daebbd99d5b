/** Observing events on the engine object, and closing its pools before an effect commits. */
module EngineOps {
  import opened MemoryTypes
  import opened Ordering
  import opened Capacity
  import opened Pins
  import opened Maintenance
  import opened EngineSteps
  import opened EngineHeap
  import opened MaintenanceRun
  import Verdicts

  // ---------------------------------------------------------------- observing

  /** The first of the most similar. */
  method MostSimilar(active: seq<nat>, sim: nat -> real) returns (best: nat)
    requires active != []
    ensures best == BestOf(active, sim)
    ensures exists k :: 0 <= k < |active| && active[k] == best
              && (forall i :: 0 <= i < |active| ==> sim(active[i]) <= sim(best)) && (forall i :: 0 <= i < k ==> sim(active[i]) < sim(best))
  {
    hide BestOf;
    best := active[0];
    ghost var k := 0;
    BestOfOne(active, sim);
    for i := 1 to |active|
      invariant best == BestOf(active[..i], sim) && k < i && active[k] == best
      invariant forall j :: 0 <= j < i ==> sim(active[j]) <= sim(best)
      invariant forall j :: 0 <= j < k ==> sim(active[j]) < sim(best)
    {
      BestOfNext(active, sim, i);
      if sim(active[i]) > sim(best) {
        best := active[i];
        k := i;
      }
    }
    assert active[..|active|] == active;
  }

  lemma BestOfOne(active: seq<nat>, sim: nat -> real)
    requires active != []
    ensures BestOf(active[..1], sim) == active[0]
  {
  }

  lemma BestOfNext(active: seq<nat>, sim: nat -> real, i: nat)
    requires 0 < i < |active|
    ensures var best := BestOf(active[..i], sim); BestOf(active[..i + 1], sim) == if sim(active[i]) > sim(best) then active[i] else best
  {
    assert active[..i + 1][..i] == active[..i];
  }

  method ListVisible(eng: MemoryEngine) returns (active: seq<nat>)
    requires eng.Valid()
    ensures active == VisibleUpTo(eng.Graph(), eng.nextId)
  {
    hide Mem.Visible;
    var g := eng.Graph();
    active := [];
    for id := 0 to eng.nextId
      invariant active == VisibleUpTo(g, id)
    {
      if id in eng.mems && g[id].Visible() {
        active := active + [id];
      }
    }
  }

  ghost predicate Present(g: Graph, ids: seq<nat>) {
    forall id :: id in ids ==> id in g
  }

  /** One event: confirm the nearest memory, or add a new one. Returns the memories to compare the next
      event with. */
  method IngestEvent(eng: MemoryEngine, active: seq<nat>, o: Observation, t: int) returns (next: seq<nat>)
    requires eng.Valid() && Present(eng.Graph(), active)
    modifies eng, eng.Objects()
    ensures eng.Valid() && eng.Grew() && Present(eng.Graph(), next)
    ensures (eng.State(), next) == IngestOne(old(eng.State()), eng.cfg, active, o, t)
  {
    hide Confirm, Admit, BestOf, Clamp;
    ghost var e := eng.State();
    if active == [] {
      next := AdmitEvent(eng, active, o.ev, 1.0, None, t);
      return;
    }
    var best := MostSimilar(active, o.sim);
    assert best in active;
    var sim := o.sim(best);
    var m := eng.mems[best];
    if eng.cfg.ingestDedup && sim > eng.cfg.tauDup && o.ev.belief == m.belief && o.ev.value == m.value {
      eng.ConfirmOne(m, o.ev, t);
      return active;
    }
    next := AdmitEvent(eng, active, o.ev, Clamp(1.0 - sim, 0.0, 1.0), if sim > eng.cfg.tauDup then Some(best) else None, t);
  }

  /** A new memory, in tension with the one it is too close to. */
  method AdmitEvent(eng: MemoryEngine, active: seq<nat>, ev: Event, novelty: real, near: Option<nat>, t: int) returns (next: seq<nat>)
    requires eng.Valid() && Present(eng.Graph(), active)
    modifies eng, eng.Objects()
    ensures eng.Valid() && eng.Grew() && Present(eng.Graph(), next)
    ensures (eng.State(), next) == Admit(old(eng.State()), eng.cfg, active, ev, novelty, near, t)
  {
    hide NewMem;
    var made := eng.Insert(NewMem(eng.cfg, ev, novelty, t));
    if near.Some? {
      eng.AddTension(made.id, near.value, t);
    }
    next := active + [made.id];
  }

  method RunIngest(eng: MemoryEngine, os: seq<Observation>, t: int)
    requires eng.Valid()
    modifies eng, eng.Objects()
    ensures eng.Valid() && eng.Grew()
    ensures eng.State() == Ingest(old(eng.State()), eng.cfg, os, t)
  {
    hide IngestOne, VisibleUpTo;
    ghost var e := eng.State();
    var active := ListVisible(eng);
    assert eng.State() == e;
    VisibleIn(e.mems, e.nextId);
    ghost var all := IngestAll(e, eng.cfg, active, os, t);
    assert os[0..] == os;
    for i := 0 to |os|
      invariant eng.Valid() && eng.Grew() && Present(eng.Graph(), active)
      invariant IngestAll(eng.State(), eng.cfg, active, os[i..], t) == all
    {
      assert os[i..][1..] == os[i + 1..];
      active := IngestEvent(eng, active, os[i], t);
    }
  }

  // ---------------------------------------------------------------- retrieving

  /** A query against the memories it shortlisted, best first: how good each is, how similar two are, and
      what the semantics says about them. */
  datatype Search = Search(
    shortlist: seq<nat>, quality: nat -> real, sim: (nat, nat) -> real, derived: (nat, nat) -> bool, relevant: nat -> bool,
    k: nat, theta: real, tauSim: real, suppressionOn: bool, deferCredit: bool, usefulHit: bool)

  function Near(q: Search, id: nat): nat -> real {
    (r: nat) => q.sim(id, r)
  }

  /** Which of the selected memories suppresses `id`: the first of the most similar ones, if it is too similar. */
  function Rival(q: Search, selected: seq<nat>, id: nat): Option<nat> {
    if !q.suppressionOn || selected == [] || Near(q, id)(BestOf(selected, Near(q, id))) <= q.tauSim then None
    else Some(BestOf(selected, Near(q, id)))
  }

  function SuppressedBy(q: Search, id: nat, rival: nat): Look {
    Suppressed(id, rival, q.relevant(id), q.derived(id, rival))
  }

  /** What a retrieval selects of the first `n` of its shortlist, and what it suppresses: it takes what is good
      enough and has no rival until there are `k`. */
  function Choose(q: Search, n: nat): (seq<nat>, seq<Look>)
    requires n <= |q.shortlist|
  {
    if n == 0 then ([], [])
    else
      var (selected, looks) := Choose(q, n - 1);
      var id := q.shortlist[n - 1];
      if |selected| == q.k || q.quality(id) < q.theta then (selected, looks)
      else if Rival(q, selected, id).None? then (selected + [id], looks)
      else (selected, looks + [SuppressedBy(q, id, Rival(q, selected, id).value)])
  }

  /** The selections that are credited at once. */
  function Credited(q: Search, selected: seq<nat>): seq<Look> {
    if selected == [] then []
    else
      var n := |selected| - 1;
      Credited(q, selected[..n]) + if q.relevant(selected[n]) || !q.usefulHit then [Selected(selected[n])] else []
  }

  ghost predicate Searchable(g: Graph, ids: seq<nat>) {
    && (forall i :: 0 <= i < |ids| ==> ids[i] in g && g[ids[i]].Current())
    && (forall i, j :: 0 <= i < j < |ids| ==> ids[i] != ids[j])
  }

  lemma {:induction false} RetrieveMore(e: Engine, cfg: Cfg, looks: seq<Look>, look: Look, t: int)
    ensures Retrieve(e, cfg, looks + [look], t) == LookOne(Retrieve(e, cfg, looks, t), cfg, look, t)
    decreases |looks|
  {
    hide LookOne;
    if looks == [] {
      assert looks + [look] == [look] && [look][1..] == [];
    } else {
      assert (looks + [look])[1..] == looks[1..] + [look];
      RetrieveMore(LookOne(e, cfg, looks[0], t), cfg, looks[1..], look, t);
    }
  }

  method RecordShadowPending(eng: MemoryEngine, id: nat, rival: nat, t: int, relevant: bool)
    requires eng.Valid()
    modifies eng`shadow
    ensures eng.State() == RecordShadow(old(eng.State()), eng.cfg, id, rival, t, relevant)
  {
    ghost var g := eng.Graph();
    eng.shadow := eng.shadow + [Shadow(SortedPair(id, rival), id, t, relevant)];
    if |eng.shadow| > eng.cfg.shadowPendingCap {
      eng.shadow := eng.shadow[1..];
    }
    assert eng.Graph() == g;
  }

  /** Suppress a memory by the most similar one selected so far, or select it. */
  method TrySelect(eng: MemoryEngine, q: Search, selected: seq<nat>, id: nat, t: int) returns (taken: bool, ghost look: Look)
    requires eng.Valid() && Searchable(eng.Graph(), selected + [id])
    modifies eng`shadow, eng`tensions
    ensures eng.Graph() == old(eng.Graph())
    ensures taken <==> Rival(q, selected, id).None?
    ensures taken ==> eng.State() == old(eng.State()) && (q.suppressionOn ==> forall r :: r in selected ==> q.sim(id, r) <= q.tauSim)
    ensures !taken ==> && look == SuppressedBy(q, id, Rival(q, selected, id).value)
                       && look.rival in selected && q.sim(id, look.rival) > q.tauSim
                       && (forall r :: r in selected ==> q.sim(id, r) <= q.sim(id, look.rival))
                       && eng.State() == LookOne(old(eng.State()), eng.cfg, look, t)
  {
    hide LookOne, BestOf, Searchable;
    ghost var e := eng.State();
    look := Selected(id);
    if !q.suppressionOn || selected == [] {
      return true, look;
    }
    var near := Near(q, id);
    var rival := MostSimilar(selected, near);
    assert eng.Graph() == e.mems;
    assert forall r :: near(r) == q.sim(id, r);
    assert forall i :: 0 <= i < |selected| ==> near(selected[i]) <= near(rival);
    if near(rival) <= q.tauSim {
      return true, look;
    }
    look := SuppressedBy(q, id, rival);
    MayLook(e, selected, id, rival, look);
    Suppress(eng, id, rival, q.relevant(id), q.derived(id, rival), t);
    taken := false;
  }

  /** Derived pairs are not judged: neither shadow credit nor a tension comes of them. */
  method Suppress(eng: MemoryEngine, id: nat, rival: nat, relevant: bool, derived: bool, t: int)
    requires eng.Valid() && Allowed(eng.State(), Suppressed(id, rival, relevant, derived))
    modifies eng`shadow, eng`tensions
    ensures eng.Graph() == old(eng.Graph())
    ensures eng.State() == LookOne(old(eng.State()), eng.cfg, Suppressed(id, rival, relevant, derived), t)
  {
    hide RecordShadow, Verdicts.AddTension;
    ghost var e := eng.State();
    if !derived {
      if eng.cfg.shadowCredit {
        RecordShadowPending(eng, id, rival, t, relevant);
      }
      SameMems(eng.State(), eng.cfg, id, rival, t);
      eng.AddTension(id, rival, t);
      assert eng.Graph() == e.mems by { RecordMems(e, eng.cfg, id, rival, t, relevant); }
    }
  }

  lemma SameMems(e: Engine, cfg: Cfg, left: nat, right: nat, t: int)
    ensures Verdicts.AddTension(e, cfg, left, right, t).mems == e.mems
  {
  }

  lemma RecordMems(e: Engine, cfg: Cfg, id: nat, rival: nat, t: int, relevant: bool)
    ensures RecordShadow(e, cfg, id, rival, t, relevant).mems == e.mems
  {
  }

  lemma MayLook(e: Engine, selected: seq<nat>, id: nat, rival: nat, look: Look)
    requires Searchable(e.mems, selected + [id]) && rival in selected
    requires look.Suppressed? && look.id == id && look.rival == rival
    ensures Allowed(e, look)
  {
    var i :| 0 <= i < |selected| && selected[i] == rival;
    assert (selected + [id])[i] == rival && (selected + [id])[|selected|] == id;
  }

  /** Selected memories are good enough, no two of them are too similar, and there are at most `k`. */
  ghost predicate WellSelected(q: Search, selected: seq<nat>) {
    && |selected| <= q.k
    && (forall i :: 0 <= i < |selected| ==> selected[i] in q.shortlist && q.quality(selected[i]) >= q.theta)
    && (q.suppressionOn ==> forall i, j :: 0 <= i < j < |selected| ==> q.sim(selected[j], selected[i]) <= q.tauSim)
  }

  /** What a retrieval changes is what its suppressions and then its credited selections change, one after the
      other; and only current versions take part. */
  method RunRetrieve(eng: MemoryEngine, q: Search, t: int) returns (selected: seq<nat>, ghost looks: seq<Look>)
    requires eng.Valid() && Searchable(eng.Graph(), q.shortlist)
    modifies eng, eng.Objects()
    ensures eng.Valid() && eng.mems == old(eng.mems)
    ensures eng.State() == Retrieve(old(eng.State()), eng.cfg, looks, t)
    ensures WellSelected(q, selected) && selected == Choose(q, |q.shortlist|).0
    ensures looks == Choose(q, |q.shortlist|).1 + if q.deferCredit then [] else Credited(q, selected)
  {
    selected, looks := SelectShortlist(eng, q, t);
    assert looks + [] == looks;
    if !q.deferCredit {
      looks := CreditSelected(eng, q, selected, looks, old(eng.State()), t);
    }
  }

  ghost predicate TakenFrom(q: Search, selected: seq<nat>, n: nat) {
    && n <= |q.shortlist|
    && (forall i :: 0 <= i < |selected| ==> selected[i] in q.shortlist[..n])
    && (forall i, j :: 0 <= i < j < |selected| ==> selected[i] != selected[j])
  }

  method SelectShortlist(eng: MemoryEngine, q: Search, t: int) returns (selected: seq<nat>, ghost looks: seq<Look>)
    requires eng.Valid() && Searchable(eng.Graph(), q.shortlist)
    modifies eng`shadow, eng`tensions
    ensures eng.Graph() == old(eng.Graph()) && eng.State() == Retrieve(old(eng.State()), eng.cfg, looks, t)
    ensures WellSelected(q, selected) && Searchable(eng.Graph(), selected)
    ensures (selected, looks) == Choose(q, |q.shortlist|)
  {
    hide LookOne, Retrieve, WellSelected, TakenFrom, Searchable, Rival;
    ghost var e := eng.State();
    selected, looks := [], [];
    NothingSelected(q, e, eng.cfg, t);
    for i := 0 to |q.shortlist|
      invariant eng.Graph() == e.mems && eng.State() == Retrieve(e, eng.cfg, looks, t)
      invariant WellSelected(q, selected) && TakenFrom(q, selected, i)
      invariant (selected, looks) == Choose(q, i)
    {
      if |selected| == q.k {
        ChooseStops(q, i, |q.shortlist|);
        break;
      }
      var id := q.shortlist[i];
      NextTaken(q, selected, i);
      if q.quality(id) >= q.theta {
        StillSearchable(e.mems, q, selected, i);
        var taken, look := TrySelect(eng, q, selected, id, t);
        if taken {
          OneMoreSelected(q, selected, i);
          selected := selected + [id];
        } else {
          RetrieveMore(e, eng.cfg, looks, look, t);
          looks := looks + [look];
        }
      }
    }
    SelectedSearchable(e.mems, q, selected);
  }

  lemma {:induction false} ChooseStops(q: Search, i: nat, n: nat)
    requires i <= n <= |q.shortlist| && |Choose(q, i).0| == q.k
    ensures Choose(q, n) == Choose(q, i)
    decreases n
  {
    if i < n {
      ChooseStops(q, i, n - 1);
    }
  }

  /** A memory that was suppressed has a rival among those selected before it: too similar, and no other one
      more similar. */
  ghost predicate RivalledIn(q: Search, selected: seq<nat>, look: Look) {
    look.Suppressed? && look == SuppressedBy(q, look.id, look.rival) && q.quality(look.id) >= q.theta
    && look.rival in selected && q.sim(look.id, look.rival) > q.tauSim
    && exists m :: 0 <= m <= |selected| && look.rival in selected[..m] && forall r :: r in selected[..m] ==> q.sim(look.id, r) <= q.sim(look.id, look.rival)
  }

  lemma BestIsBest(ids: seq<nat>, sim: nat -> real, r: nat)
    requires r in ids
    ensures sim(r) <= sim(BestOf(ids, sim))
    decreases |ids|
  {
    var n := |ids| - 1;
    if n > 0 && r != ids[n] {
      assert r in ids[..n];
      BestIsBest(ids[..n], sim, r);
    } else if n > 0 {
      assert r == ids[n];
    }
  }

  lemma RivalRivals(q: Search, selected: seq<nat>, id: nat)
    requires Rival(q, selected, id).Some? && q.quality(id) >= q.theta
    ensures RivalledIn(q, selected, SuppressedBy(q, id, Rival(q, selected, id).value))
  {
    var near := Near(q, id);
    var rival := BestOf(selected, near);
    assert forall r :: near(r) == q.sim(id, r);
    forall r | r in selected
      ensures near(r) <= near(rival)
    {
      BestIsBest(selected, near, r);
    }
    assert selected[..|selected|] == selected;
  }

  lemma StillRivalled(q: Search, selected: seq<nat>, more: seq<nat>, look: Look)
    requires RivalledIn(q, selected, look)
    ensures RivalledIn(q, selected + more, look)
  {
    var m :| 0 <= m <= |selected| && look.rival in selected[..m] && forall r :: r in selected[..m] ==> q.sim(look.id, r) <= q.sim(look.id, look.rival);
    assert (selected + more)[..m] == selected[..m];
  }

  /** Nothing good is passed over: while there is room, whatever is good enough is selected, or suppressed by the
      most similar one selected before it; and only such memories are suppressed. */
  lemma {:induction false} GoodOnesAreTaken(q: Search, n: nat)
    requires n <= |q.shortlist|
    ensures var (selected, looks) := Choose(q, n);
            && (forall look :: look in looks ==> RivalledIn(q, selected, look))
            && (forall i :: 0 <= i < n && q.quality(q.shortlist[i]) >= q.theta ==>
                  || q.shortlist[i] in selected || |selected| == q.k
                  || exists look :: look in looks && look.Suppressed? && look.id == q.shortlist[i])
    decreases n
  {
    hide Rival, RivalledIn, SuppressedBy;
    if n > 0 {
      GoodOnesAreTaken(q, n - 1);
      var (before, seen) := Choose(q, n - 1);
      var (selected, looks) := Choose(q, n);
      var id := q.shortlist[n - 1];
      forall look | look in seen
        ensures RivalledIn(q, selected, look)
      {
        if selected != before { StillRivalled(q, before, [id], look); }
      }
      if looks != seen {
        RivalRivals(q, before, id);
        assert looks == seen + [SuppressedBy(q, id, Rival(q, before, id).value)];
        SuppressedById(q, id, Rival(q, before, id).value);
        assert SuppressedBy(q, id, Rival(q, before, id).value) in looks;
      }
    }
  }

  lemma SuppressedById(q: Search, id: nat, rival: nat)
    ensures SuppressedBy(q, id, rival).Suppressed? && SuppressedBy(q, id, rival).id == id
  {
  }

  lemma NothingSelected(q: Search, e: Engine, cfg: Cfg, t: int)
    ensures WellSelected(q, []) && TakenFrom(q, [], 0) && Retrieve(e, cfg, [], t) == e
  {
  }

  lemma NextTaken(q: Search, selected: seq<nat>, n: nat)
    requires TakenFrom(q, selected, n) && n < |q.shortlist|
    ensures TakenFrom(q, selected, n + 1)
  {
    assert q.shortlist[..n + 1] == q.shortlist[..n] + [q.shortlist[n]];
  }

  lemma StillSearchable(g: Graph, q: Search, selected: seq<nat>, n: nat)
    requires Searchable(g, q.shortlist) && TakenFrom(q, selected, n) && n < |q.shortlist|
    ensures Searchable(g, selected + [q.shortlist[n]])
    ensures forall i :: 0 <= i < |selected| ==> selected[i] != q.shortlist[n]
  {
    forall i | 0 <= i < |selected|
      ensures selected[i] in g && g[selected[i]].Current() && selected[i] != q.shortlist[n]
    {
      var k :| 0 <= k < n && q.shortlist[..n][k] == selected[i];
      assert q.shortlist[k] == selected[i];
    }
  }

  lemma OneMoreSelected(q: Search, selected: seq<nat>, n: nat)
    requires WellSelected(q, selected) && TakenFrom(q, selected, n) && n < |q.shortlist| && |selected| != q.k
    requires q.quality(q.shortlist[n]) >= q.theta
    requires forall i :: 0 <= i < |selected| ==> selected[i] != q.shortlist[n]
    requires q.suppressionOn ==> forall r :: r in selected ==> q.sim(q.shortlist[n], r) <= q.tauSim
    ensures WellSelected(q, selected + [q.shortlist[n]]) && TakenFrom(q, selected + [q.shortlist[n]], n + 1)
  {
    NextTaken(q, selected, n);
    assert q.shortlist[..n + 1][n] == q.shortlist[n];
  }

  lemma SelectedSearchable(g: Graph, q: Search, selected: seq<nat>)
    requires Searchable(g, q.shortlist) && WellSelected(q, selected)
    requires exists n :: TakenFrom(q, selected, n)
    ensures Searchable(g, selected)
  {
    forall i | 0 <= i < |selected|
      ensures selected[i] in g && g[selected[i]].Current()
    {
      assert selected[i] in q.shortlist;
      var k :| 0 <= k < |q.shortlist| && q.shortlist[k] == selected[i];
    }
  }

  lemma CurrentIsItself(e: Engine, cfg: Cfg, id: nat, t: int)
    requires id in e.mems && e.mems[id].Current()
    ensures LookOne(e, cfg, Selected(id), t) == e.(mems := e.mems[id := Verdicts.HitMem(e.mems[id], cfg, t)])
  {
  }

  lemma HitKeepsCurrent(g: Graph, cfg: Cfg, id: nat, t: int, ids: seq<nat>)
    requires id in g && Searchable(g, ids)
    ensures Searchable(g[id := Verdicts.HitMem(g[id], cfg, t)], ids)
  {
  }

  method CreditSelected(eng: MemoryEngine, q: Search, selected: seq<nat>, ghost before: seq<Look>, ghost e: Engine, t: int)
    returns (ghost looks: seq<Look>)
    requires eng.Valid() && Searchable(eng.Graph(), selected) && eng.State() == Retrieve(e, eng.cfg, before, t) && !q.deferCredit
    modifies eng.Objects()
    ensures eng.Valid() && eng.State() == Retrieve(e, eng.cfg, looks, t) && looks == before + Credited(q, selected)
  {
    hide LookOne, Retrieve, Verdicts.HitMem, Searchable;
    looks := before;
    for i := 0 to |selected|
      invariant eng.Valid() && Searchable(eng.Graph(), selected) && eng.State() == Retrieve(e, eng.cfg, looks, t)
      invariant looks == before + Credited(q, selected[..i])
    {
      var id := selected[i];
      assert selected[..i + 1][..i] == selected[..i];
      assert before + Credited(q, selected[..i]) + [Selected(id)] == before + (Credited(q, selected[..i]) + [Selected(id)]);
      if q.relevant(id) || !q.usefulHit {
        SearchableAt(eng.Graph(), selected, i);
        CurrentIsItself(eng.State(), eng.cfg, id, t);
        HitKeepsCurrent(eng.Graph(), eng.cfg, id, t, selected);
        RetrieveMore(e, eng.cfg, looks, Selected(id), t);
        eng.HitOne(eng.mems[id], t);
        looks := looks + [Selected(id)];
      }
    }
    assert selected[..|selected|] == selected;
  }

  lemma SearchableAt(g: Graph, ids: seq<nat>, i: nat)
    requires Searchable(g, ids) && i < |ids|
    ensures ids[i] in g && g[ids[i]].Current()
  {
  }

  // ---------------------------------------------------------------- closing the pools

  /** Carry out the capacity plan, or refuse the effect when the limits cannot be met. The caller rolls
      a refused effect back. */
  method EnforceCapacity(eng: MemoryEngine, roots: set<nat>, made: set<nat>, t: int) returns (ok: bool)
    requires eng.Valid()
    modifies eng, eng.Objects()
    ensures eng.Valid()
    ensures ok <==> EngineSteps.EnforceCapacity(old(eng.State()), eng.cfg, roots, made, t).Some?
    ensures ok ==> eng.State() == EngineSteps.EnforceCapacity(old(eng.State()), eng.cfg, roots, made, t).value
  {
    hide PinClosure, PinRoots, PlanCapacity, ApplyPlan;
    ghost var e := eng.State();
    var pins := PinnedIds(eng, roots);
    assert eng.Graph() == e.mems;
    pins := pins + made;
    eng.external := pins;
    assert eng.Graph() == e.mems;
    if !eng.cfg.capacityOn {
      return true;
    }
    var plan := PlanCapacity(eng.Graph(), eng.cfg, pins, Some(t));
    if !plan.accepted {
      return false;
    }
    PlanStored(e.mems, eng.cfg, pins, t);
    ArchiveAll(eng, plan.archive, t);
    DeleteAll(eng, plan.delete);
    PlanApplied(e.mems, plan, t);
    ok := true;
  }

  method DeleteAll(eng: MemoryEngine, ids: seq<nat>)
    requires eng.Valid()
    modifies eng`mems
    ensures eng.Valid() && eng.State() == old(eng.State()).(mems := old(eng.Graph()) - Elems(ids))
  {
    ghost var g := eng.Graph();
    for i := 0 to |ids|
      invariant eng.Valid() && eng.mems == old(eng.mems) - Elems(ids[..i])
    {
      assert ids[..i + 1] == ids[..i] + [ids[i]];
      eng.mems := eng.mems - {ids[i]};
    }
    assert ids[..|ids|] == ids;
    assert eng.Graph() == g - Elems(ids);
  }

  lemma PlanStored(g: Graph, cfg: Cfg, pins: set<nat>, t: int)
    ensures var archive := PlanCapacity(g, cfg, pins, Some(t)).archive; forall i :: 0 <= i < |archive| ==> archive[i] in g
  {
    hide OverflowingCandidates;
    OverflowStored(g, cfg.capC, pins);
    assert PlanCapacity(g, cfg, pins, Some(t)).archive == OverflowingCandidates(g, cfg.capC, pins);
  }

  lemma PlanApplied(g: Graph, plan: Plan, t: int)
    ensures Archived(g, Elems(plan.archive), t) - Elems(plan.delete) == ApplyPlan(g, plan, t)
  {
  }
}
