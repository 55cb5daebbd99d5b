/** The engine's operations as functions of its state: observing events, retrieving, judging,
    maintaining, and closing the pools before an effect commits. */
module EngineSteps {
  import opened MemoryTypes
  import opened VersionGraph
  import opened Capacity
  import opened Pins
  import opened Maintenance
  import opened Verdicts

  // ---------------------------------------------------------------- observing

  datatype Event = Event(belief: int, value: string, src: set<nat>, salience: real)

  /** An event with the similarity of its vector to every memory's vector. */
  datatype Observation = Observation(ev: Event, sim: nat -> real)

  /** The first of the most similar. */
  function BestOf(active: seq<nat>, sim: nat -> real): (b: nat)
    requires active != []
    ensures b in active
    decreases |active|
  {
    var n := |active| - 1;
    if n == 0 then active[0]
    else
      var b := BestOf(active[..n], sim);
      if sim(active[n]) > sim(b) then active[n] else b
  }

  function VisibleUpTo(g: Graph, n: nat): seq<nat> {
    if n == 0 then []
    else VisibleUpTo(g, n - 1) + if n - 1 in g && g[n - 1].Visible() then [n - 1] else []
  }

  predicate Verbatim(cfg: Cfg, m: Mem, ev: Event, s: real) {
    cfg.ingestDedup && s > cfg.tauDup && ev.belief == m.belief && ev.value == m.value
  }

  function Confirm(m: Mem, cfg: Cfg, ev: Event, t: int): Mem {
    m.(evid := m.evid + (if ev.src != {} then |ev.src - m.src| else 1),
       lastSeen := t,
       src := m.src + ev.src,
       salience := if cfg.salienceOn then Max(m.salience, Clamp(ev.salience, 0.0, 1.0)) else m.salience)
  }

  function NewMem(cfg: Cfg, ev: Event, novelty: real, t: int): Mem {
    Mem(ev.belief, ev.value, if cfg.twoPool then Candidate else Main,
        cfg.vInit + (if cfg.noveltyOn then cfg.noveltyBonus * novelty else 0.0),
        0, 1, t, None, t, None, None, None, [], false, ev.src, 0.0, 0.0,
        if cfg.salienceOn then Clamp(ev.salience, 0.0, 1.0) else cfg.salienceDefault, None)
  }

  /** A new memory, in tension with the one it is too close to, if any. */
  function Admit(e: Engine, cfg: Cfg, active: seq<nat>, ev: Event, novelty: real, near: Option<nat>, t: int): (Engine, seq<nat>) {
    var id := e.nextId;
    var e1 := e.(mems := e.mems[id := NewMem(cfg, ev, novelty, t)], nextId := id + 1);
    (if near.Some? then AddTension(e1, cfg, id, near.value, t) else e1, active + [id])
  }

  /** One event: a verbatim repeat confirms its nearest neighbour; anything else becomes a memory of
      its own, in tension with a neighbour that is too similar. */
  function IngestOne(e: Engine, cfg: Cfg, active: seq<nat>, o: Observation, t: int): (Engine, seq<nat>)
    requires forall id :: id in active ==> id in e.mems
  {
    if active != [] && Verbatim(cfg, e.mems[BestOf(active, o.sim)], o.ev, o.sim(BestOf(active, o.sim))) then
      var b := BestOf(active, o.sim);
      (e.(mems := e.mems[b := Confirm(e.mems[b], cfg, o.ev, t)]), active)
    else
      var novelty := if active == [] then 1.0 else Clamp(1.0 - o.sim(BestOf(active, o.sim)), 0.0, 1.0);
      var near := if active != [] && o.sim(BestOf(active, o.sim)) > cfg.tauDup then Some(BestOf(active, o.sim)) else None;
      Admit(e, cfg, active, o.ev, novelty, near, t)
  }

  function IngestAll(e: Engine, cfg: Cfg, active: seq<nat>, os: seq<Observation>, t: int): Engine
    requires forall id :: id in active ==> id in e.mems
    decreases |os|
  {
    if os == [] then e
    else
      var (e1, active1) := IngestOne(e, cfg, active, os[0], t);
      IngestAll(e1, cfg, active1, os[1..], t)
  }

  lemma {:induction false} VisibleIn(g: Graph, n: nat)
    ensures forall id :: id in VisibleUpTo(g, n) <==> id < n && id in g && g[id].Visible()
  {
    if n > 0 {
      VisibleIn(g, n - 1);
    }
  }

  function Ingest(e: Engine, cfg: Cfg, os: seq<Observation>, t: int): Engine {
    VisibleIn(e.mems, e.nextId);
    IngestAll(e, cfg, VisibleUpTo(e.mems, e.nextId), os, t)
  }

  // ---------------------------------------------------------------- retrieving

  /** What retrieval does to one shortlisted version: it is suppressed by a selected rival, or it is
      selected and credited at once. */
  datatype Look =
    | Suppressed(id: nat, rival: nat, relevant: bool, derived: bool)
    | Selected(id: nat)

  function RecordShadow(e: Engine, cfg: Cfg, id: nat, rival: nat, t: int, relevant: bool): Engine {
    var grown := e.shadow + [Shadow(SortedPair(id, rival), id, t, relevant)];
    e.(shadow := if |grown| > cfg.shadowPendingCap then grown[1..] else grown)
  }

  /** Retrieval only ever looks at current versions, and suppresses one of them by another. */
  predicate Allowed(e: Engine, look: Look) {
    match look
    case Suppressed(id, rival, _, _) =>
      id in e.mems && rival in e.mems && id != rival && e.mems[id].Current() && e.mems[rival].Current()
    case Selected(id) => id in e.mems && e.mems[id].Current()
  }

  function LookOne(e: Engine, cfg: Cfg, look: Look, t: int): Engine {
    if !Allowed(e, look) then e
    else match look
      case Suppressed(id, rival, relevant, derived) =>
        if derived then e
        else
          var e1 := if cfg.shadowCredit then RecordShadow(e, cfg, id, rival, t, relevant) else e;
          AddTension(e1, cfg, id, rival, t)
      case Selected(id) => CreditHit(e, cfg, id, t)
  }

  function Retrieve(e: Engine, cfg: Cfg, looks: seq<Look>, t: int): Engine
    decreases |looks|
  {
    if looks == [] then e else Retrieve(LookOne(e, cfg, looks[0], t), cfg, looks[1..], t)
  }

  // ---------------------------------------------------------------- closing the pools

  /** The pins an effect commits under: the closure of the service's roots, and what it just made. */
  function ProtectedIds(e: Engine, roots: set<nat>, made: set<nat>): set<nat> {
    PinClosure(e.mems, PinRoots(e, roots)) + made
  }

  /** None when the plan cannot close the limits: the effect is refused. */
  function EnforceCapacity(e: Engine, cfg: Cfg, roots: set<nat>, made: set<nat>, t: int): Option<Engine> {
    var pins := ProtectedIds(e, roots, made);
    var e1 := e.(external := pins);
    if !cfg.capacityOn then Some(e1)
    else
      var plan := PlanCapacity(e.mems, cfg, pins, Some(t));
      if !plan.accepted then None else Some(e1.(mems := ApplyPlan(e.mems, plan, t)))
  }

  // ---------------------------------------------------------------- runs

  datatype EngineStep =
    | Observe(os: seq<Observation>, t: int)
    | Search(looks: seq<Look>, t: int)
    | Submit(js: seq<Judgement>, t: int)
    | Step(t: int)
    | Protect(roots: set<nat>)
    | Close(roots: set<nat>, made: set<nat>, t: int)

  /** A refused effect leaves the state as it was. */
  function EngineNext(e: Engine, cfg: Cfg, step: EngineStep): Engine
    requires cfg.Ok()
  {
    match step
    case Observe(os, t) => Ingest(e, cfg, os, t)
    case Search(looks, t) => Retrieve(e, cfg, looks, t)
    case Submit(js, t) => SubmitVerdicts(e, cfg, js, t)
    case Step(t) => Maintain(e, cfg, t)
    case Protect(roots) => e.(external := ProtectedIds(e, roots, {}))
    case Close(roots, made, t) =>
      var r := EnforceCapacity(e, cfg, roots, made, t);
      if r.Some? then r.value else e
  }

  function EngineRun(e: Engine, cfg: Cfg, steps: seq<EngineStep>): Engine
    requires cfg.Ok()
    decreases |steps|
  {
    if steps == [] then e else EngineRun(EngineNext(e, cfg, steps[0]), cfg, steps[1..])
  }
}
