/** The engine behind the effects: what the operations of the engine do to a service's memory, and that it
    turns on nothing a checkpoint leaves out. */
module EngineBodies {
  import opened MemoryTypes
  import opened VersionGraph
  import Capacity
  import opened Pins
  import opened Maintenance
  import opened EngineSteps
  import opened ChainRuns
  import opened TaskTable
  import TaskInvariant
  import opened Sidecar
  import opened SerialHistory
  import V = Verdicts

  // ---------------------------------------------------------------- nothing turns on the unsaved fields

  /** Equal but for the named pins and the count of broken walks. */
  predicate Agree(a: Engine, b: Engine) {
    Bare(a) == Bare(b)
  }

  /** Two engines that agreed agree again, and neither changed its named pins or lowered its id counter. */
  predicate StillAgree(a: Engine, a': Engine, b: Engine, b': Engine) {
    Agree(a', b') && a'.external == a.external && b'.external == b.external && a'.nextId >= a.nextId
  }

  lemma SettleOneAgrees(a: Engine, b: Engine, cfg: Cfg, s: Shadow, key: Pair, verdict: V.Verdict)
    requires Agree(a, b)
    ensures StillAgree(a, V.SettleOne(a, cfg, s, key, verdict), b, V.SettleOne(b, cfg, s, key, verdict))
  {
    hide Follow;
  }

  lemma {:induction false} EntriesAgree(a: Engine, b: Engine, cfg: Cfg, entries: seq<Shadow>, key: Pair, verdict: V.Verdict)
    requires Agree(a, b)
    ensures StillAgree(a, V.SettleEntries(a, cfg, entries, key, verdict), b, V.SettleEntries(b, cfg, entries, key, verdict))
    decreases |entries|
  {
    hide V.SettleOne;
    if entries != [] {
      SettleOneAgrees(a, b, cfg, entries[0], key, verdict);
      EntriesAgree(V.SettleOne(a, cfg, entries[0], key, verdict), V.SettleOne(b, cfg, entries[0], key, verdict), cfg, entries[1..], key, verdict);
    }
  }

  lemma ResolutionAgrees(a: Engine, b: Engine, cfg: Cfg, x: nat, y: nat, verdict: V.Verdict, t: int)
    requires Agree(a, b) && x in a.mems && y in a.mems && x != y
    ensures StillAgree(a, V.ApplyResolution(a, cfg, x, y, verdict, t), b, V.ApplyResolution(b, cfg, x, y, verdict, t))
  {
    hide V.Aggregate, V.Absorb, V.Replace, V.Retire, V.ConditionalScopes, V.SynonymKeeps, V.UpdateKeeps;
  }

  lemma ResolveAgrees(a: Engine, b: Engine, cfg: Cfg, key: Pair, verdict: V.Verdict, t: int)
    requires Agree(a, b)
    ensures StillAgree(a, V.ResolvePair(a, cfg, key, verdict, t), b, V.ResolvePair(b, cfg, key, verdict, t))
  {
    hide Follow, V.ApplyResolution;
    if key.0 in a.mems && key.1 in a.mems {
      var x, y := RepOf(a.mems, key.0), RepOf(a.mems, key.1);
      var wa, wb := V.Walked(V.Walked(a, key.0), key.1), V.Walked(V.Walked(b, key.0), key.1);
      if x != y {
        ResolutionAgrees(wa.(tensions := wa.tensions - {key}), wb.(tensions := wb.tensions - {key}), cfg, x, y, verdict, t);
      }
    }
  }

  lemma {:induction false} SubmitAgrees(a: Engine, b: Engine, cfg: Cfg, js: seq<V.Judgement>, t: int)
    requires Agree(a, b)
    ensures StillAgree(a, V.SubmitVerdicts(a, cfg, js, t), b, V.SubmitVerdicts(b, cfg, js, t))
    decreases |js|
  {
    hide V.ResolvePair, V.SettleEntries;
    if js != [] {
      var key := SortedPair(js[0].left, js[0].right);
      EntriesAgree(a, b, cfg, a.shadow, key, js[0].verdict);
      var sa, sb := V.SettleShadow(a, cfg, key, js[0].verdict), V.SettleShadow(b, cfg, key, js[0].verdict);
      ResolveAgrees(sa, sb, cfg, key, js[0].verdict, t);
      SubmitAgrees(V.SubmitOne(a, cfg, js[0], t), V.SubmitOne(b, cfg, js[0], t), cfg, js[1..], t);
    }
  }

  lemma {:induction false} IngestAgrees(a: Engine, b: Engine, cfg: Cfg, active: seq<nat>, os: seq<Observation>, t: int)
    requires Agree(a, b) && forall id :: id in active ==> id in a.mems
    ensures StillAgree(a, IngestAll(a, cfg, active, os, t), b, IngestAll(b, cfg, active, os, t))
    decreases |os|
  {
    hide BestOf, NewMem, Confirm, Verbatim;
    if os != [] {
      var (a1, active1) := IngestOne(a, cfg, active, os[0], t);
      IngestAgrees(a1, IngestOne(b, cfg, active, os[0], t).0, cfg, active1, os[1..], t);
    }
  }

  lemma LookAgrees(a: Engine, b: Engine, cfg: Cfg, look: Look, t: int)
    requires Agree(a, b)
    ensures StillAgree(a, LookOne(a, cfg, look, t), b, LookOne(b, cfg, look, t))
  {
    hide Follow;
  }

  lemma {:induction false} RetrieveAgrees(a: Engine, b: Engine, cfg: Cfg, looks: seq<Look>, t: int)
    requires Agree(a, b)
    ensures StillAgree(a, Retrieve(a, cfg, looks, t), b, Retrieve(b, cfg, looks, t))
    decreases |looks|
  {
    hide LookOne;
    if looks != [] {
      LookAgrees(a, b, cfg, looks[0], t);
      RetrieveAgrees(LookOne(a, cfg, looks[0], t), LookOne(b, cfg, looks[0], t), cfg, looks[1..], t);
    }
  }

  lemma SamePins(a: Engine, b: Engine, roots: set<nat>)
    requires Agree(a, b)
    ensures PinClosure(a.mems, PinRoots(a, roots)) == PinClosure(b.mems, PinRoots(b, roots))
  {
    hide PinClosure;
  }

  /** Maintenance reads the named pins, and nothing else of what is not saved. */
  lemma MaintainAgrees(a: Engine, b: Engine, cfg: Cfg, t: int)
    requires cfg.Ok() && Agree(a, b) && a.external == b.external
    ensures StillAgree(a, Maintain(a, cfg, t), b, Maintain(b, cfg, t))
  {
    hide DecayAll, Rebalance, Shrink, Archived, IdleIds, Trim, PinClosure, PinRoots, BrokenWalks, Unsettled;
    assert forall g :: Pinned(a.(mems := g)) == Pinned(b.(mems := g)) by {
      forall g
        ensures Pinned(a.(mems := g)) == Pinned(b.(mems := g))
      {
        SamePins(a.(mems := g), b.(mems := g), a.external);
      }
    }
  }

  lemma CloseAgrees(a: Engine, b: Engine, cfg: Cfg, roots: set<nat>, made: set<nat>, t: int)
    requires Agree(a, b)
    ensures var ra, rb := EnforceCapacity(a, cfg, roots, made, t), EnforceCapacity(b, cfg, roots, made, t);
            && (ra.None? <==> rb.None?)
            && (ra.Some? ==> Agree(ra.value, rb.value) && ra.value.external == rb.value.external && ra.value.nextId == a.nextId)
  {
    hide PinClosure, PinRoots, Capacity.PlanCapacity, Capacity.ApplyPlan;
    SamePins(a, b, roots);
  }

  // ---------------------------------------------------------------- bodies of effects

  /** The pins are named before every maintenance step of the body; `named`: they were named before it. */
  predicate PinsNamed(steps: seq<EngineStep>, named: bool)
    decreases |steps|
  {
    |steps| > 0 ==> (steps[0].Step? ==> named) && PinsNamed(steps[1..], named || steps[0].Protect?)
  }

  /** The pools cannot be closed somewhere in the body, which then raises. */
  predicate Refuses(e: Engine, cfg: Cfg, steps: seq<EngineStep>)
    requires cfg.Ok()
    decreases |steps|
  {
    |steps| > 0 &&
    ((steps[0].Close? && EnforceCapacity(e, cfg, steps[0].roots, steps[0].made, steps[0].t).None?)
     || Refuses(EngineNext(e, cfg, steps[0]), cfg, steps[1..]))
  }

  /** An effect that works on the engine: it answers with what the engine came to, and files jobs. */
  function EngineBody(cfg: Cfg, steps: seq<EngineStep>, answer: Engine -> Json, jobs: Engine -> seq<Job>): Image -> Outcome
    requires cfg.Ok()
  {
    (m: Image) =>
      if Refuses(m.engine, cfg, steps) then Raised
      else
        var e := EngineRun(m.engine, cfg, steps);
        Made(m.(engine := e), answer(Bare(e)), Stamped(jobs(Bare(e)), e.nextId), false)
  }

  function Stamped(jobs: seq<Job>, nextId: nat): seq<Job> {
    seq(|jobs|, i requires 0 <= i < |jobs| => jobs[i].(memoryNextId := nextId))
  }

  lemma StampedIds(jobs: seq<Job>, nextId: nat)
    ensures forall job :: job in Stamped(jobs, nextId) ==> job.memoryNextId == nextId
  {
    forall job | job in Stamped(jobs, nextId)
      ensures job.memoryNextId == nextId
    {
      var i :| 0 <= i < |jobs| && Stamped(jobs, nextId)[i] == job;
    }
  }

  lemma StepAgrees(a: Engine, b: Engine, cfg: Cfg, step: EngineStep, named: bool)
    requires cfg.Ok() && Agree(a, b) && (named ==> a.external == b.external) && (step.Step? ==> named)
    ensures var a', b' := EngineNext(a, cfg, step), EngineNext(b, cfg, step);
            && Agree(a', b') && (named || step.Protect? ==> a'.external == b'.external) && a'.nextId >= a.nextId
    ensures step.Close? ==> (EnforceCapacity(a, cfg, step.roots, step.made, step.t).None? <==> EnforceCapacity(b, cfg, step.roots, step.made, step.t).None?)
  {
    hide IngestAll, Retrieve, V.SubmitVerdicts, Maintain, EnforceCapacity, PinClosure, PinRoots, VisibleUpTo;
    match step
    case Observe(os, t) =>
      VisibleIn(a.mems, a.nextId);
      IngestAgrees(a, b, cfg, VisibleUpTo(a.mems, a.nextId), os, t);
    case Search(looks, t) => RetrieveAgrees(a, b, cfg, looks, t);
    case Submit(js, t) => SubmitAgrees(a, b, cfg, js, t);
    case Step(t) => MaintainAgrees(a, b, cfg, t);
    case Protect(roots) => SamePins(a, b, roots);
    case Close(roots, made, t) => CloseAgrees(a, b, cfg, roots, made, t);
  }

  lemma {:induction false} RunAgrees(a: Engine, b: Engine, cfg: Cfg, steps: seq<EngineStep>, named: bool)
    requires cfg.Ok() && Agree(a, b) && (named ==> a.external == b.external) && PinsNamed(steps, named)
    ensures Agree(EngineRun(a, cfg, steps), EngineRun(b, cfg, steps)) && EngineRun(a, cfg, steps).nextId >= a.nextId
    ensures Refuses(a, cfg, steps) <==> Refuses(b, cfg, steps)
    decreases |steps|
  {
    hide EngineNext, Agree, EnforceCapacity;
    if steps != [] {
      StepAgrees(a, b, cfg, steps[0], named);
      RunAgrees(EngineNext(a, cfg, steps[0]), EngineNext(b, cfg, steps[0]), cfg, steps[1..], named || steps[0].Protect?);
    }
  }

  /** The body of the effect takes a safe engine to a safe one. */
  ghost predicate KeepsSafe(run: Image -> Outcome) {
    forall m: Image :: Safe(m.engine) && run(m).Made? ==> Safe(run(m).state.engine)
  }

  /** Engine operations that name the pins before they maintain are regular effects: they count ids up, and
      nothing they do, answer or file turns on pins named earlier or on the count of broken walks. */
  lemma EngineBodiesAreRegular(cfg: Cfg, steps: seq<EngineStep>, answer: Engine -> Json, jobs: Engine -> seq<Job>)
    requires cfg.Ok() && PinsNamed(steps, false)
    ensures Regular(EngineBody(cfg, steps, answer, jobs))
  {
    var run := EngineBody(cfg, steps, answer, jobs);
    assert CountsUp(run) by {
      forall m | run(m).Made?
        ensures var next := run(m).state.engine.nextId;
                m.engine.nextId <= next && forall job :: job in run(m).jobs ==> job.memoryNextId <= next
      {
        BodyCounts(m, cfg, steps, answer, jobs);
      }
    }
    assert Blind(run) by {
      forall m, n | Alike(m, n)
        ensures SameOutcome(run(m), run(n))
      {
        BodyIsBlind(m, n, cfg, steps, answer, jobs);
      }
    }
  }

  lemma BodyCounts(m: Image, cfg: Cfg, steps: seq<EngineStep>, answer: Engine -> Json, jobs: Engine -> seq<Job>)
    requires cfg.Ok() && PinsNamed(steps, false) && EngineBody(cfg, steps, answer, jobs)(m).Made?
    ensures var made := EngineBody(cfg, steps, answer, jobs)(m);
            && m.engine.nextId <= made.state.engine.nextId
            && forall job :: job in made.jobs ==> job.memoryNextId <= made.state.engine.nextId
  {
    hide EngineRun, Refuses, PinsNamed, Stamped;
    RunAgrees(m.engine, m.engine, cfg, steps, false);
    var e := EngineRun(m.engine, cfg, steps);
    StampedIds(jobs(Bare(e)), e.nextId);
  }

  lemma BodyIsBlind(m: Image, n: Image, cfg: Cfg, steps: seq<EngineStep>, answer: Engine -> Json, jobs: Engine -> seq<Job>)
    requires cfg.Ok() && PinsNamed(steps, false) && Alike(m, n)
    ensures SameOutcome(EngineBody(cfg, steps, answer, jobs)(m), EngineBody(cfg, steps, answer, jobs)(n))
  {
    hide EngineRun, Refuses, PinsNamed, Stamped;
    assert Agree(m.engine, n.engine) by {
      assert m.(engine := Bare(m.engine)).engine == n.(engine := Bare(n.engine)).engine;
    }
    RunAgrees(m.engine, n.engine, cfg, steps, false);
    var a, b := EngineRun(m.engine, cfg, steps), EngineRun(n.engine, cfg, steps);
    assert Bare(a) == Bare(b) && a.nextId == Bare(a).nextId && b.nextId == Bare(b).nextId;
  }

  /** And they break no chain. */
  lemma EngineBodiesKeepSafe(cfg: Cfg, steps: seq<EngineStep>, answer: Engine -> Json, jobs: Engine -> seq<Job>)
    requires cfg.Ok()
    ensures KeepsSafe(EngineBody(cfg, steps, answer, jobs))
  {
    hide Safe, EngineRun, Refuses;
    forall m: Image | Safe(m.engine)
      ensures Safe(EngineRun(m.engine, cfg, steps))
    {
      RunsNeverBreakChains(m.engine, cfg, steps);
    }
  }

  // ---------------------------------------------------------------- the memory behind a history

  lemma {:induction false} ReplayIsSafe(empty: Image, log: seq<Entry>)
    requires Safe(empty.engine) && SafeLog(log)
    ensures Safe(Replay(empty, log).engine)
    decreases |log|
  {
    hide Safe;
    if |log| > 0 {
      var n := |log| - 1;
      ReplayIsSafe(empty, log[..n]);
      assert KeepsSafe(log[n].run);
    }
  }

  lemma AlikeIsSafe(m: Image, n: Image)
    requires Safe(m.engine) && Alike(m, n)
    ensures Safe(n.engine)
  {
    hide Sound, Whole;
    assert n.engine.mems == Bare(n.engine).mems == m.engine.mems;
  }

  ghost predicate SafeBody(a: Action) {
    match a
    case Effect(_, run, _, _) => KeepsSafe(run)
    case Captured(_, _, run, _, _) => KeepsSafe(run)
    case UnitNext(_, run, _, _) => KeepsSafe(run)
    case CompleteTask(_, _, _, mutate, _, _, _) => forall r :: KeepsSafe(mutate(r))
    case Operate(_, _, _, _, run, _, _, _) => KeepsSafe(run)
    case _ => true
  }

  ghost predicate SafeLog(log: seq<Entry>) {
    forall j :: 0 <= j < |log| ==> KeepsSafe(log[j].run)
  }

  lemma StepKeepsSafeLog(sys: System, a: Action, empty: Image)
    requires SafeLog(sys.log) && SafeBody(a)
    ensures SafeLog(Next(sys, a, empty).log)
  {
    hide KeepsSafe, Waits, ApplyEffect, ApplyCaptured, ApplyUnit, Complete, ApplyOperation;
  }

  /** However many instances crash, retry or lose acknowledgements: as long as the bodies of the effects
      are engine operations, no chain of the durable memory is ever broken. */
  lemma {:induction false} DurableMemoryIsSafe(sys: System, actions: seq<Action>, empty: Image)
    requires Serial(sys, empty) && SafeLog(sys.log) && Safe(empty.engine)
    requires forall a :: a in actions ==> Sane(a) && SafeBody(a)
    ensures Safe(Durable(Run(sys, actions, empty).db, empty).engine)
    decreases |actions|
  {
    hide Safe, KeepsSafe, TaskInvariant.TableOk, NodeOk, FiledOk, Next, Sane, SafeBody;
    if |actions| == 0 {
      ReplayIsSafe(empty, sys.log);
      AlikeIsSafe(Replay(empty, sys.log), Durable(sys.db, empty));
    } else {
      var a := actions[0];
      assert a in actions;
      assert forall x :: x in actions[1..] ==> x in actions;
      StepSerial(sys, a, empty);
      StepKeepsSafeLog(sys, a, empty);
      DurableMemoryIsSafe(Next(sys, a, empty), actions[1..], empty);
    }
  }
}
