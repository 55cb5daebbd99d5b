/** Runs from a fresh installation in which every effect is one of the service's own: engine operations, recalls,
    feedback and settlements. */
module ServiceRuns {
  import opened MemoryTypes
  import opened TaskTable
  import opened TaskInvariant
  import opened Sidecar
  import opened SerialHistory
  import opened EngineSteps
  import opened ChainRuns
  import opened EngineBodies
  import opened CreditBodies
  import opened UnitHandover
  import opened Restarts
  import Credit

  ghost predicate Operates(run: Image -> Outcome, cfg: Cfg)
    requires cfg.Ok()
  {
    exists steps, answer, jobs :: PinsNamed(steps, false) && run == EngineBody(cfg, steps, answer, jobs)
  }

  ghost predicate Recalls(run: Image -> Outcome, cfg: Cfg) {
    exists looks, lines, t, merge, budget, atOnce, answer ::
      run == RecallBody(SearchFinds(cfg, looks, lines, t, merge), budget, atOnce, answer)
  }

  ghost predicate Accepts(run: Image -> Outcome) {
    exists rid, t, answer :: run == AcceptBody(rid, t, answer)
  }

  ghost predicate Settles(run: Image -> Outcome, cfg: Cfg) {
    exists rid, selected, used, t, answer, misses :: run == SettleBody(cfg, rid, selected, used, t, answer, misses)
  }

  ghost predicate Serves(run: Image -> Outcome, cfg: Cfg)
    requires cfg.Ok()
  {
    Operates(run, cfg) || Recalls(run, cfg) || Accepts(run) || Settles(run, cfg)
  }

  ghost predicate Serving(a: Action, cfg: Cfg)
    requires cfg.Ok()
  {
    match a
    case Effect(_, run, _, _) => Serves(run, cfg)
    case Captured(_, _, run, _, _) => Serves(run, cfg)
    case UnitNext(_, run, _, _) => Serves(run, cfg)
    case CompleteTask(_, _, _, mutate, _, _, _) => forall r :: Serves(mutate(r), cfg)
    case Operate(_, _, _, _, run, _, _, _) => Serves(run, cfg)
    case _ => true
  }

  /** Every effect of the service counts ids up, turns on nothing that is not saved, and keeps memories safe. */
  lemma ServesWell(run: Image -> Outcome, cfg: Cfg)
    requires cfg.Ok() && Serves(run, cfg)
    ensures Regular(run) && KeepsSafe(run)
  {
    hide Regular, KeepsSafe, EngineBody, RecallBody, AcceptBody, SettleBody, SearchFinds, LooksSteadily;
    if Operates(run, cfg) {
      var steps, answer, jobs :| PinsNamed(steps, false) && run == EngineBody(cfg, steps, answer, jobs);
      EngineBodiesAreRegular(cfg, steps, answer, jobs);
      EngineBodiesKeepSafe(cfg, steps, answer, jobs);
    } else if Recalls(run, cfg) {
      var looks, lines, t, merge, budget, atOnce, answer :|
        run == RecallBody(SearchFinds(cfg, looks, lines, t, merge), budget, atOnce, answer);
      SearchesAreSteady(cfg, looks, lines, t, merge);
      RecallIsRegular(SearchFinds(cfg, looks, lines, t, merge), budget, atOnce, answer);
      RecallsKeepSafe(cfg, looks, lines, t, merge, budget, atOnce, answer);
    } else if Accepts(run) {
      var rid, t, answer :| run == AcceptBody(rid, t, answer);
      AcceptIsRegular(rid, t, answer);
      FeedbackKeepsSafe(cfg, rid, [], [], t, answer, []);
    } else {
      var rid, selected, used, t, answer, misses :| run == SettleBody(cfg, rid, selected, used, t, answer, misses);
      SettleIsRegular(cfg, rid, selected, used, t, answer, misses);
      FeedbackKeepsSafe(cfg, rid, selected, used, t, answer, misses);
    }
  }

  lemma ServingIsSane(a: Action, cfg: Cfg)
    requires cfg.Ok() && Serving(a, cfg)
    ensures Sane(a) && SafeBody(a)
  {
    hide Serves, Regular, KeepsSafe;
    forall run | Serves(run, cfg)
      ensures Regular(run) && KeepsSafe(run)
    {
      ServesWell(run, cfg);
    }
  }

  /** From an empty installation, whatever instances, workers and the network do: the durable memory is the replay of
      the committed effects and keeps its chains whole, units are applied in their order, and the next start goes
      through. */
  lemma ServiceRunsAreSafe(capacity: nat, actions: seq<Action>, empty: Image, cfg: Cfg)
    requires cfg.Ok() && Safe(empty.engine) && forall a :: a in actions ==> Serving(a, cfg)
    ensures var end := Run(System(EmptyDb(capacity), Evidence([], map[]), map[], []), actions, empty);
            && Serial(end, empty) && InOrder(end) && Booted(end.db, empty).Some?
            && Safe(Durable(end.db, empty).engine)
  {
    hide Serial, InOrder, NothingClaimedYet, Safe, Serving, Sane, SafeBody, Run, Booted, LogInOrder;
    var sys := System(EmptyDb(capacity), Evidence([], map[]), map[], []);
    FreshSystem(capacity, empty);
    forall a | a in actions
      ensures Sane(a) && SafeBody(a)
    {
      ServingIsSane(a, cfg);
    }
    RunsAreSerial(sys, actions, empty);
    RunsHandOverInOrder(sys, actions, empty);
    StartsAlwaysSucceed(sys, actions, empty);
    DurableMemoryIsSafe(sys, actions, empty);
  }
}
