/** The effects behind recalls, accepted feedback and settlements: what they do to a service's memory, and that
    they are regular effects. */
module CreditBodies {
  import opened MemoryTypes
  import opened EngineSteps
  import opened TaskTable
  import opened TaskInvariant
  import opened Sidecar
  import opened SerialHistory
  import opened EngineBodies
  import opened ChainRuns
  import Credit
  import EngineOps
  import VersionGraph
  import Verdicts

  // ---------------------------------------------------------------- what a request asks

  function Coded(ids: seq<nat>): Json {
    if ids == [] then "" else seq(ids[0], _ => '1') + "," + Coded(ids[1..])
  }

  /** The payload of a request for a verdict: which recall, and what it showed. */
  function Asking(rid: nat, selected: seq<nat>): Json {
    Coded([rid] + selected)
  }

  lemma FirstOnce(n: nat, x: Json, m: nat, y: Json)
    requires seq(n, _ => '1') + "," + x == seq(m, _ => '1') + "," + y
    ensures n == m && x == y
  {
    var s := seq(n, _ => '1') + "," + x;
    assert s == seq(m, _ => '1') + "," + y;
    assert s[n] == ',' && s[m] == ',';
    assert forall i :: 0 <= i < n || 0 <= i < m ==> s[i] == '1';
    assert s[n + 1..] == x && s[m + 1..] == y;
  }

  lemma {:induction false} CodedOnce(a: seq<nat>, b: seq<nat>)
    requires Coded(a) == Coded(b)
    ensures a == b
    decreases |a|
  {
    if a != [] && b != [] {
      FirstOnce(a[0], Coded(a[1..]), b[0], Coded(b[1..]));
      CodedOnce(a[1..], b[1..]);
    }
  }

  ghost predicate Asks(payload: Json, rid: nat, selected: seq<nat>) {
    payload == Asking(rid, selected)
  }

  lemma AsksOnce(payload: Json, rid: nat, selected: seq<nat>, rid': nat, selected': seq<nat>)
    requires Asks(payload, rid, selected) && Asks(payload, rid', selected')
    ensures rid == rid' && selected == selected'
  {
    CodedOnce([rid] + selected, [rid'] + selected');
    assert ([rid] + selected)[0] == rid && ([rid'] + selected')[0] == rid';
    assert ([rid] + selected)[1..] == selected && ([rid'] + selected')[1..] == selected';
  }

  // ---------------------------------------------------------------- the bodies

  ghost predicate NoRequests(jobs: seq<Job>) {
    forall job :: job in jobs ==> !job.kind.FeedbackPending?
  }

  /** What a search leaves of the engine, the lines it found, and the jobs it raised. */
  datatype Found = Found(engine: Engine, lines: seq<Credit.Line>, jobs: seq<Job>)

  /** A recall: the longest prefix of what the engine finds is sent and registered, within the budget. With
      credit at once, the recall counts as settled. */
  function RecallBody(look: Engine -> Found, budget: Option<nat>, atOnce: bool, answer: seq<nat> -> Json): Image -> Outcome {
    (m: Image) =>
      var found := look(m.engine);
      var shown := Credit.Sends(found.lines, budget);
      Made(Credit.Registered(m.(engine := found.engine), shown, atOnce), answer(shown), Stamped(found.jobs, found.engine.nextId), false)
  }

  /** Accepted feedback: the recall is marked, and a verdict is requested. */
  function AcceptBody(rid: nat, t: int, answer: Json): Image -> Outcome {
    (m: Image) =>
      if !Credit.MayAccept(m, rid) then Raised
      else Made(Credit.Accept(m, rid), answer, [Job(FeedbackPending, Asking(rid, m.registry[rid].selected), t, "", None, m.engine.nextId)], false)
  }

  /** The settlement of a request with the verdict `used`. Nothing used may count as a miss. */
  function SettleBody(cfg: Cfg, rid: nat, selected: seq<nat>, used: seq<bool>, t: int, answer: Json, misses: seq<Job>): Image -> Outcome {
    (m: Image) =>
      if |used| != |selected| then Raised
      else if Credit.SettledAlready(m, rid, selected) then Made(m, answer, [], false)
      else
        var (m', credited) := Credit.Settling(m, cfg, rid, selected, used, t);
        var missed := credited == [] && rid in m.registry && m.registry[rid].selected == selected;
        Made(m', answer, if missed then Stamped(misses, m'.engine.nextId) else [], false)
  }

  /** With tensions off, a suppressed hit that waits for a verdict asks for it at once, unless the pair is derived. */
  function ConflictJobs(e: Engine, cfg: Cfg, looks: seq<Look>, t: int, merge: (Json, Json) -> Json): seq<Job>
    decreases |looks|
  {
    if looks == [] then []
    else
      (if looks[0].Suppressed? && Allowed(e, looks[0]) && !looks[0].derived && cfg.shadowCredit && !cfg.tensionOn
       then [Job(ConflictPending, Coded([SortedPair(looks[0].id, looks[0].rival).0, SortedPair(looks[0].id, looks[0].rival).1]), t,
                 "conflict", Some(merge), e.nextId)]
       else [])
      + ConflictJobs(e, cfg, looks[1..], t, merge)
  }

  /** A search of the engine: what it suppresses and selects, and the lines it renders, depend on what it finds there. */
  function SearchFinds(cfg: Cfg, looks: Engine -> seq<Look>, lines: Engine -> seq<Credit.Line>, t: int, merge: (Json, Json) -> Json): Engine -> Found {
    (e: Engine) =>
      var e' := Retrieve(e, cfg, looks(Bare(e)), t);
      Found(e', lines(Bare(e')), ConflictJobs(e, cfg, looks(Bare(e)), t, merge))
  }

  /** A body that has nothing to do with feedback already given: it may register new recalls under new ids and
      drop old ones, but none with accepted unsettled feedback, and it requests no verdict. */
  ghost predicate Indifferent(run: Image -> Outcome) {
    forall m :: Fresh(m) && run(m).Made? ==> Passes(m, run(m).state) && NoRequests(run(m).jobs)
  }

  ghost predicate Fresh(m: Image) {
    forall rid :: rid in m.registry ==> rid < m.nextRid
  }

  ghost predicate Passes(m: Image, m': Image) {
    && m.nextRid <= m'.nextRid
    && (forall rid :: rid in m'.registry ==>
          if rid < m.nextRid then rid in m.registry && m'.registry[rid] == m.registry[rid] else rid < m'.nextRid && !m'.registry[rid].sent)
    && (forall rid :: Credit.Pending(m.registry, rid) ==> rid in m'.registry)
  }

  lemma RecallsAreIndifferent(look: Engine -> Found, budget: Option<nat>, atOnce: bool, answer: seq<nat> -> Json)
    requires forall e :: NoRequests(look(e).jobs)
    ensures Indifferent(RecallBody(look, budget, atOnce, answer))
  {
    hide Credit.EvictOldest, Credit.Sends, Credit.Evicted, Stamped, NoRequests, Passes;
    forall m: Image | Fresh(m)
      ensures Passes(m, RecallBody(look, budget, atOnce, answer)(m).state) && NoRequests(RecallBody(look, budget, atOnce, answer)(m).jobs)
    {
      var found := look(m.engine);
      RegisteredPasses(m, found.engine, Credit.Sends(found.lines, budget), atOnce);
      StampedKinds(found.jobs, found.engine.nextId);
    }
  }

  lemma RegisteredPasses(m: Image, e: Engine, shown: seq<nat>, atOnce: bool)
    requires Fresh(m)
    ensures Passes(m, Credit.Registered(m.(engine := e), shown, atOnce))
  {
    hide Credit.EvictOldest, Credit.Evicted;
    var registry := m.registry[m.nextRid := Ret(shown, false, atOnce, 0)];
    Credit.EvictionExact(registry, Credit.RETRIEVAL_KEEP);
    Credit.EvictedMeaning(registry, Credit.EvictOldest(registry, Credit.RETRIEVAL_KEEP), Credit.RETRIEVAL_KEEP);
    forall rid | Credit.Pending(m.registry, rid)
      ensures Credit.Pending(registry, rid)
    {
    }
  }

  lemma {:induction false} ConflictsAreNoRequests(e: Engine, cfg: Cfg, looks: seq<Look>, t: int, merge: (Json, Json) -> Json)
    ensures NoRequests(ConflictJobs(e, cfg, looks, t, merge))
    decreases |looks|
  {
    hide Allowed, Coded;
    if looks != [] {
      ConflictsAreNoRequests(e, cfg, looks[1..], t, merge);
    }
  }

  lemma EngineBodiesAreIndifferent(cfg: Cfg, steps: seq<EngineStep>, answer: Engine -> Json, jobs: Engine -> seq<Job>)
    requires cfg.Ok() && forall e :: NoRequests(jobs(e))
    ensures Indifferent(EngineBody(cfg, steps, answer, jobs))
  {
    hide EngineRun, Refuses, Stamped;
    forall m: Image | Fresh(m) && EngineBody(cfg, steps, answer, jobs)(m).Made?
      ensures NoRequests(EngineBody(cfg, steps, answer, jobs)(m).jobs)
    {
      var e := EngineRun(m.engine, cfg, steps);
      StampedKinds(jobs(Bare(e)), e.nextId);
    }
  }

  lemma StampedKinds(jobs: seq<Job>, nextId: nat)
    requires NoRequests(jobs)
    ensures NoRequests(Stamped(jobs, nextId))
  {
    forall job | job in Stamped(jobs, nextId)
      ensures !job.kind.FeedbackPending?
    {
      var i :| 0 <= i < |jobs| && Stamped(jobs, nextId)[i] == job;
      assert jobs[i] in jobs;
    }
  }

  // ---------------------------------------------------------------- the bodies are regular effects

  lemma AcceptIsRegular(rid: nat, t: int, answer: Json)
    ensures Regular(AcceptBody(rid, t, answer))
  {
  }

  lemma {:induction false} CreditAgrees(a: Engine, b: Engine, cfg: Cfg, ids: seq<nat>, used: seq<bool>, t: int)
    requires Agree(a, b)
    ensures var (ea, ca) := Credit.CreditAll(a, cfg, ids, used, t); var (eb, cb) := Credit.CreditAll(b, cfg, ids, used, t);
            StillAgree(a, ea, b, eb) && ca == cb
    decreases |ids|
  {
    hide VersionGraph.Follow;
    if ids != [] && used != [] {
      if used[0] && ids[0] in a.mems {
        CreditAgrees(Verdicts.CreditHit(a, cfg, ids[0], t), Verdicts.CreditHit(b, cfg, ids[0], t), cfg, ids[1..], used[1..], t);
      } else {
        CreditAgrees(a, b, cfg, ids[1..], used[1..], t);
      }
    }
  }

  lemma SettleIsRegular(cfg: Cfg, rid: nat, selected: seq<nat>, used: seq<bool>, t: int, answer: Json, misses: seq<Job>)
    ensures Regular(SettleBody(cfg, rid, selected, used, t, answer, misses))
  {
    hide Credit.CreditAll, Stamped;
    var run := SettleBody(cfg, rid, selected, used, t, answer, misses);
    assert CountsUp(run) by {
      forall m: Image | run(m).Made?
        ensures m.engine.nextId <= run(m).state.engine.nextId
                && forall job :: job in run(m).jobs ==> job.memoryNextId <= run(m).state.engine.nextId
      {
        CreditAgrees(m.engine, m.engine, cfg, selected, used, t);
        StampedIds(misses, run(m).state.engine.nextId);
      }
    }
    assert Blind(run) by {
      forall m: Image, n: Image | Alike(m, n)
        ensures SameOutcome(run(m), run(n))
      {
        AlikeAgrees(m, n);
        CreditAgrees(m.engine, n.engine, cfg, selected, used, t);
      }
    }
  }

  lemma AlikeAgrees(m: Image, n: Image)
    requires Alike(m, n)
    ensures Agree(m.engine, n.engine) && m.registry == n.registry && m.nextRid == n.nextRid
  {
    assert m.(engine := Bare(m.engine)).engine == n.(engine := Bare(n.engine)).engine;
  }

  /** What a search makes of the engine and what it finds turn on nothing that is not saved. */
  ghost predicate LooksSteadily(look: Engine -> Found) {
    forall a, b :: Agree(a, b) ==>
      StillAgree(a, look(a).engine, b, look(b).engine) && look(a).lines == look(b).lines && look(a).jobs == look(b).jobs
  }

  lemma RecallIsRegular(look: Engine -> Found, budget: Option<nat>, atOnce: bool, answer: seq<nat> -> Json)
    requires LooksSteadily(look)
    ensures Regular(RecallBody(look, budget, atOnce, answer))
  {
    hide Credit.EvictOldest, Credit.Sends, Stamped;
    var run := RecallBody(look, budget, atOnce, answer);
    assert CountsUp(run) by {
      forall m: Image
        ensures m.engine.nextId <= run(m).state.engine.nextId
                && forall job :: job in run(m).jobs ==> job.memoryNextId <= run(m).state.engine.nextId
      {
        assert Agree(m.engine, m.engine);
        StampedIds(look(m.engine).jobs, look(m.engine).engine.nextId);
      }
    }
    assert Blind(run) by {
      forall m: Image, n: Image | Alike(m, n)
        ensures SameOutcome(run(m), run(n))
      {
        AlikeAgrees(m, n);
        SameRecall(m, n, look, budget, atOnce, answer);
      }
    }
  }

  lemma SameRecall(m: Image, n: Image, look: Engine -> Found, budget: Option<nat>, atOnce: bool, answer: seq<nat> -> Json)
    requires Agree(m.engine, n.engine) && m.registry == n.registry && m.nextRid == n.nextRid && LooksSteadily(look)
    ensures SameOutcome(RecallBody(look, budget, atOnce, answer)(m), RecallBody(look, budget, atOnce, answer)(n))
  {
    hide Credit.EvictOldest, Credit.Sends, Stamped;
  }

  lemma {:induction false} SameConflicts(a: Engine, b: Engine, cfg: Cfg, looks: seq<Look>, t: int, merge: (Json, Json) -> Json)
    requires Agree(a, b)
    ensures ConflictJobs(a, cfg, looks, t, merge) == ConflictJobs(b, cfg, looks, t, merge)
    decreases |looks|
  {
    hide Coded;
    if looks != [] {
      SameConflicts(a, b, cfg, looks[1..], t, merge);
    }
  }

  lemma SearchesAreSteady(cfg: Cfg, looks: Engine -> seq<Look>, lines: Engine -> seq<Credit.Line>, t: int, merge: (Json, Json) -> Json)
    ensures LooksSteadily(SearchFinds(cfg, looks, lines, t, merge))
    ensures forall e :: NoRequests(SearchFinds(cfg, looks, lines, t, merge)(e).jobs)
  {
    hide Retrieve, ConflictJobs, NoRequests;
    forall a, b | Agree(a, b)
      ensures StillAgree(a, Retrieve(a, cfg, looks(Bare(a)), t), b, Retrieve(b, cfg, looks(Bare(b)), t))
      ensures ConflictJobs(a, cfg, looks(Bare(a)), t, merge) == ConflictJobs(b, cfg, looks(Bare(b)), t, merge)
    {
      RetrieveAgrees(a, b, cfg, looks(Bare(a)), t);
      SameConflicts(a, b, cfg, looks(Bare(a)), t, merge);
    }
    forall e
      ensures NoRequests(SearchFinds(cfg, looks, lines, t, merge)(e).jobs)
    {
      ConflictsAreNoRequests(e, cfg, looks(Bare(e)), t, merge);
    }
  }

  // ---------------------------------------------------------------- the bodies break no chain

  lemma HitIsSafe(e: Engine, cfg: Cfg, id: nat, t: int)
    requires Safe(e) && id in e.mems
    ensures Safe(Verdicts.CreditHit(e, cfg, id, t))
  {
    hide Sound, VersionGraph.Whole, VersionGraph.Follow;
    var e' := Verdicts.CreditHit(e, cfg, id, t);
    assert Verdicts.CreditOnly(e.mems, e'.mems);
    CreditSound(e.mems, e'.mems, e.nextId);
    EndsKept(e.mems, e'.mems, e.tensions, e.shadow);
  }

  lemma {:induction false} CreditIsSafe(e: Engine, cfg: Cfg, ids: seq<nat>, used: seq<bool>, t: int)
    requires Safe(e)
    ensures Safe(Credit.CreditAll(e, cfg, ids, used, t).0)
    decreases |ids|
  {
    hide Safe, Verdicts.CreditHit, VersionGraph.Follow;
    if ids != [] && used != [] {
      if used[0] && ids[0] in e.mems {
        HitIsSafe(e, cfg, ids[0], t);
        CreditIsSafe(Verdicts.CreditHit(e, cfg, ids[0], t), cfg, ids[1..], used[1..], t);
      } else {
        CreditIsSafe(e, cfg, ids[1..], used[1..], t);
      }
    }
  }

  /** Accepted feedback, settlements and recalls whose search is safe take a safe memory to a safe one. */
  lemma FeedbackKeepsSafe(cfg: Cfg, rid: nat, selected: seq<nat>, used: seq<bool>, t: int, answer: Json, misses: seq<Job>)
    ensures KeepsSafe(AcceptBody(rid, t, answer)) && KeepsSafe(SettleBody(cfg, rid, selected, used, t, answer, misses))
  {
    hide Safe, Credit.CreditAll, Stamped, Asking;
    forall m: Image | Safe(m.engine)
      ensures Safe(Credit.Settling(m, cfg, rid, selected, used, t).0.engine)
    {
      CreditIsSafe(m.engine, cfg, selected, used, t);
    }
  }

  lemma RecallsKeepSafe(cfg: Cfg, looks: Engine -> seq<Look>, lines: Engine -> seq<Credit.Line>, t: int, merge: (Json, Json) -> Json,
                        budget: Option<nat>, atOnce: bool, answer: seq<nat> -> Json)
    ensures KeepsSafe(RecallBody(SearchFinds(cfg, looks, lines, t, merge), budget, atOnce, answer))
  {
    hide Safe, Retrieve, ConflictJobs, Stamped, Credit.EvictOldest, Credit.Sends;
    forall m: Image | Safe(m.engine)
      ensures Safe(Retrieve(m.engine, cfg, looks(Bare(m.engine)), t))
    {
      RetrieveSafe(m.engine, cfg, looks(Bare(m.engine)), t);
    }
  }

  // ---------------------------------------------------------------- credit at once

  /** The credit inside the retrieval itself. */
  function CreditedAtOnce(q: EngineOps.Search): seq<Look> {
    if q.deferCredit then [] else EngineOps.Credited(q, EngineOps.Choose(q, |q.shortlist|).0)
  }

  /** The lines show what the retrieval selected, in its order, among others. */
  predicate Renders(lines: seq<Credit.Line>, q: EngineOps.Search) {
    Credit.Shown(lines) == EngineOps.Choose(q, |q.shortlist|).0
  }

  /** Whatever is searched: what a retrieval credits itself is among what the recall then sends. */
  ghost predicate CreditsOnlySent(deferred: bool, budget: Option<nat>) {
    forall q: EngineOps.Search, lines, look :: q.deferCredit == deferred && Renders(lines, q) && look in CreditedAtOnce(q) ==>
      look.id in Credit.Sends(lines, budget)
  }

  lemma {:induction false} CreditedWereSelected(q: EngineOps.Search, selected: seq<nat>)
    ensures forall look :: look in EngineOps.Credited(q, selected) ==> look.id in selected
    decreases |selected|
  {
    if selected != [] {
      CreditedWereSelected(q, selected[..|selected| - 1]);
    }
  }

  /** A query that finds one relevant memory. */
  function FindsOne(): EngineOps.Search {
    EngineOps.Search([0], _ => 1.0, (_, _) => 0.0, (_, _) => false, _ => true, 1, 0.0, 1.0, true, false, true)
  }

  /** Retrieval credits only what is sent, for all recalls, exactly when credit is deferred or recalls have
      no budget. */
  lemma PrefixCreditExactly(deferred: bool, budget: Option<nat>)
    ensures CreditsOnlySent(deferred, budget) <==> deferred || budget.None?
  {
    hide EngineOps.Choose, EngineOps.Credited;
    if deferred || budget.None? {
      forall q: EngineOps.Search, lines, look | q.deferCredit == deferred && Renders(lines, q) && look in CreditedAtOnce(q)
        ensures look.id in Credit.Sends(lines, budget)
      {
        CreditedWereSelected(q, EngineOps.Choose(q, |q.shortlist|).0);
        UnlimitedSendsAll(lines);
      }
    } else {
      OneTooLong(budget.value);
    }
  }

  lemma UnlimitedSendsAll(lines: seq<Credit.Line>)
    ensures Credit.Sends(lines, None) == Credit.Shown(lines)
  {
    assert lines[..|lines|] == lines;
    assert Credit.Fits(lines, |lines|, None);
  }

  /** One line that is longer than the budget. */
  lemma OneTooLong(budget: nat)
    ensures var q, lines := FindsOne(), [Credit.Line(budget + 1, Some(0))];
            Renders(lines, q) && Selected(0) in CreditedAtOnce(q) && 0 !in Credit.Sends(lines, Some(budget))
  {
    var q, lines := FindsOne(), [Credit.Line(budget + 1, Some(0))];
    assert lines[..1] == lines && lines[..0] == [] && Credit.Cost(lines) == budget + 1;
    assert EngineOps.Choose(q, 0) == ([], []);
    assert EngineOps.Choose(q, 1).0 == [0];
    assert [0][..0] == [];
  }

  // ---------------------------------------------------------------- the bodies are the steps of the desk

  /** The memory of a service is what the desk works on. */
  predicate DeskOf(d: Credit.Desk, m: Image) {
    Credit.Memory(d) == m
  }

  lemma RecallIsDeskStep(d: Credit.Desk, m: Image, cfg: Cfg, look: Engine -> Found, budget: Option<nat>, atOnce: bool, answer: seq<nat> -> Json)
    requires DeskOf(d, m)
    ensures var found, made := look(m.engine), RecallBody(look, budget, atOnce, answer)(m);
            var searched := Credit.Take(d, cfg, Credit.Otherwise(found.engine));
            var d' := Credit.Take(searched, cfg, Credit.Recall(found.lines, budget, atOnce));
            && made.Made? && DeskOf(d', made.state)
            && Credit.Evicted(m.registry[m.nextRid := Ret(d'.shown[m.nextRid], false, atOnce, 0)], made.state.registry, Credit.RETRIEVAL_KEEP)
  {
    hide Credit.EvictOldest, Credit.Sends, Credit.Evicted, Stamped;
    var shown := Credit.Sends(look(m.engine).lines, budget);
    Credit.EvictionExact(m.registry[m.nextRid := Ret(shown, false, atOnce, 0)], Credit.RETRIEVAL_KEEP);
  }

  lemma AcceptIsDeskStep(d: Credit.Desk, m: Image, cfg: Cfg, rid: nat, request: Option<string>, fingerprint: string, t: int, answer: Json)
    requires DeskOf(d, m) && (request.Some? ==> request.value !in d.captures)
    ensures var made, d' := AcceptBody(rid, t, answer)(m), Credit.Take(d, cfg, Credit.GiveFeedback(rid, request, fingerprint));
            && (made.Made? <==> Credit.Answer(d, rid, request, fingerprint).Accepted?)
            && DeskOf(d', if made.Made? then made.state else m)
            && (made.Made? ==> d'.requests == d.requests + [Credit.Request(rid, m.registry[rid].selected, false)])
  {
    hide Asking;
  }

  lemma SettleIsDeskStep(d: Credit.Desk, m: Image, cfg: Cfg, k: nat, used: seq<bool>, t: int, answer: Json, misses: seq<Job>)
    requires DeskOf(d, m) && k < |d.requests| && !d.requests[k].done
    ensures var r := d.requests[k];
            var made := SettleBody(cfg, r.rid, r.selected, used, t, answer, misses)(m);
            DeskOf(Credit.Take(d, cfg, Credit.SettleRequest(k, used, t)), if made.Made? then made.state else m)
  {
    hide Credit.CreditAll, Stamped;
  }
}
