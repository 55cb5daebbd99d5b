/** What a retrieval's choices come to: who is credited, by how much, and which conflicts are put up for judgement. */
module RetrievalOutcomes {
  import opened MemoryTypes
  import opened VersionGraph
  import opened Verdicts
  import opened EngineSteps
  import opened EngineOps
  import opened TaskTable
  import opened CreditOutcomes
  import opened CreditBodies

  /** A selection earns credit at once when it was relevant, or when relevance is not asked for. */
  predicate Earns(q: Search, id: nat) {
    q.relevant(id) || !q.usefulHit
  }

  lemma {:induction false} SelectionsEarn(q: Search, selected: seq<nat>)
    ensures forall look :: look in Credited(q, selected) <==> look.Selected? && look.id in selected && Earns(q, look.id)
    decreases |selected|
  {
    if selected != [] {
      var n := |selected| - 1;
      SelectionsEarn(q, selected[..n]);
      assert selected == selected[..n] + [selected[n]];
    }
  }

  lemma {:induction false} ChoiceSuppresses(q: Search, n: nat)
    requires n <= |q.shortlist|
    ensures forall look :: look in Choose(q, n).1 ==> look.Suppressed? && look.relevant == q.relevant(look.id) && look.derived == q.derived(look.id, look.rival)
    ensures forall id :: id in Choose(q, n).0 ==> id in q.shortlist[..n]
    ensures forall i, j :: 0 <= i < j < |Choose(q, n).0| && Choose(q, n).0[i] == Choose(q, n).0[j] ==>
              exists k, l :: 0 <= k < l < n && q.shortlist[k] == q.shortlist[l]
    decreases n
  {
    hide Rival;
    if n > 0 {
      ChoiceSuppresses(q, n - 1);
      assert q.shortlist[..n] == q.shortlist[..n - 1] + [q.shortlist[n - 1]];
      var before, after := Choose(q, n - 1).0, Choose(q, n).0;
      forall i, j | 0 <= i < j < |after| && after[i] == after[j]
        ensures exists k, l :: 0 <= k < l < n && q.shortlist[k] == q.shortlist[l]
      {
        if j < |before| {
          var k, l :| 0 <= k < l < n - 1 && q.shortlist[k] == q.shortlist[l];
        } else {
          assert before[i] in q.shortlist[..n - 1];
        }
      }
    }
  }

  lemma {:induction false} SuppressionsWriteNothing(e: Engine, cfg: Cfg, looks: seq<Look>, t: int)
    requires forall look :: look in looks ==> look.Suppressed?
    ensures Retrieve(e, cfg, looks, t).mems == e.mems
    decreases |looks|
  {
    if looks != [] {
      assert looks[0] in looks && forall look :: look in looks[1..] ==> look in looks;
      SuppressionsWriteNothing(LookOne(e, cfg, looks[0], t), cfg, looks[1..], t);
    }
  }

  lemma {:induction false} RetrieveJoined(e: Engine, cfg: Cfg, a: seq<Look>, b: seq<Look>, t: int)
    ensures Retrieve(e, cfg, a + b, t) == Retrieve(Retrieve(e, cfg, a, t), cfg, b, t)
    decreases |a|
  {
    hide LookOne;
    if a == [] {
      assert a + b == b;
    } else {
      assert (a + b)[1..] == a[1..] + b;
      RetrieveJoined(LookOne(e, cfg, a[0], t), cfg, a[1..], b, t);
    }
  }

  /** Crediting distinct current versions at once gives each that earns it one useful hit, and changes no other. */
  lemma {:induction false} SelectionsAreCredited(e: Engine, cfg: Cfg, q: Search, selected: seq<nat>, t: int, id: nat)
    requires Searchable(e.mems, selected) && id in e.mems
    ensures var e' := Retrieve(e, cfg, Credited(q, selected), t);
            && e'.mems.Keys == e.mems.Keys && SamePointers(e.mems, e'.mems)
            && (forall x :: x in e.mems ==> (e'.mems[x].Current() <==> e.mems[x].Current()))
            && Gains(e.mems[id], e'.mems[id], if id in selected && Earns(q, id) then 1 else 0, t)
    decreases |selected|
  {
    hide Gains, Follow, LookOne, Earns, SamePointers;
    if selected == [] {
      NoGain(e.mems[id], t);
      SamePointersSelf(e.mems);
    } else {
      var n := |selected| - 1;
      var last, before := selected[n], Credited(q, selected[..n]);
      assert selected == selected[..n] + [last];
      assert Searchable(e.mems, selected[..n]) by { assert forall i :: 0 <= i < n ==> selected[..n][i] == selected[i]; }
      SelectionsAreCredited(e, cfg, q, selected[..n], t, id);
      var e1 := Retrieve(e, cfg, before, t);
      if Earns(q, last) {
        assert Credited(q, selected) == before + [Selected(last)] by { EarnsIs(q, last); }
        RetrieveMore(e, cfg, before, Selected(last), t);
        OneCredited(e, e1, cfg, last, t, id, if id in selected[..n] && Earns(q, id) then 1 else 0);
        assert id == last ==> id !in selected[..n];
      } else {
        assert Credited(q, selected) == before by { EarnsIs(q, last); assert before + [] == before; }
      }
    }
  }

  lemma EarnsIs(q: Search, id: nat)
    ensures Earns(q, id) <==> q.relevant(id) || !q.usefulHit
  {
  }

  lemma SamePointersSelf(g: Graph)
    ensures SamePointers(g, g)
  {
  }

  lemma OneCredited(e: Engine, e1: Engine, cfg: Cfg, last: nat, t: int, id: nat, n: nat)
    requires e1.mems.Keys == e.mems.Keys && SamePointers(e.mems, e1.mems) && last in e.mems && id in e.mems && e.mems[last].Current()
    requires forall x :: x in e.mems ==> (e1.mems[x].Current() <==> e.mems[x].Current())
    requires Gains(e.mems[id], e1.mems[id], n, t) && (id == last ==> n == 0)
    ensures var e' := LookOne(e1, cfg, Selected(last), t);
            && e'.mems.Keys == e.mems.Keys && SamePointers(e.mems, e'.mems)
            && (forall x :: x in e.mems ==> (e'.mems[x].Current() <==> e.mems[x].Current()))
            && Gains(e.mems[id], e'.mems[id], if id == last then 1 else n, t)
  {
    hide Follow, CreditHit;
    HitOutcome(e1, cfg, last, t);
    HitKeepsPointers(e1, cfg, last, t);
    assert RepOf(e1.mems, last) == last by { RootStands(e1.mems, last); }
  }

  lemma RootStands(g: Graph, id: nat)
    requires id in g && g[id].Root()
    ensures RepOf(g, id) == id
  {
  }

  /** A retrieval that credits at once gives one useful hit to each memory that it selects and that earns it, and changes
      no memory otherwise, whatever it suppresses; one that defers changes none at all. */
  lemma RetrievalCredits(e: Engine, cfg: Cfg, q: Search, t: int, id: nat)
    requires Searchable(e.mems, q.shortlist) && id in e.mems
    ensures var (selected, looks) := Choose(q, |q.shortlist|);
            && Retrieve(e, cfg, looks, t).mems == e.mems
            && var e' := Retrieve(e, cfg, looks + Credited(q, selected), t);
            && id in e'.mems && Gains(e.mems[id], e'.mems[id], if id in selected && Earns(q, id) then 1 else 0, t)
  {
    hide Choose, Gains, Credited, Retrieve;
    var (selected, looks) := Choose(q, |q.shortlist|);
    ChoiceSuppresses(q, |q.shortlist|);
    SuppressionsWriteNothing(e, cfg, looks, t);
    RetrieveJoined(e, cfg, looks, Credited(q, selected), t);
    assert q.shortlist[..|q.shortlist|] == q.shortlist;
    assert Searchable(e.mems, selected) by {
      forall i | 0 <= i < |selected|
        ensures selected[i] in e.mems && e.mems[selected[i]].Current()
      {
        assert selected[i] in q.shortlist;
      }
    }
    SelectionsAreCredited(Retrieve(e, cfg, looks, t), cfg, q, selected, t, id);
  }

  // ---------------------------------------------------------------- conflicts without tensions

  /** The suppression asks for a verdict at once: it waits for one, and no tension will. */
  predicate Conflicts(e: Engine, cfg: Cfg, look: Look) {
    && look.Suppressed? && cfg.shadowCredit && !cfg.tensionOn && !look.derived && look.id != look.rival
    && look.id in e.mems && look.rival in e.mems && e.mems[look.id].Current() && e.mems[look.rival].Current()
  }

  /** How many of the looks do. */
  function Conflicting(e: Engine, cfg: Cfg, looks: seq<Look>): nat {
    if looks == [] then 0 else (if Conflicts(e, cfg, looks[0]) then 1 else 0) + Conflicting(e, cfg, looks[1..])
  }

  function PairText(look: Look): Json
    requires look.Suppressed?
  {
    Coded([SortedPair(look.id, look.rival).0, SortedPair(look.id, look.rival).1])
  }

  ghost predicate AskedBy(jobs: seq<Job>, look: Look)
    requires look.Suppressed?
  {
    exists job :: job in jobs && job.payload == PairText(look)
  }

  ghost predicate AsksFor(e: Engine, cfg: Cfg, looks: seq<Look>, job: Job) {
    exists look :: look in looks && Conflicts(e, cfg, look) && job.payload == PairText(look)
  }

  lemma FirstConflict(e: Engine, cfg: Cfg, looks: seq<Look>, t: int, merge: (Json, Json) -> Json)
    requires looks != []
    ensures ConflictJobs(e, cfg, looks, t, merge) ==
              (if Conflicts(e, cfg, looks[0]) then [Job(ConflictPending, PairText(looks[0]), t, "conflict", Some(merge), e.nextId)] else [])
              + ConflictJobs(e, cfg, looks[1..], t, merge)
  {
    hide Coded;
  }

  /** These suppressions, and no others, put their pairs up for judgement, each with one task. */
  lemma {:induction false} ConflictsExactly(e: Engine, cfg: Cfg, looks: seq<Look>, t: int, merge: (Json, Json) -> Json)
    ensures var jobs := ConflictJobs(e, cfg, looks, t, merge);
            && |jobs| == Conflicting(e, cfg, looks)
            && (forall look :: look in looks && Conflicts(e, cfg, look) ==> AskedBy(jobs, look))
            && (forall job :: job in jobs ==>
                  AsksFor(e, cfg, looks, job) && job.kind == ConflictPending && job.key == "conflict" && job.t == t && job.merge == Some(merge))
    decreases |looks|
  {
    hide ConflictJobs, PairText;
    if looks == [] {
      assert ConflictJobs(e, cfg, looks, t, merge) == [] by { NoConflicts(e, cfg, t, merge); }
    } else {
      var rest, jobs := ConflictJobs(e, cfg, looks[1..], t, merge), ConflictJobs(e, cfg, looks, t, merge);
      ConflictsExactly(e, cfg, looks[1..], t, merge);
      FirstConflict(e, cfg, looks, t, merge);
      forall look | look in looks && Conflicts(e, cfg, look)
        ensures AskedBy(jobs, look)
      {
        if look == looks[0] {
          assert jobs[0] in jobs;
        } else {
          assert look in looks[1..] && AskedBy(rest, look);
        }
      }
      forall job | job in jobs
        ensures AsksFor(e, cfg, looks, job) && job.kind == ConflictPending && job.key == "conflict" && job.t == t && job.merge == Some(merge)
      {
        if job in rest {
          assert AsksFor(e, cfg, looks[1..], job);
        } else {
          assert looks[0] in looks;
        }
      }
    }
  }

  lemma NoConflicts(e: Engine, cfg: Cfg, t: int, merge: (Json, Json) -> Json)
    ensures ConflictJobs(e, cfg, [], t, merge) == []
  {
  }
}
