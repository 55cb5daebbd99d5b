/** Verdicts merge version chains exactly as union-find merges classes. */
module UnionFind {
  import opened MemoryTypes
  import opened VersionGraph
  import opened Verdicts

  /** One merging verdict: the two ids it was given, and the aggregate it created, if any. */
  datatype Merge = Merge(left: nat, right: nat, agg: Option<nat>)
  {
    function Ids(): set<nat> {
      {left, right} + if agg.Some? then {agg.value} else {}
    }
  }

  /** A run: one verdict after another, with tensions registered between them. */
  datatype LineageStep =
    | Judge(j: Judgement, t: int)
    | Register(left: nat, right: nat, t: int)

  function LineageNext(e: Engine, cfg: Cfg, step: LineageStep): Engine {
    match step
    case Judge(j, t) => SubmitOne(e, cfg, j, t)
    case Register(l, r, t) => AddTension(e, cfg, l, r, t)
  }

  function MergesOf(e: Engine, cfg: Cfg, step: LineageStep): seq<Merge> {
    if step.Register? || !Resolves(e, cfg, step.j) || step.j.verdict == Collision then []
    else
      var key := SortedPair(step.j.left, step.j.right);
      [Merge(key.0, key.1, if step.j.verdict == Contradiction then Some(e.nextId) else None)]
  }

  function Lineage(e: Engine, cfg: Cfg, steps: seq<LineageStep>): Engine
    decreases |steps|
  {
    if steps == [] then e else Lineage(LineageNext(e, cfg, steps[0]), cfg, steps[1..])
  }

  function MergeLog(e: Engine, cfg: Cfg, steps: seq<LineageStep>): seq<Merge>
    decreases |steps|
  {
    if steps == [] then []
    else MergesOf(e, cfg, steps[0]) + MergeLog(LineageNext(e, cfg, steps[0]), cfg, steps[1..])
  }

  function AsSteps(js: seq<Judgement>, t: int): seq<LineageStep> {
    if js == [] then [] else [Judge(js[0], t)] + AsSteps(js[1..], t)
  }

  /** A batch submitted in one call is a run. */
  lemma {:induction false} BatchIsRun(e: Engine, cfg: Cfg, js: seq<Judgement>, t: int)
    ensures SubmitVerdicts(e, cfg, js, t) == Lineage(e, cfg, AsSteps(js, t))
    decreases |js|
  {
    if js != [] {
      assert AsSteps(js, t)[1..] == AsSteps(js[1..], t);
      BatchIsRun(SubmitOne(e, cfg, js[0], t), cfg, js[1..], t);
    }
  }

  // ---------------------------------------------------------------- the equivalence of a merge log

  ghost predicate RespectsMerges(f: nat -> nat, log: seq<Merge>) {
    forall m, i :: m in log && i in m.Ids() ==> f(i) == f(m.left)
  }

  ghost predicate RespectsPointers(f: nat -> nat, g: Graph) {
    forall id :: id in g && g[id].Next().Some? ==> f(id) == f(g[id].Next().value)
  }

  /** The least equivalence relation that contains the pointers of `g` and the merges of `log`: no
      labelling that is constant on both tells `x` from `y`. */
  ghost predicate Related(g: Graph, log: seq<Merge>, x: nat, y: nat) {
    forall f: nat -> nat :: RespectsPointers(f, g) && RespectsMerges(f, log) ==> f(x) == f(y)
  }

  // ---------------------------------------------------------------- one step

  ghost predicate Good(e: Engine) {
    AllWhole(e.mems) && forall id :: id in e.mems ==> id < e.nextId
  }

  ghost predicate SameRep(g: Graph, x: nat, y: nat) {
    x in g && y in g && RepOf(g, x) == RepOf(g, y)
  }

  /** Versions that shared a representative still do. */
  ghost predicate Coarser(g: Graph, g': Graph) {
    forall x, y :: SameRep(g, x, y) ==> SameRep(g', x, y)
  }

  ghost predicate Labels(f: nat -> nat, g: Graph) {
    forall id {:trigger RepOf(g, id)} :: id in g ==> f(id) == f(RepOf(g, id))
  }

  /** A merging verdict hangs one root (or, for an aggregate, both) under the other (the aggregate). */
  ghost predicate MergeLinks(g: Graph, g': Graph, m: Merge, ds: set<nat>, k: nat) {
    && Linked(g, g', ds, k)
    && m.left in g && m.right in g
    && ds + {k} == {RepOf(g, m.left), RepOf(g, m.right)} + (if m.agg.Some? then {k} else {})
    && (if m.agg.Some? then k == m.agg.value && k !in g && |ds| == 2 else k in g && |ds| == 1)
  }

  lemma ResolutionLinks(e: Engine, cfg: Cfg, a: nat, b: nat, verdict: Verdict, t: int) returns (ds: set<nat>, k: nat)
    requires a in e.mems && b in e.mems && a != b && e.mems[a].Root() && e.mems[b].Root()
    requires e.nextId !in e.mems
    requires verdict in {Synonym, Update, Contradiction}
    ensures Linked(e.mems, ApplyResolution(e, cfg, a, b, verdict, t).mems, ds, k)
    ensures if verdict == Contradiction then ds == {a, b} && k == e.nextId
            else (ds == {a} && k == b) || (ds == {b} && k == a)
    ensures ApplyResolution(e, cfg, a, b, verdict, t).nextId == if verdict == Contradiction then e.nextId + 1 else e.nextId
  {
    hide Linked, SynonymKeeps, UpdateKeeps, NewEvidence, Max;
    var x, y, g := e.mems[a], e.mems[b], e.mems;
    match verdict
    case Synonym =>
      if SynonymKeeps(x, y) {
        ds, k := {b}, a;
        OneLinked(g, a, b, Absorb(x, y, cfg), Retire(y, a, t));
      } else {
        ds, k := {a}, b;
        OneLinked(g, b, a, Absorb(y, x, cfg), Retire(x, b, t));
      }
    case Update =>
      if UpdateKeeps(x, a, y, b) {
        ds, k := {b}, a;
        OneLinked(g, a, b, Replace(x, y), Retire(y, a, t));
      } else {
        ds, k := {a}, b;
        OneLinked(g, b, a, Replace(y, x), Retire(x, b, t));
      }
    case _ =>
      ds, k := {a, b}, e.nextId;
      BothLinked(e, cfg, a, b, t);
  }

  /** A kept root and a retired one. */
  lemma OneLinked(g: Graph, k: nat, d: nat, kept: Mem, gone: Mem)
    requires k in g && d in g && k != d && g[k].Root() && g[d].Root() && kept.Root() && gone.Next() == Some(k)
    ensures Linked(g, g[k := kept][d := gone], {d}, k)
  {
  }

  lemma BothLinked(e: Engine, cfg: Cfg, a: nat, b: nat, t: int)
    requires a in e.mems && b in e.mems && a != b && e.mems[a].Root() && e.mems[b].Root() && e.nextId !in e.mems
    ensures Linked(e.mems, ApplyResolution(e, cfg, a, b, Contradiction, t).mems, {a, b}, e.nextId)
    ensures ApplyResolution(e, cfg, a, b, Contradiction, t).nextId == e.nextId + 1
  {
    hide ConditionalScopes, Digits, Max;
  }

  lemma LinkedFrom(g: Graph, g1: Graph, g': Graph, ds: set<nat>, k: nat)
    requires SamePointers(g, g1) && Linked(g1, g', ds, k)
    ensures Linked(g, g', ds, k)
  {
    assert forall id :: id in g ==> (g[id].Root() <==> g1[id].Root());
  }

  /** The engine a resolving verdict hands to the resolution. */
  lemma ResolvingStep(e: Engine, cfg: Cfg, j: Judgement, t: int) returns (e2: Engine, a: nat, b: nat)
    requires Good(e) && Resolves(e, cfg, j)
    ensures var key := SortedPair(j.left, j.right);
            && j.verdict != Pending
            && key.0 in e.mems && key.1 in e.mems && a == RepOf(e.mems, key.0) && b == RepOf(e.mems, key.1)
            && a in e2.mems && b in e2.mems && a != b && e2.mems[a].Root() && e2.mems[b].Root()
            && SamePointers(e.mems, e2.mems) && e2.nextId == e.nextId && e2.nextId !in e2.mems
            && SubmitOne(e, cfg, j, t) == ApplyResolution(e2, cfg, a, b, j.verdict, t)
  {
    var key := SortedPair(j.left, j.right);
    SettleCredits(e, cfg, key, j.verdict);
    var e1 := SettleShadow(e, cfg, key, j.verdict);
    SameWhole(e.mems, e1.mems, key.0);
    SameWhole(e.mems, e1.mems, key.1);
    FollowExact(e1.mems, key.0);
    FollowExact(e1.mems, key.1);
    a, b := RepOf(e1.mems, key.0), RepOf(e1.mems, key.1);
    e2 := Walked(Walked(e1, key.0), key.1).(tensions := e1.tensions - {key});
  }

  lemma QuietStep(e: Engine, cfg: Cfg, step: LineageStep)
    requires MergesOf(e, cfg, step) == []
    ensures var e' := LineageNext(e, cfg, step); SamePointers(e.mems, e'.mems) && e'.nextId == e.nextId
  {
    hide SettleShadow, CreditOnly, SamePointers, Follow;
    CreditKeepsPointers(e.mems, e.mems);
    if step.Judge? {
      var e1 := SettleShadow(e, cfg, SortedPair(step.j.left, step.j.right), step.j.verdict);
      SettleCredits(e, cfg, SortedPair(step.j.left, step.j.right), step.j.verdict);
      CreditKeepsPointers(e.mems, e1.mems);
    }
  }

  lemma CreditKeepsPointers(g: Graph, g': Graph)
    ensures CreditOnly(g, g') || g' == g ==> SamePointers(g, g')
  {
  }

  lemma LinkedBelow(g: Graph, g': Graph, ds: set<nat>, k: nat, n: nat, n': nat)
    requires Linked(g, g', ds, k) && (forall id :: id in g ==> id < n) && n <= n' && k < n'
    ensures forall id :: id in g' ==> id < n'
  {
  }

  lemma MergeStep(e: Engine, cfg: Cfg, step: LineageStep) returns (ds: set<nat>, k: nat)
    requires Good(e) && MergesOf(e, cfg, step) != []
    ensures var e', log := LineageNext(e, cfg, step), MergesOf(e, cfg, step);
            && |log| == 1 && MergeLinks(e.mems, e'.mems, log[0], ds, k)
            && (forall id :: id in e'.mems ==> id < e'.nextId)
  {
    hide SubmitOne, ApplyResolution, AllWhole, Resolves, Linked, SamePointers, Follow, MergeLinks;
    var e2, a, b := ResolvingStep(e, cfg, step.j, step.t);
    ds, k := ResolutionLinks(e2, cfg, a, b, step.j.verdict, step.t);
    var e' := LineageNext(e, cfg, step);
    LinkedFrom(e.mems, e2.mems, e'.mems, ds, k);
    assert e2.mems.Keys == e.mems.Keys by { SameKeys(e.mems, e2.mems); }
    var log := MergesOf(e, cfg, step);
    MergeIs(e.mems, e'.mems, log[0], a, b, ds, k);
    LinkedBelow(e.mems, e'.mems, ds, k, e.nextId, e'.nextId) by {
      assert step.j.verdict != Contradiction ==> k in e2.mems.Keys;
    }
  }

  lemma MergeIs(g: Graph, g': Graph, m: Merge, a: nat, b: nat, ds: set<nat>, k: nat)
    requires Linked(g, g', ds, k) && m.left in g && m.right in g
    requires a == RepOf(g, m.left) && b == RepOf(g, m.right) && a != b
    requires if m.agg.Some? then ds == {a, b} && k == m.agg.value && k !in g
             else k in g && ((ds == {a} && k == b) || (ds == {b} && k == a))
    ensures MergeLinks(g, g', m, ds, k)
  {
    hide Linked, Follow;
  }

  lemma SameKeys(g: Graph, g': Graph)
    requires SamePointers(g, g')
    ensures g'.Keys == g.Keys
  {
  }

  lemma SameRoots(g: Graph, g': Graph)
    requires SamePointers(g, g')
    ensures Roots(g') == Roots(g)
  {
    assert forall id :: id in g ==> (g'[id].Root() <==> g[id].Root());
  }

  lemma SamePointersKeeps(g: Graph, g': Graph)
    requires SamePointers(g, g') && AllWhole(g)
    ensures AllWhole(g') && Coarser(g, g') && Roots(g') == Roots(g)
    ensures forall id {:trigger RepOf(g', id)} :: id in g ==> RepOf(g', id) == RepOf(g, id)
  {
    hide Follow, Whole, Reaches, Roots;
    SameRoots(g, g');
    forall id | id in g
      ensures Whole(g', id) && RepOf(g', id) == RepOf(g, id)
    {
      SameWhole(g, g', id);
    }
  }

  lemma LinkKeeps(g: Graph, g': Graph, ds: set<nat>, k: nat)
    requires Linked(g, g', ds, k) && AllWhole(g)
    ensures AllWhole(g') && Coarser(g, g') && RepOf(g', k) == k
    ensures forall id {:trigger RepOf(g', id)} :: id in g ==>
              RepOf(g', id) == if RepOf(g, id) in ds then k else RepOf(g, id)
  {
    hide Follow, Whole, Linked;
    LinkedKeys(g, g', ds, k);
    forall id | id in g
      ensures Whole(g', id) && RepOf(g', id) == if RepOf(g, id) in ds then k else RepOf(g, id)
    {
      LinkedRep(g, g', ds, k, id);
    }
    NewRootIsWhole(g, g', ds, k);
  }

  lemma NewRootIsWhole(g: Graph, g': Graph, ds: set<nat>, k: nat)
    requires Linked(g, g', ds, k)
    ensures Whole(g', k) && RepOf(g', k) == k
  {
    assert Reaches(g', k, 0, k);
    WalkEndsAt(g', k, 0, k);
  }

  lemma LinkDropsOneRoot(g: Graph, g': Graph, ds: set<nat>, k: nat)
    requires Linked(g, g', ds, k)
    requires if k in g then |ds| == 1 else |ds| == 2
    ensures |Roots(g')| == |Roots(g)| - 1
  {
    LinkedRoots(g, g', ds, k);
    assert ds <= Roots(g);
    assert |Roots(g) - ds| == |Roots(g)| - |ds|;
    if k in g {
      assert k in Roots(g);
      assert Roots(g') == Roots(g) - ds;
    } else {
      assert k !in Roots(g) - ds;
    }
  }

  /** Every id a merge names has the representative of its left id. */
  ghost predicate RespectsReps(g: Graph, log: seq<Merge>) {
    forall m, i :: m in log && i in m.Ids() ==> SameRep(g, i, m.left)
  }

  lemma LinkRespects(g: Graph, g': Graph, m: Merge, ds: set<nat>, k: nat)
    requires AllWhole(g) && MergeLinks(g, g', m, ds, k)
    ensures RespectsReps(g', [m])
  {
    hide Follow, Whole, Linked, AllWhole, Coarser;
    LinkKeeps(g, g', ds, k);
    LinkedKeys(g, g', ds, k);
    assert m.left in g && m.right in g && k in g';
    forall i | i in m.Ids()
      ensures SameRep(g', i, m.left)
    {
      assert i == k || RepOf(g, i) in ds + {k};
      assert RepOf(g', m.left) == k && RepOf(g', i) == k;
    }
  }

  lemma LinkLabels(g: Graph, g': Graph, m: Merge, ds: set<nat>, k: nat, f: nat -> nat)
    requires AllWhole(g) && MergeLinks(g, g', m, ds, k)
    requires Labels(f, g) && RespectsMerges(f, [m])
    ensures Labels(f, g')
  {
    hide Follow, Linked;
    LinkKeeps(g, g', ds, k);
    assert forall id :: id in g' ==> id in g || id == k by { LinkedKeys(g, g', ds, k); }
    assert m in [m] && m.left in m.Ids() && m.right in m.Ids();
    assert m.agg.Some? ==> k in m.Ids();
    assert forall d :: d in ds + {k} ==> f(d) == f(m.left);
    forall id | id in g'
      ensures f(id) == f(RepOf(g', id))
    {
      if id in g {
        assert f(id) == f(RepOf(g, id));
        assert RepOf(g, id) in ds ==> f(RepOf(g, id)) == f(k);
      }
    }
  }

  lemma LinkedKeys(g: Graph, g': Graph, ds: set<nat>, k: nat)
    requires Linked(g, g', ds, k)
    ensures g'.Keys == g.Keys + {k}
  {
  }

  /** One step keeps every chain whole, only ever joins classes, joins the ones it was told to, and
      costs one root per merge. */
  lemma StepMerges(e: Engine, cfg: Cfg, step: LineageStep)
    requires Good(e)
    ensures var e', log := LineageNext(e, cfg, step), MergesOf(e, cfg, step);
            && Good(e') && Coarser(e.mems, e'.mems)
            && RespectsReps(e'.mems, log)
            && |Roots(e'.mems)| + |log| == |Roots(e.mems)|
  {
    hide LineageNext, MergesOf, Linked, SamePointers;
    var e', log := LineageNext(e, cfg, step), MergesOf(e, cfg, step);
    if log == [] {
      QuietStep(e, cfg, step);
      SameKeys(e.mems, e'.mems);
      SamePointersKeeps(e.mems, e'.mems);
    } else {
      var ds, k := MergeStep(e, cfg, step);
      LinkKeeps(e.mems, e'.mems, ds, k);
      LinkDropsOneRoot(e.mems, e'.mems, ds, k);
      LinkRespects(e.mems, e'.mems, log[0], ds, k);
      assert log == [log[0]];
    }
  }

  lemma StepLabels(e: Engine, cfg: Cfg, step: LineageStep, f: nat -> nat)
    requires Good(e) && Labels(f, e.mems) && RespectsMerges(f, MergesOf(e, cfg, step))
    ensures Labels(f, LineageNext(e, cfg, step).mems)
  {
    hide LineageNext, MergesOf, Linked;
    var e', log := LineageNext(e, cfg, step), MergesOf(e, cfg, step);
    if log == [] {
      QuietStep(e, cfg, step);
      SameKeys(e.mems, e'.mems);
      SamePointersKeeps(e.mems, e'.mems);
    } else {
      var ds, k := MergeStep(e, cfg, step);
      assert log == [log[0]];
      LinkLabels(e.mems, e'.mems, log[0], ds, k, f);
    }
  }

  // ---------------------------------------------------------------- whole runs

  lemma {:induction false} RunMerges(e: Engine, cfg: Cfg, steps: seq<LineageStep>)
    requires Good(e)
    ensures var e', log := Lineage(e, cfg, steps), MergeLog(e, cfg, steps);
            && Good(e') && Coarser(e.mems, e'.mems)
            && RespectsReps(e'.mems, log)
            && |Roots(e'.mems)| + |log| == |Roots(e.mems)|
    decreases |steps|
  {
    if steps != [] {
      StepMerges(e, cfg, steps[0]);
      RunMerges(LineageNext(e, cfg, steps[0]), cfg, steps[1..]);
    }
  }

  lemma {:induction false} RunLabels(e: Engine, cfg: Cfg, steps: seq<LineageStep>, f: nat -> nat)
    requires Good(e) && Labels(f, e.mems) && RespectsMerges(f, MergeLog(e, cfg, steps))
    ensures Labels(f, Lineage(e, cfg, steps).mems)
    decreases |steps|
  {
    if steps != [] {
      var e1 := LineageNext(e, cfg, steps[0]);
      var rest := MergeLog(e1, cfg, steps[1..]);
      assert MergeLog(e, cfg, steps) == MergesOf(e, cfg, steps[0]) + rest;
      StepLabels(e, cfg, steps[0], f);
      StepMerges(e, cfg, steps[0]);
      RunLabels(e1, cfg, steps[1..], f);
    }
  }

  lemma {:induction false} LabelAlongChain(g: Graph, f: nat -> nat, x: nat, n: nat, r: nat)
    requires RespectsPointers(f, g) && Reaches(g, x, n, r)
    ensures f(x) == f(r)
    decreases n
  {
    if n > 0 {
      LabelAlongChain(g, f, g[x].Next().value, n - 1, r);
    }
  }

  lemma PointersLabel(g: Graph, f: nat -> nat)
    requires AllWhole(g) && RespectsPointers(f, g)
    ensures Labels(f, g)
  {
    forall id | id in g
      ensures f(id) == f(RepOf(g, id))
    {
      assert Whole(g, id);
      var n: nat, r :| Reaches(g, id, n, r);
      WalkEndsAt(g, id, n, r);
      LabelAlongChain(g, f, id, n, r);
    }
  }

  lemma PointersShareRep(g: Graph, id: nat)
    requires AllWhole(g) && id in g && g[id].Next().Some?
    ensures SameRep(g, id, g[id].Next().value)
  {
    assert Whole(g, id);
    var n: nat, r :| Reaches(g, id, n, r);
    WalkEndsAt(g, id, n, r);
    WalkEndsAt(g, g[id].Next().value, n - 1, r);
  }

  lemma {:induction false} SuccIsCloser(g: Graph, id: nat, n: nat, d: nat, r: nat)
    requires Reaches(g, id, d, r) && Succ(g, id, n).Some? && Succ(g, id, n).value in g
    ensures n <= d && Reaches(g, Succ(g, id, n).value, d - n, r)
    decreases n
  {
    if n > 0 {
      SuccIsCloser(g, g[id].Next().value, n - 1, d - 1, r);
    }
  }

  lemma WholeNoCycle(g: Graph)
    requires AllWhole(g)
    ensures NoCycle(g)
  {
    forall id: nat, n: nat | n > 0
      ensures Succ(g, id, n) != Some(id)
    {
      if Succ(g, id, n) == Some(id) && id in g {
        assert Whole(g, id);
        var d: nat, r :| Reaches(g, id, d, r);
        SuccIsCloser(g, id, n, d, r);
        ReachesUnique(g, id, d, r, d - n, r);
      }
    }
  }

  /** Union-find: after any run no chain is broken or cyclic, two versions share a representative
      exactly when the pointers at the start and the merges relate them, and the number of
      representatives fell by exactly one for every merge. */
  lemma LineageRefinesUnionFind(e: Engine, cfg: Cfg, steps: seq<LineageStep>)
    requires Good(e)
    ensures var g, log := Lineage(e, cfg, steps).mems, MergeLog(e, cfg, steps);
            && AllWhole(g) && NoCycle(g)
            && (forall x, y :: x in g && y in g ==>
                  (RepOf(g, x) == RepOf(g, y) <==> Related(e.mems, log, x, y)))
            && |Roots(g)| == |Roots(e.mems)| - |log|
  {
    var g, log := Lineage(e, cfg, steps).mems, MergeLog(e, cfg, steps);
    RunMerges(e, cfg, steps);
    WholeNoCycle(g);
    forall x, y | x in g && y in g
      ensures RepOf(g, x) == RepOf(g, y) <==> Related(e.mems, log, x, y)
    {
      if Related(e.mems, log, x, y) {
        FinalLabels(e.mems, g, log);
        var rep := (id: nat) => if id in g then RepOf(g, id) else id;
        assert rep(x) == rep(y);
      }
      if RepOf(g, x) == RepOf(g, y) {
        forall f: nat -> nat | RespectsPointers(f, e.mems) && RespectsMerges(f, log)
          ensures f(x) == f(y)
        {
          PointersLabel(e.mems, f);
          RunLabels(e, cfg, steps, f);
        }
      }
    }
  }

  /** Naming every version after its final representative is one of the labellings in Related. */
  lemma FinalLabels(g0: Graph, g: Graph, log: seq<Merge>)
    requires AllWhole(g0) && Coarser(g0, g) && RespectsReps(g, log)
    ensures var rep := (id: nat) => if id in g then RepOf(g, id) else id;
            RespectsPointers(rep, g0) && RespectsMerges(rep, log)
  {
    var rep := (id: nat) => if id in g then RepOf(g, id) else id;
    forall id | id in g0 && g0[id].Next().Some?
      ensures rep(id) == rep(g0[id].Next().value)
    {
      PointersShareRep(g0, id);
      assert SameRep(g, id, g0[id].Next().value);
    }
    forall m, i | m in log && i in m.Ids()
      ensures rep(i) == rep(m.left)
    {
      assert SameRep(g, i, m.left);
    }
  }
}
