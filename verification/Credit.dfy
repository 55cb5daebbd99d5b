/** Delayed credit: what a recall shows, how feedback is accepted once, and how it is settled once. */
module Credit {
  import opened MemoryTypes
  import opened VersionGraph
  import opened Verdicts
  import opened EngineSteps

  // ---------------------------------------------------------------- the token budget

  /** One rendered line with its approximate token count; lines about rivals and disputes show no
      selected memory. */
  datatype Line = Line(tokens: nat, shows: Option<nat>)

  /** Tokens of some lines with the separators between them. */
  function Cost(lines: seq<Line>): nat {
    if lines == [] then 0
    else Cost(lines[..|lines| - 1]) + lines[|lines| - 1].tokens + if |lines| > 1 then 1 else 0
  }

  function Shown(lines: seq<Line>): seq<nat> {
    if lines == [] then []
    else Shown(lines[..|lines| - 1]) + if lines[|lines| - 1].shows.Some? then [lines[|lines| - 1].shows.value] else []
  }

  predicate Fits(lines: seq<Line>, n: nat, budget: Option<nat>) {
    n <= |lines| && (budget.Some? ==> Cost(lines[..n]) <= budget.value)
  }

  /** How many lines are sent: the longest prefix within the budget. */
  ghost predicate Longest(lines: seq<Line>, n: nat, budget: Option<nat>) {
    Fits(lines, n, budget) && forall k: nat :: Fits(lines, k, budget) ==> k <= n
  }

  lemma {:induction false} CostGrows(lines: seq<Line>, n: nat, k: nat)
    requires n <= k <= |lines|
    ensures Cost(lines[..n]) <= Cost(lines[..k])
    decreases k
  {
    if n < k {
      CostGrows(lines, n, k - 1);
      assert lines[..k][..k - 1] == lines[..k - 1];
    }
  }

  /** The longest prefix within the budget that has at most `n` lines. */
  function LongestFit(lines: seq<Line>, n: nat, budget: Option<nat>): (k: nat)
    requires n <= |lines|
    ensures Fits(lines, k, budget) && forall j: nat :: j <= n && Fits(lines, j, budget) ==> j <= k
  {
    if n == 0 || Fits(lines, n, budget) then n else LongestFit(lines, n - 1, budget)
  }

  lemma LongestIsFit(lines: seq<Line>, n: nat, budget: Option<nat>)
    requires Longest(lines, n, budget)
    ensures n == LongestFit(lines, |lines|, budget)
  {
  }

  /** Send lines until one does not fit; keep the memories on the lines that were sent. */
  method RecallResult(lines: seq<Line>, budget: Option<nat>) returns (n: nat, kept: seq<nat>, used: nat, cut: bool)
    ensures Longest(lines, n, budget) && kept == Shown(lines[..n]) && used == Cost(lines[..n])
    ensures cut <==> n < |lines|
  {
    kept, used, n, cut := [], 0, 0, false;
    while n < |lines|
      invariant n <= |lines| && kept == Shown(lines[..n]) && used == Cost(lines[..n]) && !cut
      invariant budget.Some? ==> used <= budget.value
    {
      assert lines[..n + 1][..n] == lines[..n];
      var cost := lines[n].tokens + if n > 0 then 1 else 0;
      if budget.Some? && used + cost > budget.value {
        cut := true;
        break;
      }
      used := used + cost;
      if lines[n].shows.Some? {
        kept := kept + [lines[n].shows.value];
      }
      n := n + 1;
    }
    forall k: nat | Fits(lines, k, budget)
      ensures k <= n
    {
      if k > n {
        CostGrows(lines, n + 1, k);
      }
    }
  }

  // ---------------------------------------------------------------- the registry

  const RETRIEVAL_KEEP: nat := 512

  predicate Pending(registry: map<nat, Ret>, rid: nat) {
    rid in registry && !registry[rid].Evictable()
  }

  /** The oldest evictable retrievals were dropped, no more than needed. */
  ghost predicate Evicted(registry: map<nat, Ret>, registry': map<nat, Ret>, keep: nat) {
    && registry'.Keys <= registry.Keys && (forall rid :: rid in registry' ==> registry'[rid] == registry[rid])
    && (forall rid :: Pending(registry, rid) ==> rid in registry')
    && (forall rid, kept :: rid in registry && rid !in registry' && kept in registry' && registry'[kept].Evictable() ==> rid < kept)
    && (|registry'| <= keep || forall rid :: rid in registry' ==> Pending(registry', rid))
    && (registry' == registry || |registry'| >= keep)
  }

  predicate IsLeast(ids: set<nat>, least: nat) {
    least in ids && forall x :: x in ids ==> least <= x
  }

  lemma {:induction false} LeastExists(ids: set<nat>) returns (least: nat)
    requires ids != {}
    ensures IsLeast(ids, least)
    decreases |ids|
  {
    var first :| first in ids;
    least := first;
    assert forall x :: x in ids ==> x == first || x in ids - {first};
    if ids - {first} != {} {
      var other := LeastExists(ids - {first});
      if other < first {
        least := other;
      }
    }
  }

  function LeastOf(ids: set<nat>): (least: nat)
    requires ids != {}
    ensures IsLeast(ids, least)
  {
    assert exists x :: IsLeast(ids, x) by {
      var x := LeastExists(ids);
    }
    var x :| IsLeast(ids, x);
    x
  }

  function Evictables(registry: map<nat, Ret>): set<nat> {
    set rid | rid in registry && registry[rid].Evictable()
  }

  /** Drop the oldest evictable retrieval until at most `keep` are left, or none is evictable. */
  function EvictOldest(registry: map<nat, Ret>, keep: nat): map<nat, Ret>
    decreases |registry|
  {
    if |registry| <= keep || Evictables(registry) == {} then registry
    else
      var oldest := LeastOf(Evictables(registry));
      assert (registry - {oldest}).Keys == registry.Keys - {oldest};
      EvictOldest(registry - {oldest}, keep)
  }

  method SmallestOf(ids: set<nat>) returns (least: nat)
    requires ids != {}
    ensures least == LeastOf(ids)
  {
    least :| least in ids;
    var rest := ids - {least};
    while rest != {}
      invariant rest <= ids && least in ids && forall x :: x in ids && x !in rest ==> least <= x
      decreases |rest|
    {
      var x :| x in rest;
      rest := rest - {x};
      if x < least {
        least := x;
      }
    }
    assert IsLeast(ids, least) && IsLeast(ids, LeastOf(ids));
  }

  lemma EvictOne(registry: map<nat, Ret>, keep: nat)
    ensures var evictable := Evictables(registry);
            EvictOldest(registry, keep) == if |registry| <= keep || evictable == {} then registry
                                           else EvictOldest(registry - {LeastOf(evictable)}, keep)
  {
  }

  lemma OneEvicted(registry: map<nat, Ret>, rest: map<nat, Ret>, left: map<nat, Ret>, keep: nat, oldest: nat)
    requires oldest in registry && registry[oldest].Evictable() && rest == registry - {oldest}
    requires forall rid :: rid in registry && registry[rid].Evictable() ==> oldest <= rid
    requires |rest| >= keep && Evicted(rest, left, keep)
    ensures Evicted(registry, left, keep)
  {
    assert forall rid :: rid in rest ==> rid in registry && rid != oldest && rest[rid] == registry[rid];
    assert forall rid :: rid in registry && rid != oldest ==> rid in rest;
    forall rid | Pending(registry, rid)
      ensures rid in left
    {
      assert Pending(rest, rid);
    }
  }

  /** Eviction drops the oldest evictable retrievals, and no more than needed. */
  lemma {:induction false} EvictionExact(registry: map<nat, Ret>, keep: nat)
    ensures Evicted(registry, EvictOldest(registry, keep), keep)
    decreases |registry|
  {
    hide Evicted, EvictOldest, LeastOf;
    EvictOne(registry, keep);
    if |registry| > keep && Evictables(registry) != {} {
      var oldest := LeastOf(Evictables(registry));
      assert oldest in Evictables(registry);
      assert (registry - {oldest}).Keys == registry.Keys - {oldest};
      EvictionExact(registry - {oldest}, keep);
      assert |registry - {oldest}| == |registry| - 1 by {
        assert |(registry - {oldest}).Keys| == |registry.Keys| - 1;
      }
      assert forall rid :: rid in registry && registry[rid].Evictable() ==> rid in Evictables(registry);
      OneEvicted(registry, registry - {oldest}, EvictOldest(registry - {oldest}, keep), keep, oldest);
    } else {
      NothingEvicted(registry, keep);
    }
  }

  lemma NothingEvicted(registry: map<nat, Ret>, keep: nat)
    requires |registry| <= keep || Evictables(registry) == {}
    ensures Evicted(registry, registry, keep)
  {
    assert Evictables(registry) == {} ==> forall rid :: rid in registry ==> rid !in Evictables(registry);
  }

  method EvictRetrievals(registry: map<nat, Ret>, keep: nat) returns (left: map<nat, Ret>)
    ensures left == EvictOldest(registry, keep) && Evicted(registry, left, keep)
  {
    hide EvictOldest, LeastOf, Evicted;
    left := registry;
    while |left| > keep
      invariant EvictOldest(left, keep) == EvictOldest(registry, keep)
      decreases |left|
    {
      var evictable := Evictables(left);
      EvictOne(left, keep);
      if evictable == {} {
        EvictionExact(registry, keep);
        return;
      }
      var oldest := SmallestOf(evictable);
      assert oldest in evictable;
      assert (left - {oldest}).Keys == left.Keys - {oldest};
      left := left - {oldest};
    }
    EvictOne(left, keep);
    EvictionExact(registry, keep);
  }

  // ---------------------------------------------------------------- what recalls and feedback do to a memory

  /** Register what a recall sent under a new id, and trim the registry. Credited at once, it is settled. */
  function Registered(m: Image, shown: seq<nat>, atOnce: bool): Image {
    m.(registry := EvictOldest(m.registry[m.nextRid := Ret(shown, false, atOnce, 0)], RETRIEVAL_KEEP), nextRid := m.nextRid + 1)
  }

  /** The recall is registered, sent something, and was not given feedback nor credited before. */
  predicate MayAccept(m: Image, rid: nat) {
    rid in m.registry && m.registry[rid].selected != [] && !m.registry[rid].sent && !m.registry[rid].credited
  }

  function Accept(m: Image, rid: nat): Image
    requires rid in m.registry
  {
    m.(registry := m.registry[rid := m.registry[rid].(sent := true)])
  }

  /** The recall shows what the request asks about, and is credited. */
  predicate SettledAlready(m: Image, rid: nat, selected: seq<nat>) {
    rid in m.registry && m.registry[rid].selected == selected && m.registry[rid].credited
  }

  /** The credit of one settlement, memory by memory. Ids that are gone are passed over. */
  function CreditAll(e: Engine, cfg: Cfg, ids: seq<nat>, used: seq<bool>, t: int): (Engine, seq<nat>)
    decreases |ids|
  {
    if ids == [] || used == [] then (e, [])
    else if used[0] && ids[0] in e.mems && e.mems[RepOf(e.mems, ids[0])].Current() then
      var (e1, rest) := CreditAll(CreditHit(e, cfg, ids[0], t), cfg, ids[1..], used[1..], t);
      (e1, [ids[0]] + rest)
    else if used[0] && ids[0] in e.mems then CreditAll(CreditHit(e, cfg, ids[0], t), cfg, ids[1..], used[1..], t)
    else CreditAll(e, cfg, ids[1..], used[1..], t)
  }

  lemma CreditAllNone(e: Engine, cfg: Cfg, ids: seq<nat>, used: seq<bool>, t: int)
    requires ids == [] || used == []
    ensures CreditAll(e, cfg, ids, used, t) == (e, [])
  {
  }

  /** One step of crediting, after `credited` was credited already. */
  lemma CreditAllNext(e: Engine, cfg: Cfg, ids: seq<nat>, used: seq<bool>, t: int, i: nat, credited: seq<nat>)
    requires i < |ids| && i < |used|
    ensures var hit := used[i] && ids[i] in e.mems;
            var shown := credited + if hit && e.mems[RepOf(e.mems, ids[i])].Current() then [ids[i]] else [];
            var (e1, rest) := CreditAll(if hit then CreditHit(e, cfg, ids[i], t) else e, cfg, ids[i + 1..], used[i + 1..], t);
            && CreditAll(e, cfg, ids[i..], used[i..], t).0 == e1
            && credited + CreditAll(e, cfg, ids[i..], used[i..], t).1 == shown + rest
  {
    hide CreditHit, Follow;
    assert ids[i..][1..] == ids[i + 1..] && used[i..][1..] == used[i + 1..];
  }

  /** Settle a request that was not settled already, and return what was credited. A recall that shows something
      else by now, or is gone, is settled from the request. */
  function Settling(m: Image, cfg: Cfg, rid: nat, selected: seq<nat>, used: seq<bool>, t: int): (Image, seq<nat>) {
    var (e, credited) := CreditAll(m.engine, cfg, selected, used, t);
    (m.(engine := e,
        registry := if rid in m.registry then m.registry[rid := m.registry[rid].(credited := true, useful := |credited|)] else m.registry),
     credited)
  }

  // ---------------------------------------------------------------- the desk

  /** A task that asks for the verdict on one feedback, with the memories that were shown. */
  datatype Request = Request(rid: nat, selected: seq<nat>, done: bool)

  /** One committed settlement and the memories it credited. */
  datatype Settlement = Settlement(rid: nat, credited: seq<nat>)

  datatype Reply = Unknown | Empty | Already | Accepted | Repeated | Conflict

  /** The durable state that feedback works on, with what each recall showed and every settlement. */
  datatype Desk = Desk(
    engine: Engine, registry: map<nat, Ret>, nextRid: nat, requests: seq<Request>,
    captures: map<string, string>, shown: map<nat, seq<nat>>, settled: seq<Settlement>)

  function Memory(d: Desk): Image {
    Image(d.engine, d.registry, d.nextRid)
  }

  function With(d: Desk, m: Image): Desk {
    d.(engine := m.engine, registry := m.registry, nextRid := m.nextRid)
  }

  /** What a feedback on `rid` is answered, in the order of the checks. */
  function Answer(d: Desk, rid: nat, request: Option<string>, fingerprint: string): Reply {
    if request.Some? && request.value in d.captures then
      if d.captures[request.value] != fingerprint then Conflict else Repeated
    else if rid !in d.registry then Unknown
    else if d.registry[rid].selected == [] then Empty
    else if d.registry[rid].credited || d.registry[rid].sent then Already
    else Accepted
  }

  function Remember(captures: map<string, string>, request: Option<string>, fingerprint: string): map<string, string> {
    if request.Some? then captures[request.value := fingerprint] else captures
  }

  function Feedback(d: Desk, rid: nat, request: Option<string>, fingerprint: string): Desk {
    match Answer(d, rid, request, fingerprint)
    case Empty => d.(captures := Remember(d.captures, request, fingerprint))
    case Accepted =>
      With(d, Accept(Memory(d), rid)).(requests := d.requests + [Request(rid, d.registry[rid].selected, false)],
                                       captures := Remember(d.captures, request, fingerprint))
    case _ => d
  }

  /** Settle a request with the verdict `used`. A recall that was credited is not credited again. */
  function Settle(d: Desk, cfg: Cfg, k: nat, used: seq<bool>, t: int): Desk {
    if k >= |d.requests| || d.requests[k].done || |used| != |d.requests[k].selected| then d
    else
      var r := d.requests[k];
      var d1 := d.(requests := d.requests[k := r.(done := true)]);
      if SettledAlready(Memory(d), r.rid, r.selected) then d1
      else
        var (m, credited) := Settling(Memory(d), cfg, r.rid, r.selected, used, t);
        With(d1, m).(settled := d.settled + [Settlement(r.rid, credited)])
  }

  datatype Step =
    | Recall(lines: seq<Line>, budget: Option<nat>, atOnce: bool)
    | GiveFeedback(rid: nat, request: Option<string>, fingerprint: string)
    | SettleRequest(k: nat, used: seq<bool>, t: int)
    | Otherwise(engine: Engine)

  /** What a recall sends of its lines. */
  function Sends(lines: seq<Line>, budget: Option<nat>): seq<nat> {
    Shown(lines[..LongestFit(lines, |lines|, budget)])
  }

  function Take(d: Desk, cfg: Cfg, s: Step): Desk {
    match s
    case Recall(lines, budget, atOnce) =>
      With(d, Registered(Memory(d), Sends(lines, budget), atOnce)).(shown := d.shown[d.nextRid := Sends(lines, budget)])
    case GiveFeedback(rid, request, fingerprint) => Feedback(d, rid, request, fingerprint)
    case SettleRequest(k, used, t) => Settle(d, cfg, k, used, t)
    case Otherwise(engine) => d.(engine := engine)
  }

  // ---------------------------------------------------------------- the invariant

  ghost predicate RequestOk(d: Desk, k: nat)
    requires k < |d.requests|
  {
    var r := d.requests[k];
    && r.rid < d.nextRid && r.rid in d.shown && r.selected == d.shown[r.rid]
    && (r.rid in d.registry ==> d.registry[r.rid].sent && (r.done <==> d.registry[r.rid].credited))
    && (!r.done ==> r.rid in d.registry)
  }

  /** Only memories that the recall sent are credited. */
  ghost predicate CreditsShown(d: Desk, s: Settlement) {
    s.rid in d.shown && forall id :: id in s.credited ==> id in d.shown[s.rid]
  }

  ghost predicate Settled(d: Desk, s: Settlement) {
    && CreditsShown(d, s)
    && exists k :: 0 <= k < |d.requests| && d.requests[k].rid == s.rid && d.requests[k].done
  }

  ghost predicate DeskOk(d: Desk) {
    && (forall rid :: rid in d.registry ==> rid < d.nextRid && rid in d.shown && d.registry[rid].selected == d.shown[rid])
    && (forall k :: 0 <= k < |d.requests| ==> RequestOk(d, k))
    && (forall j, k :: 0 <= j < k < |d.requests| ==> d.requests[j].rid != d.requests[k].rid)
    && (forall rid :: rid in d.shown ==> rid < d.nextRid)
    && (forall i :: 0 <= i < |d.settled| ==> Settled(d, d.settled[i]))
    && (forall i, j :: 0 <= i < j < |d.settled| ==> d.settled[i].rid != d.settled[j].rid)
  }

  lemma EvictedMeaning(registry: map<nat, Ret>, left: map<nat, Ret>, keep: nat)
    requires Evicted(registry, left, keep)
    ensures forall rid :: rid in left ==> rid in registry && left[rid] == registry[rid]
    ensures forall rid :: Pending(registry, rid) ==> rid in left
  {
  }

  lemma RecallKeeps(d: Desk, cfg: Cfg, lines: seq<Line>, budget: Option<nat>, atOnce: bool)
    requires DeskOk(d)
    ensures DeskOk(Take(d, cfg, Recall(lines, budget, atOnce)))
  {
    hide Sends, Evicted, EvictOldest;
    var registry := d.registry[d.nextRid := Ret(Sends(lines, budget), false, atOnce, 0)];
    EvictionExact(registry, RETRIEVAL_KEEP);
    EvictedMeaning(registry, EvictOldest(registry, RETRIEVAL_KEEP), RETRIEVAL_KEEP);
    var d' := Take(d, cfg, Recall(lines, budget, atOnce));
    forall k | 0 <= k < |d'.requests|
      ensures RequestOk(d', k)
    {
      assert RequestOk(d, k);
      assert !d.requests[k].done ==> Pending(registry, d.requests[k].rid);
    }
    forall i | 0 <= i < |d'.settled|
      ensures Settled(d', d'.settled[i])
    {
      assert Settled(d, d.settled[i]);
    }
  }

  lemma FeedbackKeeps(d: Desk, rid: nat, request: Option<string>, fingerprint: string)
    requires DeskOk(d)
    ensures DeskOk(Feedback(d, rid, request, fingerprint))
  {
    var d' := Feedback(d, rid, request, fingerprint);
    OtherwiseKeeps(d, d.engine, d'.captures);
    if Answer(d, rid, request, fingerprint).Accepted? {
      var n := |d.requests|;
      forall k | 0 <= k < n
        ensures d.requests[k].rid != rid
      {
        assert RequestOk(d, k);
      }
      assert d'.requests[n].rid == rid;
      forall k | 0 <= k < |d'.requests|
        ensures RequestOk(d', k)
      {
        if k < n {
          assert RequestOk(d, k) && d.requests[k].rid != rid;
        }
      }
      forall i | 0 <= i < |d'.settled|
        ensures Settled(d', d'.settled[i])
      {
        assert Settled(d, d.settled[i]);
        var k :| 0 <= k < n && d.requests[k].rid == d.settled[i].rid && d.requests[k].done;
        assert d'.requests[k].done;
      }
    }
  }

  lemma {:induction false} CreditedIds(e: Engine, cfg: Cfg, ids: seq<nat>, used: seq<bool>, t: int)
    ensures forall id :: id in CreditAll(e, cfg, ids, used, t).1 ==> id in ids
    decreases |ids|
  {
    hide CreditHit, Follow;
    if ids != [] && used != [] {
      var e1 := if used[0] && ids[0] in e.mems then CreditHit(e, cfg, ids[0], t) else e;
      CreditedIds(e1, cfg, ids[1..], used[1..], t);
      assert forall id :: id in ids[1..] ==> id in ids;
      assert ids[0] in ids;
    }
  }

  lemma SettleKeeps(d: Desk, cfg: Cfg, k: nat, used: seq<bool>, t: int)
    requires DeskOk(d)
    ensures DeskOk(Settle(d, cfg, k, used, t))
  {
    hide CreditAll;
    var d' := Settle(d, cfg, k, used, t);
    if k < |d.requests| && !d.requests[k].done && |used| == |d.requests[k].selected| {
      var r := d.requests[k];
      assert RequestOk(d, k);
      CreditedIds(d.engine, cfg, r.selected, used, t);
      forall j | 0 <= j < |d'.requests|
        ensures RequestOk(d', j)
      {
        assert RequestOk(d, j);
      }
      forall i | 0 <= i < |d'.settled|
        ensures Settled(d', d'.settled[i]) && (i < |d.settled| ==> d'.settled[i].rid != r.rid)
      {
        if i < |d.settled| {
          assert Settled(d, d.settled[i]);
          var j :| 0 <= j < |d.requests| && d.requests[j].rid == d.settled[i].rid && d.requests[j].done;
          assert j != k && d'.requests[j] == d.requests[j];
        } else {
          assert d'.requests[k].rid == r.rid && d'.requests[k].done;
        }
      }
    }
  }

  lemma OtherwiseKeeps(d: Desk, engine: Engine, captures: map<string, string>)
    requires DeskOk(d)
    ensures DeskOk(d.(engine := engine, captures := captures))
  {
    var d' := d.(engine := engine, captures := captures);
    forall k | 0 <= k < |d'.requests|
      ensures RequestOk(d', k)
    {
      assert RequestOk(d, k);
    }
    forall i | 0 <= i < |d'.settled|
      ensures Settled(d', d'.settled[i])
    {
      assert Settled(d, d.settled[i]);
    }
  }

  // ---------------------------------------------------------------- runs

  function RunDesk(d: Desk, cfg: Cfg, steps: seq<Step>): Desk
    decreases |steps|
  {
    if |steps| == 0 then d else RunDesk(Take(d, cfg, steps[0]), cfg, steps[1..])
  }

  lemma TakeKeeps(d: Desk, cfg: Cfg, s: Step)
    requires DeskOk(d)
    ensures DeskOk(Take(d, cfg, s))
  {
    hide DeskOk, Feedback, Settle;
    match s
    case Recall(lines, budget, atOnce) => RecallKeeps(d, cfg, lines, budget, atOnce);
    case GiveFeedback(rid, request, fingerprint) => FeedbackKeeps(d, rid, request, fingerprint);
    case SettleRequest(k, used, t) => SettleKeeps(d, cfg, k, used, t);
    case Otherwise(engine) => OtherwiseKeeps(d, engine, d.captures);
  }

  /** Credit exactly once: over any run of recalls, repeated feedback, settlements and evictions, a recall
      is settled at most once, only the memories it actually sent are credited, and a recall whose
      feedback was accepted but not settled is still registered. */
  lemma {:induction false} CreditOnce(d: Desk, cfg: Cfg, steps: seq<Step>)
    requires DeskOk(d)
    ensures var end := RunDesk(d, cfg, steps);
            && DeskOk(end)
            && (forall i, j :: 0 <= i < j < |end.settled| ==> end.settled[i].rid != end.settled[j].rid)
            && (forall i :: 0 <= i < |end.settled| ==> CreditsShown(end, end.settled[i]))
            && (forall k :: 0 <= k < |end.requests| && !end.requests[k].done ==> end.requests[k].rid in end.registry)
    decreases |steps|
  {
    if |steps| > 0 {
      hide DeskOk, Take;
      TakeKeeps(d, cfg, steps[0]);
      CreditOnce(Take(d, cfg, steps[0]), cfg, steps[1..]);
    } else {
      DeskMeaning(d);
    }
  }

  lemma DeskMeaning(d: Desk)
    requires DeskOk(d)
    ensures (forall i, j :: 0 <= i < j < |d.settled| ==> d.settled[i].rid != d.settled[j].rid)
            && (forall i :: 0 <= i < |d.settled| ==> CreditsShown(d, d.settled[i]))
            && (forall k :: 0 <= k < |d.requests| && !d.requests[k].done ==> d.requests[k].rid in d.registry)
  {
    forall i | 0 <= i < |d.settled|
      ensures CreditsShown(d, d.settled[i])
    {
      assert Settled(d, d.settled[i]);
    }
    forall k | 0 <= k < |d.requests| && !d.requests[k].done
      ensures d.requests[k].rid in d.registry
    {
      assert RequestOk(d, k);
    }
  }

  // ---------------------------------------------------------------- whom the credit reaches

  /** Nothing but the standing of current versions changed. */
  ghost predicate OnlyCurrent(g: Graph, g': Graph) {
    g'.Keys == g.Keys && forall id :: id in g ==> (g'[id] != g[id] ==> g[id].Current()) && (g'[id].Current() <==> g[id].Current())
  }

  lemma HitReachesCurrent(e: Engine, cfg: Cfg, id: nat, t: int)
    requires id in e.mems
    ensures OnlyCurrent(e.mems, CreditHit(e, cfg, id, t).mems)
  {
    hide Follow;
  }

  lemma OnlyCurrentTrans(a: Graph, b: Graph, c: Graph)
    requires OnlyCurrent(a, b) && OnlyCurrent(b, c)
    ensures OnlyCurrent(a, c)
  {
  }

  /** A settlement never credits or revives a version that was replaced, collected or withdrawn, whatever
      became of the shown memories since. */
  lemma {:induction false} RetiredGetNoCredit(e: Engine, cfg: Cfg, ids: seq<nat>, used: seq<bool>, t: int)
    ensures OnlyCurrent(e.mems, CreditAll(e, cfg, ids, used, t).0.mems)
    decreases |ids|
  {
    hide OnlyCurrent, CreditHit, Follow;
    SameIsOnlyCurrent(e.mems);
    if ids != [] && used != [] {
      if used[0] && ids[0] in e.mems {
        var e1 := CreditHit(e, cfg, ids[0], t);
        HitReachesCurrent(e, cfg, ids[0], t);
        RetiredGetNoCredit(e1, cfg, ids[1..], used[1..], t);
        OnlyCurrentTrans(e.mems, e1.mems, CreditAll(e, cfg, ids, used, t).0.mems);
      } else {
        RetiredGetNoCredit(e, cfg, ids[1..], used[1..], t);
      }
    }
  }

  lemma SameIsOnlyCurrent(g: Graph)
    ensures OnlyCurrent(g, g)
  {
  }
}
