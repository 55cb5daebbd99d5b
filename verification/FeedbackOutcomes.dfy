/** What recalls, feedback and settlements answer and leave on the desk, and what a settlement's effect files. */
module FeedbackOutcomes {
  import opened MemoryTypes
  import opened TaskTable
  import opened Credit
  import opened CreditOutcomes
  import opened CreditBodies
  import Verdicts

  /** A recall gets the next id and an open credit, or a closed one when it was credited at once; it pushes out only older
      recalls that may go. */
  lemma RecallOutcome(d: Desk, cfg: Cfg, lines: seq<Line>, budget: Option<nat>, atOnce: bool)
    requires d.nextRid !in d.registry
    ensures var d', shown := Take(d, cfg, Recall(lines, budget, atOnce)), Sends(lines, budget);
            && d'.nextRid == d.nextRid + 1 && d'.engine == d.engine && d'.requests == d.requests && d'.captures == d.captures
            && d'.shown == d.shown[d.nextRid := shown] && d'.settled == d.settled
            && Evicted(d.registry[d.nextRid := Ret(shown, false, atOnce, 0)], d'.registry, RETRIEVAL_KEEP)
            && (|d.registry| < RETRIEVAL_KEEP ==> d'.registry == d.registry[d.nextRid := Ret(shown, false, atOnce, 0)])
  {
    hide EvictOldest, Sends, Evicted;
    var registry := d.registry[d.nextRid := Ret(Sends(lines, budget), false, atOnce, 0)];
    EvictionExact(registry, RETRIEVAL_KEEP);
    if |d.registry| < RETRIEVAL_KEEP {
      assert registry.Keys == d.registry.Keys + {d.nextRid} && |registry| == |d.registry| + 1;
      NothingEvicted(registry, EvictOldest(registry, RETRIEVAL_KEEP), RETRIEVAL_KEEP);
    }
  }

  lemma NothingEvicted(registry: map<nat, Ret>, left: map<nat, Ret>, keep: nat)
    requires Evicted(registry, left, keep) && |registry| <= keep
    ensures left == registry
  {
    if left != registry {
      assert |left| == |left.Keys| && |registry| == |registry.Keys|;
      NotFewer(left.Keys, registry.Keys);
    }
  }

  lemma NotFewer(a: set<nat>, b: set<nat>)
    requires a <= b && |a| >= |b|
    ensures a == b
  {
    assert |b - a| == |b| - |a|;
  }

  /** The answers to feedback, each exactly when: a bound request id is answered from its binding; then unknown, empty and
      used recalls are turned away. */
  lemma AnswerOutcome(d: Desk, rid: nat, request: Option<string>, fingerprint: string)
    ensures var bound, known := request.Some? && request.value in d.captures, rid in d.registry; var a := Answer(d, rid, request, fingerprint);
            && (a.Conflict? <==> bound && d.captures[request.value] != fingerprint)
            && (a.Repeated? <==> bound && d.captures[request.value] == fingerprint)
            && (a.Unknown? <==> !bound && !known)
            && (a.Empty? <==> !bound && known && |d.registry[rid].selected| == 0)
            && (a.Already? <==> !bound && known && |d.registry[rid].selected| > 0 && (d.registry[rid].sent || d.registry[rid].credited))
            && (a.Accepted? <==> !bound && known && |d.registry[rid].selected| > 0 && !d.registry[rid].sent && !d.registry[rid].credited)
  {
  }

  /** Accepted feedback marks the recall, asks for one verdict on what it showed, and binds the request id; an empty recall
      only binds it; everything else changes nothing. */
  lemma FeedbackOutcome(d: Desk, cfg: Cfg, rid: nat, request: Option<string>, fingerprint: string)
    ensures var d', a := Take(d, cfg, GiveFeedback(rid, request, fingerprint)), Answer(d, rid, request, fingerprint);
            var captures := if request.Some? then d.captures[request.value := fingerprint] else d.captures;
            if a.Accepted? then
              && rid in d.registry
              && d' == d.(registry := d.registry[rid := d.registry[rid].(sent := true)], captures := captures,
                          requests := d.requests + [Request(rid, d.registry[rid].selected, false)])
            else d' == if a.Empty? then d.(captures := captures) else d
  {
  }

  /** Whoever repeats accepted feedback is told so: under the same request id it was accepted, without one it was given
      already, and another body under that id is refused. */
  lemma FeedbackIsGivenOnce(d: Desk, cfg: Cfg, rid: nat, request: Option<string>, fingerprint: string, other: string)
    requires Answer(d, rid, request, fingerprint).Accepted? && other != fingerprint
    ensures var d' := Take(d, cfg, GiveFeedback(rid, request, fingerprint));
            && (request.None? ==> Answer(d', rid, request, fingerprint).Already? && Take(d', cfg, GiveFeedback(rid, request, fingerprint)) == d')
            && (request.Some? ==> Answer(d', rid, request, fingerprint).Repeated? && Answer(d', rid, request, other).Conflict?
                                  && Take(d', cfg, GiveFeedback(rid, request, fingerprint)) == d')
  {
  }

  /** A verdict settles its request once. It credits what was used of what was shown, each current version once for every
      used id that leads to it, unless the recall was credited before; and the recall is closed with the number of ids that
      earned a hit. */
  lemma SettleOutcome(d: Desk, cfg: Cfg, k: nat, used: seq<bool>, t: int, r: nat)
    requires k < |d.requests| && !d.requests[k].done && |used| == |d.requests[k].selected| && r in d.engine.mems
    ensures var q, d' := d.requests[k], Take(d, cfg, SettleRequest(k, used, t));
            var before := q.rid in d.registry && d.registry[q.rid].credited && d.registry[q.rid].selected == q.selected;
            var g := d.engine.mems;
            && d'.requests == d.requests[k := q.(done := true)] && d'.nextRid == d.nextRid && d'.captures == d.captures
            && (before ==> d' == d.(requests := d'.requests))
            && (!before ==>
                  && r in d'.engine.mems && d'.engine.mems.Keys == g.Keys
                  && Gains(g[r], d'.engine.mems[r], if g[r].Current() then Uses(g, q.selected, used, r) else 0, t)
                  && d'.registry == (if q.rid in d.registry
                                     then d.registry[q.rid := d.registry[q.rid].(credited := true, useful := Useful(g, q.selected, used))]
                                     else d.registry)
                  && |d'.settled| == |d.settled| + 1 && d'.settled[|d.settled|].rid == q.rid
                  && |d'.settled[|d.settled|].credited| == Useful(g, q.selected, used))
  {
    hide CreditAll, Uses, Useful, Gains;
    CreditCounts(d.engine, cfg, d.requests[k].selected, used, t, r);
  }

  /** The effect of a settlement reports a miss exactly when nothing that was shown proved useful, for a recall that is still
      registered with what it showed and open; a verdict of the wrong length is refused. */
  lemma MissOutcome(m: Image, cfg: Cfg, rid: nat, selected: seq<nat>, used: seq<bool>, t: int, answer: Json, misses: seq<Job>)
    ensures var made := SettleBody(cfg, rid, selected, used, t, answer, misses)(m);
            var registered := rid in m.registry && m.registry[rid].selected == selected;
            && (made.Raised? <==> |used| != |selected|)
            && (made.Made? ==> made.response == answer && |made.jobs| in {0, |misses|})
            && (made.Made? && misses != [] ==>
                  (made.jobs != [] <==> registered && !m.registry[rid].credited && Useful(m.engine.mems, selected, used) == 0))
  {
    hide CreditAll, Useful;
    if m.engine.mems != map[] {
      var r :| r in m.engine.mems;
      CreditCounts(m.engine, cfg, selected, used, t, r);
    } else {
      NobodyThere(m.engine, cfg, selected, used, t);
    }
  }

  lemma {:induction false} NobodyThere(e: Engine, cfg: Cfg, ids: seq<nat>, used: seq<bool>, t: int)
    requires e.mems == map[]
    ensures CreditAll(e, cfg, ids, used, t).1 == [] && Useful(e.mems, ids, used) == 0
    decreases |ids|
  {
    if ids != [] && used != [] {
      NobodyThere(e, cfg, ids[1..], used[1..], t);
    }
  }
}
