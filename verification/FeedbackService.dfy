/** The service side of credit as an object: recalling, accepting feedback, and settling it, each proved to
    be the step of the same name on the desk. */
module FeedbackService {
  import opened MemoryTypes
  import opened VersionGraph
  import opened Verdicts
  import opened Credit

  class FeedbackService {
    const cfg: Cfg
    var engine: Engine
    var registry: map<nat, Ret>
    var nextRid: nat
    var requests: seq<Request>
    var captures: map<string, string>
    ghost var shown: map<nat, seq<nat>>
    ghost var settled: seq<Settlement>

    ghost function State(): Desk
      reads this
    {
      Desk(engine, registry, nextRid, requests, captures, shown, settled)
    }

    constructor (cfg: Cfg, engine: Engine)
      ensures State() == Desk(engine, map[], 0, [], map[], map[], []) && DeskOk(State())
    {
      this.cfg, this.engine := cfg, engine;
      registry, nextRid, requests, captures := map[], 0, [], map[];
      shown, settled := map[], [];
    }

    /** Register what is sent under a new id, and evict. */
    method RecallMain(lines: seq<Line>, budget: Option<nat>, atOnce: bool) returns (rid: nat, kept: seq<nat>)
      modifies this
      ensures rid == old(nextRid) && kept == Sends(lines, budget)
      ensures State() == Take(old(State()), cfg, Recall(lines, budget, atOnce))
      ensures Evicted(old(registry)[rid := Ret(kept, false, atOnce, 0)], registry, RETRIEVAL_KEEP)
    {
      var n, used, cut;
      n, kept, used, cut := RecallResult(lines, budget);
      LongestIsFit(lines, n, budget);
      rid := nextRid;
      nextRid := nextRid + 1;
      registry := registry[rid := Ret(kept, false, atOnce, 0)];
      registry := EvictRetrievals(registry, RETRIEVAL_KEEP);
      shown := shown[rid := kept];
    }

    method GiveFeedback(rid: nat, request: Option<string>, fingerprint: string) returns (reply: Reply)
      modifies this
      ensures reply == Answer(old(State()), rid, request, fingerprint)
      ensures State() == Feedback(old(State()), rid, request, fingerprint)
    {
      if request.Some? && request.value in captures {
        return if captures[request.value] != fingerprint then Conflict else Repeated;
      }
      if rid !in registry {
        return Unknown;
      }
      var ret := registry[rid];
      if ret.selected == [] {
        captures := Remember(captures, request, fingerprint);
        return Empty;
      }
      if ret.credited || ret.sent {
        return Already;
      }
      registry := registry[rid := ret.(sent := true)];
      requests := requests + [Request(rid, ret.selected, false)];
      captures := Remember(captures, request, fingerprint);
      reply := Accepted;
    }

    /** Credit the used ones of the shown memories, one after the other. */
    method CreditShown(ids: seq<nat>, used: seq<bool>, t: int) returns (credited: seq<nat>)
      modifies `engine
      ensures (engine, credited) == CreditAll(old(engine), cfg, ids, used, t)
    {
      hide CreditHit, Follow, CreditAll;
      credited := [];
      var i := 0;
      assert ids[0..] == ids && used[0..] == used;
      ghost var all := CreditAll(engine, cfg, ids, used, t);
      assert credited + all.1 == all.1;
      while i < |ids| && i < |used|
        invariant i <= |ids| && i <= |used|
        invariant CreditAll(engine, cfg, ids[i..], used[i..], t).0 == all.0
        invariant credited + CreditAll(engine, cfg, ids[i..], used[i..], t).1 == all.1
      {
        CreditAllNext(engine, cfg, ids, used, t, i, credited);
        if used[i] && ids[i] in engine.mems {
          if engine.mems[RepOf(engine.mems, ids[i])].Current() {
            credited := credited + [ids[i]];
          }
          engine := CreditHit(engine, cfg, ids[i], t);
        }
        i := i + 1;
      }
      CreditAllNone(engine, cfg, ids[i..], used[i..], t);
      assert credited + [] == credited;
    }

    method SettleRequest(k: nat, used: seq<bool>, t: int)
      modifies this
      ensures State() == Settle(old(State()), cfg, k, used, t)
    {
      if k >= |requests| || requests[k].done || |used| != |requests[k].selected| {
        return;
      }
      var r := requests[k];
      requests := requests[k := r.(done := true)];
      if r.rid in registry && registry[r.rid].selected == r.selected && registry[r.rid].credited {
        return;
      }
      var credited := CreditShown(r.selected, used, t);
      if r.rid in registry {
        registry := registry[r.rid := registry[r.rid].(credited := true, useful := |credited|)];
      }
      settled := settled + [Settlement(r.rid, credited)];
    }
  }
}
