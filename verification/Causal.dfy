/** Causal confinement: what an investigation bounded in time may touch. */
module Causal {
  import opened MemoryTypes
  import opened VersionGraph
  import opened Verdicts
  import opened UnionFind

  /** Every present pointer of a member leads to a member; a pointer to a missing id does not count as
      present, so the member's versions must all be known. */
  ghost predicate ClosedUnderSuccessors(g: Graph, s: set<nat>) {
    && s <= g.Keys
    && (forall id :: id in s && g[id].supersededBy.Some? ==> g[id].supersededBy.value in s)
    && (forall id :: id in s && g[id].aggregatedInto.Some? ==> g[id].aggregatedInto.value in s)
  }

  /** The memories that were born, confirmed and sourced before the bound. */
  function Candidates(g: Graph, before: int, known: set<nat>): set<nat> {
    set id | id in g && g[id].birth < before && g[id].lastSeen < before && g[id].src <= known
  }

  function Blocked(g: Graph, eligible: set<nat>): set<nat>
    requires eligible <= g.Keys
  {
    set id | id in eligible &&
      ((g[id].supersededBy.Some? && g[id].supersededBy.value !in eligible) ||
       (g[id].aggregatedInto.Some? && g[id].aggregatedInto.value !in eligible))
  }

  ghost predicate Greatest(g: Graph, candidates: set<nat>, s: set<nat>) {
    && s <= candidates && ClosedUnderSuccessors(g, s)
    && forall x :: x <= candidates && ClosedUnderSuccessors(g, x) ==> x <= s
  }

  /** Shrinking the candidates until nothing is blocked ends in the greatest set of candidates that is
      closed under successors. Without a bound, every memory is eligible. */
  method CausalMemoryIds(mems: Graph, before: Option<int>, known: set<nat>) returns (eligible: set<nat>)
    ensures before.None? ==> eligible == mems.Keys
    ensures before.Some? ==> Greatest(mems, Candidates(mems, before.value, known), eligible)
  {
    if before.None? {
      return mems.Keys;
    }
    ghost var candidates := Candidates(mems, before.value, known);
    eligible := Candidates(mems, before.value, known);
    while true
      invariant eligible <= candidates && eligible <= mems.Keys
      invariant forall x :: x <= candidates && ClosedUnderSuccessors(mems, x) ==> x <= eligible
      decreases |eligible|
    {
      var blocked := Blocked(mems, eligible);
      if blocked == {} {
        assert forall id :: id in eligible ==> id !in Blocked(mems, eligible);
        return;
      }
      forall x | x <= candidates && ClosedUnderSuccessors(mems, x)
        ensures x <= eligible - blocked
      {
        assert x <= eligible;
      }
      var b :| b in blocked;
      assert b in eligible;
      assert eligible - blocked < eligible;
      Shrinks(eligible, blocked);
      eligible := eligible - blocked;
    }
  }

  lemma Shrinks(a: set<nat>, b: set<nat>)
    requires b <= a && b != {}
    ensures |a - b| < |a|
  {
    assert |a - b| == |a| - |b|;
  }

  // ---------------------------------------------------------------- confinement

  lemma {:induction false} FollowStaysIn(g: Graph, s: set<nat>, id: nat, seen: set<nat>)
    requires ClosedUnderSuccessors(g, s) && id in s
    ensures Follow(g, id, seen).end in s
    decreases g.Keys - seen
  {
    var next := g[id].Next();
    if next.Some? && next.value !in seen && next.value in g {
      FollowStaysIn(g, s, next.value, seen + {next.value});
    }
  }

  /** Outside `s` nothing changed, and nothing but `made` is new. */
  ghost predicate Confined(g: Graph, g': Graph, s: set<nat>, made: nat) {
    && g.Keys <= g'.Keys <= g.Keys + {made}
    && forall id :: id in g && id !in s ==> g'[id] == g[id]
  }

  /** A shadow hit names one of the two memories it waits for. */
  ghost predicate NamesEnds(entries: seq<Shadow>) {
    forall x :: x in entries ==> x.mid == x.key.0 || x.mid == x.key.1
  }

  ghost predicate SameLinks(g: Graph, g': Graph) {
    g'.Keys == g.Keys && forall id :: id in g ==> g'[id].supersededBy == g[id].supersededBy && g'[id].aggregatedInto == g[id].aggregatedInto
  }

  /** Pointers are as before, and so is everything outside `s`. */
  ghost predicate Inside(e: Engine, e': Engine, s: set<nat>) {
    && SameLinks(e.mems, e'.mems)
    && (forall id :: id in e.mems && id !in s ==> e'.mems[id] == e.mems[id])
    && e' == e.(mems := e'.mems, broken := e'.broken)
  }

  lemma ShadowInside(e: Engine, cfg: Cfg, mid: nat, tRet: int, s: set<nat>)
    requires ClosedUnderSuccessors(e.mems, s) && mid in s
    ensures Inside(e, IssueShadow(e, cfg, mid, tRet), s)
  {
    hide Follow;
    FollowStaysIn(e.mems, s, mid, {mid});
  }

  lemma SameLinksClosed(g: Graph, g': Graph, s: set<nat>)
    requires ClosedUnderSuccessors(g, s) && SameLinks(g, g')
    ensures ClosedUnderSuccessors(g', s)
  {
  }

  lemma InsideTrans(a: Engine, b: Engine, c: Engine, s: set<nat>)
    requires Inside(a, b, s) && Inside(b, c, s)
    ensures Inside(a, c, s)
  {
  }

  lemma {:induction false} SettleInside(e: Engine, cfg: Cfg, entries: seq<Shadow>, key: Pair, verdict: Verdict, s: set<nat>)
    requires ClosedUnderSuccessors(e.mems, s) && key.0 in s && key.1 in s && NamesEnds(entries)
    ensures Inside(e, SettleEntries(e, cfg, entries, key, verdict), s)
    decreases |entries|
  {
    hide IssueShadow, ClosedUnderSuccessors;
    if |entries| > 0 {
      var x := entries[0];
      assert x in entries;
      assert NamesEnds(entries[1..]) by { assert forall y :: y in entries[1..] ==> y in entries; }
      if x.key == key && verdict != Synonym && x.relevant && x.mid in e.mems {
        var e1 := IssueShadow(e, cfg, x.mid, x.tRet);
        ShadowInside(e, cfg, x.mid, x.tRet, s);
        SameLinksClosed(e.mems, e1.mems, s);
        SettleInside(e1, cfg, entries[1..], key, verdict, s);
        InsideTrans(e, e1, SettleEntries(e, cfg, entries, key, verdict), s);
      } else {
        SettleInside(e, cfg, entries[1..], key, verdict, s);
      }
    }
  }

  lemma ResolutionConfined(e: Engine, cfg: Cfg, a: nat, b: nat, verdict: Verdict, t: int, s: set<nat>)
    requires a in e.mems && b in e.mems && a != b && a in s && b in s && e.nextId !in e.mems
    ensures Confined(e.mems, ApplyResolution(e, cfg, a, b, verdict, t).mems, s, e.nextId)
  {
    hide Absorb, Replace, Retire, Aggregate, ConditionalScopes, SynonymKeeps, UpdateKeeps;
  }

  /** The operation behind a verdict report: optionally open the tension first, then submit. */
  function Report(e: Engine, cfg: Cfg, j: Judgement, ensureTension: bool, t: int): Engine {
    var e1 := if ensureTension && j.left in e.mems && j.right in e.mems then AddTension(e, cfg, j.left, j.right, t) else e;
    SubmitOne(e1, cfg, j, t)
  }

  /** A verdict on two memories inside the bound works on representatives inside it, writes no memory
      outside it, and creates at most the aggregate. */
  lemma VerdictsAreConfined(e: Engine, cfg: Cfg, j: Judgement, ensureTension: bool, t: int, s: set<nat>)
    requires ClosedUnderSuccessors(e.mems, s) && j.left in s && j.right in s
    requires NamesEnds(e.shadow) && e.nextId !in e.mems
    ensures RepOf(e.mems, j.left) in s && RepOf(e.mems, j.right) in s
    ensures Confined(e.mems, Report(e, cfg, j, ensureTension, t).mems, s, e.nextId)
  {
    hide ApplyResolution, SettleEntries, Follow, ClosedUnderSuccessors, Inside, Confined, ResolvePair;
    FollowStaysIn(e.mems, s, j.left, {j.left});
    FollowStaysIn(e.mems, s, j.right, {j.right});
    var e1 := if ensureTension && j.left in e.mems && j.right in e.mems then AddTension(e, cfg, j.left, j.right, t) else e;
    var key := SortedPair(j.left, j.right);
    SettleInside(e1, cfg, e1.shadow, key, j.verdict, s);
    var settled := SettleEntries(e1, cfg, e1.shadow, key, j.verdict);
    InsideFacts(e1, settled, s);
    PairConfined(e.mems, settled, e1.shadow, cfg, key, j.verdict, t, s);
  }

  lemma InsideFacts(e: Engine, e': Engine, s: set<nat>)
    requires Inside(e, e', s)
    ensures SameLinks(e.mems, e'.mems) && e'.nextId == e.nextId && forall id :: id in e.mems && id !in s ==> e'.mems[id] == e.mems[id]
  {
  }

  /** After the settlement that led from `g` to the memories of `e`, the resolution of a pair stays inside. */
  lemma PairConfined(g: Graph, e: Engine, entries: seq<Shadow>, cfg: Cfg, key: Pair, verdict: Verdict, t: int, s: set<nat>)
    requires ClosedUnderSuccessors(g, s) && key.0 in s && key.1 in s && e.nextId !in g
    requires SameLinks(g, e.mems) && forall id :: id in g && id !in s ==> e.mems[id] == g[id]
    ensures var e2 := e.(shadow := KeepOther(entries, key));
            Confined(g, (if key in e2.tensions then ResolvePair(e2, cfg, key, verdict, t) else e2).mems, s, e.nextId)
  {
    hide ApplyResolution, Follow, Confined, ClosedUnderSuccessors, SameLinks;
    SameLinksClosed(g, e.mems, s);
    var e2 := e.(shadow := KeepOther(entries, key));
    NothingWritten(g, e.mems, s, e.nextId);
    if key in e2.tensions && key.0 in e2.mems && key.1 in e2.mems {
      FollowStaysIn(e2.mems, s, key.0, {key.0});
      FollowStaysIn(e2.mems, s, key.1, {key.1});
      var a, b := RepOf(e2.mems, key.0), RepOf(e2.mems, key.1);
      if a != b && verdict != Pending {
        var e3 := Walked(Walked(e2, key.0), key.1).(tensions := e2.tensions - {key});
        SameLinkKeys(g, e.mems);
        ResolutionConfined(e3, cfg, a, b, verdict, t, s);
        WrittenAfter(g, e.mems, ApplyResolution(e3, cfg, a, b, verdict, t).mems, s, e.nextId);
      }
    }
  }

  lemma SameLinkKeys(g: Graph, g': Graph)
    requires SameLinks(g, g')
    ensures g'.Keys == g.Keys
  {
  }

  lemma NothingWritten(g: Graph, g': Graph, s: set<nat>, made: nat)
    requires SameLinks(g, g') && forall id :: id in g && id !in s ==> g'[id] == g[id]
    ensures Confined(g, g', s, made)
  {
  }

  lemma WrittenAfter(g: Graph, g1: Graph, g2: Graph, s: set<nat>, made: nat)
    requires SameLinks(g, g1) && (forall id :: id in g && id !in s ==> g1[id] == g[id]) && Confined(g1, g2, s, made)
    ensures Confined(g, g2, s, made)
  {
  }

  /** With the bound of an investigation: whatever is not among the memories known to be older is not
      written by its verdicts. */
  lemma InvestigationsAreConfined(e: Engine, cfg: Cfg, j: Judgement, ensureTension: bool, t: int, before: int, known: set<nat>, eligible: set<nat>)
    requires Greatest(e.mems, Candidates(e.mems, before, known), eligible) && j.left in eligible && j.right in eligible
    requires NamesEnds(e.shadow) && e.nextId !in e.mems
    ensures forall id :: id in e.mems && (e.mems[id].birth >= before || e.mems[id].lastSeen >= before || !(e.mems[id].src <= known)) ==>
              var g' := Report(e, cfg, j, ensureTension, t).mems; id in g' && g'[id] == e.mems[id]
  {
    VerdictsAreConfined(e, cfg, j, ensureTension, t, eligible);
  }
}
