/** Which tool signatures a bounded catalog shows: round-robin over the namespaces, cheapest line first. */
module Catalog {

  /** A tool by the place of its path in the alphabet, and the estimated cost of its catalog line. */
  datatype Tool = Tool(place: nat, cost: nat)

  predicate NotAfter(a: Tool, b: Tool) {
    a.cost < b.cost || (a.cost == b.cost && a.place <= b.place)
  }

  ghost predicate CheapestFirst(queue: seq<Tool>) {
    forall i, j :: 0 <= i < j < |queue| ==> NotAfter(queue[i], queue[j])
  }

  function Insert(tool: Tool, queue: seq<Tool>): seq<Tool> {
    if queue == [] || NotAfter(tool, queue[0]) then [tool] + queue else [queue[0]] + Insert(tool, queue[1..])
  }

  function Sorted(group: seq<Tool>): seq<Tool> {
    if group == [] then [] else Insert(group[0], Sorted(group[1..]))
  }

  lemma {:induction false} InsertSorts(tool: Tool, queue: seq<Tool>)
    requires CheapestFirst(queue)
    ensures CheapestFirst(Insert(tool, queue)) && multiset(Insert(tool, queue)) == multiset{tool} + multiset(queue)
    decreases |queue|
  {
    hide NotAfter;
    if queue == [] || NotAfter(tool, queue[0]) {
      forall j | 0 <= j < |queue|
        ensures NotAfter(tool, queue[j])
      {
        OrderIsTotal(tool, queue[0], queue[j]);
      }
    } else {
      OrderIsTotal(tool, queue[0], tool);
      var rest := Insert(tool, queue[1..]);
      InsertSorts(tool, queue[1..]);
      assert queue == [queue[0]] + queue[1..];
      forall j | 0 <= j < |rest|
        ensures NotAfter(queue[0], rest[j])
      {
        assert rest[j] in multiset(rest);
        assert rest[j] == tool || rest[j] in queue[1..];
      }
    }
  }

  lemma OrderIsTotal(a: Tool, b: Tool, c: Tool)
    ensures NotAfter(a, b) || NotAfter(b, a)
    ensures NotAfter(a, b) && NotAfter(b, c) ==> NotAfter(a, c)
    ensures NotAfter(a, a)
  {
  }

  /** The queue of a namespace holds its tools, cheapest line first, lines of one cost by path. */
  lemma SortedQueue(group: seq<Tool>)
    ensures var queue := Sorted(group);
            && CheapestFirst(queue) && multiset(queue) == multiset(group)
            && forall i, j :: 0 <= i < j < |queue| ==>
                 queue[i].cost <= queue[j].cost && (queue[i].cost == queue[j].cost ==> queue[i].place <= queue[j].place)
  {
    SortedIsSorted(group);
    var queue := Sorted(group);
    forall i, j | 0 <= i < j < |queue|
      ensures queue[i].cost <= queue[j].cost && (queue[i].cost == queue[j].cost ==> queue[i].place <= queue[j].place)
    {
      assert NotAfter(queue[i], queue[j]);
    }
  }

  lemma {:induction false} SortedIsSorted(group: seq<Tool>)
    ensures CheapestFirst(Sorted(group)) && multiset(Sorted(group)) == multiset(group)
    decreases |group|
  {
    if group != [] {
      SortedIsSorted(group[1..]);
      InsertSorts(group[0], Sorted(group[1..]));
      assert group == [group[0]] + group[1..];
    }
  }

  // ---------------------------------------------------------------- sums

  function Sum(tools: seq<Tool>): nat {
    if tools == [] then 0 else Sum(tools[..|tools| - 1]) + tools[|tools| - 1].cost
  }

  function Prefix(tools: seq<Tool>, n: nat): seq<Tool> {
    if n <= |tools| then tools[..n] else tools
  }

  /** The cost of what the first `i` namespaces placed in their first `r + 1` rounds, and the others in
      their first `r`. */
  function Upto(picked: seq<seq<Tool>>, i: nat, r: nat): nat {
    if picked == [] then 0
    else
      var j := |picked| - 1;
      Upto(picked[..j], i, r) + Sum(Prefix(picked[j], if j < i then r + 1 else r))
  }

  function Total(picked: seq<seq<Tool>>): nat {
    if picked == [] then 0 else Total(picked[..|picked| - 1]) + Sum(picked[|picked| - 1])
  }

  lemma {:induction false} UptoIsTotal(picked: seq<seq<Tool>>, i: nat, r: nat)
    requires forall j :: 0 <= j < |picked| ==> |picked[j]| <= if j < i then r + 1 else r
    ensures Upto(picked, i, r) == Total(picked)
    decreases |picked|
  {
    if picked != [] {
      var j := |picked| - 1;
      UptoIsTotal(picked[..j], i, r);
      assert Prefix(picked[j], if j < i then r + 1 else r) == picked[j];
    }
  }

  lemma {:induction false} UptoSame(picked: seq<seq<Tool>>, picked': seq<seq<Tool>>, i: nat, r: nat)
    requires |picked| == |picked'|
    requires forall j :: 0 <= j < |picked| ==>
               Prefix(picked[j], if j < i then r + 1 else r) == Prefix(picked'[j], if j < i then r + 1 else r)
    ensures Upto(picked, i, r) == Upto(picked', i, r)
    decreases |picked|
  {
    if picked != [] {
      var j := |picked| - 1;
      assert picked'[..j] == picked'[..|picked'| - 1];
      UptoSame(picked[..j], picked'[..j], i, r);
    }
  }

  lemma {:induction false} TotalPicked(picked: seq<seq<Tool>>, i: nat, tool: Tool)
    requires i < |picked|
    ensures Total(picked[i := picked[i] + [tool]]) == Total(picked) + tool.cost
    decreases |picked|
  {
    var j := |picked| - 1;
    var after := picked[i := picked[i] + [tool]];
    if i < j {
      TotalPicked(picked[..j], i, tool);
      assert after[..j] == picked[..j][i := picked[i] + [tool]];
    } else {
      assert after[..j] == picked[..j];
      assert (picked[i] + [tool])[..|picked[i]|] == picked[i];
    }
  }

  // ---------------------------------------------------------------- the selection

  /** Namespace `i` stopped because its next line did not fit at its turn: it would overflow the budget even
      if the namespaces before it had placed no more than one line more, and the later ones no more than
      itself. */
  predicate StoppedFairly(picked: seq<seq<Tool>>, rest: seq<seq<Tool>>, i: nat, budget: nat) {
    i < |picked| && i < |rest| && rest[i] != [] && Upto(picked, i, |picked[i]|) + rest[i][0].cost > budget
  }

  ghost predicate Splits(queues: seq<seq<Tool>>, picked: seq<seq<Tool>>, rest: seq<seq<Tool>>) {
    && |picked| == |rest| == |queues|
    && forall j :: 0 <= j < |queues| ==> picked[j] + rest[j] == queues[j]
  }

  ghost predicate Ascends(active: seq<nat>, n: nat) {
    && (forall k :: 0 <= k < |active| ==> active[k] < n)
    && (forall k, l :: 0 <= k < l < |active| ==> active[k] < active[l])
  }

  /** Where the loops stand: in round `r`, the `waiting` namespaces, none before `next`, have their turn
      before them; those in `again` have had it and will take part in the next round; every other one ran
      out or stopped fairly. */
  ghost predicate Underway(picked: seq<seq<Tool>>, rest: seq<seq<Tool>>, waiting: seq<nat>, again: seq<nat>, next: nat, r: nat, budget: nat) {
    && |picked| == |rest|
    && (forall j :: 0 <= j < |picked| ==> |picked[j]| <= if j < next then r + 1 else r)
    && (forall j :: j in waiting ==> next <= j < |picked| && |picked[j]| == r && rest[j] != [])
    && (forall j :: j in again ==> j < next && j < |picked| && |picked[j]| == r + 1 && rest[j] != [])
    && (forall j :: 0 <= j < |picked| && j !in waiting && j !in again && rest[j] != [] ==>
          StoppedFairly(picked, rest, j, budget) && (|picked[j]| < r || (|picked[j]| == r && j < next)))
  }

  lemma PickKeepsFair(picked: seq<seq<Tool>>, rest: seq<seq<Tool>>, i: nat, r: nat, d: nat, budget: nat)
    requires |picked| == |rest| && i < |picked| && d < |picked| && d != i && rest[i] != [] && |picked[i]| == r
    requires |picked[d]| < r || (|picked[d]| == r && d < i)
    requires StoppedFairly(picked, rest, d, budget)
    ensures StoppedFairly(picked[i := picked[i] + [rest[i][0]]], rest[i := rest[i][1..]], d, budget)
  {
    var picked' := picked[i := picked[i] + [rest[i][0]]];
    var rd := |picked[d]|;
    forall j | 0 <= j < |picked|
      ensures Prefix(picked[j], if j < d then rd + 1 else rd) == Prefix(picked'[j], if j < d then rd + 1 else rd)
    {
    }
    UptoSame(picked, picked', d, rd);
  }

  /** The first waiting namespace does not fit. */
  lemma StepDrop(picked: seq<seq<Tool>>, rest: seq<seq<Tool>>, waiting: seq<nat>, again: seq<nat>, next: nat, r: nat, budget: nat)
    requires Ascends(waiting, |picked|) && waiting != [] && Underway(picked, rest, waiting, again, waiting[0], r, budget)
    requires Total(picked) + rest[waiting[0]][0].cost > budget
    requires next > waiting[0] && forall j :: j in waiting[1..] ==> j >= next
    ensures Underway(picked, rest, waiting[1..], again, next, r, budget)
  {
    var i := waiting[0];
    assert i in waiting && forall j :: j in waiting <==> j == i || j in waiting[1..];
    UptoIsTotal(picked, i, r);
    assert StoppedFairly(picked, rest, i, budget);
  }

  /** The first waiting namespace places its next line. */
  lemma StepPick(picked: seq<seq<Tool>>, rest: seq<seq<Tool>>, waiting: seq<nat>, again: seq<nat>, next: nat, r: nat, budget: nat)
    requires Ascends(waiting, |picked|) && waiting != [] && Underway(picked, rest, waiting, again, waiting[0], r, budget)
    requires next > waiting[0] && forall j :: j in waiting[1..] ==> j >= next
    ensures var i := waiting[0];
            Underway(picked[i := picked[i] + [rest[i][0]]], rest[i := rest[i][1..]], waiting[1..],
                     if |rest[i]| > 1 then again + [i] else again, next, r, budget)
  {
    hide StoppedFairly;
    var i := waiting[0];
    assert i in waiting && forall j :: j in waiting <==> j == i || j in waiting[1..];
    forall d | 0 <= d < |picked| && d !in waiting && d !in again && rest[d] != []
      ensures StoppedFairly(picked[i := picked[i] + [rest[i][0]]], rest[i := rest[i][1..]], d, budget)
    {
      PickKeepsFair(picked, rest, i, r, d, budget);
    }
  }

  lemma NextRound(picked: seq<seq<Tool>>, rest: seq<seq<Tool>>, again: seq<nat>, r: nat, budget: nat)
    requires Underway(picked, rest, [], again, |picked|, r, budget)
    ensures Underway(picked, rest, again, [], 0, r + 1, budget)
  {
  }

  // ---------------------------------------------------------------- the loops

  function Lines(rest: seq<seq<Tool>>): nat {
    if rest == [] then 0 else Lines(rest[..|rest| - 1]) + |rest[|rest| - 1]|
  }

  lemma {:induction false} LinesDrop(rest: seq<seq<Tool>>, i: nat)
    requires i < |rest| && rest[i] != []
    ensures Lines(rest[i := rest[i][1..]]) == Lines(rest) - 1
    decreases |rest|
  {
    var j := |rest| - 1;
    var after := rest[i := rest[i][1..]];
    if i < j {
      LinesDrop(rest[..j], i);
      assert after[..j] == rest[..j][i := rest[i][1..]];
    } else {
      assert after[..j] == rest[..j];
    }
  }

  ghost predicate Sofar(queues: seq<seq<Tool>>, picked: seq<seq<Tool>>, rest: seq<seq<Tool>>, used: nat, budget: nat) {
    Splits(queues, picked, rest) && used == Total(picked) && used <= budget
  }

  lemma PickSplits(queues: seq<seq<Tool>>, picked: seq<seq<Tool>>, rest: seq<seq<Tool>>, used: nat, budget: nat, i: nat)
    requires Sofar(queues, picked, rest, used, budget) && i < |picked| && rest[i] != [] && used + rest[i][0].cost <= budget
    ensures Sofar(queues, picked[i := picked[i] + [rest[i][0]]], rest[i := rest[i][1..]], used + rest[i][0].cost, budget)
  {
    TotalPicked(picked, i, rest[i][0]);
    assert picked[i] + [rest[i][0]] + rest[i][1..] == picked[i] + rest[i];
  }

  /** One round: every active namespace tries to place its next line. */
  method Round(ghost queues: seq<seq<Tool>>, before: seq<seq<Tool>>, after: seq<seq<Tool>>, active: seq<nat>, ghost r: nat, spent: nat, budget: nat)
    returns (picked: seq<seq<Tool>>, rest: seq<seq<Tool>>, again: seq<nat>, used: nat)
    requires Sofar(queues, before, after, spent, budget)
    requires Ascends(active, |queues|) && Underway(before, after, active, [], 0, r, budget)
    ensures Sofar(queues, picked, rest, used, budget)
    ensures Ascends(again, |queues|) && Underway(picked, rest, again, [], 0, r + 1, budget)
    ensures Lines(rest) <= Lines(after) && (again != [] ==> Lines(rest) < Lines(after))
  {
    hide Underway, Sofar, Lines;
    picked, rest, again, used := before, after, [], spent;
    ghost var turn := Turn(active, 0, |queues|);
    Shape(queues, picked, rest, used, budget);
    FirstTurn(before, after, active, r, budget, |queues|);
    assert active[0..] == active;
    for k := 0 to |active|
      invariant Sofar(queues, picked, rest, used, budget) && |picked| == |rest| == |queues|
      invariant turn == Turn(active, k, |queues|) && Ascends(again, turn)
      invariant Underway(picked, rest, active[k..], again, turn, r, budget)
      invariant Lines(rest) <= Lines(after) && (again != [] ==> Lines(rest) < Lines(after))
    {
      var i := active[k];
      Waiting(picked, rest, active[k..], again, turn, r, budget);
      TurnGrows(active, k, |queues|);
      assert active[k..][1..] == active[k + 1..] && Ascends(active[k..], |queues|);
      var tool := rest[i][0];
      if used + tool.cost > budget {
        StepDrop(picked, rest, active[k..], again, Turn(active, k + 1, |queues|), r, budget) by { Shape(queues, picked, rest, used, budget); }
      } else {
        StepPick(picked, rest, active[k..], again, Turn(active, k + 1, |queues|), r, budget);
        PickSplits(queues, picked, rest, used, budget, i);
        LinesDrop(rest, i);
        if |rest[i]| > 1 {
          again := again + [i];
        }
        picked, rest, used := picked[i := picked[i] + [tool]], rest[i := rest[i][1..]], used + tool.cost;
      }
      turn := Turn(active, k + 1, |queues|);
    }
    assert active[|active|..] == [];
    NextRound(picked, rest, again, r, budget);
  }

  /** The namespace whose turn it is, or the number of namespaces. */
  function Turn(active: seq<nat>, k: nat, n: nat): nat {
    if k < |active| then active[k] else n
  }

  lemma FirstTurn(picked: seq<seq<Tool>>, rest: seq<seq<Tool>>, active: seq<nat>, r: nat, budget: nat, n: nat)
    requires Underway(picked, rest, active, [], 0, r, budget) && Ascends(active, n) && |picked| == n
    ensures Underway(picked, rest, active, [], Turn(active, 0, n), r, budget)
  {
  }

  lemma Shape(queues: seq<seq<Tool>>, picked: seq<seq<Tool>>, rest: seq<seq<Tool>>, used: nat, budget: nat)
    requires Sofar(queues, picked, rest, used, budget)
    ensures |picked| == |rest| == |queues| && used == Total(picked)
  {
  }

  lemma Waiting(picked: seq<seq<Tool>>, rest: seq<seq<Tool>>, waiting: seq<nat>, again: seq<nat>, next: nat, r: nat, budget: nat)
    requires Underway(picked, rest, waiting, again, next, r, budget) && waiting != []
    ensures waiting[0] < |picked| == |rest| && rest[waiting[0]] != []
  {
    assert waiting[0] in waiting;
  }

  lemma TurnGrows(active: seq<nat>, k: nat, n: nat)
    requires Ascends(active, n) && k < |active|
    ensures Turn(active, k, n) < Turn(active, k + 1, n) <= n && Ascends(active[k..], n)
    ensures forall j :: j in active[k..][1..] ==> j >= Turn(active, k + 1, n)
  {
    assert active[k..][1..] == active[k + 1..];
  }

  method Select(queues: seq<seq<Tool>>, budget: nat) returns (picked: seq<seq<Tool>>, rest: seq<seq<Tool>>, used: nat)
    ensures Splits(queues, picked, rest) && used == Total(picked) <= budget
    ensures forall j :: 0 <= j < |queues| && rest[j] != [] ==> StoppedFairly(picked, rest, j, budget)
  {
    hide Sofar, Underway, Splits, StoppedFairly, Total, Lines;
    picked, rest, used := seq(|queues|, _ => []), queues, 0;
    var active: seq<nat> := [];
    for j := 0 to |queues|
      invariant Ascends(active, j) && forall k :: 0 <= k < j ==> (k in active <==> rest[k] != [])
    {
      if rest[j] != [] {
        active := active + [j];
      }
    }
    ghost var r := 0;
    Begins(queues, picked, active, budget);
    while active != []
      invariant Sofar(queues, picked, rest, used, budget)
      invariant Ascends(active, |queues|) && Underway(picked, rest, active, [], 0, r, budget)
      decreases Lines(rest), |active|
    {
      picked, rest, active, used := Round(queues, picked, rest, active, r, used, budget);
      r := r + 1;
    }
    Ends(queues, picked, rest, r, used, budget);
  }

  /** Before the first round every namespace with a line takes part. */
  lemma Begins(queues: seq<seq<Tool>>, picked: seq<seq<Tool>>, active: seq<nat>, budget: nat)
    requires |picked| == |queues| && (forall j :: 0 <= j < |queues| ==> picked[j] == [])
    requires Ascends(active, |queues|) && forall k :: 0 <= k < |queues| ==> (k in active <==> queues[k] != [])
    ensures Sofar(queues, picked, queues, 0, budget) && Underway(picked, queues, active, [], 0, 0, budget)
  {
    hide Total, StoppedFairly;
    NothingPicked(picked);
    forall j | 0 <= j < |queues|
      ensures picked[j] + queues[j] == queues[j]
    {
      assert picked[j] == [];
    }
    forall j | j in active
      ensures j < |picked|
    {
      InRange(active, |queues|, j);
    }
  }

  lemma InRange(active: seq<nat>, n: nat, j: nat)
    requires Ascends(active, n) && j in active
    ensures j < n
  {
  }

  /** When no namespace is left to take part, all stopped fairly. */
  lemma Ends(queues: seq<seq<Tool>>, picked: seq<seq<Tool>>, rest: seq<seq<Tool>>, r: nat, used: nat, budget: nat)
    requires Sofar(queues, picked, rest, used, budget) && Underway(picked, rest, [], [], 0, r, budget)
    ensures Splits(queues, picked, rest) && used == Total(picked) <= budget
    ensures forall j :: 0 <= j < |queues| && rest[j] != [] ==> StoppedFairly(picked, rest, j, budget)
  {
    hide StoppedFairly, Total;
  }

  lemma {:induction false} NothingPicked(picked: seq<seq<Tool>>)
    requires forall j :: 0 <= j < |picked| ==> picked[j] == []
    ensures Total(picked) == 0
    decreases |picked|
  {
    if picked != [] {
      NothingPicked(picked[..|picked| - 1]);
    }
  }

  // ---------------------------------------------------------------- what the selection means

  lemma {:induction false} SumGrows(tools: seq<Tool>, n: nat)
    ensures Sum(Prefix(tools, n)) <= Sum(tools)
    decreases |tools|
  {
    if n < |tools| {
      var j := |tools| - 1;
      SumGrows(tools[..j], n);
      assert Prefix(tools[..j], n) == Prefix(tools, n);
    } else {
      assert Prefix(tools, n) == tools;
    }
  }

  lemma {:induction false} UptoAtMostTotal(picked: seq<seq<Tool>>, i: nat, r: nat)
    ensures Upto(picked, i, r) <= Total(picked)
    decreases |picked|
  {
    if picked != [] {
      var j := |picked| - 1;
      UptoAtMostTotal(picked[..j], i, r);
      SumGrows(picked[j], if j < i then r + 1 else r);
    }
  }

  ghost predicate Selected(queues: seq<seq<Tool>>, picked: seq<seq<Tool>>, rest: seq<seq<Tool>>, budget: nat) {
    && Splits(queues, picked, rest) && Total(picked) <= budget
    && forall j :: 0 <= j < |queues| && rest[j] != [] ==> StoppedFairly(picked, rest, j, budget)
  }

  /** No line that was left out fits at the end, whichever namespace it belongs to. */
  lemma NothingLeftFits(queues: seq<seq<Tool>>, picked: seq<seq<Tool>>, rest: seq<seq<Tool>>, budget: nat, i: nat)
    requires Selected(queues, picked, rest, budget) && i < |queues| && CheapestFirst(queues[i])
    ensures forall k :: 0 <= k < |rest[i]| ==> Total(picked) + rest[i][k].cost > budget
  {
    hide CheapestFirst, Upto, Total;
    if rest[i] != [] {
      UptoAtMostTotal(picked, i, |picked[i]|);
      assert StoppedFairly(picked, rest, i, budget);
      assert queues[i] == picked[i] + rest[i];
      HeadIsCheapest(picked[i], rest[i]);
    }
  }

  lemma HeadIsCheapest(picked: seq<Tool>, rest: seq<Tool>)
    requires CheapestFirst(picked + rest) && rest != []
    ensures forall k :: 0 <= k < |rest| ==> rest[0].cost <= rest[k].cost
  {
    var queue, n := picked + rest, |picked|;
    forall k | 0 <= k < |rest|
      ensures rest[0].cost <= rest[k].cost
    {
      assert queue[n] == rest[0] && queue[n + k] == rest[k];
      assert k > 0 ==> NotAfter(queue[n], queue[n + k]);
    }
  }

  /** Every line that is shown fitted at its turn: with what the earlier namespaces had placed up to the same
      round, and the later ones up to the round before. */
  lemma {:induction false} ShownFitted(picked: seq<seq<Tool>>, i: nat, r: nat)
    requires i < |picked| && r < |picked[i]|
    ensures Upto(picked, i, r) + picked[i][r].cost <= Total(picked)
    decreases |picked|
  {
    var j := |picked| - 1;
    if i < j {
      ShownFitted(picked[..j], i, r);
      SumGrows(picked[j], r);
    } else {
      UptoAtMostTotal(picked[..j], i, r);
      SumGrows(picked[i], r + 1);
      assert picked[i][..r + 1][..r] == picked[i][..r];
    }
  }

  /** A namespace trails another by more than one line only if its queue ran out, or if its next line did not
      fit at its turn, while the line that the other one is ahead by did. */
  lemma TrailingIsFair(queues: seq<seq<Tool>>, picked: seq<seq<Tool>>, rest: seq<seq<Tool>>, budget: nat, i: nat, j: nat)
    requires Selected(queues, picked, rest, budget) && i < |queues| && j < |queues| && |picked[j]| > |picked[i]| + 1
    ensures rest[i] == [] || Upto(picked, i, |picked[i]|) + rest[i][0].cost > budget
    ensures Upto(picked, j, |picked[i]| + 1) + picked[j][|picked[i]| + 1].cost <= budget
  {
    ShownFitted(picked, j, |picked[i]| + 1);
  }

  // ---------------------------------------------------------------- the rule determines the catalog

  /** Both selections agree on the turns before namespace `i` in round `r`. */
  ghost predicate AgreeBefore(p: seq<seq<Tool>>, q: seq<seq<Tool>>, i: nat, r: nat) {
    |p| == |q| && forall j :: 0 <= j < |p| ==> Prefix(p[j], if j < i then r + 1 else r) == Prefix(q[j], if j < i then r + 1 else r)
  }

  /** Where both agree so far, one cannot place a line that the other one could not. */
  lemma PlacesToo(queues: seq<seq<Tool>>, p: seq<seq<Tool>>, ps: seq<seq<Tool>>, q: seq<seq<Tool>>, qs: seq<seq<Tool>>, budget: nat, i: nat, r: nat)
    requires Selected(queues, p, ps, budget) && Selected(queues, q, qs, budget) && AgreeBefore(p, q, i, r) && i < |queues|
    ensures |p[i]| > r ==> |q[i]| > r
  {
    if |p[i]| > r && |q[i]| <= r {
      assert Prefix(q[i], r) == q[i] && |Prefix(p[i], r)| == r;
      assert p[i] + ps[i] == queues[i] && q[i] + qs[i] == queues[i];
      assert queues[i][r] == p[i][r] && qs[i] != [] && queues[i][r] == qs[i][0];
      ShownFitted(p, i, r);
      UptoSame(p, q, i, r);
    }
  }

  lemma OneMoreAgrees(p: seq<Tool>, ps: seq<Tool>, q: seq<Tool>, qs: seq<Tool>, r: nat)
    requires p + ps == q + qs && (|p| > r <==> |q| > r) && Prefix(p, r) == Prefix(q, r)
    ensures Prefix(p, r + 1) == Prefix(q, r + 1)
  {
    if |p| > r {
      assert p[..r + 1] == (p + ps)[..r + 1] && q[..r + 1] == (q + qs)[..r + 1];
    } else {
      assert Prefix(p, r) == p && Prefix(q, r) == q;
    }
  }

  lemma TurnAgrees(queues: seq<seq<Tool>>, p: seq<seq<Tool>>, ps: seq<seq<Tool>>, q: seq<seq<Tool>>, qs: seq<seq<Tool>>, budget: nat, i: nat, r: nat)
    requires Selected(queues, p, ps, budget) && Selected(queues, q, qs, budget) && AgreeBefore(p, q, i, r) && i < |queues|
    ensures AgreeBefore(p, q, i + 1, r)
  {
    hide Prefix, StoppedFairly, Total;
    assert (|p[i]| > r <==> |q[i]| > r) && Prefix(p[i], r) == Prefix(q[i], r) by {
      PlacesToo(queues, p, ps, q, qs, budget, i, r);
      PlacesToo(queues, q, qs, p, ps, budget, i, r);
    }
    assert p[i] + ps[i] == queues[i] && q[i] + qs[i] == queues[i];
    OneMoreAgrees(p[i], ps[i], q[i], qs[i], r);
  }

  lemma {:induction false} RoundsAgree(queues: seq<seq<Tool>>, p: seq<seq<Tool>>, ps: seq<seq<Tool>>, q: seq<seq<Tool>>, qs: seq<seq<Tool>>, budget: nat, r: nat)
    requires Selected(queues, p, ps, budget) && Selected(queues, q, qs, budget)
    ensures AgreeBefore(p, q, 0, r)
    decreases r
  {
    hide Selected, AgreeBefore;
    if r == 0 {
      NothingToAgree(queues, p, ps, q, qs, budget);
    } else {
      RoundsAgree(queues, p, ps, q, qs, budget, r - 1);
      for i := 0 to |queues|
        invariant AgreeBefore(p, q, i, r - 1)
      {
        TurnAgrees(queues, p, ps, q, qs, budget, i, r - 1);
      }
      assert |p| == |queues| by { NothingToAgree(queues, p, ps, q, qs, budget); }
      RoundIsOver(p, q, r);
    }
  }

  lemma NothingToAgree(queues: seq<seq<Tool>>, p: seq<seq<Tool>>, ps: seq<seq<Tool>>, q: seq<seq<Tool>>, qs: seq<seq<Tool>>, budget: nat)
    requires Selected(queues, p, ps, budget) && Selected(queues, q, qs, budget)
    ensures |p| == |queues| && AgreeBefore(p, q, 0, 0)
  {
    hide StoppedFairly, Total;
  }

  lemma RoundIsOver(p: seq<seq<Tool>>, q: seq<seq<Tool>>, r: nat)
    requires r > 0 && AgreeBefore(p, q, |p|, r - 1)
    ensures AgreeBefore(p, q, 0, r)
  {
    hide Prefix;
  }

  /** The budget and the rule of the turns leave no choice: whatever selection respects them is the one that
      the loops find. */
  lemma SelectionIsUnique(queues: seq<seq<Tool>>, p: seq<seq<Tool>>, ps: seq<seq<Tool>>, q: seq<seq<Tool>>, qs: seq<seq<Tool>>, budget: nat)
    requires Selected(queues, p, ps, budget) && Selected(queues, q, qs, budget)
    ensures p == q && ps == qs
  {
    forall j | 0 <= j < |queues|
      ensures p[j] == q[j] && ps[j] == qs[j]
    {
      var r := |p[j]| + |q[j]|;
      RoundsAgree(queues, p, ps, q, qs, budget, r);
      assert Prefix(p[j], r) == p[j] && Prefix(q[j], r) == q[j];
      assert p[j] + ps[j] == queues[j] && q[j] + qs[j] == queues[j];
      assert ps[j] == queues[j][|p[j]|..] && qs[j] == queues[j][|q[j]|..];
    }
  }

  lemma {:induction false} SumSplits(a: seq<Tool>, b: seq<Tool>)
    ensures Sum(a + b) == Sum(a) + Sum(b)
    decreases |b|
  {
    if b == [] {
      assert a + b == a;
    } else {
      var n := |b| - 1;
      SumSplits(a, b[..n]);
      assert (a + b)[..|a + b| - 1] == a + b[..n];
    }
  }

  lemma {:induction false} TotalSplits(queues: seq<seq<Tool>>, picked: seq<seq<Tool>>, rest: seq<seq<Tool>>)
    requires Splits(queues, picked, rest)
    ensures Total(queues) == Total(picked) + Total(rest)
    decreases |queues|
  {
    if queues != [] {
      var j := |queues| - 1;
      TotalSplits(queues[..j], picked[..j], rest[..j]);
      SumSplits(picked[j], rest[j]);
    }
  }

  lemma {:induction false} RestCosts(rest: seq<seq<Tool>>, i: nat)
    requires i < |rest| && rest[i] != []
    ensures Total(rest) >= rest[i][0].cost
    decreases |rest|
  {
    var j := |rest| - 1;
    if i < j {
      RestCosts(rest[..j], i);
    } else {
      SumSplits([rest[j][0]], rest[j][1..]);
      assert rest[j] == [rest[j][0]] + rest[j][1..];
      assert [rest[j][0]][..0] == [];
    }
  }

  /** The catalog is complete exactly when all lines together fit the budget. */
  lemma CompleteExactly(queues: seq<seq<Tool>>, picked: seq<seq<Tool>>, rest: seq<seq<Tool>>, budget: nat)
    requires Selected(queues, picked, rest, budget)
    ensures picked == queues <==> Total(queues) <= budget
  {
    TotalSplits(queues, picked, rest);
    if Total(queues) <= budget {
      forall j | 0 <= j < |queues|
        ensures rest[j] == [] && picked[j] == queues[j]
      {
        if rest[j] != [] {
          UptoAtMostTotal(picked, j, |picked[j]|);
          RestCosts(rest, j);
        } else {
          assert picked[j] + [] == picked[j];
        }
      }
    }
  }

  /** The lines of one namespace after the selection: its tools cheapest first, and nothing left fits. */
  ghost predicate NamespaceDone(group: seq<Tool>, picked: seq<Tool>, rest: seq<Tool>, used: nat, budget: nat) {
    && multiset(picked + rest) == multiset(group) && CheapestFirst(picked + rest)
    && forall k :: 0 <= k < |rest| ==> used + rest[k].cost > budget
  }

  lemma NamespaceIsDone(groups: seq<seq<Tool>>, queues: seq<seq<Tool>>, picked: seq<seq<Tool>>, rest: seq<seq<Tool>>, budget: nat, j: nat)
    requires |groups| == |queues| && j < |groups| && queues[j] == Sorted(groups[j]) && Selected(queues, picked, rest, budget)
    ensures NamespaceDone(groups[j], picked[j], rest[j], Total(picked), budget)
  {
    SortedQueue(groups[j]);
    assert picked[j] + rest[j] == queues[j];
    NothingLeftFits(queues, picked, rest, budget, j);
  }

  /** The whole selection: sort each namespace's tools, then place lines round by round. */
  method Prepare(groups: seq<seq<Tool>>, budget: nat) returns (picked: seq<seq<Tool>>, rest: seq<seq<Tool>>, complete: bool)
    ensures |picked| == |rest| == |groups| && Total(picked) <= budget
    ensures forall j :: 0 <= j < |groups| ==> NamespaceDone(groups[j], picked[j], rest[j], Total(picked), budget)
    ensures Selected(seq(|groups|, j requires 0 <= j < |groups| => Sorted(groups[j])), picked, rest, budget)
    ensures complete <==> forall j :: 0 <= j < |groups| ==> rest[j] == []
  {
    hide NamespaceDone, Total, StoppedFairly, Sorted;
    var queues := seq(|groups|, j requires 0 <= j < |groups| => Sorted(groups[j]));
    var used;
    picked, rest, used := Select(queues, budget);
    complete := true;
    for j := 0 to |groups|
      invariant complete <==> forall k :: 0 <= k < j ==> rest[k] == []
      invariant forall k :: 0 <= k < j ==> NamespaceDone(groups[k], picked[k], rest[k], Total(picked), budget)
    {
      NamespaceIsDone(groups, queues, picked, rest, budget, j);
      complete := complete && rest[j] == [];
    }
  }
}
