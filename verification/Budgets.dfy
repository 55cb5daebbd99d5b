/** Metered investigations: tool-call and reading budgets under concurrent calls, and the reader that
    returns raw text within what a call reserved. */
module Budgets {
  import opened MemoryTypes

  const MAIN_WINDOW_CAP: nat := 1500

  /** One budget object. A call keeps the object it was admitted on, whatever happens to the signal. */
  datatype Budget = Budget(toolCalls: nat, windowChars: nat, before: nat, calls: nat, used: nat, reserved: nat)

  /** A reading call between its admission and its settlement. */
  datatype Flight = Flight(budget: Option<nat>, cap: nat, bound: Option<nat>, done: bool)

  /** Budget objects by the order of their opening, the open signals, the calls, and how many characters
      were returned through each object. */
  datatype Meter = Meter(objects: seq<Budget>, open: map<string, nat>, flights: seq<Flight>, returned: seq<nat>)

  datatype Refusal = Invalid | AlreadyOpen | Frozen | Closed | CallsExhausted | LeaseLost | WindowExhausted

  datatype Admission = Refused(why: Refusal) | Admitted(bound: Option<nat>, flight: Option<nat>, cap: nat)

  /** Characters that stripping a text removes from its ends. */
  predicate IsSpace(c: char) {
    var n := c as int;
    9 <= n <= 13 || 28 <= n <= 32 || n in {133, 160, 5760, 8232, 8233, 8239, 8287, 12288} || 8192 <= n <= 8202
  }

  /** Nothing is left of the text after stripping. */
  predicate Blank(text: string) {
    forall i :: 0 <= i < |text| ==> IsSpace(text[i])
  }

  function Open(m: Meter, signal: string, toolCalls: int, windowChars: int, before: int): (Meter, Option<Refusal>) {
    if Blank(signal) || toolCalls < 0 || windowChars < 0 || before < 0 then (m, Some(Invalid))
    else if signal in m.open then (m, Some(AlreadyOpen))
    else (m.(objects := m.objects + [Budget(toolCalls, windowChars, before, 0, 0, 0)], returned := m.returned + [0],
             open := m.open[signal := |m.objects|]), None)
  }

  function Close(m: Meter, signal: string): Meter {
    m.(open := m.open - {signal})
  }

  function Tighter(a: Option<nat>, b: nat): nat {
    if a.Some? && a.value <= b then a.value else b
  }

  function CapOf(remaining: int, maxChars: Option<int>): int {
    if maxChars.Some? && maxChars.value <= remaining then maxChars.value else remaining
  }

  /** Admit a call, unless the service is frozen. Attempts are counted before the limit is checked, also the refused ones. A reading call
      reserves what it may return. */
  function Admit(m: Meter, signal: Option<string>, before: Option<int>, window: bool, maxChars: Option<int>, healthy: bool, owned: bool): (Meter, Admission) {
    if (before.Some? && before.value < 0) || (maxChars.Some? && maxChars.value <= 0) then (m, Refused(Invalid))
    else if !healthy then (m, Refused(Frozen))
    else
      var asked: Option<nat> := if before.Some? then Some(before.value) else None;
      if signal.None? then
        if !window then (m, Admitted(asked, None, 0))
        else
          var cap := CapOf(MAIN_WINDOW_CAP, maxChars);
          (m.(flights := m.flights + [Flight(None, cap, asked, false)]), Admitted(asked, Some(|m.flights|), cap))
      else if signal.value !in m.open || m.open[signal.value] >= |m.objects| then (m, Refused(Closed))
      else
        var k := m.open[signal.value];
        var b := m.objects[k].(calls := m.objects[k].calls + 1);
        var m1 := m.(objects := m.objects[k := b]);
        if b.calls > b.toolCalls then (m1, Refused(CallsExhausted))
        else if !owned then (m1, Refused(LeaseLost))
        else
          var bound := Some(Tighter(asked, b.before));
          if !window then (m1, Admitted(bound, None, 0))
          else
            var remaining := b.windowChars - b.used - b.reserved;
            if remaining <= 0 then (m1, Refused(WindowExhausted))
            else
              var cap := CapOf(remaining, maxChars);
              (m1.(objects := m.objects[k := b.(reserved := b.reserved + cap)],
                   flights := m.flights + [Flight(Some(k), cap, bound, false)]), Admitted(bound, Some(|m.flights|), cap))
  }

  /** The end of a reading call: the whole reservation is given back, and what was returned is charged. */
  function Settle(m: Meter, f: nat, chars: Option<nat>): Meter {
    if f >= |m.flights| || m.flights[f].done then m
    else
      var flight := m.flights[f];
      var m1 := m.(flights := m.flights[f := flight.(done := true)]);
      if flight.budget.None? || flight.budget.value >= |m.objects| || flight.budget.value >= |m.returned| then m1
      else
        var k := flight.budget.value;
        var b := m.objects[k];
        var n := if chars.Some? then chars.value else 0;
        m1.(objects := m.objects[k := b.(reserved := if b.reserved >= flight.cap then b.reserved - flight.cap else 0, used := b.used + n)],
            returned := m.returned[k := m.returned[k] + n])
  }

  datatype Event =
    | DoOpen(signal: string, toolCalls: int, windowChars: int, before: int)
    | DoClose(signal: string)
    | DoAdmit(caller: Option<string>, bound: Option<int>, window: bool, maxChars: Option<int>, healthy: bool, owned: bool)
    | DoSettle(f: nat, chars: Option<nat>)

  /** A reader returns no more than its call reserved. */
  predicate Fair(m: Meter, e: Event) {
    e.DoSettle? && e.chars.Some? && e.f < |m.flights| ==> e.chars.value <= m.flights[e.f].cap
  }

  function Happen(m: Meter, e: Event): Meter {
    match e
    case DoOpen(signal, toolCalls, windowChars, before) => Open(m, signal, toolCalls, windowChars, before).0
    case DoClose(signal) => Close(m, signal)
    case DoAdmit(caller, bound, window, maxChars, healthy, owned) => Admit(m, caller, bound, window, maxChars, healthy, owned).0
    case DoSettle(f, chars) => Settle(m, f, chars)
  }

  function HappenAll(m: Meter, events: seq<Event>): Meter
    decreases |events|
  {
    if events == [] then m else HappenAll(Happen(m, events[0]), events[1..])
  }

  ghost predicate AllFair(m: Meter, events: seq<Event>)
    decreases |events|
  {
    events != [] ==> Fair(m, events[0]) && AllFair(Happen(m, events[0]), events[1..])
  }

  // ---------------------------------------------------------------- the invariant

  /** What calls in flight have reserved on object `k`. */
  function InFlight(flights: seq<Flight>, k: nat): nat {
    if flights == [] then 0
    else
      var f := flights[|flights| - 1];
      InFlight(flights[..|flights| - 1], k) + if !f.done && f.budget == Some(k) then f.cap else 0
  }

  ghost predicate BudgetOk(m: Meter, k: nat)
    requires k < |m.objects| == |m.returned|
  {
    var b := m.objects[k];
    && b.used + b.reserved <= b.windowChars
    && b.reserved == InFlight(m.flights, k)
    && b.used == m.returned[k]
  }

  ghost predicate MeterOk(m: Meter) {
    && |m.returned| == |m.objects|
    && (forall k :: 0 <= k < |m.objects| ==> BudgetOk(m, k))
    && (forall s :: s in m.open ==> m.open[s] < |m.objects|)
    && (forall s, r :: s in m.open && r in m.open && m.open[s] == m.open[r] ==> s == r)
    && (forall f :: 0 <= f < |m.flights| && m.flights[f].budget.Some? ==>
          m.flights[f].budget.value < |m.objects|
          && m.flights[f].bound.Some? && m.flights[f].bound.value <= m.objects[m.flights[f].budget.value].before)
  }

  lemma {:induction false} FlightSettled(flights: seq<Flight>, f: nat, k: nat)
    requires f < |flights| && !flights[f].done
    ensures InFlight(flights[f := flights[f].(done := true)], k) + (if flights[f].budget == Some(k) then flights[f].cap else 0) == InFlight(flights, k)
    decreases |flights|
  {
    var n := |flights| - 1;
    var after := flights[f := flights[f].(done := true)];
    if f < n {
      FlightSettled(flights[..n], f, k);
      assert after[..n] == flights[..n][f := flights[f].(done := true)];
    } else {
      assert after[..n] == flights[..n];
    }
  }

  lemma FlightAdded(flights: seq<Flight>, f: Flight, k: nat)
    ensures InFlight(flights + [f], k) == InFlight(flights, k) + if !f.done && f.budget == Some(k) then f.cap else 0
  {
    assert (flights + [f])[..|flights|] == flights;
  }

  lemma {:induction false} NoFlightYet(flights: seq<Flight>, k: nat)
    requires forall f :: 0 <= f < |flights| && flights[f].budget.Some? ==> flights[f].budget.value < k
    ensures InFlight(flights, k) == 0
    decreases |flights|
  {
    if flights != [] {
      NoFlightYet(flights[..|flights| - 1], k);
    }
  }

  lemma OpenKeeps(m: Meter, signal: string, toolCalls: int, windowChars: int, before: int)
    requires MeterOk(m)
    ensures MeterOk(Open(m, signal, toolCalls, windowChars, before).0)
  {
    var m' := Open(m, signal, toolCalls, windowChars, before).0;
    NoFlightYet(m.flights, |m.objects|);
    forall k | 0 <= k < |m'.objects|
      ensures BudgetOk(m', k)
    {
      if k < |m.objects| {
        assert BudgetOk(m, k);
      }
    }
  }

  lemma CountedKeeps(m: Meter, k: nat)
    requires MeterOk(m) && k < |m.objects|
    ensures MeterOk(m.(objects := m.objects[k := m.objects[k].(calls := m.objects[k].calls + 1)]))
  {
    var m' := m.(objects := m.objects[k := m.objects[k].(calls := m.objects[k].calls + 1)]);
    forall j | 0 <= j < |m'.objects|
      ensures BudgetOk(m', j)
    {
      assert BudgetOk(m, j);
    }
  }

  /** A reading call reserves what it may return. */
  lemma ReservedKeeps(m: Meter, k: nat, cap: nat, bound: nat)
    requires MeterOk(m) && k < |m.objects| && bound <= m.objects[k].before
    requires m.objects[k].used + m.objects[k].reserved + cap <= m.objects[k].windowChars
    ensures MeterOk(m.(objects := m.objects[k := m.objects[k].(reserved := m.objects[k].reserved + cap)],
                       flights := m.flights + [Flight(Some(k), cap, Some(bound), false)]))
  {
    var f := Flight(Some(k), cap, Some(bound), false);
    var m' := m.(objects := m.objects[k := m.objects[k].(reserved := m.objects[k].reserved + cap)], flights := m.flights + [f]);
    forall j | 0 <= j < |m'.objects|
      ensures BudgetOk(m', j)
    {
      assert BudgetOk(m, j);
      FlightAdded(m.flights, f, j);
    }
  }

  lemma UnboundKeeps(m: Meter, f: Flight)
    requires MeterOk(m) && f.budget.None?
    ensures MeterOk(m.(flights := m.flights + [f]))
  {
    var m' := m.(flights := m.flights + [f]);
    forall j | 0 <= j < |m'.objects|
      ensures BudgetOk(m', j)
    {
      assert BudgetOk(m, j);
      FlightAdded(m.flights, f, j);
    }
  }

  lemma OpenIsThere(m: Meter, signal: string)
    requires MeterOk(m) && signal in m.open
    ensures m.open[signal] < |m.objects|
  {
  }

  lemma AdmitKeeps(m: Meter, caller: Option<string>, bound: Option<int>, window: bool, maxChars: Option<int>, healthy: bool, owned: bool)
    requires MeterOk(m)
    ensures MeterOk(Admit(m, caller, bound, window, maxChars, healthy, owned).0)
  {
    hide MeterOk, CapOf;
    var m' := Admit(m, caller, bound, window, maxChars, healthy, owned).0;
    if m' != m {
      if caller.None? {
        UnboundKeeps(m, m'.flights[|m.flights|]);
      } else {
        OpenIsThere(m, caller.value);
        var k := m.open[caller.value];
        CountedKeeps(m, k);
        if |m'.flights| > |m.flights| {
          var f := m'.flights[|m.flights|];
          var m1 := m.(objects := m.objects[k := m.objects[k].(calls := m.objects[k].calls + 1)]);
          CapFits(m1.objects[k].windowChars - m1.objects[k].used - m1.objects[k].reserved, maxChars);
          ReservedKeeps(m1, k, f.cap, f.bound.value);
          assert m1.objects[k := m'.objects[k]] == m'.objects;
        }
      }
    }
  }

  lemma CapFits(remaining: int, maxChars: Option<int>)
    ensures CapOf(remaining, maxChars) <= remaining
  {
  }

  lemma SettleKeeps(m: Meter, f: nat, chars: Option<nat>)
    requires MeterOk(m) && Fair(m, DoSettle(f, chars))
    ensures MeterOk(Settle(m, f, chars))
  {
    var m' := Settle(m, f, chars);
    if f < |m.flights| && !m.flights[f].done {
      forall k | 0 <= k < |m'.objects|
        ensures BudgetOk(m', k)
      {
        assert BudgetOk(m, k);
        FlightSettled(m.flights, f, k);
      }
    }
  }

  /** Over any interleaving of openings, closings, admissions, failures and settlements, also when a signal
      is closed and opened again under calls in flight: no budget object is overdrawn, the characters
      returned through it are within its limit, and without calls in flight nothing stays reserved. */
  lemma {:induction false} BudgetsHold(m: Meter, events: seq<Event>)
    requires MeterOk(m) && AllFair(m, events)
    ensures var end := HappenAll(m, events);
            && MeterOk(end)
            && (forall k :: 0 <= k < |end.objects| ==> end.returned[k] + end.objects[k].reserved <= end.objects[k].windowChars)
            && ((forall f :: 0 <= f < |end.flights| ==> end.flights[f].done) ==> forall k :: 0 <= k < |end.objects| ==> end.objects[k].reserved == 0)
    decreases |events|
  {
    if events == [] {
      forall k | 0 <= k < |m.objects|
        ensures m.returned[k] + m.objects[k].reserved <= m.objects[k].windowChars
        ensures (forall f :: 0 <= f < |m.flights| ==> m.flights[f].done) ==> m.objects[k].reserved == 0
      {
        assert BudgetOk(m, k);
        if forall f :: 0 <= f < |m.flights| ==> m.flights[f].done { AllDone(m.flights, k); }
      }
    } else {
      hide MeterOk;
      EventKeeps(m, events[0]);
      BudgetsHold(Happen(m, events[0]), events[1..]);
    }
  }

  lemma CloseKeeps(m: Meter, signal: string)
    requires MeterOk(m)
    ensures MeterOk(Close(m, signal))
  {
    forall k | 0 <= k < |m.objects|
      ensures BudgetOk(Close(m, signal), k)
    {
      assert BudgetOk(m, k);
    }
  }

  lemma {:induction false} AllDone(flights: seq<Flight>, k: nat)
    requires forall f :: 0 <= f < |flights| ==> flights[f].done
    ensures InFlight(flights, k) == 0
    decreases |flights|
  {
    if flights != [] {
      AllDone(flights[..|flights| - 1], k);
    }
  }

  // ---------------------------------------------------------------- admissions

  /** A budget is opened exactly with sound limits under a signal that says something and is not open; it starts full,
      and unlinked to any budget before it. */
  lemma OpenOutcome(m: Meter, signal: string, toolCalls: int, windowChars: int, before: int)
    requires MeterOk(m)
    ensures var (m', why) := Open(m, signal, toolCalls, windowChars, before);
            && (why.None? <==> !Blank(signal) && toolCalls >= 0 && windowChars >= 0 && before >= 0 && signal !in m.open)
            && (why.Some? ==> m' == m)
            && (why.None? ==>
                  && m'.open == m.open[signal := |m.objects|] && m'.flights == m.flights
                  && |m'.objects| == |m.objects| + 1 && m'.objects[..|m.objects|] == m.objects
                  && var b := m'.objects[|m.objects|];
                  && b.toolCalls == toolCalls && b.windowChars == windowChars && b.before == before
                  && b.calls == 0 && b.used == 0 && b.reserved == 0)
  {
  }

  /** Arguments are sound and the service is healthy. */
  predicate Sound(before: Option<int>, maxChars: Option<int>, healthy: bool) {
    healthy && (before.Some? ==> before.value >= 0) && (maxChars.Some? ==> maxChars.value > 0)
  }

  /** A call under a signal is let in exactly while its budget has calls left, the lease of its task is held, and, for
      reading, characters are left. It sees nothing at or after the tighter of the two bounds, and may read no more than
      it asked for, nor more than is left. */
  lemma AdmitOutcome(m: Meter, signal: string, before: Option<int>, window: bool, maxChars: Option<int>, healthy: bool, owned: bool)
    requires MeterOk(m)
    ensures var (m', a) := Admit(m, Some(signal), before, window, maxChars, healthy, owned);
            && (a.Admitted? <==>
                  && Sound(before, maxChars, healthy) && signal in m.open && owned
                  && var b := m.objects[m.open[signal]];
                  b.calls < b.toolCalls && (window ==> b.used + b.reserved < b.windowChars))
            && (Sound(before, maxChars, healthy) && signal in m.open ==>
                  m'.objects[m.open[signal]].calls == m.objects[m.open[signal]].calls + 1)
            && (!Sound(before, maxChars, healthy) || signal !in m.open ==> m' == m)
            && (a.Admitted? ==>
                  && var b := m.objects[m.open[signal]];
                  && a.bound.Some? && a.bound.value <= b.before && (before.Some? ==> a.bound.value <= before.value)
                  && (a.bound.value == b.before || before == Some(a.bound.value))
                  && (a.flight.Some? <==> window) && (!window ==> a.cap == 0)
                  && (window ==>
                        && a.cap > 0 && b.used + b.reserved + a.cap <= b.windowChars && (maxChars.Some? ==> a.cap <= maxChars.value)
                        && (b.used + b.reserved + a.cap == b.windowChars || maxChars == Some(a.cap))
                        && m'.objects[m.open[signal]].reserved == b.reserved + a.cap))
  {
    assert signal in m.open ==> m.open[signal] < |m.objects| && BudgetOk(m, m.open[signal]);
    hide MeterOk;
  }

  /** Without a signal, a call reads within the limit of such calls. */
  lemma UnmeteredOutcome(m: Meter, before: Option<int>, window: bool, maxChars: Option<int>, healthy: bool, owned: bool)
    ensures var (m', a) := Admit(m, None, before, window, maxChars, healthy, owned);
            && (a.Admitted? <==> Sound(before, maxChars, healthy)) && m'.objects == m.objects
            && (a.Admitted? ==> a.bound == before && (a.flight.Some? <==> window) && (!window ==> a.cap == 0)
                                && (window ==> 0 < a.cap <= MAIN_WINDOW_CAP && (maxChars.Some? ==> a.cap <= maxChars.value)
                                               && (a.cap == MAIN_WINDOW_CAP || maxChars == Some(a.cap))))
  {
  }

  /** The end of a reading call gives its whole reservation back and charges exactly what was returned, nothing if the
      call failed; it ends once. */
  lemma SettleOutcome(m: Meter, f: nat, chars: Option<nat>)
    requires MeterOk(m)
    ensures var m' := Settle(m, f, chars);
            && (f >= |m.flights| || m.flights[f].done ==> m' == m)
            && (f < |m.flights| && !m.flights[f].done ==>
                  && m'.flights == m.flights[f := m.flights[f].(done := true)] && m'.open == m.open && |m'.objects| == |m.objects|
                  && forall k :: 0 <= k < |m.objects| ==>
                       var share := if m.flights[f].budget == Some(k) then (if chars.Some? then chars.value else 0) else 0;
                       var back := if m.flights[f].budget == Some(k) then m.flights[f].cap else 0;
                       && m'.objects[k] == m.objects[k].(used := m.objects[k].used + share, reserved := m'.objects[k].reserved)
                       && m'.objects[k].reserved + back == m.objects[k].reserved
                       && m'.returned[k] == m.returned[k] + share)
  {
    if f < |m.flights| && !m.flights[f].done && m.flights[f].budget.Some? {
      var k := m.flights[f].budget.value;
      assert BudgetOk(m, k);
      FlightSettled(m.flights, f, k);
    }
  }

  /** How many calls of a run are let in on budget object `k`. */
  function LetIn(m: Meter, events: seq<Event>, k: nat): nat
    decreases |events|
  {
    if events == [] then 0
    else LetIn(Happen(m, events[0]), events[1..], k) + if LetsIn(m, events[0], k) then 1 else 0
  }

  predicate LetsIn(m: Meter, e: Event, k: nat) {
    && e.DoAdmit? && e.caller.Some? && e.caller.value in m.open && m.open[e.caller.value] == k
    && Admit(m, e.caller, e.bound, e.window, e.maxChars, e.healthy, e.owned).1.Admitted?
  }

  /** No run lets more calls in on a budget than it has, whatever signals it was opened under and however many calls are
      in flight. */
  lemma {:induction false} CallsAreLimited(m: Meter, events: seq<Event>, k: nat)
    requires MeterOk(m) && AllFair(m, events) && k < |m.objects|
    ensures var b := m.objects[k]; LetIn(m, events, k) <= if b.calls <= b.toolCalls then b.toolCalls - b.calls else 0
    decreases |events|
  {
    if events != [] {
      hide MeterOk, Admit, LetsIn;
      var m1 := Happen(m, events[0]);
      EventKeeps(m, events[0]);
      CountsCall(m, events[0], k);
      CallsAreLimited(m1, events[1..], k);
    }
  }

  lemma EventKeeps(m: Meter, e: Event)
    requires MeterOk(m) && Fair(m, e)
    ensures MeterOk(Happen(m, e))
  {
    hide MeterOk;
    match e
    case DoOpen(signal, toolCalls, windowChars, before) => OpenKeeps(m, signal, toolCalls, windowChars, before);
    case DoClose(signal) => CloseKeeps(m, signal);
    case DoAdmit(caller, bound, window, maxChars, healthy, owned) => AdmitKeeps(m, caller, bound, window, maxChars, healthy, owned);
    case DoSettle(f, chars) => SettleKeeps(m, f, chars);
  }

  lemma CountsCall(m: Meter, e: Event, k: nat)
    requires MeterOk(m) && k < |m.objects|
    ensures var m' := Happen(m, e);
            && k < |m'.objects| && m'.objects[k].toolCalls == m.objects[k].toolCalls && m'.objects[k].calls >= m.objects[k].calls
            && (LetsIn(m, e, k) ==> m.objects[k].calls < m.objects[k].toolCalls && m'.objects[k].calls == m.objects[k].calls + 1)
  {
    hide CapOf;
  }

  // ---------------------------------------------------------------- reading

  datatype Unit = Unit(t: int, user: string, assistant: string)

  datatype Piece = Piece(uid: nat, user: string, assistant: string, truncated: bool)

  predicate Readable(log: map<nat, Unit>, uid: nat, before: Option<int>) {
    uid in log && (before.Some? ==> log[uid].t < before.value)
  }

  function Size(p: Piece): nat {
    |p.user| + |p.assistant|
  }

  function TotalSize(pieces: seq<Piece>): nat {
    if pieces == [] then 0 else TotalSize(pieces[..|pieces| - 1]) + Size(pieces[|pieces| - 1])
  }

  /** A piece is the beginning of its unit's text, user first; it is the whole text unless truncated. */
  ghost predicate PieceOf(p: Piece, log: map<nat, Unit>, before: Option<int>) {
    && Readable(log, p.uid, before)
    && p.user + p.assistant <= log[p.uid].user + log[p.uid].assistant && p.user <= log[p.uid].user
    && (p.truncated <==> p.user + p.assistant != log[p.uid].user + log[p.uid].assistant)
  }

  /** Return the text of units in the order given until the limit is used up. What is missing or not older
      than the bound is reported, and so is what there was no room for. */
  method ReadWindow(log: map<nat, Unit>, uids: seq<nat>, maxChars: int, before: Option<int>)
    returns (pieces: seq<Piece>, chars: nat, truncated: bool, missing: seq<nat>, omitted: seq<nat>)
    ensures chars == TotalSize(pieces) && (maxChars >= 0 ==> chars <= maxChars) && (maxChars < 0 ==> chars == 0)
    ensures forall i :: 0 <= i < |pieces| ==> PieceOf(pieces[i], log, before) && pieces[i].uid in uids
    ensures forall i :: 0 <= i < |pieces| && pieces[i].truncated ==> i == |pieces| - 1 && chars == maxChars
    ensures forall uid :: uid in missing <==> uid in uids && !Readable(log, uid, before)
    ensures omitted != [] ==> chars == (if maxChars >= 0 then maxChars else 0) && truncated
    ensures |pieces| + |missing| + |omitted| == |uids|
  {
    var budget: nat := if maxChars >= 0 then maxChars else 0;
    pieces, chars, truncated, missing, omitted := [], 0, false, [], [];
    for i := 0 to |uids|
      invariant chars == TotalSize(pieces) <= budget
      invariant forall j :: 0 <= j < |pieces| ==> PieceOf(pieces[j], log, before) && pieces[j].uid in uids
      invariant forall j :: 0 <= j < |pieces| && pieces[j].truncated ==> j == |pieces| - 1 && chars == budget
      invariant (exists j :: 0 <= j < |pieces| && pieces[j].truncated) ==> truncated && budget > 0
      invariant forall uid :: uid in missing <==> uid in uids[..i] && !Readable(log, uid, before)
      invariant omitted != [] ==> chars == budget && truncated
      invariant |pieces| + |missing| + |omitted| == i
    {
      assert uids[..i + 1] == uids[..i] + [uids[i]];
      var uid := uids[i];
      if uid !in log || (before.Some? && log[uid].t >= before.value) {
        missing := missing + [uid];
      } else {
        var remain := budget - chars;
        if remain <= 0 {
          truncated := true;
          omitted := omitted + [uid];
        } else {
          var p := Cut(log, uid, remain);
          if p.truncated {
            truncated := true;
          }
          assert (pieces + [p])[..|pieces|] == pieces;
          chars := chars + |p.user| + |p.assistant|;
          pieces := pieces + [p];
        }
      }
    }
    assert uids[..|uids|] == uids;
  }

  method Cut(log: map<nat, Unit>, uid: nat, remain: nat) returns (p: Piece)
    requires uid in log && remain > 0
    ensures p.uid == uid && Size(p) <= remain && (p.truncated ==> Size(p) == remain)
    ensures forall before :: Readable(log, uid, before) ==> PieceOf(p, log, before)
  {
    var u, a := log[uid].user, log[uid].assistant;
    var cut := false;
    if |u| + |a| > remain {
      cut := true;
      if |u| >= remain {
        assert u == u[..remain] + u[remain..];
        u, a := u[..remain], "";
        assert u + a == u;
      } else {
        a := a[..remain - |u|];
      }
    }
    p := Piece(uid, u, a, cut);
  }
}
