/** The service's budget registry as objects: every opening makes a new budget object, and a call works on
    the object it was admitted on. */
module BudgetService {
  import opened MemoryTypes
  import opened Budgets

  /** A budget and what was returned through it. */
  class Account {
    const toolCalls: nat
    const windowChars: nat
    const before: nat
    var calls: nat
    var windowUsed: nat
    var windowReserved: nat

    constructor (toolCalls: nat, windowChars: nat, before: nat)
      ensures View() == Budget(toolCalls, windowChars, before, 0, 0, 0)
    {
      this.toolCalls, this.windowChars, this.before := toolCalls, windowChars, before;
      calls, windowUsed, windowReserved := 0, 0, 0;
    }

    function View(): Budget
      reads this
    {
      Budget(toolCalls, windowChars, before, calls, windowUsed, windowReserved)
    }
  }

  class BudgetService {
    var budgets: map<string, Account>

    constructor ()
      ensures budgets == map[]
    {
      budgets := map[];
    }

    /** A signal's budget is a new object, so that calls of an earlier opening are not charged to it. */
    method OpenBudget(signal: string, toolCalls: int, windowChars: int, before: int) returns (refusal: Option<Refusal>)
      modifies this
      ensures refusal == if Blank(signal) || toolCalls < 0 || windowChars < 0 || before < 0 then Some(Invalid)
                         else if signal in old(budgets) then Some(AlreadyOpen) else None
      ensures refusal.Some? ==> budgets == old(budgets)
      ensures refusal.None? ==> signal in budgets && fresh(budgets[signal]) && budgets == old(budgets)[signal := budgets[signal]]
      ensures refusal.None? ==> budgets[signal].View() == Budget(toolCalls, windowChars, before, 0, 0, 0)
    {
      if Blank(signal) || toolCalls < 0 || windowChars < 0 || before < 0 {
        return Some(Invalid);
      }
      if signal in budgets {
        return Some(AlreadyOpen);
      }
      var account := new Account(toolCalls, windowChars, before);
      budgets := budgets[signal := account];
      refusal := None;
    }

    /** Closing forgets the signal; the object stays with the calls that hold it. */
    method CloseBudget(signal: string) returns (last: Option<Budget>)
      modifies this
      ensures budgets == old(budgets) - {signal}
      ensures last == if signal in old(budgets) then Some(old(budgets)[signal].View()) else None
    {
      last := if signal in budgets then Some(budgets[signal].View()) else None;
      budgets := budgets - {signal};
    }

    /** No open budget is overdrawn. */
    ghost predicate Valid()
      reads this, budgets.Values
    {
      forall s :: s in budgets ==> budgets[s].windowUsed + budgets[s].windowReserved <= budgets[s].windowChars
    }

    /** The one budget that a call on `signal` can concern, as a meter of its own. */
    function MeterOf(signal: Option<string>): Meter
      reads this, budgets.Values
    {
      if signal.Some? && signal.value in budgets then
        var b := budgets[signal.value].View();
        Meter([b], map[signal.value := 0], [], [b.used])
      else Meter([], map[], [], [])
    }

    /** Admit a call: check its arguments and the service's health, count it on the budget that is open under the signal now, and reserve
        what it may read. Without a signal, it is bounded by a fixed limit and charged to nobody. */
    method AdmitCall(signal: Option<string>, before: Option<int>, window: bool, maxChars: Option<int>, healthy: bool, owned: bool)
      returns (why: Option<Refusal>, bound: Option<nat>, account: Option<Account>, cap: nat)
      modifies if signal.Some? && signal.value in budgets then {budgets[signal.value]} else {}
      ensures var (m, admission) := Admit(old(MeterOf(signal)), signal, before, window, maxChars, healthy, owned);
              && MeterOf(signal).objects == m.objects
              && admission == (if why.Some? then Refused(why.value) else Admitted(bound, if window then Some(0) else None, cap))
              && (account.Some? <==> why.None? && signal.Some?)
              && (account.Some? ==> signal.value in budgets && account.value == budgets[signal.value]
                                    && account.value.windowReserved == old(account.value.windowReserved) + cap)
      ensures why.None? && window ==> cap > 0
      ensures old(Valid()) ==> Valid()
    {
      why, bound, account, cap := None, None, None, 0;
      if (before.Some? && before.value < 0) || (maxChars.Some? && maxChars.value <= 0) {
        why := Some(Invalid);
        return;
      }
      if !healthy {
        why := Some(Frozen);
        return;
      }
      bound := if before.Some? then Some(before.value) else None;
      var remaining: int := MAIN_WINDOW_CAP;
      if signal.Some? {
        if signal.value !in budgets {
          why := Some(Closed);
          return;
        }
        var a := budgets[signal.value];
        a.calls := a.calls + 1;
        if a.calls > a.toolCalls {
          why := Some(CallsExhausted);
          return;
        }
        if !owned {
          why := Some(LeaseLost);
          return;
        }
        account := Some(a);
        bound := Some(if before.Some? && before.value <= a.before then before.value else a.before);
        remaining := a.windowChars - a.windowUsed - a.windowReserved;
      }
      if window {
        if remaining <= 0 {
          why, account := Some(WindowExhausted), None;
          return;
        }
        cap := if maxChars.Some? && maxChars.value <= remaining then maxChars.value else remaining;
        if account.Some? {
          account.value.windowReserved := account.value.windowReserved + cap;
        }
      }
    }

    /** The settlement works on the captured object, not on the signal. */
    method SettleCall(account: Account, cap: nat, chars: Option<nat>)
      requires account.windowReserved >= cap
      modifies account
      ensures account.View() == old(account.View()).(reserved := old(account.windowReserved) - cap,
                                                     used := old(account.windowUsed) + if chars.Some? then chars.value else 0)
    {
      account.windowReserved := account.windowReserved - cap;
      if chars.Some? {
        account.windowUsed := account.windowUsed + chars.value;
      }
    }

    /** A whole reading call while nothing else runs. A refused one returns nothing; another returns no more than
        was left to its budget, or to a call without a signal, and nothing at or after its causal bound. Only
        what it returned is charged. */
    method LogWindow(signal: Option<string>, log: map<nat, Unit>, uids: seq<nat>, maxChars: Option<int>, healthy: bool, owned: bool)
      returns (why: Option<Refusal>, pieces: seq<Piece>)
      requires Valid()
      modifies if signal.Some? && signal.value in budgets then {budgets[signal.value]} else {}
      ensures Valid()
      ensures var (_, admission) := Admit(old(MeterOf(signal)), signal, None, true, maxChars, healthy, owned);
              && (why.Some? <==> admission.Refused?) && (why.Some? ==> why.value == admission.why && pieces == [])
              && (why.None? ==> TotalSize(pieces) <= admission.cap
                                && forall i :: 0 <= i < |pieces| ==> PieceOf(pieces[i], log, Wide(admission.bound)))
      ensures signal.Some? && signal.value in budgets ==>
                var a := budgets[signal.value];
                && a.windowReserved == old(a.windowReserved) && a.windowUsed == old(a.windowUsed) + TotalSize(pieces)
    {
      pieces := [];
      var bound, account, cap;
      ghost var m := MeterOf(signal);
      why, bound, account, cap := AdmitCall(signal, None, true, maxChars, healthy, owned);
      assert signal.Some? && signal.value in budgets ==> MeterOf(signal).objects[0].used == m.objects[0].used
                                                         && MeterOf(signal).objects[0].reserved == m.objects[0].reserved + if why.Some? then 0 else cap;
      if why.Some? {
        return;
      }
      var chars, truncated, missing, omitted;
      pieces, chars, truncated, missing, omitted := ReadWindow(log, uids, cap, Wide(bound));
      if account.Some? {
        SettleCall(account.value, cap, Some(chars));
      }
    }
  }

  function Wide(bound: Option<nat>): Option<int> {
    if bound.Some? then Some(bound.value) else None
  }
}
