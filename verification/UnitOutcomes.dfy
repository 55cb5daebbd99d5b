/** Recorded units: their ids and times only grow, and a unit that failed rests before it is tried again. */
module UnitOutcomes {
  import opened MemoryTypes
  import opened TaskTable
  import TaskInvariant
  import opened Sidecar

  // ---------------------------------------------------------------- recording

  /** Units are dated in the order of the log, each later than the one before. */
  ghost predicate InTime(work: seq<Work>) {
    forall j, k :: 0 <= j < k < |work| ==> work[j].t < work[k].t
  }

  lemma {:induction false} NextTimeAbove(work: seq<Work>)
    ensures forall j :: 0 <= j < |work| ==> work[j].t < NextTime(work)
    ensures NextTime(work) == 0 || exists j :: 0 <= j < |work| && work[j].t == NextTime(work) - 1
    decreases |work|
  {
    if work != [] {
      var n := |work| - 1;
      NextTimeAbove(work[..n]);
      assert forall j :: 0 <= j < n ==> work[..n][j] == work[j];
      if NextTime(work) == work[n].t + 1 { assert work[n].t == NextTime(work) - 1; }
    }
  }

  lemma {:induction false} NextUidIsAbove(work: seq<Work>)
    ensures forall j :: 0 <= j < |work| ==> work[j].uid < NextUid(work)
    ensures NextUid(work) == 0 || exists j :: 0 <= j < |work| && work[j].uid == NextUid(work) - 1
    decreases |work|
  {
    if work != [] {
      var n := |work| - 1;
      NextUidIsAbove(work[..n]);
      assert forall j :: 0 <= j < n ==> work[..n][j] == work[j];
      if NextUid(work) == work[n].uid + 1 { assert work[n].uid == NextUid(work) - 1; }
    }
  }

  /** A new unit comes at the end, with an id and a time beyond all others and not before those asked for, still to be
      worked on; its request is bound to it. A request that is bound already records nothing. */
  lemma AppendOutcome(ev: Evidence, request: Option<string>, fingerprint: string, minUid: nat, minT: int)
    ensures var ev' := Append(ev, request, fingerprint, minUid, minT); var bound := request.Some? && request.value in ev.bound;
            && (bound ==> ev' == ev)
            && (!bound ==>
                  && |ev'.work| == |ev.work| + 1 && ev'.work[..|ev.work|] == ev.work
                  && var w := ev'.work[|ev.work|];
                  && w.uid >= minUid && w.t >= minT && (forall j :: 0 <= j < |ev.work| ==> ev.work[j].uid < w.uid && ev.work[j].t < w.t)
                  && (w.uid in {minUid, 0} || exists j :: 0 <= j < |ev.work| && ev.work[j].uid == w.uid - 1)
                  && (w.t in {minT, 0} || exists j :: 0 <= j < |ev.work| && ev.work[j].t == w.t - 1)
                  && w.request == request && !w.done && w.result.None? && w.attempts == 0 && w.nextRunAt == 0
                  && ev'.bound == if request.None? then ev.bound else ev.bound[request.value := Bound(w.uid, fingerprint)])
  {
    NextTimeAbove(ev.work);
    NextUidIsAbove(ev.work);
  }

  lemma StepInTime(sys: System, a: Action, empty: Image)
    requires InTime(sys.ev.work)
    ensures InTime(Next(sys, a, empty).ev.work)
  {
    if a.Observe? {
      hide InTime;
      AppendOutcome(sys.ev, a.requestId, a.fingerprint, a.minUid, a.minT);
      AppendedInTime(sys.ev.work, Next(sys, a, empty).ev.work);
    } else if IsEffect(a) {
      hide Attempt, Waits;
    } else {
      hide Claim, StoreResult, WriteCheckpoint, Enqueue, TaskInvariant.Perform, Booted, Quiet, Glanced, PendingUnits, CheckedFault;
      hide InTime, EachWork, FailWork;
      FailKeepsTime();
      match a
      case SaveWork(uid, result) => EachKeepsTime(sys.ev.work, w => SaveWorkResult(w, uid, result));
      case Postpone(uid, now) => EachKeepsTime(sys.ev.work, w => FailWork(w, uid, now));
      case Acknowledge(i) =>
        if i in sys.nodes && sys.nodes[i].ack.Some? { EachKeepsTime(sys.ev.work, w => FinishWork(w, sys.nodes[i].ack.value)); }
      case _ =>
    }
  }

  lemma FailKeepsTime()
    ensures forall w, uid, now :: FailWork(w, uid, now).t == w.t
  {
  }

  lemma EachKeepsTime(work: seq<Work>, f: Work -> Work)
    requires InTime(work) && forall w: Work :: f(w).t == w.t
    ensures InTime(EachWork(work, f))
  {
  }

  lemma AppendedInTime(work: seq<Work>, work': seq<Work>)
    requires InTime(work)
    requires work' == work || (|work'| == |work| + 1 && work'[..|work|] == work && forall j :: 0 <= j < |work| ==> work[j].t < work'[|work|].t)
    ensures InTime(work')
  {
    forall j, k | 0 <= j < k < |work'|
      ensures work'[j].t < work'[k].t
    {
      if work' != work {
        assert work[j] == work'[j] && (k < |work| ==> work[k] == work'[k]);
      }
    }
  }

  /** Whatever happens, the log stays in time. */
  lemma {:induction false} RunsStayInTime(sys: System, actions: seq<Action>, empty: Image)
    requires InTime(sys.ev.work)
    ensures InTime(Run(sys, actions, empty).ev.work)
    decreases |actions|
  {
    hide InTime, Next;
    if |actions| > 0 {
      StepInTime(sys, actions[0], empty);
      RunsStayInTime(Next(sys, actions[0], empty), actions[1..], empty);
    }
  }

  // ---------------------------------------------------------------- model results of units

  /** The first result of a pending unit is kept and ends its rest; neither a later one nor one for a unit that is done
      changes anything. */
  lemma SaveOutcome(sys: System, uid: nat, result: Json, empty: Image)
    requires UnitWork(sys.ev, uid).Some?
    ensures var w, found := UnitWork(sys.ev, uid).value, UnitWork(Next(sys, SaveWork(uid, result), empty).ev, uid);
            && found == Some(if !w.done && w.result.None? then w.(result := Some(result), nextRunAt := 0) else w)
            && OthersSame(sys.ev, Next(sys, SaveWork(uid, result), empty).ev, uid)
  {
    EachFound(sys.ev.work, w => SaveWorkResult(w, uid, result), uid);
    FoundIs(sys.ev.work, uid);
    EachKeepsOthers(sys.ev, w => SaveWorkResult(w, uid, result), uid);
  }

  /** Nothing but unit `uid` changed. */
  ghost predicate OthersSame(ev: Evidence, ev': Evidence, uid: nat) {
    ev'.bound == ev.bound && forall other :: other != uid ==> UnitWork(ev', other) == UnitWork(ev, other)
  }

  lemma EachKeepsOthers(ev: Evidence, f: Work -> Work, uid: nat)
    requires (forall w :: f(w).uid == w.uid) && forall w: Work :: w.uid != uid ==> f(w) == w
    ensures OthersSame(ev, ev.(work := EachWork(ev.work, f)), uid)
  {
    forall other | other != uid
      ensures WorkOf(EachWork(ev.work, f), other) == WorkOf(ev.work, other)
    {
      EachFound(ev.work, f, other);
      FoundIs(ev.work, other);
    }
  }

  // ---------------------------------------------------------------- failures

  /** How long a unit rests after a failure, with `n` failures before. */
  function UnitRest(n: nat): int {
    [2, 4, 8, 16, 32, 64, 128, 256, 300][if n <= 8 then n else 8]
  }

  lemma UnitRestsAre(n: nat)
    ensures Least(300, 2 * Power(2, if n <= 8 then n else 8)) == UnitRest(n)
  {
    assert Power(2, 0) == 1 && Power(2, 1) == 2 && Power(2, 2) == 4 && Power(2, 3) == 8 && Power(2, 4) == 16;
    assert Power(2, 5) == 2 * Power(2, 4) && Power(2, 6) == 2 * Power(2, 5) && Power(2, 7) == 2 * Power(2, 6) && Power(2, 8) == 2 * Power(2, 7);
  }

  lemma {:induction false} EachFound(work: seq<Work>, f: Work -> Work, uid: nat)
    requires forall w :: f(w).uid == w.uid
    ensures WorkOf(EachWork(work, f), uid) == match WorkOf(work, uid) case Some(w) => Some(f(w)) case None => None
    decreases |work|
  {
    if work != [] {
      assert EachWork(work, f)[1..] == EachWork(work[1..], f);
      EachFound(work[1..], f, uid);
    }
  }

  /** A failure of a pending unit counts, and puts it to rest; no other unit is touched. */
  lemma PostponeOutcome(sys: System, uid: nat, now: int, empty: Image)
    requires UnitWork(sys.ev, uid).Some?
    ensures var w, found := UnitWork(sys.ev, uid).value, UnitWork(Next(sys, Postpone(uid, now), empty).ev, uid);
            && found == Some(if w.done then w else w.(attempts := w.attempts + 1, nextRunAt := now + UnitRest(w.attempts)))
            && OthersSame(sys.ev, Next(sys, Postpone(uid, now), empty).ev, uid)
  {
    hide FailWork, UnitRest, EachWork, OthersSame;
    EachFound(sys.ev.work, w => FailWork(w, uid, now), uid) by { FailKeepsUid(); }
    EachKeepsOthers(sys.ev, w => FailWork(w, uid, now), uid) by { FailKeepsUid(); }
    FoundIs(sys.ev.work, uid);
    FailIs(UnitWork(sys.ev, uid).value, now);
  }

  lemma FailKeepsUid()
    ensures forall w, uid, now :: FailWork(w, uid, now).uid == w.uid && (w.uid != uid ==> FailWork(w, uid, now) == w)
  {
  }

  lemma FailIs(w: Work, now: int)
    ensures FailWork(w, w.uid, now) == if w.done then w else w.(attempts := w.attempts + 1, nextRunAt := now + UnitRest(w.attempts))
  {
    hide UnitRest, Least, Power;
    UnitRestsAre(w.attempts);
  }

  lemma {:induction false} FoundIs(work: seq<Work>, uid: nat)
    ensures WorkOf(work, uid).Some? ==> WorkOf(work, uid).value.uid == uid
    decreases |work|
  {
    if work != [] {
      FoundIs(work[1..], uid);
    }
  }

  /** A unit that failed is not applied before its rest is over, and no unit after it either: the scan ends there. */
  lemma FailedUnitRests(sys: System, uid: nat, now: int, a: Action, empty: Image)
    requires UnitWork(sys.ev, uid).Some? && !UnitWork(sys.ev, uid).value.done && uid !in sys.db.unitReceipts
    requires a.UnitNext? && a.i in sys.nodes && sys.nodes[a.i].scan != [] && sys.nodes[a.i].scan[0] == uid
    requires a.now < now + UnitRest(UnitWork(sys.ev, uid).value.attempts)
    ensures var end := Next(Next(sys, Postpone(uid, now), empty), a, empty);
            && end.db == sys.db && end.log == sys.log && a.i in end.nodes && end.nodes[a.i].mem == sys.nodes[a.i].mem
            && (sys.nodes[a.i].ack.None? ==> end.nodes[a.i].scan == [])
  {
    hide UnitRest, UnitWork;
    PostponeOutcome(sys, uid, now, empty);
    var rested := Next(sys, Postpone(uid, now), empty);
    assert rested.db == sys.db && rested.nodes == sys.nodes && rested.log == sys.log;
    assert Waits(rested, uid, a.now);
    hide Waits, Attempt;
  }
}
