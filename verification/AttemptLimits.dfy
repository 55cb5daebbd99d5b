/** The attempt limits under any number of workers: which claims take a counter past its limit, and that
    nothing else ever does. */
module AttemptLimits {
  import opened MemoryTypes
  import opened TaskTable
  import opened TaskInvariant
  import opened WorkerRuns

  predicate RowWithin(r: Row, group: Group) {
    r.kind in group.kinds ==> r.attempts <= group.Model(r.kind) && r.applyAttempts <= group.Apply(r.kind)
  }

  /** No counter of the group's tasks is past its limit. */
  ghost predicate Within(rows: seq<Row>, group: Group) {
    forall id :: 0 <= id < |rows| ==> RowWithin(rows[id], group)
  }

  /** A task that a claim would find without an attempt left. A worker's recovery buries such tasks before the
      worker lists any. */
  predicate AtLimit(r: Row, group: Group) {
    r.kind in group.kinds
    && ((r.state.Pending? && r.attempts >= group.Model(r.kind)) || (r.state.Ready? && r.applyAttempts >= group.Apply(r.kind)))
  }

  /** The claim goes through. */
  predicate Takes(db: Db, call: Call, now: int) {
    call.CallClaim? && Claim(db, call.id, call.args, now).Commit? && Claim(db, call.id, call.args, now).value.Some?
  }

  predicate Overdraws(db: Db, group: Group, call: Call, now: int) {
    Takes(db, call, now) && call.id < |db.rows| && AtLimit(db.rows[call.id], group)
  }

  /** A claim that goes through takes the counter it raises past its limit exactly when it finds the task without
      an attempt left. */
  lemma ClaimPassesExactly(db: Db, group: Group, id: nat, args: ClaimArgs, now: int)
    requires Takes(db, CallClaim(id, args), now) && id < |db.rows| && db.rows[id].kind in group.kinds
    ensures var r, r' := db.rows[id], Claim(db, id, args, now).db.rows[id];
            (if r.state.Ready? then r'.applyAttempts > group.Apply(r.kind) else r'.attempts > group.Model(r.kind)) <==> AtLimit(r, group)
  {
  }

  // ---------------------------------------------------------------- one call

  /** No counter moved, and new tasks start without attempts. */
  ghost predicate SameCounters(rows: seq<Row>, rows': seq<Row>) {
    && |rows| <= |rows'|
    && (forall id :: 0 <= id < |rows| ==>
          rows'[id].kind == rows[id].kind && rows'[id].attempts == rows[id].attempts && rows'[id].applyAttempts == rows[id].applyAttempts)
    && (forall id :: |rows| <= id < |rows'| ==> rows'[id].attempts == 0 && rows'[id].applyAttempts == 0)
  }

  lemma SameRowsCount(rows: seq<Row>)
    ensures SameCounters(rows, rows)
  {
  }

  lemma QueuedCounts(rows: seq<Row>, rows': seq<Row>)
    requires Queued(rows, rows')
    ensures SameCounters(rows, rows')
  {
  }

  lemma OneRowCounts(rows: seq<Row>, i: nat, r: Row)
    requires i < |rows| && r.kind == rows[i].kind && r.attempts == rows[i].attempts && r.applyAttempts == rows[i].applyAttempts
    ensures SameCounters(rows, rows[i := r])
  {
  }

  lemma EffectCounts(db: Db, made: Outcome, expected: nat, now: int)
    ensures var tx := CommitEffect(db, made, expected, now); tx.Commit? ==> SameCounters(db.rows, tx.db.rows)
  {
    hide CommitEffect;
    if CommitEffect(db, made, expected, now).Commit? {
      CommitEffectQueued(db, made, expected, now);
      QueuedCounts(db.rows, CommitEffect(db, made, expected, now).db.rows);
    }
  }

  lemma CompleteCounts(db: Db, id: nat, token: nat, mutate: Json -> Outcome, expected: nat, now: int, later: int)
    requires Complete(db, id, token, mutate, expected, now, later).Commit?
    ensures SameCounters(db.rows, Complete(db, id, token, mutate, expected, now, later).db.rows)
  {
    hide CommitEffect;
    var released := db.(rows := db.rows[id := db.rows[id].Released(Done, now)]);
    EffectCounts(released, mutate(db.rows[id].result.value), expected, now);
  }

  lemma OnlyClaimsCount(db: Db, call: Call, now: int)
    requires !Takes(db, call, now)
    ensures SameCounters(db.rows, Perform(db, call, now).rows)
  {
    hide CommitEffect, Enqueue, Claim, Complete, Backoff, RetryState, SameCounters, StoreResult, Recover;
    SameRowsCount(db.rows);
    match call
    case CallEnqueue(job) =>
      if Enqueue(db, job, now).Commit? {
        EnqueueQueued(db, job, now);
        QueuedCounts(db.rows, Enqueue(db, job, now).db.rows);
      }
    case CallClaim(id, args) => UntakenClaim(db, id, args, now);
    case CallEffect(made, expected) => EffectCounts(db, made, expected, now);
    case CallCaptured(made, expected, _) => EffectCounts(db, made, expected, now);
    case CallUnit(_, made, expected) => EffectCounts(db, made, expected, now);
    case CallComplete(id, token, mutate, expected, later) =>
      if Complete(db, id, token, mutate, expected, now, later).Commit? { CompleteCounts(db, id, token, mutate, expected, now, later); }
    case CallRecover(caps, kinds, reset) => RecoveryCounts(db, caps, kinds, reset, now);
    case CallStoreResult(id, token, result, checkpoint) => StoreCounts(db, id, token, result, checkpoint, now);
    case CallRetry(id, token, caps, delay, retryModel) =>
      if Retry(db, id, token, caps, delay, retryModel, now).Commit? {
        OneRowCounts(db.rows, id, Retry(db, id, token, caps, delay, retryModel, now).db.rows[id]);
      }
    case CallSkip(id, ttl) =>
      if SkipRecent(db, id, ttl, now).value { OneRowCounts(db.rows, id, db.rows[id].(state := Skipped, updatedAt := now)); }
    case CallFinish(id, token) =>
      if Finish(db, id, token, now).Commit? { OneRowCounts(db.rows, id, db.rows[id].Released(Done, now)); }
    case _ =>
  }

  lemma UntakenClaim(db: Db, id: nat, args: ClaimArgs, now: int)
    requires !Takes(db, CallClaim(id, args), now)
    ensures After(db, Claim(db, id, args, now)).rows == db.rows
  {
    hide Claimed;
  }

  lemma StoreCounts(db: Db, id: nat, token: nat, result: Json, checkpoint: Option<(Image, nat)>, now: int)
    ensures SameCounters(db.rows, After(db, StoreResult(db, id, token, result, checkpoint, now)).rows)
  {
    hide SameCounters;
    SameRowsCount(db.rows);
    if Owned(db, id, token, now) {
      OneRowCounts(db.rows, id, db.rows[id].Released(Ready, now).(result := Some(result), nextRunAt := 0));
    }
  }

  lemma RecoveryCounts(db: Db, caps: Caps, kinds: seq<Kind>, reset: bool, now: int)
    ensures SameCounters(db.rows, Perform(db, CallRecover(caps, kinds, reset), now).rows)
  {
    forall id | 0 <= id < |db.rows|
      ensures var r := TaskTable.Recovered(db.rows[id], caps, kinds, reset, now);
              r.kind == db.rows[id].kind && r.attempts == db.rows[id].attempts && r.applyAttempts == db.rows[id].applyAttempts
    {
    }
  }

  lemma CallWithin(db: Db, group: Group, call: Call, now: int)
    requires Within(db.rows, group)
    ensures Within(Perform(db, call, now).rows, group) <==> !Overdraws(db, group, call, now)
  {
    var rows := Perform(db, call, now).rows;
    if Takes(db, call, now) {
      assert rows == db.rows[call.id := rows[call.id]];
      assert RowWithin(db.rows[call.id], group);
      if db.rows[call.id].kind in group.kinds { ClaimPassesExactly(db, group, call.id, call.args, now); }
      OneChanged(db.rows, call.id, rows[call.id], group);
    } else {
      hide Perform;
      OnlyClaimsCount(db, call, now);
      forall id | 0 <= id < |rows|
        ensures RowWithin(rows[id], group)
      {
        assert id < |db.rows| ==> RowWithin(db.rows[id], group);
      }
    }
  }

  lemma OneChanged(rows: seq<Row>, i: nat, r: Row, group: Group)
    requires Within(rows, group) && i < |rows|
    ensures Within(rows[i := r], group) <==> RowWithin(r, group)
  {
    assert rows[i := r][i] == r;
  }

  lemma PastStaysPast(rows: seq<Row>, rows': seq<Row>, group: Group)
    requires Evolves(rows, rows') && !Within(rows, group)
    ensures !Within(rows', group)
  {
    var id :| 0 <= id < |rows| && !RowWithin(rows[id], group);
    assert Later(rows[id], rows'[id]);
    assert !RowWithin(rows'[id], group);
  }

  // ---------------------------------------------------------------- runs of any number of workers

  ghost predicate NeverOverdraws(db: Db, group: Group, calls: seq<(Call, int)>)
    decreases |calls|
  {
    |calls| > 0 ==>
      !Overdraws(db, group, calls[0].0, calls[0].1) && NeverOverdraws(Perform(db, calls[0].0, calls[0].1), group, calls[1..])
  }

  /** Over any interleaving of any number of workers, the counters end within their limits exactly when no claim
      went through for a task without an attempt left. */
  lemma {:induction false} LimitsHoldExactly(db: Db, group: Group, calls: seq<(Call, int)>)
    requires TableOk(db) && Within(db.rows, group)
    ensures Within(PerformAll(db, calls).rows, group) <==> NeverOverdraws(db, group, calls)
    decreases |calls|
  {
    hide Perform, TableOk, Within, Overdraws, Evolves;
    if |calls| > 0 {
      var db1, rest := Perform(db, calls[0].0, calls[0].1), calls[1..];
      CallWithin(db, group, calls[0].0, calls[0].1);
      CallKeeps(db, calls[0].0, calls[0].1);
      if Within(db1.rows, group) {
        LimitsHoldExactly(db1, group, rest);
      } else {
        TableInvariant(db1, rest);
        PastStaysPast(db1.rows, PerformAll(db1, rest).rows, group);
      }
    }
  }

  // ---------------------------------------------------------------- two workers

  function OneTask(r: Row, drawn: nat): Db {
    Db([r], 8, drawn, 0, map[], 0, None, map[], map[], map[], 0)
  }

  /** A task with one model attempt left. */
  function LastAttempt(): Row {
    Row(SelectorDue, "", "", 0, 0, None, Pending, 4, 0, None, None, None, None, None, 0, 0)
  }

  /** The first worker claims, stores, claims again and has its application refused, so that the model
      must run again; then a second worker claims from the list it made before. */
  function SecondWorker(): seq<(Call, int)> {
    var args := ClaimArgs(0, None, None, None, None, None);
    [(CallClaim(0, args), 1)] + ([(CallStoreResult(0, 0, "", None), 2)] + ([(CallClaim(0, args), 2)] +
    ([(CallRetry(0, 1, Caps(None, None), None, true), 3)] + ([(CallClaim(0, args), 9)] + []))))
  }

  lemma PerformFirst(db: Db, first: (Call, int), rest: seq<(Call, int)>)
    ensures PerformAll(db, [first] + rest) == PerformAll(Perform(db, first.0, first.1), rest)
  {
    hide Perform;
    assert ([first] + rest)[1..] == rest;
  }

  lemma FirstRound()
    ensures var args := ClaimArgs(0, None, None, None, None, None); var r := LastAttempt();
            var claimed := r.(state := Running, attempts := 5, token := Some(0), lease := Some(121), updatedAt := 1);
            var stored := claimed.(state := Ready, token := None, lease := None, result := Some(""), updatedAt := 2);
            var applying := stored.(state := Applying, applyAttempts := 1, token := Some(1), lease := Some(122), updatedAt := 2);
            && Perform(OneTask(r, 0), CallClaim(0, args), 1) == OneTask(claimed, 1)
            && Perform(OneTask(claimed, 1), CallStoreResult(0, 0, "", None), 2) == OneTask(stored, 1)
            && Perform(OneTask(stored, 1), CallClaim(0, args), 2) == OneTask(applying, 2)
  {
  }

  lemma SecondRound()
    ensures var args := ClaimArgs(0, None, None, None, None, None);
            var applying := LastAttempt().(state := Applying, attempts := 5, applyAttempts := 1, result := Some(""),
                                           token := Some(1), lease := Some(122), updatedAt := 2);
            var again := applying.(state := Pending, token := None, lease := None, result := None, nextRunAt := 5, updatedAt := 3);
            var past := again.(state := Running, attempts := 6, token := Some(2), lease := Some(129), updatedAt := 9);
            && Perform(OneTask(applying, 2), CallRetry(0, 1, Caps(None, None), None, true), 3) == OneTask(again, 2)
            && Perform(OneTask(again, 2), CallClaim(0, args), 9) == OneTask(past, 3)
  {
    assert Power(2, 1) == 2;
  }

  /** One worker for each group is needed: both workers swept and listed the task while it had one of
      its five model attempts left, and it ends up with six. */
  lemma TwoWorkersPassTheLimit()
    ensures var group := Group([SelectorDue], Caps(None, None), true); var db := OneTask(LastAttempt(), 0);
            && group.Ok() && TableOk(db) && Perform(db, CallRecover(group.caps, group.kinds, true), 1) == db
            && Listed(db.rows, group, Some(1), None) == [0]
            && |PerformAll(db, SecondWorker()).rows| == 1
            && PerformAll(db, SecondWorker()).rows[0].attempts == group.Model(SelectorDue) + 1
  {
    hide Perform;
    var args := ClaimArgs(0, None, None, None, None, None);
    var r := LastAttempt();
    var s5 := [(CallClaim(0, args), 9)] + [];
    var s4 := [(CallRetry(0, 1, Caps(None, None), None, true), 3)] + s5;
    var s3 := [(CallClaim(0, args), 2)] + s4;
    var s2 := [(CallStoreResult(0, 0, "", None), 2)] + s3;
    FirstRound();
    SecondRound();
    var claimed := r.(state := Running, attempts := 5, token := Some(0), lease := Some(121), updatedAt := 1);
    var stored := claimed.(state := Ready, token := None, lease := None, result := Some(""), updatedAt := 2);
    var applying := stored.(state := Applying, applyAttempts := 1, token := Some(1), lease := Some(122), updatedAt := 2);
    var again := applying.(state := Pending, token := None, lease := None, result := None, nextRunAt := 5, updatedAt := 3);
    PerformFirst(OneTask(r, 0), (CallClaim(0, args), 1), s2);
    PerformFirst(OneTask(claimed, 1), (CallStoreResult(0, 0, "", None), 2), s3);
    PerformFirst(OneTask(stored, 1), (CallClaim(0, args), 2), s4);
    PerformFirst(OneTask(applying, 2), (CallRetry(0, 1, Caps(None, None), None, true), 3), s5);
    PerformFirst(OneTask(again, 2), (CallClaim(0, args), 9), []);
    SweptAndListed();
  }

  lemma SweptAndListed()
    ensures var group := Group([SelectorDue], Caps(None, None), true); var db := OneTask(LastAttempt(), 0);
            && group.Ok() && TableOk(db) && Perform(db, CallRecover(group.caps, group.kinds, true), 1) == db
            && Listed(db.rows, group, Some(1), None) == [0]
  {
    var db := OneTask(LastAttempt(), 0);
    assert db.rows[..0] == [];
    assert Perform(db, CallRecover(Caps(None, None), [SelectorDue], true), 1).rows == db.rows;
  }
}
