/** What every run of transactions keeps true of the task table. */
module TaskInvariant {
  import opened MemoryTypes
  import opened TaskTable

  // ---------------------------------------------------------------- runs of transactions

  datatype Call =
    | CallEnqueue(job: Job)
    | CallClaim(id: nat, args: ClaimArgs)
    | CallStoreResult(id: nat, token: nat, result: Json, checkpoint: Option<(Image, nat)>)
    | CallRetry(id: nat, token: nat, caps: Caps, delay: Option<int>, retryModel: bool)
    | CallRecover(caps: Caps, kinds: seq<Kind>, reset: bool)
    | CallSkip(id: nat, ttl: int)
    | CallFinish(id: nat, token: nat)
    | CallEffect(made: Outcome, expected: nat)
    | CallCaptured(made: Outcome, expected: nat, capture: Capture)
    | CallUnit(uid: nat, made: Outcome, expected: nat)
    | CallComplete(id: nat, token: nat, mutate: Json -> Outcome, expected: nat, later: int)
    | CallOperation(id: nat, token: nat, request: Json, made: Outcome, expected: nat, later: int)
    | CallRemember(capture: Capture, response: Json)
    | CallSave(state: Image, expected: nat)

  /** The database after a call at time `now`; an aborted transaction leaves it alone. */
  function Perform(db: Db, call: Call, now: int): Db {
    match call
    case CallEnqueue(job) => After(db, Enqueue(db, job, now))
    case CallClaim(id, args) => After(db, Claim(db, id, args, now))
    case CallStoreResult(id, token, result, checkpoint) => After(db, StoreResult(db, id, token, result, checkpoint, now))
    case CallRetry(id, token, caps, delay, retryModel) => After(db, Retry(db, id, token, caps, delay, retryModel, now))
    case CallRecover(caps, kinds, reset) => After(db, Recover(db, caps, kinds, reset, now))
    case CallSkip(id, ttl) => After(db, SkipRecent(db, id, ttl, now))
    case CallFinish(id, token) => After(db, Finish(db, id, token, now))
    case CallEffect(made, expected) => After(db, ApplyEffect(db, made, expected, now))
    case CallCaptured(made, expected, capture) => After(db, ApplyCaptured(db, made, expected, capture, now))
    case CallUnit(uid, made, expected) => After(db, ApplyUnit(db, uid, made, expected, now))
    case CallComplete(id, token, mutate, expected, later) => After(db, Complete(db, id, token, mutate, expected, now, later))
    case CallOperation(id, token, request, made, expected, later) =>
      After(db, ApplyOperation(db, id, token, request, made, expected, now, later))
    case CallRemember(capture, response) => After(db, RememberCapture(db, capture, response))
    case CallSave(state, expected) => After(db, WriteCheckpoint(db, state, expected))
  }

  /** Calls with their times, in any interleaving. */
  function PerformAll(db: Db, calls: seq<(Call, int)>): Db
    decreases |calls|
  {
    if |calls| == 0 then db else PerformAll(Perform(db, calls[0].0, calls[0].1), calls[1..])
  }

  // ---------------------------------------------------------------- the invariant

  /** A token and a lease exactly while held; a result exactly from its storing to its use. */
  predicate RowOk(r: Row) {
    && (r.token.Some? <==> r.state.Held())
    && (r.lease.Some? <==> r.state.Held())
    && (r.state.Ready? || r.state.Applying? ==> r.result.Some?)
    && (r.state.Pending? || r.state.Running? ==> r.result.None?)
    && (r.state.Running? || r.state.Ready? || r.state.Applying? ==> r.attempts >= 1)
    && (r.state.Applying? ==> r.applyAttempts >= 1)
  }

  predicate SameSlot(a: Row, b: Row) {
    a.Unclaimed() && b.Unclaimed() && a.key != "" && a.kind == b.kind && a.key == b.key
  }

  /** At most one unclaimed row for a kind and non-empty key. */
  ghost predicate UniqueSlots(rows: seq<Row>) {
    forall i, j :: 0 <= i < j < |rows| ==> !SameSlot(rows[i], rows[j])
  }

  ghost predicate RowsOk(rows: seq<Row>) {
    (forall i :: 0 <= i < |rows| ==> RowOk(rows[i])) && UniqueSlots(rows)
  }

  /** No token was handed out that is not counted, and no two rows hold one token. */
  ghost predicate TokensOk(db: Db) {
    && (forall i :: 0 <= i < |db.rows| && db.rows[i].token.Some? ==> db.rows[i].token.value < db.drawn)
    && (forall i, j :: 0 <= i < j < |db.rows| && db.rows[i].token.Some? ==> db.rows[i].token != db.rows[j].token)
  }

  ghost predicate TableOk(db: Db) {
    RowsOk(db.rows) && CountActive(db.rows) <= db.capacity && TokensOk(db)
  }

  /** How a row may change over time. */
  predicate Later(r: Row, r': Row) {
    && r'.kind == r.kind && r'.key == r.key && r'.dedupe == r.dedupe
    && (r.state.Terminal() ==> r' == r)
    && r.attempts <= r'.attempts && r.applyAttempts <= r'.applyAttempts
    && (r'.Unclaimed() ==> r.Unclaimed())
    && (r.beforeT.Some? ==> r'.beforeT == r.beforeT) && (r.origin.Some? ==> r'.origin == r.origin)
    && r.version <= r'.version && (r'.version == r.version ==> r'.payload == r.payload && r'.t == r.t)
  }

  /** Rows are never lost, and only change as they may. */
  ghost predicate Evolves(rows: seq<Row>, rows': seq<Row>) {
    |rows| <= |rows'| && forall i :: 0 <= i < |rows| ==> Later(rows[i], rows'[i])
  }

  // ---------------------------------------------------------------- one row changes

  function One(b: bool): nat {
    if b then 1 else 0
  }

  lemma {:induction false} CountReplaced(rows: seq<Row>, i: nat, r: Row)
    requires i < |rows|
    ensures CountActive(rows[i := r]) + One(rows[i].state.Active()) == CountActive(rows) + One(r.state.Active())
    decreases |rows|
  {
    var n := |rows| - 1;
    if i < n {
      CountReplaced(rows[..n], i, r);
      assert rows[i := r][..n] == rows[..n][i := r];
    } else {
      assert rows[i := r][..n] == rows[..n];
    }
  }

  lemma ReplaceKeeps(db: Db, i: nat, r: Row, drawn: nat)
    requires TableOk(db) && i < |db.rows| && RowOk(r) && Later(db.rows[i], r) && drawn >= db.drawn
    requires r.token == db.rows[i].token || r.token.None? || (r.token == Some(db.drawn) && drawn > db.drawn)
    requires r.state.Active() ==> db.rows[i].state.Active()
    ensures TableOk(db.(rows := db.rows[i := r], drawn := drawn)) && Evolves(db.rows, db.rows[i := r])
    ensures db.rows[i].state.Active() && !r.state.Active() ==> CountActive(db.rows[i := r]) < db.capacity
  {
    CountReplaced(db.rows, i, r);
    var rows := db.rows[i := r];
    forall j, k | 0 <= j < k < |rows|
      ensures !SameSlot(rows[j], rows[k])
    {
      assert !SameSlot(db.rows[j], db.rows[k]);
    }
  }

  // ---------------------------------------------------------------- enqueueing

  lemma EnqueueKeeps(db: Db, job: Job, now: int)
    requires TableOk(db) && Enqueue(db, job, now).Commit?
    ensures var db' := Enqueue(db, job, now).db;
            TableOk(db') && Evolves(db.rows, db'.rows) && db'.drawn == db.drawn && db'.capacity == db.capacity
  {
    var i := MergeTarget(db.rows, job.kind, job.key);
    var db1 := RaiseNextId(db, job.memoryNextId);
    SameTable(db, db1);
    if i < |db.rows| {
      var r := Merged(db.rows[i], job, now);
      assert RowOk(r) && Later(db.rows[i], r) && r.state == db.rows[i].state by { MergedOk(db, i, job, now); }
      hide TableOk, Evolves, RowOk, Later;
      ReplaceKeeps(db1, i, r, db.drawn);
    } else {
      var r := NewRow(db.rows, job, now);
      forall j | 0 <= j < |db.rows|
        ensures !SameSlot(db.rows[j], r)
      {
        assert !Mergeable(db.rows[j], job.kind, job.key);
      }
      hide TableOk, Evolves, SameSlot, LastDone, MergeTarget;
      AppendKeeps(db1, r);
    }
  }

  lemma MergedOk(db: Db, i: nat, job: Job, now: int)
    requires TableOk(db) && i < |db.rows| && Mergeable(db.rows[i], job.kind, job.key)
    ensures var r := Merged(db.rows[i], job, now); RowOk(r) && Later(db.rows[i], r) && r.state == db.rows[i].state
  {
    assert RowOk(db.rows[i]);
  }

  lemma AppendKeeps(db: Db, r: Row)
    requires TableOk(db) && RowOk(r) && r.token.None? && CountActive(db.rows) < db.capacity
    requires forall j :: 0 <= j < |db.rows| ==> !SameSlot(db.rows[j], r)
    ensures TableOk(db.(rows := db.rows + [r])) && Evolves(db.rows, db.rows + [r])
  {
    hide RowOk;
    var rows := db.rows + [r];
    assert rows[..|db.rows|] == db.rows;
    forall j, k | 0 <= j < k < |rows|
      ensures !SameSlot(rows[j], rows[k])
    {
      if k < |db.rows| {
        assert !SameSlot(db.rows[j], db.rows[k]);
      }
    }
  }

  lemma EvolvesTrans(a: seq<Row>, b: seq<Row>, c: seq<Row>)
    requires Evolves(a, b) && Evolves(b, c)
    ensures Evolves(a, c)
  {
    forall i | 0 <= i < |a|
      ensures Later(a[i], c[i])
    {
      assert Later(a[i], b[i]) && Later(b[i], c[i]);
    }
  }

  lemma EvolvesRefl(rows: seq<Row>)
    ensures Evolves(rows, rows)
  {
  }

  lemma {:induction false} EnqueueAllKeeps(db: Db, jobs: seq<Job>, now: int)
    requires TableOk(db) && EnqueueAll(db, jobs, now).Commit?
    ensures var db' := EnqueueAll(db, jobs, now).db;
            TableOk(db') && Evolves(db.rows, db'.rows)
    decreases |jobs|
  {
    hide TableOk, Evolves;
    EvolvesRefl(db.rows);
    if |jobs| > 0 {
      EnqueueKeeps(db, jobs[0], now);
      var db1 := Enqueue(db, jobs[0], now).db;
      EnqueueAllKeeps(db1, jobs[1..], now);
      EvolvesTrans(db.rows, db1.rows, EnqueueAll(db, jobs, now).db.rows);
    }
  }

  lemma CommitEffectKeeps(db: Db, made: Outcome, expected: nat, now: int)
    requires TableOk(db) && CommitEffect(db, made, expected, now).Commit?
    ensures var db' := CommitEffect(db, made, expected, now).db;
            TableOk(db') && Evolves(db.rows, db'.rows)
  {
    hide Evolves;
    EnqueueAllKeeps(db, made.jobs, now);
  }

  // ---------------------------------------------------------------- recovery

  lemma RecoveredRow(r: Row, caps: Caps, kinds: seq<Kind>, reset: bool, now: int)
    requires RowOk(r)
    ensures var r' := Recovered(r, caps, kinds, reset, now);
            RowOk(r') && Later(r, r') && (r'.state.Active() ==> r.state.Active()) && (r'.token == r.token || r'.token.None?)
  {
  }

  lemma {:induction false} CountFewer(rows: seq<Row>, rows': seq<Row>)
    requires |rows| == |rows'|
    requires forall i :: 0 <= i < |rows| && rows'[i].state.Active() ==> rows[i].state.Active()
    ensures CountActive(rows') <= CountActive(rows)
    decreases |rows|
  {
    if rows != [] {
      var n := |rows| - 1;
      CountFewer(rows[..n], rows'[..n]);
    }
  }

  lemma RecoverKeeps(db: Db, caps: Caps, kinds: seq<Kind>, reset: bool, now: int)
    requires TableOk(db) && AllKnown(kinds)
    ensures var db' := Recover(db, caps, kinds, reset, now).db; TableOk(db') && Evolves(db.rows, db'.rows)
  {
    var rows := Recover(db, caps, kinds, reset, now).db.rows;
    forall i | 0 <= i < |rows|
      ensures RowOk(rows[i]) && Later(db.rows[i], rows[i])
      ensures rows[i].state.Active() ==> db.rows[i].state.Active()
      ensures rows[i].token == db.rows[i].token || rows[i].token.None?
    {
      RecoveredRow(db.rows[i], caps, kinds, reset, now);
    }
    CountFewer(db.rows, rows);
    forall j, k | 0 <= j < k < |rows|
      ensures !SameSlot(rows[j], rows[k])
    {
      assert !SameSlot(db.rows[j], db.rows[k]);
    }
  }

  // ---------------------------------------------------------------- each call

  lemma ClaimKeeps(db: Db, id: nat, args: ClaimArgs, now: int)
    requires TableOk(db) && Claim(db, id, args, now).Commit?
    ensures var db' := Claim(db, id, args, now).db; TableOk(db') && Evolves(db.rows, db'.rows)
  {
    if Claim(db, id, args, now).value.Some? {
      var db' := Claim(db, id, args, now).db;
      ReplaceKeeps(db, id, db'.rows[id], db.drawn + 1);
    } else {
      EvolvesRefl(db.rows);
    }
  }

  /** Two databases with the same rows, tokens and capacity are equally well-formed. */
  lemma SameTable(db: Db, db': Db)
    requires TableOk(db) && db'.rows == db.rows && db'.drawn == db.drawn && db'.capacity == db.capacity
    ensures TableOk(db')
  {
  }

  lemma StoreResultKeeps(db: Db, id: nat, token: nat, result: Json, checkpoint: Option<(Image, nat)>, now: int)
    requires TableOk(db) && StoreResult(db, id, token, result, checkpoint, now).Commit?
    ensures var db' := StoreResult(db, id, token, result, checkpoint, now).db; TableOk(db') && Evolves(db.rows, db'.rows)
  {
    hide TableOk, Evolves;
    RowAt(db, id);
    var r := db.rows[id].Released(Ready, now).(result := Some(result), nextRunAt := 0);
    ReplaceKeeps(db, id, r, db.drawn);
    SameTable(db.(rows := db.rows[id := r]), StoreResult(db, id, token, result, checkpoint, now).db);
  }

  lemma RetryKeeps(db: Db, id: nat, token: nat, caps: Caps, delay: Option<int>, retryModel: bool, now: int)
    requires TableOk(db) && Retry(db, id, token, caps, delay, retryModel, now).Commit?
    ensures var db' := Retry(db, id, token, caps, delay, retryModel, now).db; TableOk(db') && Evolves(db.rows, db'.rows)
  {
    hide TableOk, Evolves;
    RowAt(db, id);
    ReplaceKeeps(db, id, Retry(db, id, token, caps, delay, retryModel, now).db.rows[id], db.drawn);
  }

  lemma LeaveKeeps(db: Db, call: Call, now: int)
    requires TableOk(db) && (call.CallFinish? || call.CallSkip?)
    ensures TableOk(Perform(db, call, now)) && Evolves(db.rows, Perform(db, call, now).rows)
  {
    hide TableOk, Evolves;
    EvolvesRefl(db.rows);
    if call.id < |db.rows| {
      RowAt(db, call.id);
      var r := db.rows[call.id];
      if r.state.Held() {
        ReplaceKeeps(db, call.id, r.Released(Done, now), db.drawn);
      }
      if r.Unclaimed() {
        ReplaceKeeps(db, call.id, r.(state := Skipped, updatedAt := now), db.drawn);
      }
    }
  }

  lemma RowAt(db: Db, i: nat)
    requires TableOk(db) && i < |db.rows|
    ensures RowOk(db.rows[i])
  {
  }

  lemma CompleteKeeps(db: Db, id: nat, token: nat, mutate: Json -> Outcome, expected: nat, now: int, later: int)
    requires TableOk(db) && Complete(db, id, token, mutate, expected, now, later).Commit?
    ensures var db' := Complete(db, id, token, mutate, expected, now, later).db;
            TableOk(db') && Evolves(db.rows, db'.rows) && db'.rows[id].state.Done?
  {
    hide CommitEffect, CountActive;
    var r := db.rows[id];
    RowAt(db, id);
    ReplaceKeeps(db, id, r.Released(Done, now), db.drawn);
    var db1 := db.(rows := db.rows[id := r.Released(Done, now)]);
    CommitEffectKeeps(db1, mutate(r.result.value), expected, now);
    var db2 := CommitEffect(db1, mutate(r.result.value), expected, now).db;
    EvolvesTrans(db.rows, db1.rows, db2.rows);
    assert Later(db1.rows[id], db2.rows[id]);
  }

  lemma CallKeeps(db: Db, call: Call, now: int)
    requires TableOk(db)
    ensures TableOk(Perform(db, call, now)) && Evolves(db.rows, Perform(db, call, now).rows)
  {
    EvolvesRefl(db.rows);
    if MayCommitEffect(call) {
      EffectCallKeeps(db, call, now);
    } else {
      LeaseCallKeeps(db, call, now);
    }
  }

  predicate MayCommitEffect(call: Call) {
    call.CallEffect? || call.CallCaptured? || call.CallUnit? || call.CallComplete? || call.CallOperation? || call.CallRemember? || call.CallSave?
  }

  lemma LeaseCallKeeps(db: Db, call: Call, now: int)
    requires TableOk(db) && !MayCommitEffect(call)
    ensures TableOk(Perform(db, call, now)) && Evolves(db.rows, Perform(db, call, now).rows)
  {
    hide TableOk, Evolves, Enqueue, Claim, Recovered, StoreResult, Retry;
    EvolvesRefl(db.rows);
    match call
    case CallEnqueue(job) =>
      if Enqueue(db, job, now).Commit? { EnqueueKeeps(db, job, now); }
    case CallClaim(id, args) =>
      if Claim(db, id, args, now).Commit? { ClaimKeeps(db, id, args, now); }
    case CallRecover(caps, kinds, reset) =>
      if AllKnown(kinds) { RecoverKeeps(db, caps, kinds, reset, now); }
    case CallStoreResult(id, token, result, checkpoint) =>
      if StoreResult(db, id, token, result, checkpoint, now).Commit? {
        StoreResultKeeps(db, id, token, result, checkpoint, now);
      }
    case CallRetry(id, token, caps, delay, retryModel) =>
      if Retry(db, id, token, caps, delay, retryModel, now).Commit? {
        RetryKeeps(db, id, token, caps, delay, retryModel, now);
      }
    case CallSkip(_, _) => LeaveKeeps(db, call, now);
    case CallFinish(_, _) => LeaveKeeps(db, call, now);
  }

  lemma CommittedKeeps(db: Db, made: Outcome, expected: nat, now: int, end: Db)
    requires TableOk(db)
    requires var tx := CommitEffect(db, made, expected, now);
             end == db || (tx.Commit? && end.rows == tx.db.rows && end.drawn == tx.db.drawn && end.capacity == tx.db.capacity)
    ensures TableOk(end) && Evolves(db.rows, end.rows)
  {
    hide TableOk, Evolves, CommitEffect;
    EvolvesRefl(db.rows);
    if end != db {
      CommitEffectKeeps(db, made, expected, now);
      SameTable(CommitEffect(db, made, expected, now).db, end);
    }
  }

  lemma EffectCallKeeps(db: Db, call: Call, now: int)
    requires TableOk(db) && MayCommitEffect(call)
    ensures TableOk(Perform(db, call, now)) && Evolves(db.rows, Perform(db, call, now).rows)
  {
    hide TableOk, Evolves, CommitEffect, Complete, Owned, OperationKey;
    var end := Perform(db, call, now);
    EvolvesRefl(db.rows);
    match call
    case CallEffect(made, expected) => CommittedKeeps(db, made, expected, now, end);
    case CallCaptured(made, expected, capture) => CommittedKeeps(db, made, expected, now, end);
    case CallUnit(uid, made, expected) => CommittedKeeps(db, made, expected, now, end);
    case CallComplete(id, token, mutate, expected, later) =>
      if Complete(db, id, token, mutate, expected, now, later).Commit? {
        CompleteKeeps(db, id, token, mutate, expected, now, later);
      }
    case _ => SameTable(db, end);
  }

  /** Over any interleaving of calls, from any number of services and workers: the table stays
      well-formed, no row is lost, and a row that was done, dead or skipped never changes again. */
  lemma {:induction false} TableInvariant(db: Db, calls: seq<(Call, int)>)
    requires TableOk(db)
    ensures TableOk(PerformAll(db, calls)) && Evolves(db.rows, PerformAll(db, calls).rows)
    decreases |calls|
  {
    hide TableOk, Evolves, Perform;
    EvolvesRefl(db.rows);
    if |calls| > 0 {
      CallKeeps(db, calls[0].0, calls[0].1);
      var db1 := Perform(db, calls[0].0, calls[0].1);
      TableInvariant(db1, calls[1..]);
      EvolvesTrans(db.rows, db1.rows, PerformAll(db, calls).rows);
    }
  }

  // ---------------------------------------------------------------- listing and claiming

  /** A claim that goes through takes the task as it was listed: the version that the claimer names still
      stands for the payload and time it saw, whatever was merged or retried in between. */
  lemma ClaimsSeeWhatWasListed(db: Db, calls: seq<(Call, int)>, id: nat, args: ClaimArgs, now: int)
    requires TableOk(db) && id < |db.rows| && args.version == db.rows[id].version
    requires var tx := Claim(PerformAll(db, calls), id, args, now); tx.Commit? && tx.value.Some?
    ensures var r := Claim(PerformAll(db, calls), id, args, now).db.rows[id];
            && r.payload == db.rows[id].payload && r.t == db.rows[id].t && r.state.Held()
            && (db.rows[id].beforeT.Some? ==> r.beforeT == db.rows[id].beforeT)
  {
    hide TableOk, PerformAll;
    TableInvariant(db, calls);
    assert Later(db.rows[id], PerformAll(db, calls).rows[id]);
  }

  /** The claims of a day never pass the limit that every claimer of that day keeps to. */
  lemma {:induction false} DailyLimitHolds(db: Db, calls: seq<(Call, int)>, day: string, limit: nat)
    requires RunsOn(db, day) <= limit
    requires forall c :: c in calls && c.0.CallClaim? && c.0.args.daily.Some? && c.0.args.daily.value.0 == day ==> c.0.args.daily.value.1 <= limit
    ensures RunsOn(PerformAll(db, calls), day) <= limit
    decreases |calls|
  {
    if |calls| > 0 {
      assert calls[0] in calls && forall c :: c in calls[1..] ==> c in calls;
      OneDay(db, calls[0].0, calls[0].1, day, limit);
      DailyLimitHolds(Perform(db, calls[0].0, calls[0].1), calls[1..], day, limit);
    }
  }

  lemma OneDay(db: Db, call: Call, now: int, day: string, limit: nat)
    requires RunsOn(db, day) <= limit
    requires call.CallClaim? && call.args.daily.Some? && call.args.daily.value.0 == day ==> call.args.daily.value.1 <= limit
    ensures RunsOn(Perform(db, call, now), day) <= limit
  {
    hide Perform;
    if MayCommitEffect(call) {
      EffectCallDays(db, call, now);
    } else if call.CallClaim? {
      ClaimDay(db, call.id, call.args, now, day, limit);
    } else {
      LeaseCallDays(db, call, now);
    }
  }

  lemma ClaimDay(db: Db, id: nat, args: ClaimArgs, now: int, day: string, limit: nat)
    requires RunsOn(db, day) <= limit
    requires args.daily.Some? && args.daily.value.0 == day ==> args.daily.value.1 <= limit
    ensures RunsOn(Perform(db, CallClaim(id, args), now), day) <= limit
  {
    hide Claimed, PolicyFor;
  }

  lemma LeaseCallDays(db: Db, call: Call, now: int)
    requires !MayCommitEffect(call) && !call.CallClaim?
    ensures Perform(db, call, now).dailyRuns == db.dailyRuns
  {
    hide Enqueue, PolicyFor, RetryState, Backoff;
    match call
    case CallEnqueue(job) => if Enqueue(db, job, now).Commit? { EnqueueDays(db, job, now); }
    case _ =>
  }

  lemma EffectCallDays(db: Db, call: Call, now: int)
    requires MayCommitEffect(call)
    ensures Perform(db, call, now).dailyRuns == db.dailyRuns
  {
    hide CommitEffect;
    match call
    case CallEffect(made, expected) => EffectDays(db, made, expected, now);
    case CallCaptured(made, expected, _) => EffectDays(db, made, expected, now);
    case CallUnit(_, made, expected) => EffectDays(db, made, expected, now);
    case CallComplete(id, _, mutate, expected, _) =>
      if id < |db.rows| && db.rows[id].result.Some? {
        EffectDays(db.(rows := db.rows[id := db.rows[id].Released(Done, now)]), mutate(db.rows[id].result.value), expected, now);
      }
    case _ =>
  }

  lemma EnqueueDays(db: Db, job: Job, now: int)
    requires Enqueue(db, job, now).Commit?
    ensures Enqueue(db, job, now).db.dailyRuns == db.dailyRuns
  {
  }

  lemma EffectDays(db: Db, made: Outcome, expected: nat, now: int)
    ensures var tx := CommitEffect(db, made, expected, now); tx.Commit? ==> tx.db.dailyRuns == db.dailyRuns
  {
    if CommitEffect(db, made, expected, now).Commit? {
      CommitEffectShape(db, made, expected, now);
    }
  }

  /** A task under a key remembers the task done last under it: none was done at a later time, nor at the
      same time under a later id. */
  lemma {:induction false} LastDoneIsLatest(rows: seq<Row>, kind: Kind, key: string, i: nat)
    requires i < |rows| && rows[i].kind == kind && rows[i].key == key && rows[i].state.Done?
    ensures var best := LastDone(rows, kind, key);
            && best.Some? && rows[best.value].kind == kind && rows[best.value].key == key && rows[best.value].state.Done?
            && (rows[i].updatedAt < rows[best.value].updatedAt
                || (rows[i].updatedAt == rows[best.value].updatedAt && i <= best.value))
    decreases |rows|
  {
    var n := |rows| - 1;
    if i < n {
      LastDoneIsLatest(rows[..n], kind, key, i);
    } else if LastDone(rows[..n], kind, key).Some? {
      LastDoneIsDone(rows[..n], kind, key);
    }
  }

  lemma {:induction false} LastDoneIsDone(rows: seq<Row>, kind: Kind, key: string)
    ensures var best := LastDone(rows, kind, key);
            best.Some? ==> rows[best.value].kind == kind && rows[best.value].key == key && rows[best.value].state.Done?
    decreases |rows|
  {
    if rows != [] {
      LastDoneIsDone(rows[..|rows| - 1], kind, key);
    }
  }

  function EmptyDb(capacity: nat): Db {
    Db([], capacity, 0, 0, map[], 0, None, map[], map[], map[], 0)
  }
}
