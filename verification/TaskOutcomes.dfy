/** What the transactions of the task database answer and leave: recovery, retries and their delays, claims, stored
    results, merged payloads, captured requests. */
module TaskOutcomes {
  import opened MemoryTypes
  import opened TaskTable
  import opened TaskInvariant

  // ---------------------------------------------------------------- recovery

  /** How often a task may be given to the model, and how often its result may be applied: by the caller's limits, or
      else by the policy of its kind. */
  function ModelLimit(kind: Kind, caps: Caps): nat {
    if caps.model.Some? then caps.model.value else if kind.RecallMiss? || kind.ExtractDue? then 2 else 5
  }

  function ApplyLimit(kind: Kind, caps: Caps): nat {
    if caps.apply.Some? then caps.apply.value else if kind.RecallMiss? || kind.ExtractDue? then 3 else 5
  }

  /** The task is being worked on under a lease. */
  predicate Leased(r: Row) {
    (r.state.Running? || r.state.Applying?) && r.lease.Some?
  }

  predicate SpentModel(r: Row, caps: Caps) {
    r.attempts >= ModelLimit(r.kind, caps)
  }

  predicate SpentApply(r: Row, caps: Caps) {
    r.applyAttempts >= ApplyLimit(r.kind, caps)
  }

  /** A recovery at `now` takes a task whose lease ended back to where it was claimed from, unless its attempts of that
      sort are spent: then it is dead. A waiting task without attempts left is dead too. Everything else, running work
      above all, stays as it is; and no task of these kinds is left under a lease that ended. */
  lemma RecoveryOutcome(db: Db, caps: Caps, kinds: seq<Kind>, reset: bool, now: int, id: nat)
    requires Recover(db, caps, kinds, reset, now).Commit? && id < |db.rows|
    ensures var db' := Recover(db, caps, kinds, reset, now).db; var r, r' := db.rows[id], db'.rows[id];
            && |db'.rows| == |db.rows| && db' == db.(rows := db'.rows)
            && (r.kind !in kinds ==> r' == r)
            && (Leased(r) && r.lease.value > now ==> r' == r)
            && (r.kind in kinds ==> !(Leased(r') && r'.lease.value <= now))
            && (r.kind in kinds && Leased(r) && r.lease.value <= now ==>
                  && r'.token.None? && r'.lease.None? && r'.updatedAt == now
                  && r'.nextRunAt == (if reset then now else r.nextRunAt)
                  && (r.state.Running? ==> r'.state == if SpentModel(r, caps) then Dead else Pending)
                  && (r.state.Applying? ==> r'.state == if SpentApply(r, caps) then Dead else Ready))
            && (r.kind in kinds && r.state.Pending? ==> if SpentModel(r, caps) then r' == r.(state := Dead, updatedAt := now) else r' == r)
            && (r.kind in kinds && r.state.Ready? ==> if SpentApply(r, caps) then r' == r.(state := Dead, updatedAt := now) else r' == r)
            && (r.state.Done? || r.state.Dead? || r.state.Skipped? ==> r' == r)
            && r' == r.(state := r'.state, token := r'.token, lease := r'.lease, nextRunAt := r'.nextRunAt, updatedAt := r'.updatedAt)
  {
    PolicyLimits(db.rows[id].kind, caps);
    hide Backoff;
  }

  lemma PolicyLimits(kind: Kind, caps: Caps)
    ensures PolicyFor(kind).Some? ==> caps.Model(PolicyFor(kind).value) == ModelLimit(kind, caps)
                                      && caps.Apply(PolicyFor(kind).value) == ApplyLimit(kind, caps)
  {
  }

  /** Recovering again at the same time changes nothing. */
  lemma RecoveryIsDone(db: Db, caps: Caps, kinds: seq<Kind>, reset: bool, now: int)
    requires Recover(db, caps, kinds, reset, now).Commit?
    ensures var db' := Recover(db, caps, kinds, reset, now).db; Recover(db', caps, kinds, reset, now) == Commit(db', ())
  {
    hide Recovered;
    var db' := Recover(db, caps, kinds, reset, now).db;
    forall i | 0 <= i < |db.rows|
      ensures Recovered(db'.rows[i], caps, kinds, reset, now) == db'.rows[i]
    {
      RecoveredIsDone(db.rows[i], caps, kinds, reset, now);
    }
  }

  lemma RecoveredIsDone(r: Row, caps: Caps, kinds: seq<Kind>, reset: bool, now: int)
    ensures var r' := Recovered(r, caps, kinds, reset, now); Recovered(r', caps, kinds, reset, now) == r'
  {
    hide PolicyFor;
  }

  // ---------------------------------------------------------------- who may act on a task

  /** The task is held under this token, and its lease goes beyond `now`. */
  predicate Holds(db: Db, id: nat, token: nat, now: int) {
    id < |db.rows| && Leased(db.rows[id]) && db.rows[id].token == Some(token) && db.rows[id].lease.value > now
  }

  predicate Investigation(kind: Kind) {
    kind.RecallMiss? || kind.ExtractDue?
  }

  /** The holder of a lease, and nobody else, stores results, fails, ends and performs: each of these goes through exactly
      under a live lease, in the right state, at the current checkpoint. */
  lemma OnlyHoldersAct(db: Db, id: nat, token: nat, caps: Caps, result: Json, saved: Option<(Image, nat)>, delay: Option<int>, again: bool, now: int)
    ensures StoreResult(db, id, token, result, saved, now).Commit? <==>
              Holds(db, id, token, now) && db.rows[id].state.Running? && (saved.Some? ==> saved.value.1 == db.revision)
    ensures Retry(db, id, token, caps, delay, again, now).Commit? <==> Holds(db, id, token, now) && !db.rows[id].kind.Unknown?
    ensures Finish(db, id, token, now).Commit? <==> Holds(db, id, token, now) && db.rows[id].state.Applying?
  {
    hide Backoff, RetryState;
  }

  lemma OnlyHoldersCommit(db: Db, id: nat, token: nat, mutate: Json -> Outcome, request: Json, made: Outcome, expected: nat, now: int, later: int)
    ensures Complete(db, id, token, mutate, expected, now, later).Commit? ==>
              Holds(db, id, token, now) && Holds(db, id, token, later) && db.rows[id].state.Applying? && db.revision == expected
    ensures ApplyOperation(db, id, token, request, made, expected, now, later).Commit? ==>
              Holds(db, id, token, now) && db.revision == expected
              && (ApplyOperation(db, id, token, request, made, expected, now, later).value.replayed || Holds(db, id, token, later))
  {
    hide CommitEffect, OperationKey;
  }

  /** A stored result is exactly the text that was handed in. */
  lemma StoreOutcome(db: Db, id: nat, token: nat, result: Json, saved: Option<(Image, nat)>, now: int)
    requires StoreResult(db, id, token, result, saved, now).Commit?
    ensures var db' := StoreResult(db, id, token, result, saved, now).db; var r := db.rows[id];
            && db'.rows == db.rows[id := r.(state := Ready, result := Some(result), token := None, lease := None, nextRunAt := 0, updatedAt := now)]
            && (saved.None? ==> db' == db.(rows := db'.rows))
            && (saved.Some? ==> db' == db.(rows := db'.rows, revision := db.revision + 1, state := Some(Dumped(saved.value.0))))
  {
  }

  /** What a completion applies is the stored text, and what it leaves is what that made of it. */
  lemma CompleteOutcome(db: Db, id: nat, token: nat, mutate: Json -> Outcome, expected: nat, now: int, later: int)
    requires Complete(db, id, token, mutate, expected, now, later).Commit?
    ensures var tx, r := Complete(db, id, token, mutate, expected, now, later), db.rows[id];
            && r.result.Some? && mutate(r.result.value).Made?
            && var made := mutate(r.result.value);
            && tx.value == Reply(made.response, expected + 1, false)
            && tx.db.state == Some(Dumped(made.state)) && tx.db.revision == expected + 1
            && tx.db.operations == db.operations[(id, SEMANTIC) := made.response]
            && tx.db.unitReceipts == db.unitReceipts && tx.db.captures == db.captures && tx.db.drawn == db.drawn
            && tx.db.recogFail == db.recogFail + if made.recogFail then 1 else 0
  {
    hide CommitEffect;
    var r := db.rows[id];
    CommitEffectShape(db.(rows := db.rows[id := r.Released(Done, now)]), mutate(r.result.value), expected, now);
  }

  // ---------------------------------------------------------------- failures and delays

  /** How long a task rests after its `n`-th failure when the caller names no delay. */
  function Rest(kind: Kind, n: nat): int {
    if Investigation(kind) then (if n == 0 then 1 else 0)
    else [1, 2, 4, 8, 16, 32, 64, 128, 256][if n <= 8 then n else 8]
  }

  lemma RestsAre(kind: Kind, n: nat)
    requires !kind.Unknown?
    ensures Backoff(PolicyFor(kind).value, n) == Rest(kind, n)
  {
    var k := if n <= 8 then n else 8;
    assert Power(2, 0) == 1 && Power(2, 1) == 2 && Power(2, 2) == 4 && Power(2, 3) == 8 && Power(2, 4) == 16;
    assert Power(2, 5) == 2 * Power(2, 4) && Power(2, 6) == 2 * Power(2, 5) && Power(2, 7) == 2 * Power(2, 6) && Power(2, 8) == 2 * Power(2, 7);
    assert Power(0, k) == if k == 0 then 1 else 0;
    assert k in {0, 1, 2, 3, 4, 5, 6, 7, 8};
  }

  /** A failure kills a task whose attempts of that sort are spent. Otherwise the task goes back to where it was claimed
      from, or, when the model is to be asked again, to the beginning without its result; and it rests. */
  lemma RetryOutcome(db: Db, id: nat, token: nat, caps: Caps, delay: Option<int>, again: bool, now: int)
    requires Retry(db, id, token, caps, delay, again, now).Commit?
    ensures var tx, r := Retry(db, id, token, caps, delay, again, now), db.rows[id]; var r' := tx.db.rows[id];
            var spent := if r.state.Applying? then SpentApply(r, caps) else SpentModel(r, caps);
            && tx.db == db.(rows := db.rows[id := r']) && tx.value == r'.state
            && r'.state == (if spent then Dead else if r.state.Applying? && !again then Ready else Pending)
            && r'.result == (if again && !spent then None else r.result)
            && r'.nextRunAt == now + (if delay.Some? then delay.value else Rest(r.kind, if r.state.Applying? then r.applyAttempts else r.attempts))
            && r' == r.(state := r'.state, result := r'.result, nextRunAt := r'.nextRunAt, token := None, lease := None, updatedAt := now)
  {
    var r := db.rows[id];
    assert !r.kind.Unknown?;
    PolicyLimits(r.kind, caps);
    RestsAre(r.kind, if r.state.Applying? then r.applyAttempts else r.attempts);
    hide Backoff, Rest;
  }

  // ---------------------------------------------------------------- claims

  /** The task waits, its rest is over, it is still what was listed, and its day has room for another run. */
  predicate Claimable(db: Db, id: nat, args: ClaimArgs, now: int) {
    && id < |db.rows| && (db.rows[id].state.Pending? || db.rows[id].state.Ready?)
    && db.rows[id].nextRunAt <= now && db.rows[id].version == args.version
    && (db.rows[id].state.Pending? && args.daily.Some? ==>
          (if args.daily.value.0 in db.dailyRuns then db.dailyRuns[args.daily.value.0] else 0) < args.daily.value.1)
  }

  /** The lease a claim gets when it names none. */
  function UsualLease(kind: Kind): Option<int> {
    if Investigation(kind) then None
    else if kind.ConflictPending? || kind.FeedbackPending? || kind.MaintenanceDue? then Some(360) else Some(120)
  }

  /** A claim draws a token exactly when the task can be claimed, a lease is known, and the claimer's memory is current;
      it then counts one attempt, and keeps the first causal bound and origin ever named. Otherwise it leaves the
      database alone. */
  lemma ClaimOutcome(db: Db, id: nat, args: ClaimArgs, now: int)
    ensures var tx := Claim(db, id, args, now); var known := id < |db.rows| && !db.rows[id].kind.Unknown?;
            && (tx.Commit? && tx.value.Some? <==>
                  && known && Claimable(db, id, args, now) && (args.checkpoint.Some? ==> args.checkpoint.value.1 == db.revision)
                  && (args.lease.Some? || UsualLease(db.rows[id].kind).Some?))
            && (tx.Commit? && tx.value.None? <==> id >= |db.rows| || (known && !Claimable(db, id, args, now)))
            && (tx.Commit? && tx.value.None? ==> tx.db == db)
  {
    hide Claimed;
  }

  lemma GrantOutcome(db: Db, id: nat, args: ClaimArgs, now: int)
    requires Claim(db, id, args, now).Commit? && Claim(db, id, args, now).value.Some?
    ensures var tx := Claim(db, id, args, now); var r, r' := db.rows[id], tx.db.rows[id];
            && tx.db.rows == db.rows[id := r'] && tx.value == Some(db.drawn) && tx.db.drawn == db.drawn + 1
            && r'.token == Some(db.drawn) && r'.updatedAt == now
            && (args.lease.Some? ==> r'.lease == Some(now + args.lease.value))
            && (args.lease.None? ==> r'.lease == Some(now + UsualLease(r.kind).value))
            && r'.beforeT == (if r.beforeT.Some? then r.beforeT else args.before)
            && r'.origin == (if r.origin.Some? then r.origin else args.origin)
            && (r.state.Pending? ==> r'.state.Running? && r'.attempts == r.attempts + 1 && r'.applyAttempts == r.applyAttempts)
            && (r.state.Ready? ==> r'.state.Applying? && r'.applyAttempts == r.applyAttempts + 1 && r'.attempts == r.attempts)
            && r' == r.(state := r'.state, attempts := r'.attempts, applyAttempts := r'.applyAttempts, token := r'.token,
                        lease := r'.lease, beforeT := r'.beforeT, origin := r'.origin, updatedAt := now)
            && (args.checkpoint.None? ==> tx.db.revision == db.revision && tx.db.state == db.state)
            && (args.checkpoint.Some? ==> tx.db.revision == db.revision + 1 && tx.db.state == Some(Dumped(args.checkpoint.value.0)))
            && (r.state.Ready? || args.daily.None? ==> tx.db.dailyRuns == db.dailyRuns)
  {
  }

  // ---------------------------------------------------------------- enqueueing

  /** A waiting, unclaimed task of this kind under this key. */
  predicate Open(r: Row, kind: Kind, key: string) {
    key != "" && r.kind == kind && r.key == key && r.state.Pending? && r.attempts == 0
  }

  function CombineOne(payload: Json, job: Job): Json {
    match job.merge
    case Some(merge) => merge(payload, job.payload)
    case None => job.payload
  }

  /** The payloads of a row and of later jobs, combined in the order in which they came. */
  function Combined(payload: Json, jobs: seq<Job>): Json
    decreases |jobs|
  {
    if jobs == [] then payload else Combined(CombineOne(payload, jobs[0]), jobs[1..])
  }

  function Latest(t: int, jobs: seq<Job>): int
    decreases |jobs|
  {
    if jobs == [] then t else Latest(if jobs[0].t > t then jobs[0].t else t, jobs[1..])
  }

  /** The tasks that take up room in the queue. */
  function Queued(rows: seq<Row>): set<nat> {
    set i | 0 <= i < |rows| && rows[i].state in {Pending, Running, Ready, Applying}
  }

  lemma {:induction false} QueuedCount(rows: seq<Row>)
    ensures CountActive(rows) == |Queued(rows)|
    decreases |rows|
  {
    if rows != [] {
      var n := |rows| - 1;
      QueuedCount(rows[..n]);
      QueuedLast(rows);
      hide Queued;
      assert CountActive(rows) == CountActive(rows[..n]) + |if rows[n].state.Active() then {n} else {}|;
    }
  }

  lemma QueuedLast(rows: seq<Row>)
    requires rows != []
    ensures var n := |rows| - 1;
            n !in Queued(rows[..n]) && Queued(rows) == Queued(rows[..n]) + (if rows[n].state.Active() then {n} else {})
  {
    var n := |rows| - 1;
    assert forall i :: 0 <= i < n ==> rows[..n][i] == rows[i];
  }

  /** `d` is the task of this kind and key that was done last. */
  predicate DoneLast(rows: seq<Row>, kind: Kind, key: string, d: nat) {
    && d < |rows| && rows[d].kind == kind && rows[d].key == key && rows[d].state.Done?
    && forall i :: 0 <= i < |rows| && rows[i].kind == kind && rows[i].key == key && rows[i].state.Done? ==>
         rows[i].updatedAt < rows[d].updatedAt || (rows[i].updatedAt == rows[d].updatedAt && i <= d)
  }

  lemma LastDoneIs(rows: seq<Row>, kind: Kind, key: string)
    ensures match LastDone(rows, kind, key)
            case Some(d) => DoneLast(rows, kind, key, d)
            case None => forall i :: 0 <= i < |rows| ==> !(rows[i].kind == kind && rows[i].key == key && rows[i].state.Done?)
  {
    hide LastDone;
    LastDoneIsDone(rows, kind, key);
    forall i | 0 <= i < |rows| && rows[i].kind == kind && rows[i].key == key && rows[i].state.Done?
      ensures var best := LastDone(rows, kind, key);
              best.Some? && (rows[i].updatedAt < rows[best.value].updatedAt || (rows[i].updatedAt == rows[best.value].updatedAt && i <= best.value))
    {
      LastDoneIsLatest(rows, kind, key, i);
    }
  }

  /** A job goes into the open task of its kind and key, or becomes a new task if there is none and the queue has room. */
  lemma EnqueueOutcome(db: Db, job: Job, now: int)
    ensures var tx := Enqueue(db, job, now); var open := exists i :: 0 <= i < |db.rows| && Open(db.rows[i], job.kind, job.key);
            && (tx.Commit? <==> open || |Queued(db.rows)| < db.capacity)
            && (tx.Commit? ==> tx.db.memoryNextId >= db.memoryNextId && tx.db.memoryNextId >= job.memoryNextId
                               && tx.db.memoryNextId in {db.memoryNextId, job.memoryNextId}
                               && tx.db == db.(rows := tx.db.rows, memoryNextId := tx.db.memoryNextId))
            && (tx.Commit? && open ==>
                  && tx.value < |db.rows| && var r := db.rows[tx.value];
                  && Open(r, job.kind, job.key)
                  && tx.db.rows == db.rows[tx.value := r.(payload := CombineOne(r.payload, job), t := if job.t > r.t then job.t else r.t,
                                                           version := r.version + 1, updatedAt := now)])
            && (tx.Commit? && !open ==>
                  && tx.value == |db.rows| && |tx.db.rows| == |db.rows| + 1 && tx.db.rows[..|db.rows|] == db.rows
                  && var r := tx.db.rows[|db.rows|];
                  && r.kind == job.kind && r.key == job.key && r.payload == job.payload && r.t == job.t && r.version == 0
                  && r.state.Pending? && r.attempts == 0 && r.applyAttempts == 0 && r.nextRunAt == 0 && r.updatedAt == now
                  && r.token.None? && r.lease.None? && r.result.None? && r.beforeT.None? && r.origin.None?
                  && (r.dedupe.Some? ==> job.key != "" && DoneLast(db.rows, job.kind, job.key, r.dedupe.value))
                  && (r.dedupe.None? ==> job.key == "" || forall d :: !DoneLast(db.rows, job.kind, job.key, d)))
  {
    hide LastDone, CountActive, Queued;
    QueuedCount(db.rows);
    LastDoneIs(db.rows, job.kind, job.key);
    var i := MergeTarget(db.rows, job.kind, job.key);
    forall j | 0 <= j < |db.rows|
      ensures Open(db.rows[j], job.kind, job.key) <==> Mergeable(db.rows[j], job.kind, job.key)
    {
    }
    if i < |db.rows| { assert Open(db.rows[i], job.kind, job.key); }
  }

  /** The row after one more job, and after all of them. */
  function WithJob(r: Row, job: Job, now: int): Row {
    r.(payload := CombineOne(r.payload, job), t := if job.t > r.t then job.t else r.t, version := r.version + 1, updatedAt := now)
  }

  function Piled(r: Row, jobs: seq<Job>, now: int): Row {
    r.(payload := Combined(r.payload, jobs), t := Latest(r.t, jobs), version := r.version + |jobs|,
       updatedAt := if jobs == [] then r.updatedAt else now)
  }

  lemma PiledNext(r: Row, jobs: seq<Job>, now: int)
    ensures jobs != [] ==> Piled(WithJob(r, jobs[0], now), jobs[1..], now) == Piled(r, jobs, now)
    ensures jobs == [] ==> Piled(r, jobs, now) == r
  {
    hide CombineOne;
  }

  /** Jobs for one key pile up in one task, whatever else is queued: its payload combines theirs in the order in which
      they came, and it is dated by the latest. */
  lemma {:induction false} JobsCombine(db: Db, jobs: seq<Job>, now: int, i: nat)
    requires TableOk(db) && i < |db.rows|
    requires forall job :: job in jobs ==> Open(db.rows[i], job.kind, job.key)
    ensures var tx := EnqueueAll(db, jobs, now);
            && tx.Commit?
            && tx.db.rows == db.rows[i := Piled(db.rows[i], jobs, now)]
    decreases |jobs|
  {
    hide Enqueue, TableOk, WithJob, Piled;
    var r := db.rows[i];
    PiledNext(r, jobs, now);
    if jobs != [] {
      assert jobs[0] in jobs && forall other :: other in jobs[1..] ==> other in jobs;
      JobCombines(db, jobs[0], now, i);
      var db1 := Enqueue(db, jobs[0], now).db;
      StaysOpen(r, jobs[0], now);
      JobsCombine(db1, jobs[1..], now, i);
      assert db.rows[i := db1.rows[i]][i := Piled(r, jobs, now)] == db.rows[i := Piled(r, jobs, now)];
    } else {
      assert db.rows[i := r] == db.rows;
    }
  }

  lemma StaysOpen(r: Row, job: Job, now: int)
    ensures forall kind, key :: Open(WithJob(r, job, now), kind, key) <==> Open(r, kind, key)
  {
  }

  lemma JobCombines(db: Db, job: Job, now: int, i: nat)
    requires TableOk(db) && i < |db.rows| && Open(db.rows[i], job.kind, job.key)
    ensures var tx := Enqueue(db, job, now); tx.Commit? && TableOk(tx.db) && tx.db.rows == db.rows[i := WithJob(db.rows[i], job, now)]
  {
    hide Enqueue, TableOk, CombineOne, Queued, DoneLast;
    EnqueueOutcome(db, job, now);
    OneOpen(db, i, job.kind, job.key);
    EnqueueKeeps(db, job, now);
  }

  lemma OneOpen(db: Db, i: nat, kind: Kind, key: string)
    requires TableOk(db) && i < |db.rows| && Open(db.rows[i], kind, key)
    ensures forall j :: 0 <= j < |db.rows| && Open(db.rows[j], kind, key) ==> j == i
  {
    forall j | 0 <= j < |db.rows| && Open(db.rows[j], kind, key)
      ensures j == i
    {
      assert j < i ==> !SameSlot(db.rows[j], db.rows[i]);
      assert i < j ==> !SameSlot(db.rows[i], db.rows[j]);
    }
  }

  // ---------------------------------------------------------------- effects

  /** A queue with room for all jobs of an effect takes them all. */
  lemma {:induction false} JobsFit(db: Db, jobs: seq<Job>, now: int)
    requires |Queued(db.rows)| + |jobs| <= db.capacity
    ensures EnqueueAll(db, jobs, now).Commit?
    decreases |jobs|
  {
    hide Enqueue, Queued;
    if jobs != [] {
      EnqueueOutcome(db, jobs[0], now);
      JobFits(db, jobs[0], now);
      JobsFit(Enqueue(db, jobs[0], now).db, jobs[1..], now);
    }
  }

  lemma JobFits(db: Db, job: Job, now: int)
    requires Enqueue(db, job, now).Commit?
    ensures var db' := Enqueue(db, job, now).db; |Queued(db'.rows)| <= |Queued(db.rows)| + 1 && db'.capacity == db.capacity
  {
    hide Enqueue;
    EnqueueOutcome(db, job, now);
    var tx := Enqueue(db, job, now);
    assert Queued(tx.db.rows) <= Queued(db.rows) + {tx.value} by {
      assert forall i :: 0 <= i < |db.rows| && i != tx.value ==> tx.db.rows[i] == db.rows[i] by {
        if |tx.db.rows| > |db.rows| { assert forall i :: 0 <= i < |db.rows| ==> tx.db.rows[..|db.rows|][i] == db.rows[i]; }
      }
    }
    Fewer(Queued(tx.db.rows), Queued(db.rows), tx.value);
  }

  lemma Fewer(a: set<nat>, b: set<nat>, x: nat)
    requires a <= b + {x}
    ensures |a| <= |b| + 1
  {
    assert |a| <= |b + {x}| by {
      assert b + {x} == a + (b + {x} - a);
    }
  }

  /** An effect goes through exactly at the current checkpoint, when its body does not raise and its jobs find room; it
      leaves what the body made. */
  lemma EffectOutcome(db: Db, made: Outcome, expected: nat, now: int)
    ensures var tx, queued := ApplyEffect(db, made, expected, now), EnqueueAll(db, if made.Made? then made.jobs else [], now);
            && (tx.Commit? <==> db.revision == expected && made.Made? && queued.Commit?)
            && (tx.Commit? ==>
                  && tx.value == Reply(made.response, expected + 1, false)
                  && tx.db == queued.db.(revision := expected + 1, state := Some(Dumped(made.state))))
  {
    hide Enqueue;
    if EnqueueAll(db, if made.Made? then made.jobs else [], now).Commit? { EnqueueAllQueues(db, if made.Made? then made.jobs else [], now); }
  }

  /** A unit's effect takes place once: the first time as any effect, with a receipt of its answer; then it is answered
      from the receipt. */
  lemma UnitOutcome(db: Db, uid: nat, made: Outcome, expected: nat, now: int)
    ensures var tx, plain := ApplyUnit(db, uid, made, expected, now), ApplyEffect(db, made, expected, now);
            && (tx.Commit? <==> db.revision == expected && (uid in db.unitReceipts || plain.Commit?))
            && (tx.Commit? && uid in db.unitReceipts ==> tx == Commit(db, Reply(db.unitReceipts[uid], expected, true)))
            && (tx.Commit? && uid !in db.unitReceipts ==>
                  tx == Commit(plain.db.(unitReceipts := db.unitReceipts[uid := made.response]), Reply(made.response, expected + 1, false)))
  {
    hide CommitEffect;
    if CommitEffect(db, made, expected, now).Commit? { CommitEffectShape(db, made, expected, now); }
  }

  /** So does a captured request; its receipt also holds the body it answered. */
  lemma CapturedOutcome(db: Db, made: Outcome, expected: nat, capture: Capture, now: int)
    requires capture.requestId !in db.captures
    ensures var tx, plain := ApplyCaptured(db, made, expected, capture, now), ApplyEffect(db, made, expected, now);
            && (tx.Commit? <==> plain.Commit?)
            && (tx.Commit? ==>
                  tx == Commit(plain.db.(captures := db.captures[capture.requestId := Receipt(capture.kind, capture.fingerprint, made.response)]),
                               Reply(made.response, expected + 1, false)))
  {
    hide CommitEffect;
    if CommitEffect(db, made, expected, now).Commit? { CommitEffectShape(db, made, expected, now); }
  }

  /** A completion goes through exactly for the holder of an applying task with a result, at both checks of the lease and
      at the current checkpoint, when its effect does, without the task itself in the queue, and was not filed before. */
  lemma CompleteExactly(db: Db, id: nat, token: nat, mutate: Json -> Outcome, expected: nat, now: int, later: int)
    ensures Complete(db, id, token, mutate, expected, now, later).Commit? <==>
              && Holds(db, id, token, now) && db.rows[id].state.Applying? && db.rows[id].result.Some? && db.rows[id].lease.value > later
              && (id, SEMANTIC) !in db.operations
              && ApplyEffect(db.(rows := db.rows[id := db.rows[id].(state := Done, token := None, lease := None, updatedAt := now)]),
                             mutate(db.rows[id].result.value), expected, now).Commit?
  {
    hide CommitEffect;
    if id < |db.rows| && db.rows[id].result.Some? {
      var r := db.rows[id];
      var released := db.(rows := db.rows[id := r.Released(Done, now)]);
      if CommitEffect(released, mutate(r.result.value), expected, now).Commit? {
        CommitEffectShape(released, mutate(r.result.value), expected, now);
      }
    }
  }

  /** An operation is answered from its receipt, or performed and filed when its body does not raise and the lease still
      holds at its end. */
  lemma OperationOutcome(db: Db, id: nat, token: nat, request: Json, made: Outcome, expected: nat, now: int, later: int)
    requires Holds(db, id, token, now) && db.revision == expected
    ensures var tx, key := ApplyOperation(db, id, token, request, made, expected, now, later), (id, OperationKey(request));
            && (key in db.operations ==> tx == Commit(db, Reply(db.operations[key], expected, true)))
            && (key !in db.operations ==>
                  && (tx.Commit? <==> made.Made? && Holds(db, id, token, later))
                  && (tx.Commit? ==>
                        tx == Commit(db.(revision := expected + 1, state := Some(Dumped(made.state)), operations := db.operations[key := made.response]),
                                     Reply(made.response, expected + 1, false))))
  {
    hide OperationKey;
  }

  // ---------------------------------------------------------------- skipping

  /** An unclaimed task is skipped exactly when the task its key was done by before ended less than `ttl` ago. */
  lemma SkipOutcome(db: Db, id: nat, ttl: int, now: int)
    ensures var tx := SkipRecent(db, id, ttl, now);
            && tx.Commit?
            && (tx.value <==>
                  && id < |db.rows| && db.rows[id].state.Pending? && db.rows[id].attempts == 0 && db.rows[id].key != ""
                  && exists d: nat :: db.rows[id].dedupe == Some(d) && d < |db.rows| && db.rows[d].state.Done? && now < db.rows[d].updatedAt + ttl)
            && tx.db == (if tx.value then db.(rows := db.rows[id := db.rows[id].(state := Skipped, updatedAt := now)]) else db)
  {
  }

  // ---------------------------------------------------------------- captured requests

  /** A request id that is bound answers its own body again without any effect, and refuses every other body. */
  lemma CaptureOutcome(db: Db, made: Outcome, expected: nat, capture: Capture, now: int)
    requires db.revision == expected && capture.requestId in db.captures
    ensures var tx, kept := ApplyCaptured(db, made, expected, capture, now), db.captures[capture.requestId];
            && (kept.fingerprint == capture.fingerprint ==> tx == Commit(db, Reply(kept.response, expected, true)))
            && (kept.fingerprint != capture.fingerprint ==> tx == Abort(CaptureConflict))
  {
  }

  lemma RememberOutcome(db: Db, capture: Capture, response: Json)
    ensures var tx, bound := RememberCapture(db, capture, response), capture.requestId in db.captures;
            && (tx.Commit? <==> bound ==> db.captures[capture.requestId].fingerprint == capture.fingerprint)
            && (tx.Commit? && bound ==> tx == Commit(db, (db.captures[capture.requestId].response, true)))
            && (!bound ==> tx == Commit(db.(captures := db.captures[capture.requestId := Receipt(capture.kind, capture.fingerprint, response)]),
                                        (response, false)))
  {
  }
}
