/** The task database as an object whose transactions update its tables step by step. Every method is
    proved to do what the transaction of the same name in TaskTable does. */
module TaskStore {
  import opened MemoryTypes
  import opened TaskTable

  datatype Result<T> = Ok(value: T) | Err(error: Error)

  function ResultOf<T>(tx: Tx<T>): Result<T> {
    match tx
    case Abort(error) => Err(error)
    case Commit(_, value) => Ok(value)
  }

  class TaskStore {
    const capacity: nat
    var rows: seq<Row>
    var drawn: nat
    var memoryNextId: nat
    var dailyRuns: map<string, nat>
    var revision: nat
    var state: Option<Image>
    var operations: map<(nat, Json), Json>
    var unitReceipts: map<nat, Json>
    var captures: map<string, Receipt>
    var recogFail: nat

    function Contents(): Db
      reads this
    {
      Db(rows, capacity, drawn, memoryNextId, dailyRuns, revision, state, operations, unitReceipts, captures, recogFail)
    }

    constructor (capacity: nat)
      ensures Contents() == Db([], capacity, 0, 0, map[], 0, None, map[], map[], map[], 0)
    {
      this.capacity := capacity;
      rows, drawn, memoryNextId, dailyRuns, revision, state := [], 0, 0, map[], 0, None;
      operations, unitReceipts, captures, recogFail := map[], map[], map[], 0;
    }

    /** Undo an open transaction. */
    method Rollback(db: Db)
      requires db.capacity == capacity
      modifies this
      ensures Contents() == db
    {
      rows, drawn, memoryNextId, dailyRuns := db.rows, db.drawn, db.memoryNextId, db.dailyRuns;
      revision, state, operations, unitReceipts := db.revision, db.state, db.operations, db.unitReceipts;
      captures, recogFail := db.captures, db.recogFail;
    }

    // -------------------------------------------------------------- queries

    method FindMergeable(kind: Kind, key: string) returns (i: nat)
      ensures i == MergeTarget(rows, kind, key)
    {
      i := 0;
      while i < |rows| && !Mergeable(rows[i], kind, key)
        invariant i <= |rows|
        invariant forall j :: 0 <= j < i ==> !Mergeable(rows[j], kind, key)
      {
        i := i + 1;
      }
      assert MergeTarget(rows, kind, key) >= i;
    }

    method CountActiveRows() returns (n: nat)
      ensures n == CountActive(rows)
    {
      n := 0;
      for i := 0 to |rows|
        invariant n == CountActive(rows[..i])
      {
        assert rows[..i + 1][..i] == rows[..i];
        if rows[i].state.Active() {
          n := n + 1;
        }
      }
      assert rows[..|rows|] == rows;
    }

    method FindLastDone(kind: Kind, key: string) returns (best: Option<nat>)
      ensures best == LastDone(rows, kind, key)
    {
      best := None;
      for i := 0 to |rows|
        invariant best == LastDone(rows[..i], kind, key)
      {
        assert rows[..i + 1][..i] == rows[..i];
        if rows[i].kind == kind && rows[i].key == key && rows[i].state.Done? {
          if best.None? || rows[i].updatedAt >= rows[best.value].updatedAt {
            best := Some(i);
          }
        }
      }
      assert rows[..|rows|] == rows;
    }

    // -------------------------------------------------------------- parts of transactions

    /** Runs inside a transaction: on an error the caller rolls back. */
    method EnqueueOpen(job: Job, now: int) returns (r: Result<nat>)
      modifies this
      ensures r == ResultOf(TaskTable.Enqueue(old(Contents()), job, now))
      ensures r.Ok? ==> Contents() == TaskTable.Enqueue(old(Contents()), job, now).db
    {
      var i := FindMergeable(job.kind, job.key);
      var done := FindLastDone(job.kind, job.key);
      var count := CountActiveRows();
      if job.memoryNextId > memoryNextId {
        memoryNextId := job.memoryNextId;
      }
      if i < |rows| {
        var row := rows[i];
        var payload := if job.merge.Some? then job.merge.value(row.payload, job.payload) else job.payload;
        rows := rows[i := row.(payload := payload, t := Most(job.t, row.t), updatedAt := now, version := row.version + 1)];
        return Ok(i);
      }
      if count >= capacity {
        return Err(QueueFull);
      }
      var row := Row(job.kind, job.key, job.payload, job.t, 0, if job.key == "" then None else done,
                     Pending, 0, 0, None, None, None, None, None, 0, now);
      rows := rows + [row];
      r := Ok(|rows| - 1);
    }

    method WriteCheckpointOpen(memory: Image, expected: nat) returns (r: Result<nat>)
      modifies `revision, `state
      ensures r == ResultOf(TaskTable.WriteCheckpoint(old(Contents()), memory, expected))
      ensures Contents() == After(old(Contents()), TaskTable.WriteCheckpoint(old(Contents()), memory, expected))
    {
      if revision != expected {
        return Err(CheckpointConflict);
      }
      revision := revision + 1;
      state := Some(Dumped(memory));
      r := Ok(revision);
    }

    method CommitEffectOpen(made: Outcome, expected: nat, now: int) returns (r: Result<Reply>)
      modifies this
      ensures r == ResultOf(TaskTable.CommitEffect(old(Contents()), made, expected, now))
      ensures r.Ok? ==> Contents() == TaskTable.CommitEffect(old(Contents()), made, expected, now).db
    {
      if made.Raised? {
        return Err(EffectRaised);
      }
      var i := 0;
      ghost var before := Contents();
      assert made.jobs[0..] == made.jobs;
      while i < |made.jobs|
        invariant i <= |made.jobs|
        invariant EnqueueAll(Contents(), made.jobs[i..], now) == EnqueueAll(before, made.jobs, now)
      {
        assert made.jobs[i..][1..] == made.jobs[i + 1..];
        var queued := EnqueueOpen(made.jobs[i], now);
        if queued.Err? {
          return Err(queued.error);
        }
        i := i + 1;
      }
      var written := WriteCheckpointOpen(made.state, expected);
      if written.Err? {
        return Err(written.error);
      }
      r := Ok(Reply(made.response, written.value, false));
    }

    predicate Holds(id: nat, token: nat, now: int)
      reads this
    {
      id < |rows| && rows[id].state.Held() && rows[id].token == Some(token)
      && rows[id].lease.Some? && rows[id].lease.value > now
    }

    // -------------------------------------------------------------- transactions

    method Enqueue(job: Job, now: int) returns (r: Result<nat>)
      modifies this
      ensures r == ResultOf(TaskTable.Enqueue(old(Contents()), job, now))
      ensures Contents() == After(old(Contents()), TaskTable.Enqueue(old(Contents()), job, now))
    {
      var begun := Contents();
      r := EnqueueOpen(job, now);
      if r.Err? {
        Rollback(begun);
      }
    }

    method SaveCheckpoint(memory: Image, expected: nat) returns (r: Result<nat>)
      modifies this
      ensures r == ResultOf(TaskTable.WriteCheckpoint(old(Contents()), memory, expected))
      ensures Contents() == After(old(Contents()), TaskTable.WriteCheckpoint(old(Contents()), memory, expected))
    {
      r := WriteCheckpointOpen(memory, expected);
    }

    method Claim(id: nat, args: ClaimArgs, now: int) returns (r: Result<Option<nat>>)
      modifies this
      ensures r == ResultOf(TaskTable.Claim(old(Contents()), id, args, now))
      ensures Contents() == After(old(Contents()), TaskTable.Claim(old(Contents()), id, args, now))
    {
      hide TaskTable.Grant, PolicyFor;
      var begun := Contents();
      if id >= |rows| {
        return Ok(None);
      }
      var policy := PolicyFor(rows[id].kind);
      if policy.None? {
        return Err(UnknownKind);
      }
      if !rows[id].state.Claimable() || rows[id].nextRunAt > now || rows[id].version != args.version {
        return Ok(None);
      }
      if !rows[id].state.Ready? && args.daily.Some? {
        var (day, cap) := args.daily.value;
        if (if day in dailyRuns then dailyRuns[day] else 0) >= cap {
          return Ok(None);
        }
      }
      r := GrantOpen(id, args, OrElse(args.lease, policy.value.lease), now);
      if r.Err? {
        Rollback(begun);
      }
    }

    method GrantOpen(id: nat, args: ClaimArgs, lease: Option<int>, now: int) returns (r: Result<Option<nat>>)
      requires id < |rows| && rows[id].state.Claimable()
      modifies this
      ensures r == ResultOf(TaskTable.Grant(old(Contents()), id, args, lease, now))
      ensures r.Ok? ==> Contents() == TaskTable.Grant(old(Contents()), id, args, lease, now).db
    {
      hide Claimed;
      if !rows[id].state.Ready? && args.daily.Some? {
        var day := args.daily.value.0;
        dailyRuns := dailyRuns[day := (if day in dailyRuns then dailyRuns[day] else 0) + 1];
      }
      if args.checkpoint.Some? {
        var (memory, expected) := args.checkpoint.value;
        var written := WriteCheckpointOpen(memory, expected);
        if written.Err? {
          return Err(written.error);
        }
      }
      if lease.None? {
        return Err(NoLease);
      }
      var token := drawn;
      drawn := drawn + 1;
      TakeRow(id, token, now + lease.value, args, now);
      r := Ok(Some(token));
    }

    method TakeRow(id: nat, token: nat, until: int, args: ClaimArgs, now: int)
      requires id < |rows| && rows[id].state.Claimable()
      modifies `rows
      ensures rows == old(rows)[id := Claimed(old(rows)[id], token, until, args, now)]
    {
      var row := rows[id];
      if row.state.Ready? {
        row := row.(state := Applying, applyAttempts := row.applyAttempts + 1);
      } else {
        row := row.(state := Running, attempts := row.attempts + 1);
      }
      rows := rows[id := row.(token := Some(token), lease := Some(until), updatedAt := now,
                              beforeT := OrElse(row.beforeT, args.before), origin := OrElse(row.origin, args.origin))];
    }

    method StoreResult(id: nat, token: nat, result: Json, checkpoint: Option<(Image, nat)>, now: int)
      returns (r: Result<Option<nat>>)
      modifies this
      ensures r == ResultOf(TaskTable.StoreResult(old(Contents()), id, token, result, checkpoint, now))
      ensures Contents() == After(old(Contents()), TaskTable.StoreResult(old(Contents()), id, token, result, checkpoint, now))
    {
      if !Holds(id, token, now) || !rows[id].state.Running? {
        return Err(LeaseLost);
      }
      var written: Option<nat> := None;
      if checkpoint.Some? {
        var (memory, expected) := checkpoint.value;
        var w := WriteCheckpointOpen(memory, expected);
        if w.Err? {
          return Err(w.error);
        }
        written := Some(w.value);
      }
      rows := rows[id := rows[id].(result := Some(result), state := Ready, token := None, lease := None,
                                   nextRunAt := 0, updatedAt := now)];
      r := Ok(written);
    }

    method Retry(id: nat, token: nat, caps: Caps, delay: Option<int>, retryModel: bool, now: int)
      returns (r: Result<State>)
      modifies this
      ensures r == ResultOf(TaskTable.Retry(old(Contents()), id, token, caps, delay, retryModel, now))
      ensures Contents() == After(old(Contents()), TaskTable.Retry(old(Contents()), id, token, caps, delay, retryModel, now))
    {
      if !Holds(id, token, now) {
        return Err(LeaseLost);
      }
      var row := rows[id];
      var policy := PolicyFor(row.kind);
      if policy.None? {
        return Err(UnknownKind);
      }
      var applying := row.state.Applying?;
      var attempts := if applying then row.applyAttempts else row.attempts;
      var next := if retryModel then Pending else if applying then Ready else Pending;
      var cap := if applying then caps.Apply(policy.value) else caps.Model(policy.value);
      if attempts >= cap {
        next := Dead;
      }
      var wait := if delay.Some? then delay.value else Backoff(policy.value, attempts);
      rows := rows[id := row.(state := next, token := None, lease := None, updatedAt := now, nextRunAt := now + wait,
                              result := if retryModel && !next.Dead? then None else row.result)];
      r := Ok(next);
    }

    /** First the expired leases, row by row; then, kind by kind, the rows at a limit. */
    method RecoverExpired(caps: Caps, kinds: seq<Kind>, reset: bool, now: int) returns (r: Result<()>)
      modifies this
      ensures r == ResultOf(TaskTable.Recover(old(Contents()), caps, kinds, reset, now))
      ensures Contents() == After(old(Contents()), TaskTable.Recover(old(Contents()), caps, kinds, reset, now))
    {
      var begun := Contents();
      var known := true;
      for i := 0 to |kinds|
        invariant known <==> AllKnown(kinds[..i])
      {
        assert kinds[..i + 1] == kinds[..i] + [kinds[i]];
        known := known && PolicyFor(kinds[i]).Some?;
      }
      assert kinds[..|kinds|] == kinds;
      if !known {
        return Err(UnknownKind);
      }
      ReleaseExpired(caps, kinds, reset, now);
      for k := 0 to |kinds|
        invariant Contents() == begun.(rows := rows) && |rows| == |begun.rows|
        invariant forall j :: 0 <= j < |rows| ==> rows[j] == Swept(begun.rows[j], caps, kinds, k, reset, now)
      {
        BuryExhausted(kinds[k], caps, now);
        forall j | 0 <= j < |rows|
          ensures rows[j] == Swept(begun.rows[j], caps, kinds, k + 1, reset, now)
        {
          SweepOnce(begun.rows[j], caps, kinds, k, reset, now);
        }
      }
      forall j | 0 <= j < |rows|
        ensures rows[j] == Recovered(begun.rows[j], caps, kinds, reset, now)
      {
        assert begun.rows[j].kind in kinds ==> begun.rows[j].kind in kinds[..|kinds|] by {
          assert kinds[..|kinds|] == kinds;
        }
      }
      r := Ok(());
    }

    method ReleaseExpired(caps: Caps, kinds: seq<Kind>, reset: bool, now: int)
      requires AllKnown(kinds)
      modifies `rows
      ensures |rows| == old(|rows|)
      ensures forall j :: 0 <= j < |rows| ==> rows[j] == Lapsed(old(rows)[j], caps, kinds, reset, now)
    {
      for i := 0 to |rows|
        invariant |rows| == old(|rows|)
        invariant forall j :: 0 <= j < i ==> rows[j] == Lapsed(old(rows)[j], caps, kinds, reset, now)
        invariant forall j :: i <= j < |rows| ==> rows[j] == old(rows)[j]
      {
        var row := rows[i];
        if row.kind in kinds && row.state.Held() && row.lease.Some? && row.lease.value <= now {
          var policy := PolicyFor(row.kind).value;
          var applying := row.state.Applying?;
          var attempts := if applying then row.applyAttempts else row.attempts;
          var cap := if applying then caps.Apply(policy) else caps.Model(policy);
          var next := if attempts >= cap then Dead else if applying then Ready else Pending;
          row := row.(state := next, token := None, lease := None, updatedAt := now);
          if reset {
            row := row.(nextRunAt := now);
          }
          rows := rows[i := row];
        }
      }
    }

    method BuryExhausted(kind: Kind, caps: Caps, now: int)
      requires PolicyFor(kind).Some?
      modifies `rows
      ensures |rows| == old(|rows|)
      ensures forall j :: 0 <= j < |rows| ==> rows[j] == Buried(old(rows)[j], kind, caps, now)
    {
      var policy := PolicyFor(kind).value;
      for i := 0 to |rows|
        invariant |rows| == old(|rows|)
        invariant forall j :: 0 <= j < i ==> rows[j] == Buried(old(rows)[j], kind, caps, now)
        invariant forall j :: i <= j < |rows| ==> rows[j] == old(rows)[j]
      {
        var row := rows[i];
        if row.kind == kind {
          if (row.state.Pending? && row.attempts >= caps.Model(policy))
             || (row.state.Ready? && row.applyAttempts >= caps.Apply(policy)) {
            rows := rows[i := row.(state := Dead, updatedAt := now)];
          }
        }
      }
    }

    method SkipRecent(id: nat, ttl: int, now: int) returns (r: Result<bool>)
      modifies this
      ensures r == ResultOf(TaskTable.SkipRecent(old(Contents()), id, ttl, now))
      ensures Contents() == After(old(Contents()), TaskTable.SkipRecent(old(Contents()), id, ttl, now))
    {
      if id >= |rows| || rows[id].state != Pending || rows[id].attempts != 0 || rows[id].key == "" {
        return Ok(false);
      }
      var d := rows[id].dedupe;
      if d.None? || d.value >= |rows| || rows[d.value].state != Done || rows[d.value].updatedAt <= now - ttl {
        return Ok(false);
      }
      rows := rows[id := rows[id].(state := Skipped, updatedAt := now)];
      r := Ok(true);
    }

    method Finish(id: nat, token: nat, now: int) returns (r: Result<()>)
      modifies this
      ensures r == ResultOf(TaskTable.Finish(old(Contents()), id, token, now))
      ensures Contents() == After(old(Contents()), TaskTable.Finish(old(Contents()), id, token, now))
    {
      if !Holds(id, token, now) || !rows[id].state.Applying? {
        return Err(LeaseLost);
      }
      rows := rows[id := rows[id].(state := Done, token := None, lease := None, updatedAt := now)];
      r := Ok(());
    }

    method ApplyEffect(made: Outcome, expected: nat, now: int) returns (r: Result<Reply>)
      modifies this
      ensures r == ResultOf(TaskTable.ApplyEffect(old(Contents()), made, expected, now))
      ensures Contents() == After(old(Contents()), TaskTable.ApplyEffect(old(Contents()), made, expected, now))
    {
      var begun := Contents();
      if revision != expected {
        return Err(CheckpointConflict);
      }
      r := CommitEffectOpen(made, expected, now);
      if r.Err? {
        Rollback(begun);
      }
    }

    method ApplyCaptured(made: Outcome, expected: nat, capture: Capture, now: int) returns (r: Result<Reply>)
      modifies this
      ensures r == ResultOf(TaskTable.ApplyCaptured(old(Contents()), made, expected, capture, now))
      ensures Contents() == After(old(Contents()), TaskTable.ApplyCaptured(old(Contents()), made, expected, capture, now))
    {
      var begun := Contents();
      if revision != expected {
        return Err(CheckpointConflict);
      }
      if capture.requestId in captures {
        var kept := captures[capture.requestId];
        if kept.fingerprint != capture.fingerprint {
          return Err(CaptureConflict);
        }
        return Ok(Reply(kept.response, expected, true));
      }
      r := CommitEffectOpen(made, expected, now);
      if r.Err? {
        Rollback(begun);
      } else {
        captures := captures[capture.requestId := Receipt(capture.kind, capture.fingerprint, r.value.response)];
      }
    }

    method ApplyUnit(uid: nat, made: Outcome, expected: nat, now: int) returns (r: Result<Reply>)
      modifies this
      ensures r == ResultOf(TaskTable.ApplyUnit(old(Contents()), uid, made, expected, now))
      ensures Contents() == After(old(Contents()), TaskTable.ApplyUnit(old(Contents()), uid, made, expected, now))
    {
      var begun := Contents();
      if revision != expected {
        return Err(CheckpointConflict);
      }
      if uid in unitReceipts {
        return Ok(Reply(unitReceipts[uid], expected, true));
      }
      r := CommitEffectOpen(made, expected, now);
      if r.Err? {
        Rollback(begun);
      } else {
        unitReceipts := unitReceipts[uid := r.value.response];
      }
    }

    method Complete(id: nat, token: nat, mutate: Json -> Outcome, expected: nat, now: int, later: int)
      returns (r: Result<Reply>)
      modifies this
      ensures r == ResultOf(TaskTable.Complete(old(Contents()), id, token, mutate, expected, now, later))
      ensures Contents() == After(old(Contents()), TaskTable.Complete(old(Contents()), id, token, mutate, expected, now, later))
    {
      hide TaskTable.CommitEffect;
      var begun := Contents();
      if !Holds(id, token, now) || !rows[id].state.Applying? || rows[id].result.None? {
        return Err(LeaseLost);
      }
      if revision != expected {
        return Err(CheckpointConflict);
      }
      var row := rows[id];
      rows := rows[id := row.(state := Done, token := None, lease := None, updatedAt := now)];
      var made := mutate(row.result.value);
      ghost var released := Contents();
      r := CommitEffectOpen(made, expected, now);
      if r.Err? {
        Rollback(begun);
        return;
      }
      CommitEffectShape(released, made, expected, now);
      if row.lease.value <= later {
        Rollback(begun);
        return Err(LeaseLost);
      }
      if (id, SEMANTIC) in operations {
        Rollback(begun);
        return Err(DuplicateReceipt);
      }
      if made.recogFail {
        recogFail := recogFail + 1;
      }
      operations := operations[(id, SEMANTIC) := r.value.response];
    }

    method ApplyOperation(id: nat, token: nat, request: Json, made: Outcome, expected: nat, now: int, later: int)
      returns (r: Result<Reply>)
      modifies this
      ensures r == ResultOf(TaskTable.ApplyOperation(old(Contents()), id, token, request, made, expected, now, later))
      ensures Contents() == After(old(Contents()), TaskTable.ApplyOperation(old(Contents()), id, token, request, made, expected, now, later))
    {
      if !Holds(id, token, now) {
        return Err(LeaseLost);
      }
      if revision != expected {
        return Err(CheckpointConflict);
      }
      var key := (id, OperationKey(request));
      if key in operations {
        return Ok(Reply(operations[key], expected, true));
      }
      if made.Raised? {
        return Err(EffectRaised);
      }
      if !Holds(id, token, later) {
        return Err(LeaseLost);
      }
      var written := WriteCheckpointOpen(made.state, expected);
      operations := operations[key := made.response];
      r := Ok(Reply(made.response, written.value, false));
    }

    method RememberCapture(capture: Capture, response: Json) returns (r: Result<(Json, bool)>)
      modifies this
      ensures r == ResultOf(TaskTable.RememberCapture(old(Contents()), capture, response))
      ensures Contents() == After(old(Contents()), TaskTable.RememberCapture(old(Contents()), capture, response))
    {
      if capture.requestId in captures {
        var kept := captures[capture.requestId];
        if kept.fingerprint != capture.fingerprint {
          return Err(CaptureConflict);
        }
        return Ok((kept.response, true));
      }
      captures := captures[capture.requestId := Receipt(capture.kind, capture.fingerprint, response)];
      r := Ok((response, false));
    }
  }

  // ---------------------------------------------------------------- the two passes of a recovery

  function Lapsed(r: Row, caps: Caps, kinds: seq<Kind>, reset: bool, now: int): Row
    requires AllKnown(kinds)
  {
    if Expired(r, kinds, now) then Expire(r, PolicyFor(r.kind).value, caps, reset, now) else r
  }

  function Buried(r: Row, kind: Kind, caps: Caps, now: int): Row
    requires PolicyFor(kind).Some?
  {
    if r.kind == kind && Exhausted(r, PolicyFor(kind).value, caps) then r.(state := Dead, updatedAt := now) else r
  }

  /** A row after the first pass and after the second pass reached the `k`-th kind. */
  function Swept(r: Row, caps: Caps, kinds: seq<Kind>, k: nat, reset: bool, now: int): Row
    requires AllKnown(kinds) && k <= |kinds|
  {
    var r1 := Lapsed(r, caps, kinds, reset, now);
    if r.kind in kinds[..k] then
      assert r.kind in kinds;
      Buried(r1, r.kind, caps, now)
    else r1
  }

  lemma SweepOnce(r: Row, caps: Caps, kinds: seq<Kind>, k: nat, reset: bool, now: int)
    requires AllKnown(kinds) && k < |kinds|
    ensures Buried(Swept(r, caps, kinds, k, reset, now), kinds[k], caps, now) == Swept(r, caps, kinds, k + 1, reset, now)
  {
    assert kinds[..k + 1] == kinds[..k] + [kinds[k]];
  }
}
