/** One worker for a group of task kinds: list, claim, run, store, claim again, apply, and retry what
    failed. However model calls, applications, leases and the process itself fail, a task is claimed a
    bounded number of times. */
module WorkerRuns {
  import opened MemoryTypes
  import opened TaskTable
  import opened TaskInvariant

  /** What the worker has listed and not visited, the task it holds, the task whose result it has just
      stored, and how often each task was claimed. */
  datatype Worker = Worker(db: Db, todo: seq<nat>, held: Option<(nat, nat)>, again: Option<nat>, claims: map<nat, nat>)

  /** The worker's group and the limits it passes to the store. */
  datatype Group = Group(kinds: seq<Kind>, caps: Caps, reset: bool)
  {
    function Model(k: Kind): nat {
      if PolicyFor(k).Some? then caps.Model(PolicyFor(k).value) else 0
    }

    function Apply(k: Kind): nat {
      if PolicyFor(k).Some? then caps.Apply(PolicyFor(k).value) else 0
    }

    /** Known kinds, and at least one application allowed. */
    predicate Ok() {
      AllKnown(kinds) && forall k :: k in kinds ==> Apply(k) >= 1
    }
  }

  datatype Event =
    | Pass(due: Option<int>, limit: Option<nat>, now: int)
    | ClaimNext(args: ClaimArgs, now: int)
    | StoreHeld(result: Json, checkpoint: Option<(Image, nat)>, now: int)
    | ClaimAgain(args: ClaimArgs, now: int)
    | FailHeld(delay: Option<int>, retryModel: bool, now: int)
    | CompleteHeld(mutate: Json -> Outcome, expected: nat, now: int, later: int)
    | FinishHeld(now: int)
    | Crash
    | Other(call: Call, now: int)

  /** The listed tasks, oldest first. */
  function Listed(rows: seq<Row>, group: Group, due: Option<int>, limit: Option<nat>): (ids: seq<nat>)
    ensures forall j :: 0 <= j < |ids| ==> ids[j] < |rows| && rows[ids[j]].kind in group.kinds && rows[ids[j]].state.Claimable()
    ensures forall j, k :: 0 <= j < k < |ids| ==> ids[j] < ids[k]
    decreases |rows|
  {
    if rows == [] then []
    else
      var n := |rows| - 1;
      var ids := Listed(rows[..n], group, due, limit);
      if rows[n].kind in group.kinds && rows[n].state.Claimable()
         && (due.None? || rows[n].nextRunAt <= due.value) && (limit.None? || |ids| < limit.value)
      then ids + [n] else ids
  }

  /** Calls by others leave the group's tasks to the worker, except that anyone may enqueue, and that
      an unclaimed task may be skipped. */
  predicate Foreign(db: Db, group: Group, call: Call) {
    match call
    case CallClaim(id, _) => id < |db.rows| ==> db.rows[id].kind !in group.kinds
    case CallStoreResult(id, _, _, _) => id < |db.rows| ==> db.rows[id].kind !in group.kinds
    case CallRetry(id, _, _, _, _) => id < |db.rows| ==> db.rows[id].kind !in group.kinds
    case CallFinish(id, _) => id < |db.rows| ==> db.rows[id].kind !in group.kinds
    case CallComplete(id, _, _, _, _) => id < |db.rows| ==> db.rows[id].kind !in group.kinds
    case CallRecover(_, kinds, _) => forall k :: k in kinds ==> k !in group.kinds
    case _ => true
  }

  function Count(claims: map<nat, nat>, id: nat): nat {
    if id in claims then claims[id] else 0
  }

  /** Claim `id`; the worker holds it when a token comes back. */
  function TakeTask(w: Worker, id: nat, args: ClaimArgs, now: int): Worker {
    var tx := Claim(w.db, id, args, now);
    if tx.Abort? || tx.value.None? then w
    else w.(db := tx.db, held := Some((id, tx.value.value)), claims := w.claims[id := Count(w.claims, id) + 1])
  }

  function Work(w: Worker, group: Group, e: Event): Worker {
    match e
    case Pass(due, limit, now) =>
      var db := After(w.db, Recover(w.db, group.caps, group.kinds, group.reset, now));
      w.(db := db, todo := Listed(db.rows, group, due, limit), held := None, again := None)
    case ClaimNext(args, now) =>
      if w.todo == [] || w.held.Some? || w.again.Some? then w
      else TakeTask(w.(todo := w.todo[1..]), w.todo[0], args, now)
    case StoreHeld(result, checkpoint, now) =>
      if w.held.None? then w
      else
        var tx := StoreResult(w.db, w.held.value.0, w.held.value.1, result, checkpoint, now);
        if tx.Abort? then w else w.(db := tx.db, held := None, again := Some(w.held.value.0))
    case ClaimAgain(args, now) =>
      if w.again.None? then w else TakeTask(w.(again := None), w.again.value, args, now)
    case FailHeld(delay, retryModel, now) =>
      if w.held.None? then w
      else w.(db := After(w.db, Retry(w.db, w.held.value.0, w.held.value.1, group.caps, delay, retryModel, now)), held := None)
    case CompleteHeld(mutate, expected, now, later) =>
      if w.held.None? then w
      else
        var tx := Complete(w.db, w.held.value.0, w.held.value.1, mutate, expected, now, later);
        if tx.Abort? then w else w.(db := tx.db, held := None)
    case FinishHeld(now) =>
      if w.held.None? then w
      else
        var tx := Finish(w.db, w.held.value.0, w.held.value.1, now);
        if tx.Abort? then w else w.(db := tx.db, held := None)
    case Crash => w.(todo := [], held := None, again := None)
    case Other(call, now) => if Foreign(w.db, group, call) then w.(db := Perform(w.db, call, now)) else w
  }

  function WorkAll(w: Worker, group: Group, events: seq<Event>): Worker
    decreases |events|
  {
    if |events| == 0 then w else WorkAll(Work(w, group, events[0]), group, events[1..])
  }

  // ---------------------------------------------------------------- the invariant

  /** The counters of a row of the group, and how often it was claimed. */
  predicate RowBounded(r: Row, group: Group, claims: nat) {
    && r.attempts <= group.Model(r.kind) && r.applyAttempts <= group.Apply(r.kind)
    && (r.state.Pending? || r.state.Running? || r.state.Ready? ==> r.applyAttempts < group.Apply(r.kind))
    && claims == r.attempts + r.applyAttempts
  }

  ghost predicate AllBounded(rows: seq<Row>, group: Group, claims: map<nat, nat>) {
    && (forall id :: 0 <= id < |rows| && rows[id].kind in group.kinds ==> RowBounded(rows[id], group, Count(claims, id)))
    && (forall id :: id in claims ==> id < |rows|)
  }

  /** A listed task that was not visited yet has a model attempt left. */
  ghost predicate TodoOk(rows: seq<Row>, group: Group, todo: seq<nat>) {
    && (forall id :: id in todo ==> id < |rows| && rows[id].kind in group.kinds
                                    && (rows[id].state.Pending? ==> rows[id].attempts < group.Model(rows[id].kind)))
    && (forall j, k :: 0 <= j < k < |todo| ==> todo[j] != todo[k])
  }

  ghost predicate HeldOk(w: Worker, group: Group) {
    && (w.held.Some? ==> w.held.value.0 !in w.todo && w.held.value.0 < |w.db.rows| && w.db.rows[w.held.value.0].kind in group.kinds)
    && (w.again.Some? ==> w.again.value !in w.todo && w.again.value < |w.db.rows|
                          && w.db.rows[w.again.value].kind in group.kinds
                          && !w.db.rows[w.again.value].state.Pending?)
  }

  ghost predicate Bounded(w: Worker, group: Group) {
    && TableOk(w.db) && AllBounded(w.db.rows, group, w.claims) && TodoOk(w.db.rows, group, w.todo) && HeldOk(w, group)
  }

  // ---------------------------------------------------------------- tasks the step does not concern

  /** Counters and state are as before, unless an unclaimed task was skipped. */
  predicate Untouched(r: Row, r': Row) {
    && r'.kind == r.kind && r'.attempts == r.attempts && r'.applyAttempts == r.applyAttempts
    && (r'.state == r.state || (r.Unclaimed() && r'.state.Skipped?))
  }

  predicate Unborn(r: Row) {
    r.state.Pending? && r.attempts == 0 && r.applyAttempts == 0
  }

  ghost predicate Undisturbed(rows: seq<Row>, rows': seq<Row>, group: Group, touched: set<nat>) {
    && |rows| <= |rows'|
    && (forall id :: 0 <= id < |rows| && id !in touched && rows[id].kind in group.kinds ==> Untouched(rows[id], rows'[id]))
    && (forall id :: 0 <= id < |rows| ==> rows'[id].kind == rows[id].kind)
    && (forall id :: |rows| <= id < |rows'| ==> Unborn(rows'[id]))
  }

  /** Enqueueing only adds rows, and changes no counter or state. */
  ghost predicate Queued(rows: seq<Row>, rows': seq<Row>) {
    && |rows| <= |rows'|
    && (forall id :: 0 <= id < |rows| ==> Untouched(rows[id], rows'[id]) && rows'[id].state == rows[id].state)
    && (forall id :: |rows| <= id < |rows'| ==> Unborn(rows'[id]))
  }

  lemma {:induction false} EnqueueAllQueued(db: Db, jobs: seq<Job>, now: int)
    requires EnqueueAll(db, jobs, now).Commit?
    ensures Queued(db.rows, EnqueueAll(db, jobs, now).db.rows)
    decreases |jobs|
  {
    if |jobs| > 0 {
      var db1 := Enqueue(db, jobs[0], now).db;
      EnqueueAllQueued(db1, jobs[1..], now);
      var rows := EnqueueAll(db, jobs, now).db.rows;
      forall id | 0 <= id < |rows|
        ensures if id < |db.rows| then Untouched(db.rows[id], rows[id]) && rows[id].state == db.rows[id].state else Unborn(rows[id])
      {
        assert id < |db1.rows| ==> Untouched(db1.rows[id], rows[id]);
      }
    }
  }

  lemma CommitEffectQueued(db: Db, made: Outcome, expected: nat, now: int)
    requires CommitEffect(db, made, expected, now).Commit?
    ensures Queued(db.rows, CommitEffect(db, made, expected, now).db.rows)
  {
    EnqueueAllQueued(db, made.jobs, now);
  }

  lemma CompleteUndisturbed(db: Db, group: Group, id: nat, token: nat, mutate: Json -> Outcome, expected: nat, now: int, later: int)
    requires Complete(db, id, token, mutate, expected, now, later).Commit?
    ensures var rows := Complete(db, id, token, mutate, expected, now, later).db.rows;
            && Undisturbed(db.rows, rows, group, {id})
            && rows[id].state.Done? && rows[id].attempts == db.rows[id].attempts && rows[id].applyAttempts == db.rows[id].applyAttempts
  {
    hide CommitEffect;
    var released := db.(rows := db.rows[id := db.rows[id].Released(Done, now)]);
    CommitEffectQueued(released, mutate(db.rows[id].result.value), expected, now);
    var rows := Complete(db, id, token, mutate, expected, now, later).db.rows;
    forall j | 0 <= j < |db.rows|
      ensures Untouched(released.rows[j], rows[j]) && rows[j].state == released.rows[j].state
    {
    }
  }

  lemma ReplacedUndisturbed(rows: seq<Row>, i: nat, r: Row, group: Group)
    requires i < |rows| && r.kind == rows[i].kind
    ensures Undisturbed(rows, rows[i := r], group, {i})
  {
  }

  lemma SameUndisturbed(rows: seq<Row>, group: Group, touched: set<nat>)
    ensures Undisturbed(rows, rows, group, touched)
  {
  }

  /** A call on one row disturbs at most that row. */
  lemma OneRowUndisturbed(db: Db, group: Group, call: Call, now: int)
    requires call.CallClaim? || call.CallStoreResult? || call.CallRetry? || call.CallFinish? || call.CallSkip?
    ensures Undisturbed(db.rows, Perform(db, call, now).rows, group, {call.id})
    ensures call.CallSkip? ==> Undisturbed(db.rows, Perform(db, call, now).rows, group, {})
  {
    hide Undisturbed;
    SameUndisturbed(db.rows, group, {call.id});
    SameUndisturbed(db.rows, group, {});
    var rows := Perform(db, call, now).rows;
    if rows != db.rows {
      assert call.id < |db.rows| && rows == db.rows[call.id := rows[call.id]] && rows[call.id].kind == db.rows[call.id].kind by {
        RowReplaced(db, call, now);
      }
      ReplacedUndisturbed(db.rows, call.id, rows[call.id], group);
      if call.CallSkip? {
        SkipUndisturbed(db.rows, call.id, rows[call.id], group);
      }
    }
  }

  lemma SkipUndisturbed(rows: seq<Row>, i: nat, r: Row, group: Group)
    requires i < |rows| && Untouched(rows[i], r)
    ensures Undisturbed(rows, rows[i := r], group, {})
  {
  }

  lemma RowReplaced(db: Db, call: Call, now: int)
    requires call.CallClaim? || call.CallStoreResult? || call.CallRetry? || call.CallFinish? || call.CallSkip?
    requires Perform(db, call, now).rows != db.rows
    ensures var rows := Perform(db, call, now).rows;
            && call.id < |db.rows| == |rows|
            && rows == db.rows[call.id := rows[call.id]] && rows[call.id].kind == db.rows[call.id].kind
            && (call.CallSkip? ==> Untouched(db.rows[call.id], rows[call.id]))
  {
    match call
    case CallClaim(_, _) =>
    case CallStoreResult(_, _, _, _) =>
    case CallRetry(_, _, _, _, _) =>
    case CallFinish(_, _) =>
    case CallSkip(_, _) =>
  }

  lemma RecoverUndisturbed(db: Db, group: Group, call: Call, now: int)
    requires call.CallRecover? && Foreign(db, group, call)
    ensures Undisturbed(db.rows, Perform(db, call, now).rows, group, {})
  {
    forall id | 0 <= id < |db.rows|
      ensures TaskTable.Recovered(db.rows[id], call.caps, call.kinds, call.reset, now).kind == db.rows[id].kind
    {
    }
  }

  lemma ForeignUndisturbed(db: Db, group: Group, call: Call, now: int)
    requires Foreign(db, group, call)
    ensures Undisturbed(db.rows, Perform(db, call, now).rows, group, {})
  {
    if MayCommitEffect(call) {
      EffectUndisturbed(db, group, call, now);
    } else {
      hide Enqueue, Undisturbed, Queued, Recover, Claim, StoreResult, Retry, Finish, SkipRecent;
      SameUndisturbed(db.rows, group, {});
      match call
      case CallEnqueue(job) =>
        if Enqueue(db, job, now).Commit? {
          EnqueueQueued(db, job, now);
          QueuedUndisturbed(db.rows, Enqueue(db, job, now).db.rows, group);
        }
      case CallRecover(_, _, _) => RecoverUndisturbed(db, group, call, now);
      case _ =>
        OneForeign(db, group, call, now);
    }
  }

  lemma OneForeign(db: Db, group: Group, call: Call, now: int)
    requires Foreign(db, group, call)
    requires call.CallClaim? || call.CallStoreResult? || call.CallRetry? || call.CallFinish? || call.CallSkip?
    ensures Undisturbed(db.rows, Perform(db, call, now).rows, group, {})
  {
    hide Undisturbed, Perform;
    OneRowUndisturbed(db, group, call, now);
    if !call.CallSkip? { ForeignTouch(db.rows, Perform(db, call, now).rows, group, call.id); }
  }

  lemma ForeignTouch(rows: seq<Row>, rows': seq<Row>, group: Group, id: nat)
    requires Undisturbed(rows, rows', group, {id}) && (id < |rows| ==> rows[id].kind !in group.kinds)
    ensures Undisturbed(rows, rows', group, {})
  {
  }

  lemma QueuedUndisturbed(rows: seq<Row>, rows': seq<Row>, group: Group)
    requires Queued(rows, rows')
    ensures Undisturbed(rows, rows', group, {})
  {
  }

  lemma EffectUndisturbed(db: Db, group: Group, call: Call, now: int)
    requires Foreign(db, group, call) && MayCommitEffect(call)
    ensures Undisturbed(db.rows, Perform(db, call, now).rows, group, {})
  {
    hide CommitEffect, EnqueueAll;
    match call
    case CallEffect(made, expected) =>
      if CommitEffect(db, made, expected, now).Commit? { CommitEffectQueued(db, made, expected, now); }
    case CallCaptured(made, expected, _) =>
      if CommitEffect(db, made, expected, now).Commit? { CommitEffectQueued(db, made, expected, now); }
    case CallUnit(_, made, expected) =>
      if CommitEffect(db, made, expected, now).Commit? { CommitEffectQueued(db, made, expected, now); }
    case CallComplete(id, token, mutate, expected, later) =>
      if Complete(db, id, token, mutate, expected, now, later).Commit? {
        CompleteUndisturbed(db, group, id, token, mutate, expected, now, later);
      }
    case CallOperation(_, _, _, _, _, _) =>
    case CallRemember(_, _) =>
    case CallSave(_, _) =>
  }

  lemma EnqueueQueued(db: Db, job: Job, now: int)
    requires Enqueue(db, job, now).Commit?
    ensures Queued(db.rows, Enqueue(db, job, now).db.rows)
  {
  }

  // ---------------------------------------------------------------- the steps keep the bounds

  lemma UndisturbedKeeps(w: Worker, group: Group, db: Db)
    requires group.Ok() && Bounded(w, group) && TableOk(db) && Undisturbed(w.db.rows, db.rows, group, {})
    ensures Bounded(w.(db := db), group)
  {
    hide TableOk;
    forall id | 0 <= id < |db.rows| && db.rows[id].kind in group.kinds
      ensures RowBounded(db.rows[id], group, Count(w.claims, id))
    {
      if id < |w.db.rows| {
        assert Untouched(w.db.rows[id], db.rows[id]);
      }
    }
  }

  /** A row of the group that the step is about, with its claims after it. */
  lemma TouchedKeeps(w: Worker, group: Group, db: Db, id: nat, claims: map<nat, nat>)
    requires group.Ok() && Bounded(w, group) && TableOk(db) && Undisturbed(w.db.rows, db.rows, group, {id})
    requires id < |w.db.rows| && w.db.rows[id].kind in group.kinds && id !in w.todo
    requires claims == w.claims || claims == w.claims[id := Count(w.claims, id) + 1]
    requires RowBounded(db.rows[id], group, Count(claims, id))
    ensures AllBounded(db.rows, group, claims) && TodoOk(db.rows, group, w.todo)
  {
    hide TableOk, RowBounded;
    forall j | 0 <= j < |db.rows| && db.rows[j].kind in group.kinds
      ensures RowBounded(db.rows[j], group, Count(claims, j))
    {
      if j < |w.db.rows| && j != id {
        assert Untouched(w.db.rows[j], db.rows[j]);
        SameBounded(w.db.rows[j], db.rows[j], group, Count(w.claims, j));
      } else if j != id {
        UnbornBounded(db.rows[j], group);
      }
    }
    forall j | j in w.todo
      ensures j < |db.rows| && db.rows[j].kind in group.kinds && (db.rows[j].state.Pending? ==> db.rows[j].attempts < group.Model(db.rows[j].kind))
    {
      assert Untouched(w.db.rows[j], db.rows[j]);
    }
  }

  lemma SameBounded(r: Row, r': Row, group: Group, claims: nat)
    requires RowBounded(r, group, claims) && Untouched(r, r')
    ensures RowBounded(r', group, claims)
  {
  }

  lemma UnbornBounded(r: Row, group: Group)
    requires group.Ok() && r.kind in group.kinds && Unborn(r)
    ensures RowBounded(r, group, 0)
  {
  }

  // ---------------------------------------------------------------- each event

  lemma RecoveredBounds(w: Worker, group: Group, now: int)
    requires group.Ok() && AllBounded(w.db.rows, group, w.claims)
    ensures var rows := Recover(w.db, group.caps, group.kinds, group.reset, now).db.rows;
            && AllBounded(rows, group, w.claims)
            && forall id :: 0 <= id < |rows| && rows[id].kind in group.kinds && rows[id].state.Pending? ==> rows[id].attempts < group.Model(rows[id].kind)
  {
    hide RowBounded, TaskTable.Recovered;
    var rows := Recover(w.db, group.caps, group.kinds, group.reset, now).db.rows;
    forall id | 0 <= id < |rows|
      ensures rows[id].kind == w.db.rows[id].kind
      ensures rows[id].kind in group.kinds ==> RowBounded(rows[id], group, Count(w.claims, id))
      ensures rows[id].kind in group.kinds && rows[id].state.Pending? ==> rows[id].attempts < group.Model(rows[id].kind)
    {
      if w.db.rows[id].kind in group.kinds {
        assert RowBounded(w.db.rows[id], group, Count(w.claims, id));
      }
      PassRow(w.db.rows[id], group, Count(w.claims, id), now);
    }
  }

  lemma PassBounds(w: Worker, group: Group, due: Option<int>, limit: Option<nat>, now: int)
    requires group.Ok() && Bounded(w, group)
    ensures Bounded(Work(w, group, Pass(due, limit, now)), group)
  {
    hide TableOk, Evolves, AllBounded, Recover;
    RecoverCommits(w.db, group, now);
    var db := Recover(w.db, group.caps, group.kinds, group.reset, now).db;
    RecoverKeeps(w.db, group.caps, group.kinds, group.reset, now);
    RecoveredBounds(w, group, now);
    var todo := Listed(db.rows, group, due, limit);
    forall id | id in todo
      ensures id < |db.rows| && db.rows[id].kind in group.kinds
    {
      var j :| 0 <= j < |todo| && todo[j] == id;
    }
  }

  lemma RecoverCommits(db: Db, group: Group, now: int)
    requires group.Ok()
    ensures Recover(db, group.caps, group.kinds, group.reset, now).Commit?
  {
  }

  /** After the recovery of a pass, a pending row has a model attempt left. */
  lemma PassRow(r: Row, group: Group, claims: nat, now: int)
    requires group.Ok() && r.kind in group.kinds ==> RowBounded(r, group, claims)
    ensures var r' := TaskTable.Recovered(r, group.caps, group.kinds, group.reset, now);
            && r'.kind == r.kind
            && (group.Ok() && r.kind in group.kinds ==>
                  RowBounded(r', group, claims) && (r'.state.Pending? ==> r'.attempts < group.Model(r.kind)))
  {
  }

  lemma TakeBounds(w: Worker, group: Group, id: nat, args: ClaimArgs, now: int)
    requires group.Ok() && Bounded(w, group) && w.held.None? && w.again.None? && id !in w.todo
    requires id < |w.db.rows| && w.db.rows[id].kind in group.kinds
    requires w.db.rows[id].state.Pending? ==> w.db.rows[id].attempts < group.Model(w.db.rows[id].kind)
    ensures Bounded(TakeTask(w, id, args, now), group)
  {
    var tx := Claim(w.db, id, args, now);
    if tx.Commit? && tx.value.Some? {
      ClaimKeeps(w.db, id, args, now);
      OneRowUndisturbed(w.db, group, CallClaim(id, args), now);
      var claims := w.claims[id := Count(w.claims, id) + 1];
      ClaimedRow(w.db, group, id, args, now, Count(w.claims, id));
      TouchedKeeps(w, group, tx.db, id, claims);
    }
  }

  lemma ClaimedRow(db: Db, group: Group, id: nat, args: ClaimArgs, now: int, claims: nat)
    requires id < |db.rows| && RowBounded(db.rows[id], group, claims)
    requires db.rows[id].state.Pending? ==> db.rows[id].attempts < group.Model(db.rows[id].kind)
    requires Claim(db, id, args, now).Commit? && Claim(db, id, args, now).value.Some?
    ensures RowBounded(Claim(db, id, args, now).db.rows[id], group, claims + 1)
  {
  }

  lemma ClaimNextBounds(w: Worker, group: Group, args: ClaimArgs, now: int)
    requires group.Ok() && Bounded(w, group)
    ensures Bounded(Work(w, group, ClaimNext(args, now)), group)
  {
    hide TableOk, AllBounded, Claim;
    if w.todo != [] && w.held.None? && w.again.None? {
      var w1 := w.(todo := w.todo[1..]);
      assert w.todo[0] in w.todo && w.todo[0] !in w.todo[1..];
      assert forall id :: id in w.todo[1..] ==> id in w.todo;
      TakeBounds(w1, group, w.todo[0], args, now);
    }
  }

  lemma ClaimAgainBounds(w: Worker, group: Group, args: ClaimArgs, now: int)
    requires group.Ok() && Bounded(w, group) && w.held.None?
    ensures Bounded(Work(w, group, ClaimAgain(args, now)), group)
  {
    hide TableOk, AllBounded, TodoOk, Claim;
    if w.again.Some? {
      TakeBounds(w.(again := None), group, w.again.value, args, now);
    }
  }

  /** The end of holding a task: its row stays within bounds and counts no new claim. */
  lemma ReleaseBounds(w: Worker, group: Group, db: Db, again: Option<nat>)
    requires group.Ok() && Bounded(w, group) && w.held.Some? && w.again.None? && TableOk(db)
    requires var id := w.held.value.0;
             && Undisturbed(w.db.rows, db.rows, group, {id})
             && RowBounded(db.rows[id], group, Count(w.claims, id))
             && (again.Some? ==> again.value == id && !db.rows[id].state.Pending?)
    ensures Bounded(w.(db := db, held := None, again := again), group)
  {
    hide TableOk, RowBounded;
    TouchedKeeps(w, group, db, w.held.value.0, w.claims);
  }

  lemma HeldBounds(w: Worker, group: Group, e: Event)
    requires group.Ok() && Bounded(w, group) && w.held.Some? && w.again.None?
    requires e.StoreHeld? || e.FailHeld? || e.FinishHeld? || e.CompleteHeld?
    ensures Bounded(Work(w, group, e), group)
  {
    match e
    case StoreHeld(result, checkpoint, now) => StoreBounds(w, group, result, checkpoint, now);
    case FailHeld(delay, retryModel, now) => FailBounds(w, group, delay, retryModel, now);
    case FinishHeld(now) => FinishBounds(w, group, now);
    case CompleteHeld(mutate, expected, now, later) => CompleteBounds(w, group, mutate, expected, now, later);
  }

  lemma StoreBounds(w: Worker, group: Group, result: Json, checkpoint: Option<(Image, nat)>, now: int)
    requires group.Ok() && Bounded(w, group) && w.held.Some? && w.again.None?
    ensures Bounded(Work(w, group, StoreHeld(result, checkpoint, now)), group)
  {
    hide TodoOk, Undisturbed, Evolves;
    var (id, token) := w.held.value;
    RowAt(w.db, id);
    if StoreResult(w.db, id, token, result, checkpoint, now).Commit? {
      StoreResultKeeps(w.db, id, token, result, checkpoint, now);
      OneRowUndisturbed(w.db, group, CallStoreResult(id, token, result, checkpoint), now);
      ReleaseBounds(w, group, StoreResult(w.db, id, token, result, checkpoint, now).db, Some(id));
    }
  }

  lemma FailBounds(w: Worker, group: Group, delay: Option<int>, retryModel: bool, now: int)
    requires group.Ok() && Bounded(w, group) && w.held.Some? && w.again.None?
    ensures Bounded(Work(w, group, FailHeld(delay, retryModel, now)), group)
  {
    hide TodoOk, Undisturbed, Evolves;
    var (id, token) := w.held.value;
    RowAt(w.db, id);
    SameUndisturbed(w.db.rows, group, {id});
    if Retry(w.db, id, token, group.caps, delay, retryModel, now).Commit? {
      RetryKeeps(w.db, id, token, group.caps, delay, retryModel, now);
      OneRowUndisturbed(w.db, group, CallRetry(id, token, group.caps, delay, retryModel), now);
      ReleaseBounds(w, group, Retry(w.db, id, token, group.caps, delay, retryModel, now).db, None);
    } else {
      ReleaseBounds(w, group, w.db, None);
    }
  }

  lemma FinishBounds(w: Worker, group: Group, now: int)
    requires group.Ok() && Bounded(w, group) && w.held.Some? && w.again.None?
    ensures Bounded(Work(w, group, FinishHeld(now)), group)
  {
    hide TodoOk, Undisturbed, Evolves;
    var (id, token) := w.held.value;
    RowAt(w.db, id);
    if Finish(w.db, id, token, now).Commit? {
      LeaveKeeps(w.db, CallFinish(id, token), now);
      OneRowUndisturbed(w.db, group, CallFinish(id, token), now);
      ReleaseBounds(w, group, Finish(w.db, id, token, now).db, None);
    }
  }

  lemma CompleteBounds(w: Worker, group: Group, mutate: Json -> Outcome, expected: nat, now: int, later: int)
    requires group.Ok() && Bounded(w, group) && w.held.Some? && w.again.None?
    ensures Bounded(Work(w, group, CompleteHeld(mutate, expected, now, later)), group)
  {
    hide TodoOk, Undisturbed, Evolves, Complete;
    var (id, token) := w.held.value;
    RowAt(w.db, id);
    var tx := Complete(w.db, id, token, mutate, expected, now, later);
    if tx.Commit? {
      CompleteKeeps(w.db, id, token, mutate, expected, now, later);
      CompleteUndisturbed(w.db, group, id, token, mutate, expected, now, later);
      CompletedRow(w.db, tx.db, group, id, Count(w.claims, id)) by { UndisturbedKind(w.db.rows, tx.db.rows, group, {id}, id); }
      ReleaseBounds(w, group, tx.db, None);
    }
  }

  lemma UndisturbedKind(rows: seq<Row>, rows': seq<Row>, group: Group, touched: set<nat>, id: nat)
    requires Undisturbed(rows, rows', group, touched) && id < |rows|
    ensures id < |rows'| && rows'[id].kind == rows[id].kind
  {
  }

  lemma CompletedRow(db: Db, db': Db, group: Group, id: nat, claims: nat)
    requires id < |db.rows| && id < |db'.rows| && RowBounded(db.rows[id], group, claims) && db'.rows[id].kind == db.rows[id].kind
    requires db'.rows[id].state.Done? && db'.rows[id].attempts == db.rows[id].attempts && db'.rows[id].applyAttempts == db.rows[id].applyAttempts
    ensures RowBounded(db'.rows[id], group, claims)
  {
  }

  /** The worker never holds a task while it still means to claim another again. */
  ghost predicate OneAtATime(w: Worker) {
    w.held.None? || w.again.None?
  }

  lemma WorkBounds(w: Worker, group: Group, e: Event)
    requires group.Ok() && Bounded(w, group) && OneAtATime(w)
    ensures Bounded(Work(w, group, e), group) && OneAtATime(Work(w, group, e))
  {
    hide TableOk, AllBounded, TodoOk, Claim, StoreResult, Retry, Complete, Finish, Perform, Foreign;
    match e
    case Pass(due, limit, now) => PassBounds(w, group, due, limit, now);
    case ClaimNext(args, now) => ClaimNextBounds(w, group, args, now);
    case ClaimAgain(args, now) =>
      if w.held.None? { ClaimAgainBounds(w, group, args, now); }
    case Crash => NothingTodo(w, group);
    case Other(call, now) =>
      if Foreign(w.db, group, call) {
        CallKeeps(w.db, call, now);
        ForeignUndisturbed(w.db, group, call, now);
        UndisturbedKeeps(w, group, Perform(w.db, call, now));
      }
    case _ =>
      if w.held.Some? { HeldBounds(w, group, e); }
  }

  lemma NothingTodo(w: Worker, group: Group)
    requires Bounded(w, group)
    ensures Bounded(w.(todo := [], held := None, again := None), group)
  {
  }

  /** Bounded retries: with one worker for the group, whatever mix of model failures, failed
      applications, repeated models, expired leases and crashes occurs, no counter of a task passes its
      limit, and a task is claimed at most as often as both limits together allow. */
  lemma {:induction false} ClaimsAreBounded(w: Worker, group: Group, events: seq<Event>)
    requires group.Ok() && Bounded(w, group) && OneAtATime(w)
    ensures var end := WorkAll(w, group, events);
            && Bounded(end, group)
            && forall id :: 0 <= id < |end.db.rows| && end.db.rows[id].kind in group.kinds ==>
                 var r := end.db.rows[id];
                 && r.attempts <= group.Model(r.kind) && r.applyAttempts <= group.Apply(r.kind)
                 && Count(end.claims, id) <= group.Model(r.kind) + group.Apply(r.kind)
    decreases |events|
  {
    if |events| > 0 {
      hide Bounded, Work;
      WorkBounds(w, group, events[0]);
      ClaimsAreBounded(Work(w, group, events[0]), group, events[1..]);
    }
  }

  /** A worker on a fresh database starts within the bounds. */
  lemma FreshWorker(group: Group, capacity: nat)
    ensures var w := Worker(EmptyDb(capacity), [], None, None, map[]); Bounded(w, group) && OneAtATime(w)
  {
  }
}
