/** What stays true of a task, and of a captured request, over any interleaving of calls: rests are kept, results are
    only ever what was stored, and a request id keeps its first body. */
module TaskRuns {
  import opened MemoryTypes
  import opened TaskTable
  import opened TaskInvariant
  import opened TaskOutcomes

  // ---------------------------------------------------------------- what one call does to a row

  /** An effect only merges jobs into open tasks and adds tasks. */
  predicate Joined(r: Row, r': Row) {
    r' == r || (r.state.Pending? && r.attempts == 0 && r' == r.(payload := r'.payload, t := r'.t, version := r'.version, updatedAt := r'.updatedAt))
  }

  ghost predicate AllJoined(rows: seq<Row>, rows': seq<Row>) {
    && |rows| <= |rows'| && (forall i :: 0 <= i < |rows| ==> Joined(rows[i], rows'[i]))
    && (forall i :: |rows| <= i < |rows'| ==> rows'[i].state.Pending? && rows'[i].attempts == 0 && rows'[i].result.None?)
  }

  lemma JoinedSelf(rows: seq<Row>)
    ensures AllJoined(rows, rows)
  {
  }

  lemma JoinedTwice(a: seq<Row>, b: seq<Row>, c: seq<Row>)
    requires AllJoined(a, b) && AllJoined(b, c)
    ensures AllJoined(a, c)
  {
    forall i | 0 <= i < |a|
      ensures Joined(a[i], c[i])
    {
      assert Joined(a[i], b[i]) && Joined(b[i], c[i]);
    }
    forall i | |a| <= i < |c|
      ensures c[i].state.Pending? && c[i].attempts == 0 && c[i].result.None?
    {
      if i < |b| { assert Joined(b[i], c[i]); }
    }
  }

  lemma JobJoins(db: Db, job: Job, now: int)
    requires Enqueue(db, job, now).Commit?
    ensures AllJoined(db.rows, Enqueue(db, job, now).db.rows)
  {
    hide LastDone;
  }

  lemma {:induction false} JobsJoin(db: Db, jobs: seq<Job>, now: int)
    requires EnqueueAll(db, jobs, now).Commit?
    ensures AllJoined(db.rows, EnqueueAll(db, jobs, now).db.rows)
    decreases |jobs|
  {
    hide AllJoined, Enqueue;
    if jobs == [] {
      JoinedSelf(db.rows);
    } else {
      var db1 := Enqueue(db, jobs[0], now).db;
      JobJoins(db, jobs[0], now);
      JobsJoin(db1, jobs[1..], now);
      JoinedTwice(db.rows, db1.rows, EnqueueAll(db, jobs, now).db.rows);
    }
  }

  lemma EffectJoins(db: Db, made: Outcome, expected: nat, now: int)
    ensures CommitEffect(db, made, expected, now).Commit? ==> AllJoined(db.rows, CommitEffect(db, made, expected, now).db.rows)
  {
    hide AllJoined;
    if CommitEffect(db, made, expected, now).Commit? { JobsJoin(db, made.jobs, now); }
  }

  /** The calls that end in an effect leave every row but the completed one as jobs leave it. */
  lemma EffectCallJoins(db: Db, call: Call, now: int)
    requires MayCommitEffect(call) && !call.CallComplete?
    ensures AllJoined(db.rows, Perform(db, call, now).rows)
  {
    hide AllJoined, CommitEffect, Owned, OperationKey;
    JoinedSelf(db.rows);
    match call
    case CallEffect(made, expected) => EffectJoins(db, made, expected, now);
    case CallCaptured(made, expected, _) => EffectJoins(db, made, expected, now);
    case CallUnit(_, made, expected) => EffectJoins(db, made, expected, now);
    case _ =>
  }

  lemma CompleteJoins(db: Db, id: nat, token: nat, mutate: Json -> Outcome, expected: nat, now: int, later: int)
    requires Complete(db, id, token, mutate, expected, now, later).Commit?
    ensures id < |db.rows| && db.rows[id].state.Applying?
    ensures AllJoined(db.rows[id := db.rows[id].(state := Done, token := None, lease := None, updatedAt := now)],
                      Complete(db, id, token, mutate, expected, now, later).db.rows)
  {
    hide CommitEffect, AllJoined;
    var r := db.rows[id];
    EffectJoins(db.(rows := db.rows[id := r.Released(Done, now)]), mutate(r.result.value), expected, now);
  }

  // ---------------------------------------------------------------- rests

  /** The task waits for `due`. */
  predicate Rests(r: Row, due: int) {
    (r.state.Pending? || r.state.Ready?) && r.nextRunAt == due
  }

  /** It still does, with the same attempts behind it, or it is out of the queue for good. */
  predicate StillRests(r: Row, r': Row, due: int) {
    && r'.attempts == r.attempts && r'.applyAttempts == r.applyAttempts
    && ((Rests(r', due) && r'.state == r.state) || r'.state.Dead? || r'.state.Skipped?)
  }

  lemma CallKeepsRest(db: Db, call: Call, now: int, id: nat, due: int)
    requires id < |db.rows| && Rests(db.rows[id], due) && now < due
    ensures id < |Perform(db, call, now).rows| && StillRests(db.rows[id], Perform(db, call, now).rows[id], due)
  {
    if MayCommitEffect(call) {
      EffectKeepsRest(db, call, now, id, due);
    } else {
      LeaseCallKeepsRest(db, call, now, id, due);
    }
  }

  lemma EffectKeepsRest(db: Db, call: Call, now: int, id: nat, due: int)
    requires MayCommitEffect(call) && id < |db.rows| && Rests(db.rows[id], due)
    ensures id < |Perform(db, call, now).rows| && StillRests(db.rows[id], Perform(db, call, now).rows[id], due)
  {
    var rows := Perform(db, call, now).rows;
    if call.CallComplete? {
      if Complete(db, call.id, call.token, call.mutate, call.expected, now, call.later).Commit? {
        hide Complete;
        CompleteJoins(db, call.id, call.token, call.mutate, call.expected, now, call.later);
        var done := db.rows[call.id].(state := Done, token := None, lease := None, updatedAt := now);
        assert db.rows[call.id := done][id] == db.rows[id];
        assert Joined(db.rows[id], rows[id]);
      }
    } else {
      hide Perform;
      EffectCallJoins(db, call, now);
      assert Joined(db.rows[id], rows[id]);
    }
  }

  lemma LeaseCallKeepsRest(db: Db, call: Call, now: int, id: nat, due: int)
    requires !MayCommitEffect(call) && id < |db.rows| && Rests(db.rows[id], due) && now < due
    ensures id < |Perform(db, call, now).rows| && StillRests(db.rows[id], Perform(db, call, now).rows[id], due)
  {
    hide Backoff, RetryState, LastDone, Recovered;
    match call
    case CallEnqueue(job) =>
      if Enqueue(db, job, now).Commit? {
        hide Enqueue;
        JobJoins(db, job, now);
        assert Joined(db.rows[id], Perform(db, call, now).rows[id]);
      }
    case CallRecover(caps, kinds, reset) =>
      if Recover(db, caps, kinds, reset, now).Commit? { RecoveryOutcome(db, caps, kinds, reset, now, id); }
    case _ =>
  }

  /** Nothing wakes a resting task: whatever calls are made before it is due, by whoever, none of them gets hold of it. */
  lemma {:induction false} RestsAreKept(db: Db, calls: seq<(Call, int)>, id: nat, due: int)
    requires TableOk(db) && id < |db.rows| && Rests(db.rows[id], due) && forall c :: c in calls ==> c.1 < due
    ensures var end := PerformAll(db, calls); id < |end.rows| && StillRests(db.rows[id], end.rows[id], due)
    decreases |calls|
  {
    hide Perform, TableOk, Evolves;
    if |calls| > 0 {
      var (call, now) := calls[0];
      CallKeeps(db, call, now);
      assert calls[0] in calls && forall c :: c in calls[1..] ==> c in calls;
      CallKeepsRest(db, call, now, id, due);
      var db1 := Perform(db, call, now);
      if Rests(db1.rows[id], due) {
        RestsAreKept(db1, calls[1..], id, due);
      } else {
        EndedStays(db1, calls[1..], id);
      }
    }
  }

  /** What left the queue stays out of it, with the whole row as it was. */
  lemma EndedStays(db: Db, calls: seq<(Call, int)>, id: nat)
    requires TableOk(db) && id < |db.rows| && db.rows[id].state.Terminal()
    ensures var end := PerformAll(db, calls); id < |end.rows| && end.rows[id] == db.rows[id]
  {
    hide PerformAll, TableOk;
    TableInvariant(db, calls);
    assert Later(db.rows[id], PerformAll(db, calls).rows[id]);
  }

  /** A failure with a rest is not followed by another attempt before the rest is over. */
  lemma FailureRests(db: Db, id: nat, token: nat, caps: Caps, delay: Option<int>, again: bool, now: int, calls: seq<(Call, int)>)
    requires TableOk(db) && Retry(db, id, token, caps, delay, again, now).Commit?
    requires var r := db.rows[id];
             var due := now + if delay.Some? then delay.value else Rest(r.kind, if r.state.Applying? then r.applyAttempts else r.attempts);
             forall c :: c in calls ==> c.1 < due
    ensures var r, end := db.rows[id], PerformAll(Retry(db, id, token, caps, delay, again, now).db, calls);
            id < |end.rows| && !end.rows[id].state.Held() && end.rows[id].attempts == r.attempts && end.rows[id].applyAttempts == r.applyAttempts
  {
    hide Retry, PerformAll, Rest, TableOk, Evolves;
    RetryKeeps(db, id, token, caps, delay, again, now);
    var db1 := Retry(db, id, token, caps, delay, again, now).db;
    RetryOutcome(db, id, token, caps, delay, again, now);
    OnlyHoldersAct(db, id, token, caps, "", None, delay, again, now);
    if db1.rows[id].state.Dead? {
      EndedStays(db1, calls, id);
    } else {
      RestsAreKept(db1, calls, id, db1.rows[id].nextRunAt);
    }
  }

  // ---------------------------------------------------------------- results

  /** Where a row's result may come from in one call. */
  predicate ResultFrom(rows: seq<Row>, id: nat, call: Call, text: Json) {
    || (id < |rows| && rows[id].result == Some(text))
    || (call.CallStoreResult? && call.id == id && call.result == text)
  }

  lemma CallResults(db: Db, call: Call, now: int, id: nat, text: Json)
    requires id < |Perform(db, call, now).rows| && Perform(db, call, now).rows[id].result == Some(text)
    ensures ResultFrom(db.rows, id, call, text)
  {
    if MayCommitEffect(call) {
      EffectResults(db, call, now, id, text);
    } else {
      hide Enqueue, Recovered, Claim, StoreResult, Retry, SkipRecent, Finish;
      match call
      case CallEnqueue(job) =>
        if Enqueue(db, job, now).Commit? {
          JobJoins(db, job, now);
          assert id < |db.rows| ==> Joined(db.rows[id], Perform(db, call, now).rows[id]);
        }
      case CallRecover(caps, kinds, reset) =>
        if Recover(db, caps, kinds, reset, now).Commit? { RecoveryOutcome(db, caps, kinds, reset, now, id); }
      case _ => OneRowResults(db, call, now, id, text);
    }
  }

  lemma OneRowResults(db: Db, call: Call, now: int, id: nat, text: Json)
    requires call.CallClaim? || call.CallStoreResult? || call.CallRetry? || call.CallSkip? || call.CallFinish?
    requires id < |Perform(db, call, now).rows| && Perform(db, call, now).rows[id].result == Some(text)
    ensures ResultFrom(db.rows, id, call, text)
  {
    hide Backoff, RetryState, PolicyFor;
  }

  lemma EffectResults(db: Db, call: Call, now: int, id: nat, text: Json)
    requires MayCommitEffect(call)
    requires id < |Perform(db, call, now).rows| && Perform(db, call, now).rows[id].result == Some(text)
    ensures id < |db.rows| && db.rows[id].result == Some(text)
  {
    var rows := Perform(db, call, now).rows;
    if call.CallComplete? {
      if Complete(db, call.id, call.token, call.mutate, call.expected, now, call.later).Commit? {
        hide Complete;
        CompleteJoins(db, call.id, call.token, call.mutate, call.expected, now, call.later);
        var done := db.rows[call.id].(state := Done, token := None, lease := None, updatedAt := now);
        assert id < |db.rows| ==> Joined(db.rows[call.id := done][id], rows[id]);
      }
    } else {
      hide Perform;
      EffectCallJoins(db, call, now);
      assert id < |db.rows| ==> Joined(db.rows[id], rows[id]);
    }
  }

  /** No result is ever made up: what a task holds after any run, it held before, or some call stored exactly that for
      this task. */
  lemma {:induction false} ResultsWereStored(db: Db, calls: seq<(Call, int)>, id: nat, text: Json)
    requires id < |PerformAll(db, calls).rows| && PerformAll(db, calls).rows[id].result == Some(text)
    ensures (id < |db.rows| && db.rows[id].result == Some(text))
            || exists c :: c in calls && c.0.CallStoreResult? && c.0.id == id && c.0.result == text
    decreases |calls|
  {
    hide Perform;
    if |calls| > 0 {
      var (call, now) := calls[0];
      assert calls[0] in calls && forall c :: c in calls[1..] ==> c in calls;
      var db1 := Perform(db, call, now);
      ResultsWereStored(db1, calls[1..], id, text);
      if id < |db1.rows| && db1.rows[id].result == Some(text) {
        CallResults(db, call, now, id, text);
      }
    }
  }

  /** So what a completion applies is a text that was stored for its task. */
  lemma AppliedWasStored(db: Db, calls: seq<(Call, int)>, id: nat, token: nat, mutate: Json -> Outcome, expected: nat, now: int, later: int)
    requires id < |db.rows| ==> db.rows[id].result.None?
    requires Complete(PerformAll(db, calls), id, token, mutate, expected, now, later).Commit?
    ensures exists c :: && c in calls && c.0.CallStoreResult? && c.0.id == id && mutate(c.0.result).Made?
                        && Complete(PerformAll(db, calls), id, token, mutate, expected, now, later).value.response == mutate(c.0.result).response
  {
    hide Complete, PerformAll;
    var end := PerformAll(db, calls);
    OnlyHoldersCommit(end, id, token, mutate, "", Raised, expected, now, later);
    CompleteOutcome(end, id, token, mutate, expected, now, later);
    ResultsWereStored(db, calls, id, end.rows[id].result.value);
  }

  // ---------------------------------------------------------------- captured requests

  ghost predicate KeepsCaptures(db: Db, db': Db) {
    forall r :: r in db.captures ==> r in db'.captures && db'.captures[r] == db.captures[r]
  }

  lemma CallKeepsCaptures(db: Db, call: Call, now: int)
    ensures KeepsCaptures(db, Perform(db, call, now))
  {
    if MayCommitEffect(call) {
      EffectKeepsCaptures(db, call, now);
    } else {
      hide Backoff, RetryState, LastDone, Recovered, Claimed, MergeTarget, Owned;
    }
  }

  lemma EffectKeepsCaptures(db: Db, call: Call, now: int)
    requires MayCommitEffect(call)
    ensures KeepsCaptures(db, Perform(db, call, now))
  {
    hide CommitEffect, Owned, OperationKey;
    match call
    case CallEffect(made, expected) => CommitKeepsCaptures(db, made, expected, now);
    case CallCaptured(made, expected, _) => CommitKeepsCaptures(db, made, expected, now);
    case CallUnit(_, made, expected) => CommitKeepsCaptures(db, made, expected, now);
    case CallComplete(id, token, mutate, expected, later) =>
      if Complete(db, id, token, mutate, expected, now, later).Commit? { CompleteOutcome(db, id, token, mutate, expected, now, later); }
    case _ =>
  }

  lemma CommitKeepsCaptures(db: Db, made: Outcome, expected: nat, now: int)
    ensures CommitEffect(db, made, expected, now).Commit? ==> CommitEffect(db, made, expected, now).db.captures == db.captures
  {
    hide CommitEffect;
    if CommitEffect(db, made, expected, now).Commit? { CommitEffectShape(db, made, expected, now); }
  }

  lemma {:induction false} CapturesStay(db: Db, calls: seq<(Call, int)>)
    ensures KeepsCaptures(db, PerformAll(db, calls))
    decreases |calls|
  {
    hide Perform;
    if |calls| > 0 {
      CallKeepsCaptures(db, calls[0].0, calls[0].1);
      CapturesStay(Perform(db, calls[0].0, calls[0].1), calls[1..]);
    }
  }

  /** A request id means one body for good: whatever happens in between, a later call under it that goes through carries
      the same body, has no effect, and gets the first answer. */
  lemma OneBodyPerRequest(db: Db, made: Outcome, expected: nat, first: Capture, now: int, calls: seq<(Call, int)>,
                          made': Outcome, expected': nat, again: Capture, now': int)
    requires ApplyCaptured(db, made, expected, first, now).Commit? && again.requestId == first.requestId
    requires ApplyCaptured(PerformAll(ApplyCaptured(db, made, expected, first, now).db, calls), made', expected', again, now').Commit?
    ensures var tx := ApplyCaptured(db, made, expected, first, now); var end := PerformAll(tx.db, calls);
            && again.fingerprint == first.fingerprint
            && ApplyCaptured(end, made', expected', again, now') == Commit(end, Reply(tx.value.response, expected', true))
  {
    var tx := ApplyCaptured(db, made, expected, first, now);
    assert first.requestId in tx.db.captures && tx.db.captures[first.requestId].fingerprint == first.fingerprint
           && tx.db.captures[first.requestId].response == tx.value.response by { hide CommitEffect; }
    hide CommitEffect, PerformAll;
    CapturesStay(tx.db, calls);
  }
}
