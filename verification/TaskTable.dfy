/** The task database and every transaction on it, as functions: a transaction either aborts and
    leaves the database alone, or commits a new one. */
module TaskTable {
  import opened MemoryTypes

  type Json = string

  // ---------------------------------------------------------------- policies

  datatype Kind =
    | RecallMiss | ExtractDue
    | ConflictPending | FeedbackPending | MaintenanceDue
    | HaulerDue | SelectorDue | ReviewerDue
    | Unknown(name: string)

  /** Every policy gives up into `Dead` when a limit is reached. Investigations bring their own
      lease and delay. */
  datatype Policy = Policy(maxAttempts: nat, maxApply: nat, lease: Option<int>, backoff: nat)

  function PolicyFor(kind: Kind): Option<Policy> {
    match kind
    case RecallMiss | ExtractDue => Some(Policy(2, 3, None, 0))
    case ConflictPending | FeedbackPending | MaintenanceDue => Some(Policy(5, 5, Some(360), 2))
    case HaulerDue | SelectorDue | ReviewerDue => Some(Policy(5, 5, Some(120), 2))
    case Unknown(_) => None
  }

  function Power(base: nat, n: nat): nat {
    if n == 0 then 1 else base * Power(base, n - 1)
  }

  function Least(a: int, b: int): int {
    if a <= b then a else b
  }

  function Most(a: int, b: int): int {
    if a >= b then a else b
  }

  function Backoff(p: Policy, attempts: nat): int {
    Least(300, Power(p.backoff, if attempts <= 8 then attempts else 8))
  }

  // ---------------------------------------------------------------- rows

  datatype State = Pending | Running | Ready | Applying | Done | Dead | Skipped
  {
    predicate Claimable() { Pending? || Ready? }
    predicate Held() { Running? || Applying? }
    predicate Active() { Claimable() || Held() }
    predicate Terminal() { !Active() }
  }

  datatype Row = Row(
    kind: Kind, key: string, payload: Json, t: int, version: nat, dedupe: Option<nat>,
    state: State, attempts: nat, applyAttempts: nat,
    beforeT: Option<int>, origin: Option<string>,
    token: Option<nat>, lease: Option<int>, result: Option<Json>,
    nextRunAt: int, updatedAt: int)
  {
    /** Waiting and never claimed: the only rows a later job may merge into. */
    predicate Unclaimed() { state.Pending? && attempts == 0 }

    function Released(s: State, now: int): Row {
      this.(state := s, token := None, lease := None, updatedAt := now)
    }
  }

  datatype Receipt = Receipt(kind: string, fingerprint: string, response: Json)

  /** A task's id is its position in `rows`; rows are never removed. Revision 0 means that no
      checkpoint was written yet. `drawn` counts the tokens handed out, so that each is fresh. */
  datatype Db = Db(
    rows: seq<Row>,
    capacity: nat,
    drawn: nat,
    memoryNextId: nat,
    dailyRuns: map<string, nat>,
    revision: nat,
    state: Option<Image>,
    operations: map<(nat, Json), Json>,
    unitReceipts: map<nat, Json>,
    captures: map<string, Receipt>,
    recogFail: nat)

  /** The receipt under which the completion of a task is filed. Requests of operations are filed
      under themselves (their digest is taken to be injective), behind a mark of their own. */
  const SEMANTIC: Json := "semantic"

  function OperationKey(request: Json): Json {
    "op:" + request
  }

  datatype Error =
    | LeaseLost | CheckpointConflict | QueueFull | CaptureConflict
    | UnknownKind | NoLease | EffectRaised | DuplicateReceipt

  datatype Tx<T> = Abort(error: Error) | Commit(db: Db, value: T)

  function After<T>(db: Db, tx: Tx<T>): Db {
    if tx.Commit? then tx.db else db
  }

  // ---------------------------------------------------------------- enqueueing

  /** `merge` combines the payload of an unclaimed row with the new one; without it the new one wins. */
  datatype Job = Job(kind: Kind, payload: Json, t: int, key: string, merge: Option<(Json, Json) -> Json>, memoryNextId: nat)

  predicate Mergeable(r: Row, kind: Kind, key: string) {
    key != "" && r.kind == kind && r.key == key && r.Unclaimed()
  }

  /** The first unclaimed row for the key, or the number of rows. */
  function MergeTarget(rows: seq<Row>, kind: Kind, key: string): (i: nat)
    ensures i <= |rows| && (i < |rows| ==> Mergeable(rows[i], kind, key))
    ensures forall j :: 0 <= j < i ==> !Mergeable(rows[j], kind, key)
    decreases |rows|
  {
    if rows == [] then 0
    else if Mergeable(rows[0], kind, key) then 0
    else
      var i := MergeTarget(rows[1..], kind, key);
      assert forall j :: 0 < j < 1 + i ==> rows[j] == rows[1..][j - 1];
      1 + i
  }

  function CountActive(rows: seq<Row>): nat {
    if rows == [] then 0
    else CountActive(rows[..|rows| - 1]) + if rows[|rows| - 1].state.Active() then 1 else 0
  }

  /** The row for the key that was done last; of several at one time, the later one. */
  function LastDone(rows: seq<Row>, kind: Kind, key: string): (best: Option<nat>)
    ensures best.Some? ==> best.value < |rows|
  {
    if rows == [] then None
    else
      var n := |rows| - 1;
      var best := LastDone(rows[..n], kind, key);
      if rows[n].kind == kind && rows[n].key == key && rows[n].state.Done?
         && (best.None? || rows[n].updatedAt >= rows[best.value].updatedAt) then Some(n) else best
  }

  function NewRow(rows: seq<Row>, job: Job, now: int): Row {
    Row(job.kind, job.key, job.payload, job.t, 0,
        if job.key == "" then None else LastDone(rows, job.kind, job.key),
        Pending, 0, 0, None, None, None, None, None, 0, now)
  }

  function Merged(r: Row, job: Job, now: int): Row {
    r.(payload := if job.merge.Some? then job.merge.value(r.payload, job.payload) else job.payload,
       t := Most(job.t, r.t), updatedAt := now, version := r.version + 1)
  }

  function RaiseNextId(db: Db, id: nat): Db {
    db.(memoryNextId := if db.memoryNextId >= id then db.memoryNextId else id)
  }

  function Enqueue(db: Db, job: Job, now: int): Tx<nat> {
    var i := MergeTarget(db.rows, job.kind, job.key);
    var db1 := RaiseNextId(db, job.memoryNextId);
    if i < |db.rows| then Commit(db1.(rows := db.rows[i := Merged(db.rows[i], job, now)]), i)
    else if CountActive(db.rows) >= db.capacity then Abort(QueueFull)
    else Commit(db1.(rows := db.rows + [NewRow(db.rows, job, now)]), |db.rows|)
  }

  function EnqueueAll(db: Db, jobs: seq<Job>, now: int): Tx<()>
    decreases |jobs|
  {
    if |jobs| == 0 then Commit(db, ())
    else match Enqueue(db, jobs[0], now)
      case Abort(error) => Abort(error)
      case Commit(db1, _) => EnqueueAll(db1, jobs[1..], now)
  }

  // ---------------------------------------------------------------- checkpoints

  function WriteCheckpoint(db: Db, state: Image, expected: nat): Tx<nat> {
    if db.revision != expected then Abort(CheckpointConflict)
    else Commit(db.(revision := expected + 1, state := Some(Dumped(state))), expected + 1)
  }

  /** None for a database that has forgotten its checkpoint: a service must not start on it. */
  function Checkpoint(db: Db): Option<(nat, Option<Image>)> {
    if db.revision >= 1 then Some((db.revision, db.state))
    else if (exists r :: r in db.rows && r.attempts > 0) || db.operations != map[] || db.unitReceipts != map[] then None
    else Some((0, None))
  }

  // ---------------------------------------------------------------- leases

  predicate Owned(db: Db, id: nat, token: nat, now: int) {
    && id < |db.rows|
    && db.rows[id].state.Held()
    && db.rows[id].token == Some(token)
    && db.rows[id].lease.Some? && db.rows[id].lease.value > now
  }

  /** What a claim may add: a daily limit, a lease, the causal bound and origin of an investigation,
      and a checkpoint of the claimer's memory. */
  datatype ClaimArgs = ClaimArgs(
    version: nat, before: Option<int>, origin: Option<string>,
    daily: Option<(string, nat)>, lease: Option<int>, checkpoint: Option<(Image, nat)>)

  function RunsOn(db: Db, day: string): nat {
    if day in db.dailyRuns then db.dailyRuns[day] else 0
  }

  function OrElse<T>(a: Option<T>, b: Option<T>): Option<T> {
    if a.Some? then a else b
  }

  function Claimed(r: Row, token: nat, until: int, args: ClaimArgs, now: int): Row {
    var r1 := r.(token := Some(token), lease := Some(until), updatedAt := now,
                 beforeT := OrElse(r.beforeT, args.before), origin := OrElse(r.origin, args.origin));
    if r.state.Ready? then r1.(state := Applying, applyAttempts := r.applyAttempts + 1)
    else r1.(state := Running, attempts := r.attempts + 1)
  }

  /** True when the day's limit leaves no room for another run. */
  predicate DayFull(db: Db, r: Row, args: ClaimArgs) {
    !r.state.Ready? && args.daily.Some? && RunsOn(db, args.daily.value.0) >= args.daily.value.1
  }

  function CountRun(db: Db, r: Row, args: ClaimArgs): Db {
    if r.state.Ready? || args.daily.None? then db
    else db.(dailyRuns := db.dailyRuns[args.daily.value.0 := RunsOn(db, args.daily.value.0) + 1])
  }

  predicate MayClaim(db: Db, id: nat, args: ClaimArgs, now: int) {
    && id < |db.rows|
    && db.rows[id].state.Claimable() && db.rows[id].nextRunAt <= now && db.rows[id].version == args.version
    && !DayFull(db, db.rows[id], args)
  }

  /** The writes of a claim: the day's count, the claimer's checkpoint, and the row itself. */
  function Grant(db: Db, id: nat, args: ClaimArgs, lease: Option<int>, now: int): Tx<Option<nat>>
    requires id < |db.rows|
  {
    var db1 := CountRun(db, db.rows[id], args);
    var saved := if args.checkpoint.None? then Commit(db1, 0)
                 else WriteCheckpoint(db1, args.checkpoint.value.0, args.checkpoint.value.1);
    if saved.Abort? then Abort(saved.error)
    else if lease.None? then Abort(NoLease)
    else Commit(saved.db.(rows := db.rows[id := Claimed(db.rows[id], db.drawn, now + lease.value, args, now)],
                          drawn := db.drawn + 1), Some(db.drawn))
  }

  /** The token of the claim, or None when there is nothing to claim. */
  function Claim(db: Db, id: nat, args: ClaimArgs, now: int): Tx<Option<nat>> {
    if id >= |db.rows| then Commit(db, None)
    else
      var policy := PolicyFor(db.rows[id].kind);
      if policy.None? then Abort(UnknownKind)
      else if !MayClaim(db, id, args, now) then Commit(db, None)
      else Grant(db, id, args, OrElse(args.lease, policy.value.lease), now)
  }

  function StoreResult(db: Db, id: nat, token: nat, result: Json, checkpoint: Option<(Image, nat)>, now: int): Tx<Option<nat>> {
    if !Owned(db, id, token, now) || !db.rows[id].state.Running? then Abort(LeaseLost)
    else
      var r := db.rows[id].Released(Ready, now).(result := Some(result), nextRunAt := 0);
      if checkpoint.None? then Commit(db.(rows := db.rows[id := r]), None)
      else match WriteCheckpoint(db, checkpoint.value.0, checkpoint.value.1)
        case Abort(error) => Abort(error)
        case Commit(db1, revision) => Commit(db1.(rows := db.rows[id := r]), Some(revision))
  }

  datatype Caps = Caps(model: Option<nat>, apply: Option<nat>)
  {
    function Model(p: Policy): nat { if model.Some? then model.value else p.maxAttempts }
    function Apply(p: Policy): nat { if apply.Some? then apply.value else p.maxApply }
  }

  function RetryState(r: Row, p: Policy, caps: Caps, retryModel: bool): State {
    if r.state.Applying? then
      if r.applyAttempts >= caps.Apply(p) then Dead else if retryModel then Pending else Ready
    else if r.attempts >= caps.Model(p) then Dead else Pending
  }

  function Retry(db: Db, id: nat, token: nat, caps: Caps, delay: Option<int>, retryModel: bool, now: int): Tx<State> {
    if !Owned(db, id, token, now) then Abort(LeaseLost)
    else
      var r := db.rows[id];
      var policy := PolicyFor(r.kind);
      if policy.None? then Abort(UnknownKind)
      else
        var s := RetryState(r, policy.value, caps, retryModel);
        var wait := if delay.Some? then delay.value
                    else Backoff(policy.value, if r.state.Applying? then r.applyAttempts else r.attempts);
        var r' := r.Released(s, now).(result := if retryModel && !s.Dead? then None else r.result, nextRunAt := now + wait);
        Commit(db.(rows := db.rows[id := r']), s)
  }

  // ---------------------------------------------------------------- recovery

  predicate Expired(r: Row, kinds: seq<Kind>, now: int) {
    r.kind in kinds && r.state.Held() && r.lease.Some? && r.lease.value <= now
  }

  /** An expired lease goes back to where it was claimed from, or dies at its limit. */
  function Expire(r: Row, p: Policy, caps: Caps, reset: bool, now: int): Row {
    var s := if r.state.Applying?
             then (if r.applyAttempts >= caps.Apply(p) then Dead else Ready)
             else (if r.attempts >= caps.Model(p) then Dead else Pending);
    var r1 := r.Released(s, now);
    if reset then r1.(nextRunAt := now) else r1
  }

  predicate Exhausted(r: Row, p: Policy, caps: Caps) {
    (r.state.Pending? && r.attempts >= caps.Model(p)) || (r.state.Ready? && r.applyAttempts >= caps.Apply(p))
  }

  /** One row after a recovery of `kinds`: first the lease, then the limits. */
  function Recovered(r: Row, caps: Caps, kinds: seq<Kind>, reset: bool, now: int): Row {
    var policy := PolicyFor(r.kind);
    if r.kind !in kinds || policy.None? then r
    else
      var r1 := if Expired(r, kinds, now) then Expire(r, policy.value, caps, reset, now) else r;
      if Exhausted(r1, policy.value, caps) then r1.(state := Dead, updatedAt := now) else r1
  }

  predicate AllKnown(kinds: seq<Kind>) {
    forall k :: k in kinds ==> PolicyFor(k).Some?
  }

  function Recover(db: Db, caps: Caps, kinds: seq<Kind>, reset: bool, now: int): Tx<()> {
    if !AllKnown(kinds) then Abort(UnknownKind)
    else Commit(db.(rows := seq(|db.rows|, i requires 0 <= i < |db.rows| => Recovered(db.rows[i], caps, kinds, reset, now))), ())
  }

  // ---------------------------------------------------------------- leaving the queue

  /** Skip an unclaimed task whose predecessor was done less than `ttl` ago. */
  function SkipRecent(db: Db, id: nat, ttl: int, now: int): Tx<bool> {
    if id >= |db.rows| || !db.rows[id].Unclaimed() || db.rows[id].key == "" then Commit(db, false)
    else
      var d := db.rows[id].dedupe;
      if d.None? || d.value >= |db.rows| || !db.rows[d.value].state.Done? || db.rows[d.value].updatedAt <= now - ttl
      then Commit(db, false)
      else Commit(db.(rows := db.rows[id := db.rows[id].(state := Skipped, updatedAt := now)]), true)
  }

  function Finish(db: Db, id: nat, token: nat, now: int): Tx<()> {
    if !Owned(db, id, token, now) || !db.rows[id].state.Applying? then Abort(LeaseLost)
    else Commit(db.(rows := db.rows[id := db.rows[id].Released(Done, now)]), ())
  }

  // ---------------------------------------------------------------- effects

  /** What the body of an effect did to the memory: it raised, or it left a new state, a response and
      jobs to enqueue in the same transaction. */
  datatype Outcome = Raised | Made(state: Image, response: Json, jobs: seq<Job>, recogFail: bool)

  datatype Reply = Reply(response: Json, revision: nat, replayed: bool)

  /** The common end of every effect: its jobs, then the checkpoint. */
  function CommitEffect(db: Db, made: Outcome, expected: nat, now: int): Tx<Reply> {
    if made.Raised? then Abort(EffectRaised)
    else match EnqueueAll(db, made.jobs, now)
      case Abort(error) => Abort(error)
      case Commit(db1, _) =>
        match WriteCheckpoint(db1, made.state, expected)
        case Abort(error) => Abort(error)
        case Commit(db2, revision) => Commit(db2, Reply(made.response, revision, false))
  }

  /** Enqueueing leaves everything alone but the rows and the id bound. */
  predicate OnlyQueued(db: Db, db': Db) {
    db' == db.(rows := db'.rows, memoryNextId := db'.memoryNextId) && db'.memoryNextId >= db.memoryNextId
  }

  lemma {:induction false} EnqueueAllQueues(db: Db, jobs: seq<Job>, now: int)
    requires EnqueueAll(db, jobs, now).Commit?
    ensures OnlyQueued(db, EnqueueAll(db, jobs, now).db)
    decreases |jobs|
  {
    if |jobs| > 0 {
      EnqueueAllQueues(Enqueue(db, jobs[0], now).db, jobs[1..], now);
    }
  }

  lemma CommitEffectShape(db: Db, made: Outcome, expected: nat, now: int)
    requires CommitEffect(db, made, expected, now).Commit?
    ensures made.Made? && db.revision == expected
    ensures var tx := CommitEffect(db, made, expected, now);
            && OnlyQueued(db.(revision := expected + 1, state := Some(Dumped(made.state))), tx.db)
            && tx.value == Reply(made.response, expected + 1, false)
  {
    EnqueueAllQueues(db, made.jobs, now);
  }

  function ApplyEffect(db: Db, made: Outcome, expected: nat, now: int): Tx<Reply> {
    if db.revision != expected then Abort(CheckpointConflict) else CommitEffect(db, made, expected, now)
  }

  datatype Capture = Capture(requestId: string, kind: string, fingerprint: string)

  function ApplyCaptured(db: Db, made: Outcome, expected: nat, capture: Capture, now: int): Tx<Reply> {
    if db.revision != expected then Abort(CheckpointConflict)
    else if capture.requestId in db.captures then
      var kept := db.captures[capture.requestId];
      if kept.fingerprint != capture.fingerprint then Abort(CaptureConflict)
      else Commit(db, Reply(kept.response, expected, true))
    else match CommitEffect(db, made, expected, now)
      case Abort(error) => Abort(error)
      case Commit(db1, reply) =>
        Commit(db1.(captures := db1.captures[capture.requestId := Receipt(capture.kind, capture.fingerprint, reply.response)]), reply)
  }

  function ApplyUnit(db: Db, uid: nat, made: Outcome, expected: nat, now: int): Tx<Reply> {
    if db.revision != expected then Abort(CheckpointConflict)
    else if uid in db.unitReceipts then Commit(db, Reply(db.unitReceipts[uid], expected, true))
    else match CommitEffect(db, made, expected, now)
      case Abort(error) => Abort(error)
      case Commit(db1, reply) => Commit(db1.(unitReceipts := db1.unitReceipts[uid := reply.response]), reply)
  }

  /** Completion of a task from its stored result. The task leaves the queue before the effect runs,
      so that the effect may enqueue a successor; the lease is checked again at its end. */
  function Complete(db: Db, id: nat, token: nat, mutate: Json -> Outcome, expected: nat, now: int, later: int): Tx<Reply> {
    if !Owned(db, id, token, now) || !db.rows[id].state.Applying? || db.rows[id].result.None? then Abort(LeaseLost)
    else if db.revision != expected then Abort(CheckpointConflict)
    else
      var r := db.rows[id];
      var made := mutate(r.result.value);
      match CommitEffect(db.(rows := db.rows[id := r.Released(Done, now)]), made, expected, now)
      case Abort(error) => Abort(error)
      case Commit(db1, reply) =>
        if r.lease.value <= later then Abort(LeaseLost)
        else if (id, SEMANTIC) in db.operations then Abort(DuplicateReceipt)
        else Commit(db1.(operations := db1.operations[(id, SEMANTIC) := reply.response],
                         recogFail := db1.recogFail + if made.recogFail then 1 else 0), reply)
  }

  /** One operation of a task. A request that was answered before gets the stored answer again. */
  function ApplyOperation(db: Db, id: nat, token: nat, request: Json, made: Outcome, expected: nat, now: int, later: int): Tx<Reply> {
    if !Owned(db, id, token, now) then Abort(LeaseLost)
    else if db.revision != expected then Abort(CheckpointConflict)
    else if (id, OperationKey(request)) in db.operations then
      Commit(db, Reply(db.operations[(id, OperationKey(request))], expected, true))
    else if made.Raised? then Abort(EffectRaised)
    else if !Owned(db, id, token, later) then Abort(LeaseLost)
    else match WriteCheckpoint(db, made.state, expected)
      case Abort(error) => Abort(error)
      case Commit(db1, revision) =>
        Commit(db1.(operations := db1.operations[(id, OperationKey(request)) := made.response]), Reply(made.response, revision, false))
  }

  /** A receipt without an effect. */
  function RememberCapture(db: Db, capture: Capture, response: Json): Tx<(Json, bool)> {
    if capture.requestId in db.captures then
      var kept := db.captures[capture.requestId];
      if kept.fingerprint != capture.fingerprint then Abort(CaptureConflict) else Commit(db, (kept.response, true))
    else Commit(db.(captures := db.captures[capture.requestId := Receipt(capture.kind, capture.fingerprint, response)]), (response, false))
  }
}
