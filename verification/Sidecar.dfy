/** Service instances over one task database and one evidence log: every atomic step an instance, a
    worker or the network can take. */
module Sidecar {
  import opened MemoryTypes
  import opened TaskTable
  import opened TaskInvariant
  import Verdicts

  // ---------------------------------------------------------------- the evidence log

  /** A recorded unit and the work it asks for. */
  datatype Work = Work(uid: nat, t: int, request: Option<string>, done: bool, result: Option<Json>, attempts: nat, nextRunAt: int)

  datatype Bound = Bound(uid: nat, fingerprint: string)

  datatype Evidence = Evidence(work: seq<Work>, bound: map<string, Bound>)

  function NextUid(work: seq<Work>): nat {
    if work == [] then 0
    else if work[|work| - 1].uid >= NextUid(work[..|work| - 1]) then work[|work| - 1].uid + 1
    else NextUid(work[..|work| - 1])
  }

  function NextTime(work: seq<Work>): int {
    if work == [] then 0 else Most(work[|work| - 1].t + 1, NextTime(work[..|work| - 1]))
  }

  /** Record a unit. A request id that is bound already is answered from its binding; a different
      body under the same id is refused. */
  function Append(ev: Evidence, request: Option<string>, fingerprint: string, minUid: nat, minT: int): Evidence {
    if request.Some? && request.value in ev.bound then ev
    else
      var uid := if NextUid(ev.work) >= minUid then NextUid(ev.work) else minUid;
      Evidence(ev.work + [Work(uid, Most(minT, NextTime(ev.work)), request, false, None, 0, 0)],
               if request.None? then ev.bound else ev.bound[request.value := Bound(uid, fingerprint)])
  }

  /** The first pending unit ids, oldest first. */
  function PendingUnits(work: seq<Work>, limit: nat): seq<nat>
    decreases |work|
  {
    if work == [] || limit == 0 then []
    else if work[0].done then PendingUnits(work[1..], limit)
    else [work[0].uid] + PendingUnits(work[1..], limit - 1)
  }

  function SaveWorkResult(w: Work, uid: nat, result: Json): Work {
    if w.uid == uid && !w.done && w.result.None? then w.(result := Some(result), nextRunAt := 0) else w
  }

  function FailWork(w: Work, uid: nat, now: int): Work {
    if w.uid == uid && !w.done
    then w.(attempts := w.attempts + 1,
            nextRunAt := now + Least(300, 2 * Power(2, if w.attempts <= 8 then w.attempts else 8)))
    else w
  }

  function FinishWork(w: Work, uid: nat): Work {
    if w.uid == uid && !w.done then w.(done := true, nextRunAt := 0) else w
  }

  function EachWork(work: seq<Work>, f: Work -> Work): seq<Work> {
    seq(|work|, i requires 0 <= i < |work| => f(work[i]))
  }

  // ---------------------------------------------------------------- instances

  /** A service process: its memory, the revision that memory belongs to, whether it was frozen, the
      units it still means to process, and the unit whose hand-over it must acknowledge. */
  datatype Node = Node(mem: Image, rev: nat, fault: bool, scan: seq<nat>, ack: Option<nat>)

  /** What an effect is filed under. Effects without a receipt are plain. */
  datatype Tag =
    | TagComplete(task: nat)
    | TagOperation(task: nat, request: Json)
    | TagUnit(uid: nat)
    | TagCapture(request: string)
    | TagPlain

  /** One committed effect: what it did to any memory, and the answer it gave. */
  datatype Entry = Entry(tag: Tag, run: Image -> Outcome, response: Json)

  datatype System = System(db: Db, ev: Evidence, nodes: map<nat, Node>, log: seq<Entry>)

  /** After an error: frozen unless the database is readable and still at the instance's revision. */
  function CheckedFault(db: Db, rev: nat, wire: Wire): bool {
    !wire.readable || db.revision != rev
  }

  /** An effect on the memory of instance `i`, in a transaction whose result would be `tx`. On an
      error the memory is rolled back. */
  function Settle(sys: System, i: nat, tx: Tx<Reply>, made: Outcome, entry: Entry, wire: Wire): System
    requires i in sys.nodes && (tx.Commit? && !tx.value.replayed ==> made.Made?)
  {
    var node := sys.nodes[i];
    var committed := tx.Commit? && wire.commits;
    var wrote := committed && !tx.value.replayed;
    var db := if committed then tx.db else sys.db;
    var node' :=
      if committed && wire.acked then node.(mem := if wrote then made.state else node.mem, rev := tx.value.revision)
      else node.(fault := CheckedFault(db, node.rev, wire));
    sys.(db := db, log := if wrote then sys.log + [entry] else sys.log, nodes := sys.nodes[i := node'])
  }

  /** A commit of the unchanged memory, in a transaction that yields `rev` when it wrote one. */
  function SettleIdentity(sys: System, i: nat, tx: Tx<Option<nat>>, wire: Wire): System
    requires i in sys.nodes
  {
    var node := sys.nodes[i];
    var committed := tx.Commit? && wire.commits;
    var db := if committed then tx.db else sys.db;
    var node' :=
      if committed && wire.acked then node.(rev := if tx.value.Some? then tx.value.value else node.rev)
      else node.(fault := CheckedFault(db, node.rev, wire));
    sys.(db := db, nodes := sys.nodes[i := node'])
  }

  /** A claim reports the revision it wrote, when it claimed anything. */
  function ClaimRevision(tx: Tx<Option<nat>>): Tx<Option<nat>> {
    if tx.Commit? && tx.value.Some? then Commit(tx.db, Some(tx.db.revision)) else tx
  }

  /** A frozen instance cannot dump its memory: what needs the dump raises before its transaction. */
  function Dump(node: Node, tx: Tx<Option<nat>>): Tx<Option<nat>> {
    if node.fault then Abort(CheckpointConflict) else tx
  }

  /** Preparing a judgement walks from both memories to their representatives, outside of any effect. */
  function Glanced(e: Engine, left: nat, right: nat): Engine {
    if left !in e.mems || right !in e.mems then e else Verdicts.Walked(Verdicts.Walked(e, left), right)
  }

  function SaveRevision(tx: Tx<nat>): Tx<Option<nat>> {
    match tx
    case Abort(error) => Abort(error)
    case Commit(db, revision) => Commit(db, Some(revision))
  }

  // ---------------------------------------------------------------- steps

  datatype Action =
    | Effect(i: nat, run: Image -> Outcome, now: int, wire: Wire)
    | Captured(i: nat, capture: Capture, run: Image -> Outcome, now: int, wire: Wire)
    | UnitNext(i: nat, run: Image -> Outcome, now: int, wire: Wire)
    | CompleteTask(i: nat, id: nat, token: nat, mutate: Json -> Image -> Outcome, now: int, later: int, wire: Wire)
    | Operate(i: nat, id: nat, token: nat, request: Json, run: Image -> Outcome, now: int, later: int, wire: Wire)
    | Save(i: nat, wire: Wire)
    | ClaimSaving(i: nat, id: nat, args: ClaimArgs, now: int, wire: Wire)
    | StoreSaving(i: nat, id: nat, token: nat, result: Json, now: int, wire: Wire)
    | Tell(i: nat, job: Job, now: int)
    | Store(call: Call, now: int)
    | Glance(i: nat, left: nat, right: nat)
    | Restart(i: nat)
    | Observe(requestId: Option<string>, fingerprint: string, minUid: nat, minT: int)
    | SaveWork(uid: nat, result: Json)
    | Postpone(uid: nat, now: int)
    | Scan(i: nat, limit: nat)
    | Acknowledge(i: nat)
    | GiveUp(i: nat)

  /** The kinds of task that an instance may file outside of effects. They are only ever claimed with a
      checkpoint, and only they are ended without an effect. */
  predicate Investigates(kind: Kind) {
    kind.RecallMiss? || kind.ExtractDue?
  }

  predicate Investigated(db: Db, id: nat) {
    id < |db.rows| && Investigates(db.rows[id].kind)
  }

  /** Store calls that write no checkpoint and carry no id bound. */
  predicate Quiet(db: Db, call: Call) {
    || (call.CallClaim? && call.args.checkpoint.None? && !Investigated(db, call.id))
    || (call.CallStoreResult? && call.checkpoint.None?)
    || (call.CallFinish? && Investigated(db, call.id))
    || call.CallRetry? || call.CallRecover? || call.CallSkip? || call.CallRemember?
  }

  /** The memory a process starts with: the durable one, or an empty one, and never below the ids
      that tasks were filed with. None: the database lost its checkpoint, and the process refuses. */
  function Booted(db: Db, empty: Image): Option<Node> {
    var found := Checkpoint(db);
    if found.None? then None
    else
      var (revision, state) := found.value;
      var e := if state.Some? then state.value else empty;
      var raised := e.(engine := e.engine.(nextId := if e.engine.nextId >= db.memoryNextId then e.engine.nextId else db.memoryNextId));
      Some(Node(raised, revision, false, [], None))
  }

  function UnitWork(ev: Evidence, uid: nat): Option<Work> {
    WorkOf(ev.work, uid)
  }

  function WorkOf(work: seq<Work>, uid: nat): Option<Work> {
    if work == [] then None else if work[0].uid == uid then Some(work[0]) else WorkOf(work[1..], uid)
  }

  /** A unit in back-off ends the scan, unless its effect is committed already. */
  predicate Waits(sys: System, uid: nat, now: int) {
    var w := UnitWork(sys.ev, uid);
    w.Some? && w.value.nextRunAt > now && uid !in sys.db.unitReceipts
  }

  /** The transaction behind an effect of instance `i`, what the effect makes of its memory, and the
      entry it leaves when it commits. */
  function Attempt(sys: System, a: Action): (r: (Tx<Reply>, Outcome, Entry))
    requires IsEffect(a)
    requires a.i in sys.nodes && (a.UnitNext? ==> sys.nodes[a.i].scan != [])
  {
    var db, node := sys.db, sys.nodes[a.i];
    match a
    case Effect(_, run, now, _) =>
      var made := run(node.mem);
      (ApplyEffect(db, made, node.rev, now), made, Entry(TagPlain, run, ResponseOf(made)))
    case Captured(_, capture, run, now, _) =>
      var made := run(node.mem);
      (ApplyCaptured(db, made, node.rev, capture, now), made, Entry(TagCapture(capture.requestId), run, ResponseOf(made)))
    case UnitNext(_, run, now, _) =>
      var made := run(node.mem);
      (ApplyUnit(db, node.scan[0], made, node.rev, now), made, Entry(TagUnit(node.scan[0]), run, ResponseOf(made)))
    case CompleteTask(_, id, token, mutate, now, later, _) =>
      var result := if id < |db.rows| && db.rows[id].result.Some? then db.rows[id].result.value else "";
      var made := mutate(result)(node.mem);
      (Complete(db, id, token, r => mutate(r)(node.mem), node.rev, now, later), made,
       Entry(TagComplete(id), mutate(result), ResponseOf(made)))
    case Operate(_, id, token, request, run, now, later, _) =>
      var made := run(node.mem);
      (ApplyOperation(db, id, token, request, made, node.rev, now, later), made,
       Entry(TagOperation(id, request), run, ResponseOf(made)))
  }

  function ResponseOf(made: Outcome): Json {
    if made.Made? then made.response else ""
  }

  /** The processor of units moves on after a hand-over, and gives the scan up after an error. */
  function ScanAfter(node: Node, tx: Tx<Reply>, wire: Wire): Node {
    if node.scan == [] then node
    else if tx.Commit? && wire.commits && wire.acked then node.(scan := node.scan[1..], ack := Some(node.scan[0]))
    else node.(scan := [], ack := None)
  }

  predicate IsEffect(a: Action) {
    a.Effect? || a.Captured? || a.UnitNext? || a.CompleteTask? || a.Operate?
  }

  /** An effect is refused by a frozen instance; the processor of units handles one unit at a time. */
  predicate MayAttempt(sys: System, a: Action)
    requires IsEffect(a)
  {
    && a.i in sys.nodes && !sys.nodes[a.i].fault
    && (a.UnitNext? ==> sys.nodes[a.i].scan != [] && sys.nodes[a.i].ack.None? && !Waits(sys, sys.nodes[a.i].scan[0], a.now))
  }

  function EffectStep(sys: System, a: Action): System
    requires IsEffect(a)
  {
    if MayAttempt(sys, a) then
      var (tx, made, entry) := Attempt(sys, a);
      AttemptShape(sys, a);
      var sys1 := Settle(sys, a.i, tx, made, entry, a.wire);
      if a.UnitNext? then sys1.(nodes := sys1.nodes[a.i := ScanAfter(sys1.nodes[a.i], tx, a.wire)]) else sys1
    else if a.UnitNext? && a.i in sys.nodes && sys.nodes[a.i].ack.None?
    then sys.(nodes := sys.nodes[a.i := sys.nodes[a.i].(scan := [])])
    else sys
  }

  function Next(sys: System, a: Action, empty: Image): System {
    if IsEffect(a) then EffectStep(sys, a)
    else match a
    case Save(i, wire) =>
      if i !in sys.nodes || sys.nodes[i].fault || (sys.nodes[i].rev == 0 && sys.db.revision == 0) then sys
      else SettleIdentity(sys, i, SaveRevision(WriteCheckpoint(sys.db, sys.nodes[i].mem, sys.nodes[i].rev)), wire)
    case ClaimSaving(i, id, args, now, wire) =>
      if i !in sys.nodes then sys
      else
        var full := args.(checkpoint := Some((sys.nodes[i].mem, sys.nodes[i].rev)));
        SettleIdentity(sys, i, Dump(sys.nodes[i], ClaimRevision(Claim(sys.db, id, full, now))), wire)
    case StoreSaving(i, id, token, result, now, wire) =>
      if i !in sys.nodes then sys
      else
        var saved := Some((sys.nodes[i].mem, sys.nodes[i].rev));
        SettleIdentity(sys, i, Dump(sys.nodes[i], StoreResult(sys.db, id, token, result, saved, now)), wire)
    case Tell(i, job, now) =>
      if i !in sys.nodes || sys.nodes[i].fault || !Investigates(job.kind) then sys
      else sys.(db := After(sys.db, Enqueue(sys.db, job.(memoryNextId := sys.nodes[i].mem.engine.nextId), now)))
    case Store(call, now) => if Quiet(sys.db, call) then sys.(db := Perform(sys.db, call, now)) else sys
    case Glance(i, left, right) =>
      if i !in sys.nodes || sys.nodes[i].fault then sys
      else sys.(nodes := sys.nodes[i := sys.nodes[i].(mem := sys.nodes[i].mem.(engine := Glanced(sys.nodes[i].mem.engine, left, right)))])
    case Restart(i) =>
      var node := Booted(sys.db, empty);
      sys.(nodes := if node.Some? then sys.nodes[i := node.value] else sys.nodes - {i})
    case Observe(request, fingerprint, minUid, minT) => sys.(ev := Append(sys.ev, request, fingerprint, minUid, minT))
    case SaveWork(uid, result) => sys.(ev := sys.ev.(work := EachWork(sys.ev.work, w => SaveWorkResult(w, uid, result))))
    case Postpone(uid, now) => sys.(ev := sys.ev.(work := EachWork(sys.ev.work, w => FailWork(w, uid, now))))
    case Scan(i, limit) =>
      if i !in sys.nodes || sys.nodes[i].fault || sys.nodes[i].scan != [] || sys.nodes[i].ack.Some? then sys
      else sys.(nodes := sys.nodes[i := sys.nodes[i].(scan := PendingUnits(sys.ev.work, limit))])
    case Acknowledge(i) =>
      if i !in sys.nodes || sys.nodes[i].ack.None? then sys
      else sys.(ev := sys.ev.(work := EachWork(sys.ev.work, w => FinishWork(w, sys.nodes[i].ack.value))),
                nodes := sys.nodes[i := sys.nodes[i].(ack := None)])
    case GiveUp(i) =>
      if i !in sys.nodes then sys else sys.(nodes := sys.nodes[i := sys.nodes[i].(scan := [], ack := None)])
    case _ => sys
  }

  lemma AttemptShape(sys: System, a: Action)
    requires IsEffect(a)
    requires a.i in sys.nodes && (a.UnitNext? ==> sys.nodes[a.i].scan != [])
    ensures var (tx, made, _) := Attempt(sys, a);
            tx.Commit? && !tx.value.replayed ==> made.Made?
  {
  }

  /** What an effect leaves behind, in terms of its transaction. */
  lemma EffectEnd(sys: System, a: Action, empty: Image)
    requires IsEffect(a) && MayAttempt(sys, a)
    ensures var (tx, made, entry) := Attempt(sys, a); var node, end := sys.nodes[a.i], Next(sys, a, empty);
            var committed := tx.Commit? && a.wire.commits;
            && (tx.Commit? && !tx.value.replayed ==> made.Made?)
            && end.db == (if committed then tx.db else sys.db)
            && end.log == (if committed && !tx.value.replayed then sys.log + [entry] else sys.log)
            && a.i in end.nodes
            && (!(committed && a.wire.acked) ==>
                  end.nodes[a.i].mem == node.mem && end.nodes[a.i].rev == node.rev && end.nodes[a.i].fault == CheckedFault(end.db, node.rev, a.wire))
  {
    hide Attempt, Waits;
    AttemptShape(sys, a);
  }

  lemma EffectRefused(sys: System, a: Action, empty: Image)
    requires IsEffect(a) && !MayAttempt(sys, a)
    ensures Next(sys, a, empty).db == sys.db && Next(sys, a, empty).log == sys.log
  {
    hide Waits;
  }

  function Run(sys: System, actions: seq<Action>, empty: Image): System
    decreases |actions|
  {
    if |actions| == 0 then sys else Run(Next(sys, actions[0], empty), actions[1..], empty)
  }

  /** The state that a commit history leads to. */
  function Replay(empty: Image, log: seq<Entry>): Image {
    if |log| == 0 then empty
    else
      var e := Replay(empty, log[..|log| - 1]);
      var made := log[|log| - 1].run(e);
      if made.Made? then made.state else e
  }

  function Durable(db: Db, empty: Image): Image {
    if db.state.Some? then db.state.value else empty
  }

  /** The receipt that is filed for a tag. */
  function Filed(db: Db, tag: Tag): Option<Json> {
    match tag
    case TagComplete(id) => if (id, SEMANTIC) in db.operations then Some(db.operations[(id, SEMANTIC)]) else None
    case TagOperation(id, request) =>
      if (id, OperationKey(request)) in db.operations then Some(db.operations[(id, OperationKey(request))]) else None
    case TagUnit(uid) => if uid in db.unitReceipts then Some(db.unitReceipts[uid]) else None
    case TagCapture(request) => if request in db.captures then Some(db.captures[request].response) else None
    case TagPlain => None
  }
}
