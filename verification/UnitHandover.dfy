/** The hand-over of recorded units from the evidence log to the task database: in order, once each,
    receipt first and acknowledgement second. */
module UnitHandover {
  import opened MemoryTypes
  import opened TaskTable
  import opened TaskInvariant
  import opened Sidecar
  import opened SerialHistory
  import opened EffectsOnce
  import opened Restarts

  predicate Received(db: Db, uid: nat) {
    uid in db.unitReceipts
  }

  /** Unit ids grow along the log. */
  ghost predicate Ascending(work: seq<Work>) {
    forall j, k :: 0 <= j < k < |work| ==> work[j].uid < work[k].uid
  }

  /** The units with a receipt form a prefix of the log, and an acknowledged one has a receipt. */
  ghost predicate PrefixOk(work: seq<Work>, db: Db) {
    && (forall j, k :: 0 <= j < k < |work| && Received(db, work[k].uid) ==> Received(db, work[j].uid))
    && (forall j :: 0 <= j < |work| && work[j].done ==> Received(db, work[j].uid))
  }

  /** Receipts are for recorded units. */
  ghost predicate ReceiptsRecorded(work: seq<Work>, db: Db) {
    forall uid :: Received(db, uid) ==> InLog(work, uid)
  }

  ghost predicate InLog(work: seq<Work>, uid: nat) {
    exists j :: 0 <= j < |work| && work[j].uid == uid
  }

  /** One unit for each bound request id, and each unit of a request is the one it is bound to. */
  ghost predicate BoundOk(ev: Evidence) {
    && (forall j :: 0 <= j < |ev.work| && ev.work[j].request.Some? ==>
          ev.work[j].request.value in ev.bound && ev.bound[ev.work[j].request.value].uid == ev.work[j].uid)
    && (forall r :: r in ev.bound ==>
          exists j :: 0 <= j < |ev.work| && ev.work[j].request == Some(r) && ev.work[j].uid == ev.bound[r].uid)
  }

  /** Whatever is recorded before a unit that an instance still means to process is received, or will
      be processed before it. */
  ghost predicate ScanOk(node: Node, work: seq<Work>, db: Db) {
    && (forall k, j :: 0 <= k < |node.scan| && 0 <= j < |work| && work[j].uid < node.scan[k] ==>
          Received(db, work[j].uid) || work[j].uid in node.scan[..k])
    && (forall k :: 0 <= k < |node.scan| ==> InLog(work, node.scan[k]))
    && (node.ack.Some? ==> Received(db, node.ack.value))
  }

  ghost predicate InOrder(sys: System) {
    && Ascending(sys.ev.work) && PrefixOk(sys.ev.work, sys.db) && ReceiptsRecorded(sys.ev.work, sys.db) && BoundOk(sys.ev)
    && (forall i :: i in sys.nodes ==> ScanOk(sys.nodes[i], sys.ev.work, sys.db))
  }

  // ---------------------------------------------------------------- receipts

  lemma CommitKeepsReceipts(db: Db, made: Outcome, expected: nat, now: int)
    requires CommitEffect(db, made, expected, now).Commit?
    ensures CommitEffect(db, made, expected, now).db.unitReceipts == db.unitReceipts
  {
    hide CommitEffect;
    CommitEffectShape(db, made, expected, now);
  }

  /** A receipt is only ever added by a hand-over, for the oldest unit of the instance's scan. */
  lemma AttemptReceipts(sys: System, a: Action)
    requires IsEffect(a) && MayAttempt(sys, a) && Attempt(sys, a).0.Commit?
    ensures var keys := Attempt(sys, a).0.db.unitReceipts.Keys;
            keys == sys.db.unitReceipts.Keys + if a.UnitNext? then {sys.nodes[a.i].scan[0]} else {}
  {
    hide CommitEffect, Waits;
    var db, rev := sys.db, sys.nodes[a.i].rev;
    var (tx, made, _) := Attempt(sys, a);
    if a.CompleteTask? {
      CommitKeepsReceipts(db.(rows := db.rows[a.id := db.rows[a.id].Released(Done, a.now)]), made, rev, a.now);
    } else if !a.Operate? && CommitEffect(db, made, rev, a.now).Commit? {
      CommitKeepsReceipts(db, made, rev, a.now);
    }
  }

  lemma QuietKeepsReceipts(db: Db, call: Call, now: int)
    requires Quiet(db, call)
    ensures Perform(db, call, now).unitReceipts == db.unitReceipts
  {
    hide Claimed, Expired, Expire;
  }

  /** Steps outside effects add no receipt. */
  lemma AsideReceipts(sys: System, a: Action, empty: Image)
    requires !IsEffect(a)
    ensures Next(sys, a, empty).db.unitReceipts == sys.db.unitReceipts
  {
    hide Claim, StoreResult, Enqueue, Quiet, Perform, Booted, CheckedFault, Glanced;
    match a
    case Store(call, now) => if Quiet(sys.db, call) { QuietKeepsReceipts(sys.db, call, now); }
    case ClaimSaving(i, id, args, now, wire) =>
      if i in sys.nodes { ClaimIsOwn(sys.db, sys.nodes[i], id, args.(checkpoint := Some((sys.nodes[i].mem, sys.nodes[i].rev))), now); }
    case StoreSaving(i, id, token, result, now, wire) =>
      if i in sys.nodes { StoreIsOwn(sys.db, sys.nodes[i], id, token, result, now); }
    case Tell(i, job, now) =>
      if i in sys.nodes {
        var stamped := job.(memoryNextId := sys.nodes[i].mem.engine.nextId);
        TellIsAside(sys.db, stamped, now, stamped.memoryNextId);
      }
    case _ =>
  }

  // ---------------------------------------------------------------- the evidence log

  lemma {:induction false} NextUidAbove(work: seq<Work>)
    ensures forall j :: 0 <= j < |work| ==> work[j].uid < NextUid(work)
    decreases |work|
  {
    if work != [] {
      var n := |work| - 1;
      NextUidAbove(work[..n]);
      forall j | 0 <= j < n
        ensures work[j].uid < NextUid(work)
      {
        assert work[..n][j] == work[j];
      }
    }
  }

  lemma AppendedLog(work: seq<Work>, w: Work, db: Db)
    requires Ascending(work) && PrefixOk(work, db) && ReceiptsRecorded(work, db)
    requires !w.done && forall j :: 0 <= j < |work| ==> work[j].uid < w.uid
    ensures Ascending(work + [w]) && PrefixOk(work + [w], db) && ReceiptsRecorded(work + [w], db)
  {
    assert !Received(db, w.uid);
    forall uid | Received(db, uid)
      ensures InLog(work + [w], uid)
    {
      var j :| 0 <= j < |work| && work[j].uid == uid;
      assert (work + [w])[j].uid == uid;
    }
  }

  lemma AppendedScan(node: Node, work: seq<Work>, w: Work, db: Db)
    requires ScanOk(node, work, db) && forall j :: 0 <= j < |work| ==> work[j].uid < w.uid
    ensures ScanOk(node, work + [w], db)
  {
    var work' := work + [w];
    forall k | 0 <= k < |node.scan|
      ensures InLog(work', node.scan[k]) && node.scan[k] < w.uid
    {
      var j :| 0 <= j < |work| && work[j].uid == node.scan[k];
      assert work'[j].uid == node.scan[k];
    }
  }

  lemma AppendedBound(ev: Evidence, w: Work, request: Option<string>, fingerprint: string)
    requires BoundOk(ev) && w.request == request && (request.Some? ==> request.value !in ev.bound)
    ensures BoundOk(Evidence(ev.work + [w], if request.None? then ev.bound else ev.bound[request.value := Bound(w.uid, fingerprint)]))
  {
    var work' := ev.work + [w];
    forall r | r in ev.bound
      ensures exists j :: 0 <= j < |work'| && work'[j].request == Some(r) && work'[j].uid == ev.bound[r].uid
    {
      var j :| 0 <= j < |ev.work| && ev.work[j].request == Some(r) && ev.work[j].uid == ev.bound[r].uid;
      assert work'[j] == ev.work[j];
    }
    assert work'[|ev.work|] == w;
  }

  lemma ObserveInOrder(sys: System, a: Action, empty: Image)
    requires InOrder(sys) && a.Observe?
    ensures InOrder(Next(sys, a, empty))
  {
    hide NextUid, NextTime, Ascending, PrefixOk, BoundOk, ScanOk, ReceiptsRecorded;
    var work' := Next(sys, a, empty).ev.work;
    if work' != sys.ev.work {
      var w := work'[|sys.ev.work|];
      NextUidAbove(sys.ev.work);
      AppendedLog(sys.ev.work, w, sys.db);
      AppendedBound(sys.ev, w, a.requestId, a.fingerprint);
      forall i | i in sys.nodes
        ensures ScanOk(sys.nodes[i], work', sys.db)
      {
        AppendedScan(sys.nodes[i], sys.ev.work, w, sys.db);
      }
    }
  }

  // ---------------------------------------------------------------- scanning

  /** Units keep their ids, and only received ones become done. */
  ghost predicate SameUnits(work: seq<Work>, work': seq<Work>, db: Db) {
    && |work'| == |work|
    && forall j :: 0 <= j < |work| ==> work'[j].uid == work[j].uid && work'[j].request == work[j].request
                                        && (work'[j].done ==> work[j].done || Received(db, work[j].uid))
  }

  lemma SameUnitsInOrder(sys: System, work: seq<Work>)
    requires InOrder(sys) && SameUnits(sys.ev.work, work, sys.db)
    ensures InOrder(sys.(ev := sys.ev.(work := work)))
  {
    hide ScanOk, BoundOk, PrefixOk, Ascending, ReceiptsRecorded, InLog, SameUnits;
    SameUnitsLog(sys.ev.work, work, sys.db);
    SameUnitsBound(sys.ev, work, sys.db);
    forall i | i in sys.nodes
      ensures ScanOk(sys.nodes[i], work, sys.db)
    {
      SameUnitsScan(sys.nodes[i], sys.ev.work, work, sys.db);
    }
  }

  lemma SameUnitsLog(before: seq<Work>, work: seq<Work>, db: Db)
    requires Ascending(before) && PrefixOk(before, db) && ReceiptsRecorded(before, db) && SameUnits(before, work, db)
    ensures Ascending(work) && PrefixOk(work, db) && ReceiptsRecorded(work, db)
  {
    SameUnitsIn(before, work, db);
  }

  lemma SameUnitsIn(before: seq<Work>, work: seq<Work>, db: Db)
    requires SameUnits(before, work, db)
    ensures forall uid :: InLog(before, uid) ==> InLog(work, uid)
  {
    forall uid | InLog(before, uid)
      ensures InLog(work, uid)
    {
      var j :| 0 <= j < |before| && before[j].uid == uid;
      assert work[j].uid == uid;
    }
  }

  lemma SameUnitsScan(node: Node, before: seq<Work>, work: seq<Work>, db: Db)
    requires ScanOk(node, before, db) && SameUnits(before, work, db)
    ensures ScanOk(node, work, db)
  {
    SameUnitsIn(before, work, db);
  }

  lemma SameUnitsBound(ev: Evidence, work: seq<Work>, db: Db)
    requires BoundOk(ev) && SameUnits(ev.work, work, db)
    ensures BoundOk(ev.(work := work))
  {
    forall r | r in ev.bound
      ensures exists j :: 0 <= j < |work| && work[j].request == Some(r) && work[j].uid == ev.bound[r].uid
    {
      var j :| 0 <= j < |ev.work| && ev.work[j].request == Some(r) && ev.work[j].uid == ev.bound[r].uid;
      assert work[j].request == Some(r);
    }
  }

  /** Whatever precedes a listed unit is done or listed before it. */
  ghost predicate Lists(scan: seq<nat>, work: seq<Work>) {
    && (forall k :: 0 <= k < |scan| ==> InLog(work, scan[k]))
    && (forall k, j :: 0 <= k < |scan| && 0 <= j < |work| && work[j].uid < scan[k] ==> work[j].done || work[j].uid in scan[..k])
  }

  lemma ListsLonger(scan: seq<nat>, w: Work, work: seq<Work>)
    requires Lists(scan, work) && forall j :: 0 <= j < |work| ==> w.uid < work[j].uid
    ensures w.done ==> Lists(scan, [w] + work)
    ensures Lists([w.uid] + scan, [w] + work)
  {
    var work', scan' := [w] + work, [w.uid] + scan;
    forall k | 0 <= k < |scan|
      ensures InLog(work', scan[k])
    {
      var j :| 0 <= j < |work| && work[j].uid == scan[k];
      assert work'[j + 1].uid == scan[k];
    }
    assert work'[0] == w;
    forall k, j | 0 <= k < |scan'| && 0 <= j < |work'| && work'[j].uid < scan'[k]
      ensures work'[j].done || work'[j].uid in scan'[..k]
    {
      assert k > 0;
      if j == 0 {
        assert scan'[..k][0] == w.uid;
      } else {
        assert work'[j] == work[j - 1] && scan'[k] == scan[k - 1];
        assert scan'[..k] == [w.uid] + scan[..k - 1];
      }
    }
    if w.done {
      forall k, j | 0 <= k < |scan| && 0 <= j < |work'| && work'[j].uid < scan[k]
        ensures work'[j].done || work'[j].uid in scan[..k]
      {
        if j > 0 {
          assert work'[j] == work[j - 1];
        }
      }
    }
  }

  /** The scan of pending units leaves out only done units, however many it lists. */
  lemma {:induction false} PendingInOrder(work: seq<Work>, limit: nat)
    requires Ascending(work)
    ensures Lists(PendingUnits(work, limit), work)
    decreases |work|
  {
    hide Lists;
    if work == [] || limit == 0 {
      assert Lists([], work) by { EmptyScan(work); }
    } else {
      var rest := PendingUnits(work[1..], if work[0].done then limit else limit - 1);
      PendingInOrder(work[1..], if work[0].done then limit else limit - 1);
      ListsLonger(rest, work[0], work[1..]);
      assert [work[0]] + work[1..] == work;
    }
  }

  lemma EmptyScan(work: seq<Work>)
    ensures Lists([], work)
  {
  }

  lemma ScanStarts(sys: System, i: nat, scan: seq<nat>)
    requires InOrder(sys) && i in sys.nodes && sys.nodes[i].ack.None? && Lists(scan, sys.ev.work)
    ensures InOrder(sys.(nodes := sys.nodes[i := sys.nodes[i].(scan := scan)]))
  {
    hide BoundOk, ReceiptsRecorded;
    var node := sys.nodes[i].(scan := scan);
    forall k, j | 0 <= k < |scan| && 0 <= j < |sys.ev.work| && sys.ev.work[j].uid < scan[k]
      ensures Received(sys.db, sys.ev.work[j].uid) || sys.ev.work[j].uid in scan[..k]
    {
    }
    assert ScanOk(node, sys.ev.work, sys.db);
  }

  lemma ScanInOrder(sys: System, a: Action, empty: Image)
    requires InOrder(sys) && (a.Scan? || a.GiveUp? || a.Restart? || a.Acknowledge?)
    ensures InOrder(Next(sys, a, empty))
  {
    hide InOrder, Next;
    match a
    case Scan(i, limit) => PendingScanInOrder(sys, i, limit, empty);
    case Acknowledge(i) => AcknowledgeInOrder(sys, i, empty);
    case GiveUp(i) => DroppedInOrder(sys, a, empty);
    case Restart(i) => DroppedInOrder(sys, a, empty);
  }

  lemma PendingScanInOrder(sys: System, i: nat, limit: nat, empty: Image)
    requires InOrder(sys)
    ensures InOrder(Next(sys, Scan(i, limit), empty))
  {
    hide Ascending, BoundOk, ReceiptsRecorded, ScanOk, PrefixOk, PendingUnits;
    if Next(sys, Scan(i, limit), empty) != sys {
      PendingInOrder(sys.ev.work, limit);
      ScanStarts(sys, i, PendingUnits(sys.ev.work, limit));
    }
  }

  lemma AcknowledgeInOrder(sys: System, i: nat, empty: Image)
    requires InOrder(sys)
    ensures InOrder(Next(sys, Acknowledge(i), empty))
  {
    hide Ascending, BoundOk, ReceiptsRecorded, ScanOk, PrefixOk;
    if i in sys.nodes && sys.nodes[i].ack.Some? {
      var uid := sys.nodes[i].ack.value;
      assert Received(sys.db, uid) by { AckReceived(sys, i); }
      SameUnitsInOrder(sys, EachWork(sys.ev.work, w => FinishWork(w, uid)));
      AckForgotten(sys.nodes[i], Next(sys, Acknowledge(i), empty).ev.work, sys.db);
    }
  }

  lemma DroppedInOrder(sys: System, a: Action, empty: Image)
    requires InOrder(sys) && (a.GiveUp? || a.Restart?)
    ensures InOrder(Next(sys, a, empty))
  {
    hide Ascending, BoundOk, ReceiptsRecorded, PrefixOk;
  }

  lemma AckReceived(sys: System, i: nat)
    requires InOrder(sys) && i in sys.nodes && sys.nodes[i].ack.Some?
    ensures Received(sys.db, sys.nodes[i].ack.value)
  {
  }

  lemma AckForgotten(node: Node, work: seq<Work>, db: Db)
    requires ScanOk(node, work, db)
    ensures ScanOk(node.(ack := None), work, db)
  {
  }

  // ---------------------------------------------------------------- processing

  /** The receipts of `db'` are those of `db`, and at most `uid`'s. */
  ghost predicate OneMore(db: Db, db': Db, uid: nat) {
    db'.unitReceipts.Keys == db.unitReceipts.Keys || db'.unitReceipts.Keys == db.unitReceipts.Keys + {uid}
  }

  /** Every unit before the oldest of a scan is received, so its receipt extends the prefix. */
  lemma PrefixGrows(node: Node, work: seq<Work>, db: Db, db': Db)
    requires Ascending(work) && PrefixOk(work, db) && ReceiptsRecorded(work, db)
    requires ScanOk(node, work, db) && node.scan != [] && OneMore(db, db', node.scan[0])
    ensures PrefixOk(work, db') && ReceiptsRecorded(work, db')
  {
    assert InLog(work, node.scan[0]) && node.scan[..0] == [];
    assert forall j :: 0 <= j < |work| && work[j].uid < node.scan[0] ==> Received(db, work[j].uid);
  }

  lemma ScanKept(node: Node, work: seq<Work>, db: Db, db': Db, uid: nat)
    requires ScanOk(node, work, db) && OneMore(db, db', uid)
    ensures ScanOk(node, work, db')
  {
  }

  /** The instance goes on with the rest of its scan, or gives it up. */
  lemma ScanMoves(node: Node, work: seq<Work>, db: Db, tx: Tx<Reply>, wire: Wire)
    requires ScanOk(node, work, db) && (tx.Commit? && wire.commits && node.scan != [] ==> Received(db, node.scan[0]))
    ensures ScanOk(ScanAfter(node, tx, wire), work, db)
  {
    if node.scan != [] && tx.Commit? && wire.commits && wire.acked {
      var rest := node.scan[1..];
      forall k, j | 0 <= k < |rest| && 0 <= j < |work| && work[j].uid < rest[k]
        ensures Received(db, work[j].uid) || work[j].uid in rest[..k]
      {
        assert rest[k] == node.scan[k + 1] && node.scan[..k + 1] == [node.scan[0]] + rest[..k];
      }
    }
  }

  lemma SameScan(node: Node, node': Node, work: seq<Work>, db: Db)
    requires ScanOk(node, work, db) && node'.scan == node.scan && node'.ack == node.ack
    ensures ScanOk(node', work, db)
  {
  }

  lemma HandoverInOrder(sys: System, a: Action, empty: Image)
    requires InOrder(sys) && a.UnitNext?
    ensures InOrder(Next(sys, a, empty))
  {
    hide Waits, Attempt, Ascending, PrefixOk, BoundOk, ReceiptsRecorded, ScanOk, OneMore, ScanAfter;
    var end := Next(sys, a, empty);
    if MayAttempt(sys, a) {
      AttemptShape(sys, a);
      var (tx, made, entry) := Attempt(sys, a);
      var node, settled := sys.nodes[a.i], Settle(sys, a.i, tx, made, entry, a.wire).nodes[a.i];
      assert OneMore(sys.db, end.db, node.scan[0]) by { HandedOver(sys, a, empty); }
      PrefixGrows(node, sys.ev.work, sys.db, end.db);
      forall i | i in sys.nodes
        ensures ScanOk(sys.nodes[i], sys.ev.work, end.db)
      {
        ScanKept(sys.nodes[i], sys.ev.work, sys.db, end.db, node.scan[0]);
      }
      SameScan(node, settled, sys.ev.work, end.db);
      ScanMoves(settled, sys.ev.work, end.db, tx, a.wire) by { HandedOver(sys, a, empty); }
    } else if a.i in sys.nodes && end != sys {
      ScanStarts(sys, a.i, []) by { EmptyScan(sys.ev.work); }
    }
  }

  lemma HandedOver(sys: System, a: Action, empty: Image)
    requires a.UnitNext? && MayAttempt(sys, a)
    ensures OneMore(sys.db, Next(sys, a, empty).db, sys.nodes[a.i].scan[0])
    ensures Attempt(sys, a).0.Commit? && a.wire.commits ==> Received(Next(sys, a, empty).db, sys.nodes[a.i].scan[0])
  {
    hide Waits, Attempt;
    if Attempt(sys, a).0.Commit? {
      AttemptReceipts(sys, a);
    }
  }

  lemma SameReceiptsInOrder(sys: System, sys': System)
    requires InOrder(sys) && sys'.ev == sys.ev && sys'.db.unitReceipts.Keys == sys.db.unitReceipts.Keys
    requires forall i :: i in sys'.nodes ==> i in sys.nodes && sys'.nodes[i].scan == sys.nodes[i].scan && sys'.nodes[i].ack == sys.nodes[i].ack
    ensures InOrder(sys')
  {
    assert forall uid :: Received(sys'.db, uid) == Received(sys.db, uid);
  }

  lemma EffectInOrder(sys: System, a: Action, empty: Image)
    requires InOrder(sys) && IsEffect(a) && !a.UnitNext?
    ensures InOrder(Next(sys, a, empty))
  {
    hide InOrder, Attempt, Waits;
    if MayAttempt(sys, a) && Attempt(sys, a).0.Commit? {
      AttemptReceipts(sys, a);
    }
    SameReceiptsInOrder(sys, Next(sys, a, empty));
  }

  lemma OthersInOrder(sys: System, a: Action, empty: Image)
    requires InOrder(sys)
    requires !a.UnitNext? && !a.Observe? && !a.Scan? && !a.GiveUp? && !a.Restart? && !a.Acknowledge?
    ensures InOrder(Next(sys, a, empty))
  {
    hide InOrder, Perform, Claim, StoreResult, Enqueue, WriteCheckpoint, Quiet, CheckedFault, Glanced;
    if IsEffect(a) {
      EffectInOrder(sys, a, empty);
    } else {
      AsideReceipts(sys, a, empty);
      if a.SaveWork? {
        SameUnitsInOrder(sys, EachWork(sys.ev.work, w => SaveWorkResult(w, a.uid, a.result)));
      } else if a.Postpone? {
        SameUnitsInOrder(sys, EachWork(sys.ev.work, w => FailWork(w, a.uid, a.now)));
      } else {
        SameReceiptsInOrder(sys, Next(sys, a, empty));
      }
    }
  }

  lemma StepInOrder(sys: System, a: Action, empty: Image)
    requires InOrder(sys)
    ensures InOrder(Next(sys, a, empty))
  {
    hide InOrder, Next;
    if a.UnitNext? {
      HandoverInOrder(sys, a, empty);
    } else if a.Observe? {
      ObserveInOrder(sys, a, empty);
    } else if a.Scan? || a.GiveUp? || a.Restart? || a.Acknowledge? {
      ScanInOrder(sys, a, empty);
    } else {
      OthersInOrder(sys, a, empty);
    }
  }

  /** Over any run: the units with a receipt are a prefix of the recorded ones, a done unit has its
      receipt, and a request id never stands for two units. */
  lemma {:induction false} RunsHandOverInOrder(sys: System, actions: seq<Action>, empty: Image)
    requires InOrder(sys)
    ensures InOrder(Run(sys, actions, empty))
    decreases |actions|
  {
    hide InOrder, Next;
    if |actions| > 0 {
      StepInOrder(sys, actions[0], empty);
      RunsHandOverInOrder(Next(sys, actions[0], empty), actions[1..], empty);
    }
  }

  // ---------------------------------------------------------------- the order of the effects

  ghost predicate Applied(log: seq<Entry>, uid: nat) {
    exists q :: 0 <= q < |log| && log[q].tag == TagUnit(uid)
  }

  /** Wherever the history applies a unit, it applied every unit recorded before it. */
  ghost predicate LogInOrder(log: seq<Entry>, work: seq<Work>) {
    forall p, j :: 0 <= p < |log| && log[p].tag.TagUnit? && 0 <= j < |work| && work[j].uid < log[p].tag.uid ==>
      Applied(log[..p], work[j].uid)
  }

  lemma ReceivedIsApplied(sys: System, empty: Image, uid: nat)
    requires Serial(sys, empty)
    ensures Received(sys.db, uid) <==> Applied(sys.log, uid)
  {
    hide TableOk, DurableOk, NodeOk;
    assert Received(sys.db, uid) <==> Filed(sys.db, TagUnit(uid)).Some?;
    if Applied(sys.log, uid) {
      var q :| 0 <= q < |sys.log| && sys.log[q].tag == TagUnit(uid);
      assert Filed(sys.db, sys.log[q].tag).Some?;
    }
  }

  lemma AppliedBefore(log: seq<Entry>, entry: Entry, work: seq<Work>)
    requires LogInOrder(log, work)
    requires entry.tag.TagUnit? ==> forall j :: 0 <= j < |work| && work[j].uid < entry.tag.uid ==> Applied(log, work[j].uid)
    ensures LogInOrder(log + [entry], work)
  {
    hide Applied;
    assert (log + [entry])[..|log|] == log;
    forall p | 0 <= p < |log|
      ensures (log + [entry])[..p] == log[..p]
    {
    }
  }

  /** An observed unit is newer than every applied one. */
  lemma NewUnitLast(sys: System, work: seq<Work>, empty: Image)
    requires Serial(sys, empty) && InOrder(sys) && LogInOrder(sys.log, sys.ev.work)
    requires |work| >= |sys.ev.work| && forall j :: 0 <= j < |sys.ev.work| ==> work[j].uid == sys.ev.work[j].uid
    requires forall j, k :: 0 <= j < |sys.ev.work| <= k < |work| ==> sys.ev.work[j].uid < work[k].uid
    ensures LogInOrder(sys.log, work)
  {
    hide Applied, TableOk, DurableOk, NodeOk, FiledOk, PrefixOk, BoundOk, ScanOk;
    forall p, j | 0 <= p < |sys.log| && sys.log[p].tag.TagUnit? && 0 <= j < |work| && work[j].uid < sys.log[p].tag.uid
      ensures Applied(sys.log[..p], work[j].uid)
    {
      var uid := sys.log[p].tag.uid;
      assert Received(sys.db, uid) by {
        assert Applied(sys.log, uid) by { LogApplies(sys.log, p); }
        ReceivedIsApplied(sys, empty, uid);
      }
      assert InLog(sys.ev.work, uid);
      assert work[j].uid == sys.ev.work[j].uid;
    }
  }

  lemma LogApplies(log: seq<Entry>, p: nat)
    requires p < |log| && log[p].tag.TagUnit?
    ensures Applied(log, log[p].tag.uid)
  {
  }

  lemma EarlierApplied(sys: System, i: nat, empty: Image)
    requires Serial(sys, empty) && InOrder(sys) && i in sys.nodes && sys.nodes[i].scan != []
    ensures forall j :: 0 <= j < |sys.ev.work| && sys.ev.work[j].uid < sys.nodes[i].scan[0] ==> Applied(sys.log, sys.ev.work[j].uid)
  {
    hide Serial, Applied, PrefixOk, BoundOk, ReceiptsRecorded, Ascending;
    forall j | 0 <= j < |sys.ev.work| && sys.ev.work[j].uid < sys.nodes[i].scan[0]
      ensures Applied(sys.log, sys.ev.work[j].uid)
    {
      assert Received(sys.db, sys.ev.work[j].uid);
      ReceivedIsApplied(sys, empty, sys.ev.work[j].uid);
    }
  }

  /** How a step may change the history and the recorded units. */
  lemma StepShape(sys: System, a: Action, empty: Image)
    ensures var end := Next(sys, a, empty);
            || end.log == sys.log
            || (|end.log| == |sys.log| + 1 && end.log[..|sys.log|] == sys.log && end.ev == sys.ev && IsEffect(a) && a.i in sys.nodes
                && (end.log[|sys.log|].tag.TagUnit? ==> sys.nodes[a.i].scan != [] && end.log[|sys.log|].tag.uid == sys.nodes[a.i].scan[0]))
    ensures !a.Observe? ==> var work := Next(sys, a, empty).ev.work;
              |work| == |sys.ev.work| && forall j :: 0 <= j < |work| ==> work[j].uid == sys.ev.work[j].uid
  {
    hide ApplyEffect, ApplyCaptured, ApplyUnit, Complete, ApplyOperation, Waits, Perform, Claim, StoreResult, Enqueue, Booted;
  }

  lemma StepAppliesInOrder(sys: System, a: Action, empty: Image)
    requires Serial(sys, empty) && InOrder(sys) && LogInOrder(sys.log, sys.ev.work)
    ensures LogInOrder(Next(sys, a, empty).log, Next(sys, a, empty).ev.work)
  {
    hide Serial, InOrder, LogInOrder, Next;
    var end := Next(sys, a, empty);
    StepShape(sys, a, empty);
    if end.log != sys.log {
      var entry := end.log[|sys.log|];
      if entry.tag.TagUnit? { EarlierApplied(sys, a.i, empty); }
      AppliedBefore(sys.log, entry, sys.ev.work);
      assert end.log == sys.log + [entry];
    } else {
      if a.Observe? { ObservedLast(sys, a, empty); }
      NewUnitLast(sys, end.ev.work, empty);
    }
  }

  lemma ObservedLast(sys: System, a: Action, empty: Image)
    requires a.Observe?
    ensures var work := Next(sys, a, empty).ev.work;
            && |work| >= |sys.ev.work| && work[..|sys.ev.work|] == sys.ev.work
            && forall j, k :: 0 <= j < |sys.ev.work| <= k < |work| ==> sys.ev.work[j].uid < work[k].uid
  {
    NextUidAbove(sys.ev.work);
  }

  /** In-order, exactly-once hand-over: however instances crash between the commits of the two
      databases, the history applies every received unit once, no other unit, and each unit after all
      units recorded before it. */
  lemma {:induction false} UnitsApplyOnceInOrder(sys: System, actions: seq<Action>, empty: Image)
    requires Serial(sys, empty) && InOrder(sys) && LogInOrder(sys.log, sys.ev.work)
    requires forall a :: a in actions ==> Sane(a)
    ensures var end := Run(sys, actions, empty);
            && InOrder(end) && LogInOrder(end.log, end.ev.work)
            && forall uid :: Times(end.log, TagUnit(uid)) == One(Received(end.db, uid))
    decreases |actions|
  {
    hide Serial, InOrder, LogInOrder, Next, Sane, Received, Run;
    if |actions| == 0 {
      EmptyRun(sys, actions, empty);
      forall uid
        ensures Times(sys.log, TagUnit(uid)) == One(Received(sys.db, uid))
      {
        EffectsHappenOnce(sys, actions, empty, TagUnit(uid));
        UnitFiled(sys.db, uid);
      }
    } else {
      var a := actions[0];
      assert a in actions && forall x :: x in actions[1..] ==> x in actions;
      StepSerial(sys, a, empty);
      StepInOrder(sys, a, empty);
      StepAppliesInOrder(sys, a, empty);
      UnitsApplyOnceInOrder(Next(sys, a, empty), actions[1..], empty);
      LongerRun(sys, actions, empty);
    }
  }

  lemma EmptyRun(sys: System, actions: seq<Action>, empty: Image)
    requires |actions| == 0
    ensures Run(sys, actions, empty) == sys
  {
  }

  lemma LongerRun(sys: System, actions: seq<Action>, empty: Image)
    requires |actions| > 0
    ensures Run(sys, actions, empty) == Run(Next(sys, actions[0], empty), actions[1..], empty)
  {
    hide Next;
  }

  lemma UnitFiled(db: Db, uid: nat)
    ensures Received(db, uid) <==> Filed(db, TagUnit(uid)).Some?
  {
  }

  /** What the invariant means to a client: two recorded units never answer one request id, and sending
      a bound request again records nothing and changes nothing. */
  lemma RequestsRecordOnce(sys: System, a: Action, empty: Image)
    requires InOrder(sys)
    ensures forall j, k :: 0 <= j < k < |sys.ev.work| && sys.ev.work[j].request.Some? ==>
              sys.ev.work[j].request != sys.ev.work[k].request
    ensures a.Observe? && a.requestId.Some? && InRequests(sys.ev.work, a.requestId.value) ==> Next(sys, a, empty) == sys
  {
    hide PrefixOk, ScanOk, ReceiptsRecorded;
    assert sys.(ev := sys.ev) == sys;
  }

  ghost predicate InRequests(work: seq<Work>, request: string) {
    exists j :: 0 <= j < |work| && work[j].request == Some(request)
  }

  /** A fresh installation satisfies every invariant of the runs. */
  lemma FreshSystem(capacity: nat, empty: Image)
    ensures var sys := System(EmptyDb(capacity), Evidence([], map[]), map[], []);
            Serial(sys, empty) && NothingClaimedYet(sys.db) && InOrder(sys) && LogInOrder(sys.log, sys.ev.work)
  {
    var db := EmptyDb(capacity);
    assert forall tag :: Filed(db, tag).None?;
    assert forall uid :: !Received(db, uid);
  }
}
