/** When an instance's effects do go through, what they leave, and that a recorded unit can be carried all the way. */
module EffectOutcomes {
  import opened MemoryTypes
  import opened TaskTable
  import TaskInvariant
  import opened TaskOutcomes
  import opened Sidecar
  import opened UnitOutcomes

  // ---------------------------------------------------------------- one effect

  /** The instance may begin the effect: it is up and not frozen; the processor of units has a unit to hand over, none
      to acknowledge, and is not told to wait for it. */
  predicate MayBegin(sys: System, a: Action)
    requires IsEffect(a)
  {
    && a.i in sys.nodes && !sys.nodes[a.i].fault
    && (a.UnitNext? ==>
          && sys.nodes[a.i].scan != [] && sys.nodes[a.i].ack.None?
          && var uid := sys.nodes[a.i].scan[0];
          (uid in sys.db.unitReceipts || UnitWork(sys.ev, uid).None? || UnitWork(sys.ev, uid).value.nextRunAt <= a.now))
  }

  /** An effect enters the history exactly when the instance may begin it, its transaction goes through and is not
      answered from a receipt, and the commit arrives. The database is then what the transaction made of it. An instance
      that hears of the commit has the memory that the effect made, at the new revision; one that does not keeps its
      memory and is frozen unless it finds the database readable and where it was. */
  lemma EffectEnds(sys: System, a: Action, empty: Image)
    requires IsEffect(a)
    ensures !MayBegin(sys, a) ==> Next(sys, a, empty).db == sys.db && Next(sys, a, empty).log == sys.log
    ensures MayBegin(sys, a) ==>
              var (tx, made, entry) := Attempt(sys, a); var node, end := sys.nodes[a.i], Next(sys, a, empty);
              && a.i in end.nodes && var node' := end.nodes[a.i];
              && (tx.Commit? && a.wire.commits ==>
                    && end.db == tx.db && end.log == (if tx.value.replayed then sys.log else sys.log + [entry])
                    && (a.wire.acked ==> !node'.fault && node'.rev == tx.value.revision
                                         && node'.mem == if !tx.value.replayed && made.Made? then made.state else node.mem))
              && (!tx.Commit? || !a.wire.commits ==> end.db == sys.db && end.log == sys.log)
              && (!tx.Commit? || !a.wire.commits || !a.wire.acked ==>
                    && node'.mem == node.mem && node'.rev == node.rev
                    && (node'.fault <==> !a.wire.readable || end.db.revision != node.rev))
  {
    hide Attempt, UnitWork;
    if MayAttempt(sys, a) {
      AttemptShape(sys, a);
      hide Waits;
    }
  }

  /** The effect of a healthy, current instance that does not raise, and whose jobs find room, takes place. */
  lemma EffectTakesPlace(sys: System, i: nat, run: Image -> Outcome, now: int, empty: Image)
    requires i in sys.nodes && !sys.nodes[i].fault && sys.nodes[i].rev == sys.db.revision && run(sys.nodes[i].mem).Made?
    requires |Queued(sys.db.rows)| + |run(sys.nodes[i].mem).jobs| <= sys.db.capacity
    ensures var made, end := run(sys.nodes[i].mem), Next(sys, Effect(i, run, now, Wire(true, true, true)), empty);
            && end.log == sys.log + [Entry(TagPlain, run, made.response)] && end.db.state == Some(Dumped(made.state))
            && i in end.nodes && end.nodes[i].mem == made.state && end.nodes[i].rev == end.db.revision == sys.db.revision + 1
  {
    hide Next, CommitEffect, Queued, EnqueueAll;
    var a := Effect(i, run, now, Wire(true, true, true));
    JobsFit(sys.db, run(sys.nodes[i].mem).jobs, now);
    EffectOutcome(sys.db, run(sys.nodes[i].mem), sys.db.revision, now);
    EffectEnds(sys, a, empty);
  }

  // ---------------------------------------------------------------- commits of the unchanged memory

  /** How an instance ends a commit of its unchanged memory: with the new revision `rev` if it hears of it, and otherwise as
      it was, but frozen unless it finds the database readable and where it was. */
  ghost predicate EndsCommit(node: Node, node': Node, db: Db, heard: bool, rev: nat, wire: Wire) {
    node' == if heard then node.(rev := rev) else node.(fault := !wire.readable || db.revision != node.rev)
  }

  /** Saving writes the memory of a healthy instance exactly when it is current, and something was ever written. */
  lemma SaveEnds(sys: System, i: nat, wire: Wire, empty: Image)
    requires i in sys.nodes
    ensures var node, end := sys.nodes[i], Next(sys, Save(i, wire), empty);
            var written := !node.fault && node.rev == sys.db.revision && sys.db.revision > 0 && wire.commits;
            && end.log == sys.log && end.ev == sys.ev
            && end.db == (if written then sys.db.(revision := sys.db.revision + 1, state := Some(Dumped(node.mem))) else sys.db)
            && i in end.nodes
            && (if node.fault || (node.rev == 0 && sys.db.revision == 0) then end.nodes[i] == node
                else EndsCommit(node, end.nodes[i], end.db, written && wire.acked, node.rev + 1, wire))
  {
  }

  /** A claim that saves the claimer's memory goes through as a claim with that memory would. */
  lemma ClaimSavingEnds(sys: System, i: nat, id: nat, args: ClaimArgs, now: int, wire: Wire, empty: Image)
    requires i in sys.nodes
    ensures var node, end := sys.nodes[i], Next(sys, ClaimSaving(i, id, args, now, wire), empty);
            var tx := Claim(sys.db, id, args.(checkpoint := Some((node.mem, node.rev))), now);
            var arrives := !node.fault && tx.Commit? && wire.commits;
            && end.log == sys.log && end.ev == sys.ev && end.db == (if arrives then tx.db else sys.db)
            && i in end.nodes
            && EndsCommit(node, end.nodes[i], end.db, arrives && wire.acked, if arrives && tx.value.Some? then end.db.revision else node.rev, wire)
  {
    hide Claim;
  }

  /** So does the storing of a result with the worker's memory. */
  lemma StoreSavingEnds(sys: System, i: nat, id: nat, token: nat, result: Json, now: int, wire: Wire, empty: Image)
    requires i in sys.nodes
    ensures var node, end := sys.nodes[i], Next(sys, StoreSaving(i, id, token, result, now, wire), empty);
            var tx := StoreResult(sys.db, id, token, result, Some((node.mem, node.rev)), now);
            var arrives := !node.fault && tx.Commit? && wire.commits;
            && end.log == sys.log && end.ev == sys.ev && end.db == (if arrives then tx.db else sys.db)
            && i in end.nodes
            && EndsCommit(node, end.nodes[i], end.db, arrives && wire.acked, sys.db.revision + 1, wire)
  {
    hide Owned;
  }

  /** A healthy instance can always ask for an investigation while the queue has room, and for nothing else outside of an
      effect; the task carries the ids that its memory has handed out. */
  lemma TellOutcome(sys: System, i: nat, job: Job, now: int, empty: Image)
    requires i in sys.nodes
    ensures var node, end := sys.nodes[i], Next(sys, Tell(i, job, now), empty);
            var tx := Enqueue(sys.db, job.(memoryNextId := node.mem.engine.nextId), now);
            && end.log == sys.log && end.ev == sys.ev && end.nodes == sys.nodes
            && end.db == if !node.fault && (job.kind.RecallMiss? || job.kind.ExtractDue?) && tx.Commit? then tx.db else sys.db
  {
    hide Enqueue;
  }

  // ---------------------------------------------------------------- one unit, all the way

  /** The oldest unit that is not done. */
  ghost predicate OldestPending(work: seq<Work>, uid: nat) {
    exists k :: 0 <= k < |work| && work[k].uid == uid && !work[k].done && forall j :: 0 <= j < k ==> work[j].done
  }

  lemma {:induction false} ScanBeginsThere(work: seq<Work>, limit: nat, uid: nat)
    requires OldestPending(work, uid) && limit > 0
    ensures PendingUnits(work, limit) != [] && PendingUnits(work, limit)[0] == uid
    decreases |work|
  {
    var k :| 0 <= k < |work| && work[k].uid == uid && !work[k].done && forall j :: 0 <= j < k ==> work[j].done;
    if k > 0 {
      var rest := work[1..];
      assert rest[k - 1].uid == uid && !rest[k - 1].done && forall j :: 0 <= j < k - 1 ==> rest[j].done;
      ScanBeginsThere(rest, limit, uid);
    }
  }

  /** The oldest pending unit that is not at rest can always be carried all the way by a healthy, current instance: it is
      scanned, applied with a receipt, and acknowledged. */
  lemma UnitGoesThrough(sys: System, i: nat, limit: nat, run: Image -> Outcome, now: int, uid: nat, empty: Image)
    requires i in sys.nodes && var node := sys.nodes[i];
             && !node.fault && node.rev == sys.db.revision && node.scan == [] && node.ack.None?
             && run(node.mem).Made? && |Queued(sys.db.rows)| + |run(node.mem).jobs| <= sys.db.capacity
    requires OldestPending(sys.ev.work, uid) && limit > 0 && uid !in sys.db.unitReceipts
    requires UnitWork(sys.ev, uid).Some? && UnitWork(sys.ev, uid).value.nextRunAt <= now && !UnitWork(sys.ev, uid).value.done
    ensures var made := run(sys.nodes[i].mem);
            var s1 := Next(sys, Scan(i, limit), empty);
            var s2 := Next(s1, UnitNext(i, run, now, Wire(true, true, true)), empty);
            var s3 := Next(s2, Acknowledge(i), empty);
            && s3.log == sys.log + [Entry(TagUnit(uid), run, made.response)]
            && s3.db.unitReceipts == sys.db.unitReceipts[uid := made.response] && s3.db.state == Some(Dumped(made.state))
            && UnitWork(s3.ev, uid).Some? && UnitWork(s3.ev, uid).value.done
            && i in s3.nodes && s3.nodes[i].mem == made.state && s3.nodes[i].rev == s3.db.revision && s3.nodes[i].ack.None?
  {
    hide PendingUnits, UnitWork, Queued, CommitEffect, EnqueueAll;
    var made := run(sys.nodes[i].mem);
    ScanBeginsThere(sys.ev.work, limit, uid);
    var s1 := Next(sys, Scan(i, limit), empty);
    assert s1 == sys.(nodes := s1.nodes) && i in s1.nodes && s1.nodes[i] == sys.nodes[i].(scan := PendingUnits(sys.ev.work, limit));
    UnitApplied(s1, i, run, now, uid, empty);
    var s2 := Next(s1, UnitNext(i, run, now, Wire(true, true, true)), empty);
    Acknowledged(s2, i, uid, empty);
  }

  lemma UnitApplied(sys: System, i: nat, run: Image -> Outcome, now: int, uid: nat, empty: Image)
    requires i in sys.nodes && var node := sys.nodes[i];
             && !node.fault && node.rev == sys.db.revision && node.scan != [] && node.scan[0] == uid && node.ack.None?
             && run(node.mem).Made? && |Queued(sys.db.rows)| + |run(node.mem).jobs| <= sys.db.capacity
    requires uid !in sys.db.unitReceipts && UnitWork(sys.ev, uid).Some? && UnitWork(sys.ev, uid).value.nextRunAt <= now
    ensures var made, end := run(sys.nodes[i].mem), Next(sys, UnitNext(i, run, now, Wire(true, true, true)), empty);
            && end.log == sys.log + [Entry(TagUnit(uid), run, made.response)] && end.ev == sys.ev
            && end.db.unitReceipts == sys.db.unitReceipts[uid := made.response] && end.db.state == Some(Dumped(made.state))
            && i in end.nodes && end.nodes[i].mem == made.state && end.nodes[i].rev == end.db.revision && end.nodes[i].ack == Some(uid)
  {
    hide UnitWork, Queued, CommitEffect, EnqueueAll, ApplyEffect;
    var made, a := run(sys.nodes[i].mem), UnitNext(i, run, now, Wire(true, true, true));
    assert ApplyUnit(sys.db, uid, made, sys.db.revision, now).Commit? by {
      JobsFit(sys.db, made.jobs, now);
      EffectOutcome(sys.db, made, sys.db.revision, now);
      UnitOutcome(sys.db, uid, made, sys.db.revision, now);
    }
    EffectOutcome(sys.db, made, sys.db.revision, now);
    UnitOutcome(sys.db, uid, made, sys.db.revision, now);
    hide ApplyUnit;
    EffectEnds(sys, a, empty);
  }

  lemma Acknowledged(sys: System, i: nat, uid: nat, empty: Image)
    requires i in sys.nodes && sys.nodes[i].ack == Some(uid) && UnitWork(sys.ev, uid).Some?
    ensures var end := Next(sys, Acknowledge(i), empty);
            && end.db == sys.db && end.log == sys.log && OthersSame(sys.ev, end.ev, uid)
            && var w := UnitWork(sys.ev, uid).value;
            && UnitWork(end.ev, uid) == Some(if w.done then w else w.(done := true, nextRunAt := 0))
            && i in end.nodes && end.nodes[i] == sys.nodes[i].(ack := None)
  {
    hide OthersSame;
    EachFound(sys.ev.work, w => FinishWork(w, uid), uid);
    FoundIs(sys.ev.work, uid);
    EachKeepsOthers(sys.ev, w => FinishWork(w, uid), uid);
  }
}
