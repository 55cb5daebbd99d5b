/** A process can always be started again: no run leads to a database that has tasks at work or receipts
    without a checkpoint, and a start restores exactly the durable state. */
module Restarts {
  import opened MemoryTypes
  import opened TaskTable
  import opened TaskInvariant
  import opened Sidecar
  import opened SerialHistory

  /** Before the first checkpoint there are only investigations, and none was ever claimed. */
  ghost predicate NothingClaimedYet(db: Db) {
    db.revision == 0 ==> forall i :: 0 <= i < |db.rows| ==> Investigates(db.rows[i].kind) && db.rows[i].attempts == 0
  }

  lemma TellIsUnclaimed(db: Db, job: Job, now: int)
    requires NothingClaimedYet(db) && Investigates(job.kind)
    ensures NothingClaimedYet(After(db, Enqueue(db, job, now)))
  {
  }

  lemma QuietIsUnclaimed(db: Db, call: Call, now: int)
    requires NothingClaimedYet(db) && Quiet(db, call)
    ensures NothingClaimedYet(Perform(db, call, now))
  {
    QuietIsAside(db, call, now);
    if db.revision == 0 && call.CallRecover? && AllKnown(call.kinds) {
      forall i | 0 <= i < |db.rows|
        ensures var r := TaskTable.Recovered(db.rows[i], call.caps, call.kinds, call.reset, now);
                r.kind == db.rows[i].kind && r.attempts == db.rows[i].attempts
      {
      }
    }
  }

  /** What writes no checkpoint leaves the database alone, but for new investigations and quiet calls. */
  lemma StepIsUnclaimed(sys: System, a: Action, empty: Image)
    requires NothingClaimedYet(sys.db)
    ensures NothingClaimedYet(Next(sys, a, empty).db)
  {
    hide NothingClaimedYet, Attempt, Waits, Perform, Enqueue, Quiet, Prepared, Booted, Claimed;
    var db' := Next(sys, a, empty).db;
    if db'.revision > 0 {
      LaterIsUnclaimed(db');
    } else if IsEffect(a) {
      if MayAttempt(sys, a) {
        AttemptPrepared(sys, a);
        PreparedMoves(sys, a);
      }
    } else {
      match a
      case Tell(i, job, now) =>
        if db' != sys.db { TellIsUnclaimed(sys.db, job.(memoryNextId := sys.nodes[i].mem.engine.nextId), now); }
      case Store(call, now) => if Quiet(sys.db, call) { QuietIsUnclaimed(sys.db, call, now); }
      case _ =>
    }
  }

  lemma LaterIsUnclaimed(db: Db)
    requires db.revision > 0
    ensures NothingClaimedYet(db)
  {
  }

  lemma PreparedMoves(sys: System, a: Action)
    requires IsEffect(a) && a.i in sys.nodes && (a.UnitNext? ==> sys.nodes[a.i].scan != [])
    requires var (tx, made, entry) := Attempt(sys, a); Prepared(sys, a, tx, made, entry)
    ensures var tx := Attempt(sys, a).0; tx.Commit? ==> tx.db == sys.db || tx.db.revision > 0
  {
    hide Attempt;
  }

  lemma {:induction false} RunsAreUnclaimed(sys: System, actions: seq<Action>, empty: Image)
    requires NothingClaimedYet(sys.db)
    ensures NothingClaimedYet(Run(sys, actions, empty).db)
    decreases |actions|
  {
    hide NothingClaimedYet, Next;
    if |actions| > 0 {
      StepIsUnclaimed(sys, actions[0], empty);
      RunsAreUnclaimed(Next(sys, actions[0], empty), actions[1..], empty);
    }
  }

  lemma NoReceipts(db: Db)
    requires forall tag: Tag :: !tag.TagCapture? ==> Filed(db, tag).None?
    requires NamedKeys(db)
    ensures db.unitReceipts == map[] && db.operations == map[]
  {
    forall k: (nat, Json)
      ensures k !in db.operations
    {
      assert k == (k.0, k.1);
      assert Filed(db, TagComplete(k.0)).None? && Filed(db, TagOperation(k.0, RequestOf(k.1))).None?;
    }
    forall uid: nat
      ensures uid !in db.unitReceipts
    {
      assert Filed(db, TagUnit(uid)).None?;
    }
  }

  lemma UnwrittenHasNoReceipts(sys: System, empty: Image)
    requires Serial(sys, empty) && sys.db.revision == 0
    ensures sys.db.unitReceipts == map[] && sys.db.operations == map[]
  {
    hide TableOk, NodeOk, Replay;
    forall tag: Tag | !tag.TagCapture?
      ensures Filed(sys.db, tag).None?
    {
    }
    NoReceipts(sys.db);
  }

  /** A start is refused exactly when a task was claimed before any checkpoint was written. */
  lemma RefusedExactly(sys: System, empty: Image)
    requires Serial(sys, empty)
    ensures Booted(sys.db, empty).None? <==> sys.db.revision == 0 && exists r :: r in sys.db.rows && r.attempts > 0
  {
    if sys.db.revision == 0 {
      UnwrittenHasNoReceipts(sys, empty);
    }
  }

  /** However instances and workers crash, no start is ever refused, and the started process is at the durable
      revision with exactly the durable state; the pins that effects named before are gone. */
  lemma StartsAlwaysSucceed(sys: System, actions: seq<Action>, empty: Image)
    requires Serial(sys, empty) && NothingClaimedYet(sys.db) && forall a :: a in actions ==> Sane(a)
    ensures var end := Run(sys, actions, empty); var node := Booted(end.db, empty);
            && node.Some? && node.value.mem == Durable(end.db, empty) && node.value.rev == end.db.revision && !node.value.fault
            && (end.db.revision > 0 ==> node.value.mem.engine.external == {})
  {
    hide Serial, Run, Booted;
    RunsAreSerial(sys, actions, empty);
    RunsAreUnclaimed(sys, actions, empty);
    var end := Run(sys, actions, empty);
    RefusedExactly(end, empty);
    RestartSerial(end, 0, empty);
    StartsHealthy(end.db, empty);
    assert end.db.revision > 0 ==> end.db.state.Some? && Dumped(end.db.state.value) == end.db.state.value by { SavedState(end, empty); }
  }

  lemma StartsHealthy(db: Db, empty: Image)
    ensures Booted(db, empty).Some? ==> !Booted(db, empty).value.fault
  {
  }

  lemma SavedState(sys: System, empty: Image)
    requires Serial(sys, empty)
    ensures sys.db.revision > 0 ==> sys.db.state.Some? && Dumped(sys.db.state.value) == sys.db.state.value
  {
  }
}
