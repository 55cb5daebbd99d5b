/** What the serial history means for single effects: who may commit one, how often, what a repeated
    call is answered, and what an error leaves behind. */
module EffectsOnce {
  import opened MemoryTypes
  import opened TaskTable
  import opened TaskInvariant
  import opened Sidecar
  import opened SerialHistory

  /** How often an effect was committed under a tag. */
  function Times(log: seq<Entry>, tag: Tag): nat {
    if |log| == 0 then 0 else Times(log[..|log| - 1], tag) + One(log[|log| - 1].tag == tag)
  }

  lemma {:induction false} TimesZero(log: seq<Entry>, tag: Tag)
    requires forall j :: 0 <= j < |log| ==> log[j].tag != tag
    ensures Times(log, tag) == 0
    decreases |log|
  {
    if |log| > 0 {
      TimesZero(log[..|log| - 1], tag);
    }
  }

  lemma {:induction false} TimesOnce(log: seq<Entry>, tag: Tag)
    requires forall j, k :: 0 <= j < k < |log| && log[j].tag == tag ==> log[k].tag != tag
    ensures Times(log, tag) == One(exists j :: 0 <= j < |log| && log[j].tag == tag)
    decreases |log|
  {
    if |log| > 0 {
      var n := |log| - 1;
      if log[n].tag == tag {
        TimesZero(log[..n], tag);
      } else {
        TimesOnce(log[..n], tag);
        assert (exists j :: 0 <= j < |log| && log[j].tag == tag) ==> exists j :: 0 <= j < n && log[..n][j].tag == tag;
      }
    }
  }

  /** Over any run, a task is completed, a unit applied, and a request of a task performed exactly as
      often as a receipt exists for it: once or never. A captured request takes effect at most once. */
  lemma EffectsHappenOnce(sys: System, actions: seq<Action>, empty: Image, tag: Tag)
    requires Serial(sys, empty) && (forall a :: a in actions ==> Sane(a)) && !tag.TagPlain?
    ensures var end := Run(sys, actions, empty);
            && Times(end.log, tag) <= One(Filed(end.db, tag).Some?)
            && (!tag.TagCapture? ==> Times(end.log, tag) == One(Filed(end.db, tag).Some?))
  {
    hide TableOk, DurableOk, NodeOk, Filed, Run;
    RunsAreSerial(sys, actions, empty);
    var end := Run(sys, actions, empty);
    TimesOnce(end.log, tag);
    if exists j :: 0 <= j < |end.log| && end.log[j].tag == tag {
      var j :| 0 <= j < |end.log| && end.log[j].tag == tag;
      assert Filed(end.db, end.log[j].tag).Some?;
    }
  }

  // ---------------------------------------------------------------- who commits

  /** The history grows only by an instance that is neither frozen nor behind, and whose memory is the
      durable state; for the effects of a task, only under the task's current, unexpired token. */
  lemma CommitsAreFenced(sys: System, a: Action, empty: Image)
    requires Serial(sys, empty) && |Next(sys, a, empty).log| != |sys.log|
    ensures IsEffect(a) && a.i in sys.nodes && !sys.nodes[a.i].fault
    ensures sys.nodes[a.i].rev == sys.db.revision && Alike(sys.nodes[a.i].mem, Durable(sys.db, empty))
    ensures a.CompleteTask? ==> Owned(sys.db, a.id, a.token, a.now) && sys.db.rows[a.id].state.Applying?
                                && sys.db.rows[a.id].lease.value > a.later
    ensures a.Operate? ==> Owned(sys.db, a.id, a.token, a.now) && Owned(sys.db, a.id, a.token, a.later)
    ensures Next(sys, a, empty).log[..|sys.log|] == sys.log && Next(sys, a, empty).db.revision == sys.db.revision + 1
  {
    assert IsEffect(a) && MayAttempt(sys, a) by {
      if !IsEffect(a) {
        AsideLog(sys, a, empty);
      } else if !MayAttempt(sys, a) {
        hide Next;
        EffectRefused(sys, a, empty);
      }
    }
    assert sys.nodes[a.i].rev == sys.db.revision ==> Alike(sys.nodes[a.i].mem, Durable(sys.db, empty)) by {
      CurrentIsAlike(sys, a.i, empty);
    }
    hide Next, Attempt, Serial, Alike, Waits, FiledOnly;
    EffectEnd(sys, a, empty);
    AttemptPrepared(sys, a);
    if a.CompleteTask? { CompletionIsFenced(sys, a); }
    if a.Operate? { OperationIsFenced(sys, a); }
  }

  lemma AsideLog(sys: System, a: Action, empty: Image)
    requires !IsEffect(a)
    ensures Next(sys, a, empty).log == sys.log
  {
    hide Quiet, Perform, Enqueue, Claim, StoreResult, WriteCheckpoint, Booted, CheckedFault, Glanced;
  }

  lemma CurrentIsAlike(sys: System, i: nat, empty: Image)
    requires Serial(sys, empty) && i in sys.nodes && !sys.nodes[i].fault && sys.nodes[i].rev == sys.db.revision
    ensures Alike(sys.nodes[i].mem, Durable(sys.db, empty))
  {
    hide TableOk, DurableOk, FiledOk, Alike;
    assert NodeOk(sys.nodes[i], sys.db, empty);
  }

  lemma CompletionIsFenced(sys: System, a: Action)
    requires a.CompleteTask? && MayAttempt(sys, a) && Attempt(sys, a).0.Commit?
    ensures Owned(sys.db, a.id, a.token, a.now) && sys.db.rows[a.id].state.Applying? && sys.db.rows[a.id].lease.value > a.later
  {
    hide CommitEffect;
  }

  lemma OperationIsFenced(sys: System, a: Action)
    requires a.Operate? && MayAttempt(sys, a) && Attempt(sys, a).0.Commit? && !Attempt(sys, a).0.value.replayed
    ensures Owned(sys.db, a.id, a.token, a.now) && Owned(sys.db, a.id, a.token, a.later)
  {
    hide OperationKey;
  }

  /** Whatever moves the durable revision, identity commits included, comes from an instance that was
      neither frozen nor behind, with the durable state in memory; an identity commit leaves that state and
      the history alone. */
  lemma OnlyCurrentInstancesCommit(sys: System, a: Action, empty: Image)
    requires Serial(sys, empty) && Next(sys, a, empty).db.revision != sys.db.revision
    ensures IsEffect(a) || a.Save? || a.ClaimSaving? || a.StoreSaving?
    ensures a.i in sys.nodes && !sys.nodes[a.i].fault && sys.nodes[a.i].rev == sys.db.revision
    ensures Alike(sys.nodes[a.i].mem, Durable(sys.db, empty))
    ensures !IsEffect(a) ==> Alike(Durable(Next(sys, a, empty).db, empty), Durable(sys.db, empty)) && Next(sys, a, empty).log == sys.log
  {
    hide TableOk, DurableOk, FiledOk, CommitEffect, Perform, Waits, Claim, StoreResult, Enqueue;
    if IsEffect(a) {
      AttemptPrepared(sys, a);
    } else {
      match a
      case Save(i, wire) => SaveIsOwn(sys.db, sys.nodes[i]);
      case ClaimSaving(i, id, args, now, wire) =>
        ClaimIsOwn(sys.db, sys.nodes[i], id, args.(checkpoint := Some((sys.nodes[i].mem, sys.nodes[i].rev))), now);
      case StoreSaving(i, id, token, result, now, wire) => StoreIsOwn(sys.db, sys.nodes[i], id, token, result, now);
      case Tell(i, job, now) => TellIsAside(sys.db, job.(memoryNextId := sys.nodes[i].mem.engine.nextId), now, sys.nodes[i].mem.engine.nextId);
      case Store(call, now) => if Quiet(sys.db, call) { QuietIsAside(sys.db, call, now); }
      case _ =>
    }
  }

  // ---------------------------------------------------------------- answers and errors

  /** The answer to a call that goes through, whether fresh or repeated, is the one filed with the one
      effect under its tag. */
  lemma AnswersAreStored(sys: System, a: Action, empty: Image)
    requires Serial(sys, empty) && IsEffect(a) && MayAttempt(sys, a) && Sane(a) && a.wire.commits
    requires var (tx, _, entry) := Attempt(sys, a); tx.Commit? && !entry.tag.TagPlain?
    ensures var (tx, _, entry) := Attempt(sys, a); var end := Next(sys, a, empty);
            && Filed(end.db, entry.tag) == Some(tx.value.response)
            && (tx.value.replayed ==> end.log == sys.log && end.db == sys.db)
            && (!entry.tag.TagCapture? ==> exists j :: 0 <= j < |end.log| && end.log[j].tag == entry.tag
                                             && end.log[j].response == tx.value.response)
  {
    hide TableOk, DurableOk, NodeOk, Attempt, Filed, Sane, Next, Waits;
    AttemptPrepared(sys, a);
    EffectEnd(sys, a, empty);
    StepSerial(sys, a, empty);
    var (tx, made, entry) := Attempt(sys, a);
    var end := Next(sys, a, empty);
    assert end.db == tx.db;
    if !entry.tag.TagCapture? {
      var j :| 0 <= j < |end.log| && end.log[j].tag == entry.tag;
      assert Filed(end.db, end.log[j].tag) == Some(end.log[j].response);
    }
  }

  /** After an effect ended in an error, the instance's memory and revision are as before, and it is
      frozen exactly when the database could not be read or is no longer at that revision; so a commit
      whose acknowledgement was lost always freezes it. */
  lemma ErrorsRollBackOrFreeze(sys: System, a: Action, empty: Image)
    requires Serial(sys, empty) && IsEffect(a) && MayAttempt(sys, a) && Sane(a)
    requires Attempt(sys, a).0.Abort? || !a.wire.commits || !a.wire.acked
    ensures a.i in Next(sys, a, empty).nodes
    ensures var node, end := sys.nodes[a.i], Next(sys, a, empty); var node' := end.nodes[a.i];
            && node'.mem == node.mem && node'.rev == node.rev
            && (node'.fault <==> !a.wire.readable || end.db.revision != node.rev)
            && (|end.log| > |sys.log| ==> node'.fault)
  {
    hide TableOk, DurableOk, FiledOk, Attempt, Filed, Next, Waits;
    AttemptPrepared(sys, a);
    EffectEnd(sys, a, empty);
  }
}
