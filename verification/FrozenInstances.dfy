/** What an instance can still do once its fault flag is set: nothing that reaches the task database, and
    when it may lose the flag again. */
module FrozenInstances {
  import opened MemoryTypes
  import opened TaskTable
  import opened TaskInvariant
  import opened Sidecar
  import opened SerialHistory

  /** The instance that takes a step; calls of workers and the evidence log belong to none. */
  function Actor(a: Action): Option<nat> {
    if a.Store? || a.Observe? || a.SaveWork? || a.Postpone? then None else Some(a.i)
  }

  ghost predicate Frozen(sys: System, i: nat) {
    i in sys.nodes && sys.nodes[i].fault
  }

  /** Whatever a frozen instance tries, the task database and the history stay as they are, and so do all
      other instances: it commits neither an effect nor its unchanged memory, and files no task. */
  lemma FrozenIsInert(sys: System, a: Action, empty: Image, i: nat)
    requires Frozen(sys, i) && Actor(a) == Some(i)
    ensures var end := Next(sys, a, empty); end.db == sys.db && end.log == sys.log && end.nodes - {i} == sys.nodes - {i}
  {
    hide Attempt, Settle, Waits, Booted, Claim, StoreResult, WriteCheckpoint, PendingUnits;
  }

  /** A frozen instance loses its flag exactly when it is started again, or when its claim or its storing of
      a result is refused and it then finds the database readable and still at its own revision. */
  lemma ThawsExactly(sys: System, a: Action, empty: Image, i: nat)
    requires Frozen(sys, i)
    ensures var end := Next(sys, a, empty);
            (i in end.nodes && !end.nodes[i].fault) <==>
              || (a == Restart(i) && Booted(sys.db, empty).Some?)
              || ((a.ClaimSaving? || a.StoreSaving?) && a.i == i && a.wire.readable && sys.db.revision == sys.nodes[i].rev)
  {
    hide Attempt, Settle, Waits, Checkpoint, Claim, StoreResult, WriteCheckpoint, PendingUnits;
    if IsEffect(a) && MayAttempt(sys, a) {
      SettleOthers(sys, a, i);
    }
  }

  lemma SettleOthers(sys: System, a: Action, i: nat)
    requires IsEffect(a) && MayAttempt(sys, a) && i in sys.nodes && i != a.i
    ensures EffectStep(sys, a).nodes.Keys == sys.nodes.Keys && EffectStep(sys, a).nodes[i] == sys.nodes[i]
  {
    hide Attempt, Waits;
  }

  // ---------------------------------------------------------------- runs

  lemma RevisionGrows(sys: System, a: Action, empty: Image)
    ensures Next(sys, a, empty).db.revision >= sys.db.revision
  {
    hide Waits, Booted, PendingUnits, Claim, StoreResult, Enqueue, Perform, Quiet, Attempt, Glanced, Append;
    if IsEffect(a) {
      if MayAttempt(sys, a) { AttemptGrows(sys, a); }
    } else {
      match a
      case ClaimSaving(i, id, args, now, wire) =>
        if i in sys.nodes { ClaimIsOwn(sys.db, sys.nodes[i], id, args.(checkpoint := Some((sys.nodes[i].mem, sys.nodes[i].rev))), now); }
      case StoreSaving(i, id, token, result, now, wire) =>
        if i in sys.nodes { StoreIsOwn(sys.db, sys.nodes[i], id, token, result, now); }
      case Tell(i, job, now) =>
        if i in sys.nodes {
          var stamped := job.(memoryNextId := sys.nodes[i].mem.engine.nextId);
          TellIsAside(sys.db, stamped, now, stamped.memoryNextId);
        }
      case Store(call, now) => if Quiet(sys.db, call) { QuietIsAside(sys.db, call, now); }
      case _ =>
    }
  }

  lemma AttemptGrows(sys: System, a: Action)
    requires IsEffect(a) && MayAttempt(sys, a)
    ensures var tx := Attempt(sys, a).0; tx.Commit? ==> tx.db.revision >= sys.db.revision
  {
    hide Waits, Attempt, Filed, FiledOnly;
    AttemptPrepared(sys, a);
  }

  /** What frozen instance `i` would write, taken out of a run. */
  function Without(actions: seq<Action>, i: nat): seq<Action>
    decreases |actions|
  {
    if |actions| == 0 then []
    else (if Writes(actions[0], i) then [] else [actions[0]]) + Without(actions[1..], i)
  }

  predicate Writes(a: Action, i: nat) {
    (IsEffect(a) || a.Save? || a.ClaimSaving? || a.StoreSaving? || a.Tell?) && a.i == i
  }

  /** Two systems that differ at most in what the stale instance `i` still means to scan. */
  ghost predicate Twins(s: System, t: System, i: nat) {
    && s.db == t.db && s.ev == t.ev && s.log == t.log
    && s.nodes.Keys == t.nodes.Keys && (forall j :: j in s.nodes && j != i ==> s.nodes[j] == t.nodes[j])
    && i in s.nodes && Stale(s.nodes[i], s.db) && s.nodes[i].(scan := t.nodes[i].scan) == t.nodes[i]
  }

  /** Frozen, and behind the database. */
  predicate Stale(node: Node, db: Db) {
    node.fault && node.rev < db.revision
  }

  lemma WritesAreLost(s: System, t: System, a: Action, empty: Image, i: nat)
    requires Twins(s, t, i) && Writes(a, i)
    ensures Twins(Next(s, a, empty), t, i) && Next(s, a, empty).nodes[i].mem == s.nodes[i].mem
  {
    hide Attempt, Settle, Waits, Claim, StoreResult, WriteCheckpoint, Enqueue, ScanAfter;
    var s' := Next(s, a, empty);
    FrozenIsInert(s, a, empty, i);
    assert s'.ev == s.ev && i in s'.nodes && Stale(s'.nodes[i], s'.db) && s'.nodes[i].(scan := s.nodes[i].scan) == s.nodes[i];
    hide Next;
    OwnTwin(s, t, s', i);
  }

  lemma OwnTwin(s: System, t: System, s': System, i: nat)
    requires Twins(s, t, i) && s'.db == s.db && s'.ev == s.ev && s'.log == s.log && s'.nodes - {i} == s.nodes - {i}
    requires i in s'.nodes && s'.nodes[i].(scan := s.nodes[i].scan) == s.nodes[i]
    ensures Twins(s', t, i)
  {
    forall j | j != i
      ensures (j in s'.nodes <==> j in s.nodes) && (j in s.nodes ==> s'.nodes[j] == s.nodes[j])
    {
      assert j in s.nodes <==> j in s.nodes - {i};
      assert j in s'.nodes <==> j in s'.nodes - {i};
      assert j in s.nodes ==> (s.nodes - {i})[j] == (s'.nodes - {i})[j];
    }
  }

  // ---------------------------------------------------------------- the steps of others

  ghost predicate SameTables(s: System, t: System) {
    s.db == t.db && s.ev == t.ev && s.log == t.log
  }

  /** Instance `j` sees the same in both systems. */
  ghost predicate SeesSame(s: System, t: System, j: nat) {
    SameTables(s, t) && (j in s.nodes <==> j in t.nodes) && (j in s.nodes ==> s.nodes[j] == t.nodes[j])
  }

  lemma SameAttempt(s: System, t: System, a: Action)
    requires IsEffect(a) && SeesSame(s, t, a.i)
    ensures MayAttempt(s, a) == MayAttempt(t, a)
    ensures MayAttempt(s, a) ==> Attempt(s, a) == Attempt(t, a)
  {
    hide ApplyEffect, ApplyCaptured, ApplyUnit, Complete, ApplyOperation, WorkOf;
  }

  lemma SameEffect(s: System, t: System, a: Action)
    requires IsEffect(a) && SeesSame(s, t, a.i)
    ensures SeesSame(EffectStep(s, a), EffectStep(t, a), a.i)
    ensures EffectStep(s, a).nodes - {a.i} == s.nodes - {a.i}
  {
    hide Attempt, Waits, ScanAfter, CheckedFault;
    SameAttempt(s, t, a);
  }

  lemma SameIdentity(s: System, t: System, i: nat, tx: Tx<Option<nat>>, wire: Wire)
    requires SeesSame(s, t, i) && i in s.nodes
    ensures SeesSame(SettleIdentity(s, i, tx, wire), SettleIdentity(t, i, tx, wire), i)
    ensures SettleIdentity(s, i, tx, wire).nodes - {i} == s.nodes - {i}
  {
    hide CheckedFault;
  }

  lemma SameSaving(s: System, t: System, a: Action, empty: Image)
    requires (a.Save? || a.ClaimSaving? || a.StoreSaving?) && SeesSame(s, t, a.i)
    ensures SeesSame(Next(s, a, empty), Next(t, a, empty), a.i)
    ensures Next(s, a, empty).nodes - {a.i} == s.nodes - {a.i}
  {
    hide Claim, StoreResult, WriteCheckpoint, SettleIdentity, Dump, SaveRevision, ClaimRevision;
    if a.i in s.nodes {
      match a
      case Save(i, wire) =>
        SameIdentity(s, t, i, SaveRevision(WriteCheckpoint(s.db, s.nodes[i].mem, s.nodes[i].rev)), wire);
      case ClaimSaving(i, id, args, now, wire) =>
        var full := args.(checkpoint := Some((s.nodes[i].mem, s.nodes[i].rev)));
        SameIdentity(s, t, i, Dump(s.nodes[i], ClaimRevision(Claim(s.db, id, full, now))), wire);
      case StoreSaving(i, id, token, result, now, wire) =>
        var saved := Some((s.nodes[i].mem, s.nodes[i].rev));
        SameIdentity(s, t, i, Dump(s.nodes[i], StoreResult(s.db, id, token, result, saved, now)), wire);
    }
  }

  lemma SameStep(s: System, t: System, a: Action, empty: Image)
    requires !IsEffect(a) && Actor(a).Some? && SeesSame(s, t, a.i)
    ensures SeesSame(Next(s, a, empty), Next(t, a, empty), a.i)
    ensures Next(s, a, empty).nodes - {a.i} == s.nodes - {a.i}
  {
    hide Enqueue, Booted, PendingUnits, Glanced, After, EachWork, FinishWork;
    if a.Save? || a.ClaimSaving? || a.StoreSaving? {
      SameSaving(s, t, a, empty);
    }
  }

  lemma SameCall(s: System, t: System, a: Action, empty: Image)
    requires Actor(a).None? && SameTables(s, t)
    ensures SameTables(Next(s, a, empty), Next(t, a, empty)) && Next(s, a, empty).nodes == s.nodes
  {
    hide Perform, Append, Quiet;
  }

  lemma KeepTwins(s: System, t: System, s': System, t': System, i: nat, j: nat)
    requires Twins(s, t, i) && i != j && s'.db.revision >= s.db.revision
    requires SeesSame(s', t', j) && s'.nodes - {j} == s.nodes - {j} && t'.nodes - {j} == t.nodes - {j}
    ensures Twins(s', t', i) && s'.nodes[i].mem == s.nodes[i].mem
  {
    forall k | k != j
      ensures (k in s'.nodes <==> k in s.nodes) && (k in s.nodes ==> s'.nodes[k] == s.nodes[k])
      ensures (k in t'.nodes <==> k in t.nodes) && (k in t.nodes ==> t'.nodes[k] == t.nodes[k])
    {
      assert k in s.nodes <==> k in s.nodes - {j};
      assert k in s'.nodes <==> k in s'.nodes - {j};
      assert k in t.nodes <==> k in t.nodes - {j};
      assert k in t'.nodes <==> k in t'.nodes - {j};
      assert k in s.nodes ==> (s.nodes - {j})[k] == (s'.nodes - {j})[k];
      assert k in t.nodes ==> (t.nodes - {j})[k] == (t'.nodes - {j})[k];
    }
  }

  /** What the stale instance still does with its own scan. */
  predicate Scans(a: Action, i: nat) {
    (a.Scan? || a.Acknowledge? || a.GiveUp? || a.Glance?) && a.i == i
  }

  lemma TouchStaysTwin(s: System, t: System, s': System, t': System, i: nat, n: Node, n': Node)
    requires Twins(s, t, i) && s'.db == s.db && s'.log == s.log && t'.db == t.db && t'.log == t.log && s'.ev == t'.ev
    requires s'.nodes == s.nodes[i := n] && t'.nodes == t.nodes[i := n']
    requires n.fault && n.rev == s.nodes[i].rev && n.(scan := n'.scan) == n'
    ensures Twins(s', t', i)
  {
  }

  lemma ScanStaysTwin(s: System, t: System, a: Action, empty: Image, i: nat)
    requires Twins(s, t, i) && Scans(a, i) && (a.Scan? || a.Glance?)
    ensures Next(s, a, empty) == s && Next(t, a, empty) == t
  {
  }

  lemma AcknowledgeStaysTwin(s: System, t: System, empty: Image, i: nat)
    requires Twins(s, t, i)
    ensures Twins(Next(s, Acknowledge(i), empty), Next(t, Acknowledge(i), empty), i)
    ensures Next(s, Acknowledge(i), empty).nodes[i].mem == s.nodes[i].mem
  {
    hide EachWork, FinishWork;
    var n, n' := s.nodes[i].(ack := None), t.nodes[i].(ack := None);
    if s.nodes[i].ack.Some? {
      TouchStaysTwin(s, t, Next(s, Acknowledge(i), empty), Next(t, Acknowledge(i), empty), i, n, n');
    }
  }

  lemma GiveUpStaysTwin(s: System, t: System, empty: Image, i: nat)
    requires Twins(s, t, i)
    ensures Twins(Next(s, GiveUp(i), empty), Next(t, GiveUp(i), empty), i)
    ensures Next(s, GiveUp(i), empty).nodes[i].mem == s.nodes[i].mem
  {
    var n, n' := s.nodes[i].(scan := [], ack := None), t.nodes[i].(scan := [], ack := None);
    TouchStaysTwin(s, t, Next(s, GiveUp(i), empty), Next(t, GiveUp(i), empty), i, n, n');
  }

  lemma OwnStaysTwin(s: System, t: System, a: Action, empty: Image, i: nat)
    requires Twins(s, t, i) && Scans(a, i)
    ensures Twins(Next(s, a, empty), Next(t, a, empty), i) && Next(s, a, empty).nodes[i].mem == s.nodes[i].mem
  {
    hide Twins, Next;
    if a.Acknowledge? {
      AcknowledgeStaysTwin(s, t, empty, i);
    } else if a.GiveUp? {
      GiveUpStaysTwin(s, t, empty, i);
    } else {
      ScanStaysTwin(s, t, a, empty, i);
    }
  }

  lemma OthersStayTwins(s: System, t: System, a: Action, empty: Image, i: nat)
    requires Twins(s, t, i) && !Writes(a, i) && a != Restart(i)
    ensures Twins(Next(s, a, empty), Next(t, a, empty), i) && Next(s, a, empty).nodes[i].mem == s.nodes[i].mem
  {
    hide Next, EffectStep;
    RevisionGrows(s, a, empty);
    var s', t' := Next(s, a, empty), Next(t, a, empty);
    if Actor(a) == Some(i) {
      OwnStaysTwin(s, t, a, empty, i);
    } else if Actor(a).None? {
      SameCall(s, t, a, empty);
      SameCall(t, s, a, empty);
    } else if IsEffect(a) {
      SameEffect(s, t, a);
      SameEffect(t, s, a);
      EffectIsNext(s, a, empty);
      EffectIsNext(t, a, empty);
      KeepTwins(s, t, s', t', i, a.i);
    } else {
      SameStep(s, t, a, empty);
      SameStep(t, s, a, empty);
      KeepTwins(s, t, s', t', i, a.i);
    }
  }

  lemma EffectIsNext(s: System, a: Action, empty: Image)
    requires IsEffect(a)
    ensures Next(s, a, empty) == EffectStep(s, a)
  {
    hide EffectStep;
  }

  /** A stale frozen instance changes nothing any more, over any run without a new start of it: it stays frozen
      and keeps its memory, and the two databases, the history and every other instance end as if it had
      not tried to write. */
  lemma {:induction false} StaleInstanceIsInvisible(s: System, t: System, actions: seq<Action>, empty: Image, i: nat)
    requires Twins(s, t, i) && Restart(i) !in actions
    ensures var end := Run(s, actions, empty);
            Twins(end, Run(t, Without(actions, i), empty), i) && end.nodes[i].mem == s.nodes[i].mem
    decreases |actions|
  {
    hide Twins, Next, Writes;
    if |actions| > 0 {
      var a, rest := actions[0], actions[1..];
      assert a in actions && forall x :: x in rest ==> x in actions;
      var s1 := Next(s, a, empty);
      if Writes(a, i) {
        WritesAreLost(s, t, a, empty, i);
        StaleInstanceIsInvisible(s1, t, rest, empty, i);
        assert [] + Without(rest, i) == Without(rest, i);
      } else {
        OthersStayTwins(s, t, a, empty, i);
        StaleInstanceIsInvisible(s1, Next(t, a, empty), rest, empty, i);
        assert ([a] + Without(rest, i))[1..] == Without(rest, i);
      }
    }
  }
}
