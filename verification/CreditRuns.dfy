/** Credit over whole runs of the service: recalls, feedback and settlements as effects of instances that
    abort, lose acknowledgements, crash and start again. */
module CreditRuns {
  import opened MemoryTypes
  import opened TaskTable
  import opened TaskInvariant
  import opened Sidecar
  import opened SerialHistory
  import opened EngineBodies
  import opened CreditBodies
  import Credit

  // ---------------------------------------------------------------- the invariant

  predicate IsRequest(r: Row) {
    r.kind.FeedbackPending?
  }

  /** Some committed state had the recall registered with exactly these memories. */
  ghost predicate Recorded(log: seq<Entry>, empty: Image, rid: nat, selected: seq<nat>) {
    exists q: nat :: q <= |log| && Shows(Replay(empty, log[..q]), rid, selected)
  }

  predicate Shows(m: Image, rid: nat, selected: seq<nat>) {
    rid in m.registry && m.registry[rid].selected == selected
  }

  /** A request is for a recall that sent what it asks about. While it is open, the recall is registered and not
      credited; once it is done, the recall is credited or gone. */
  ghost predicate RequestOk(r: Row, m: Image, rid: nat, selected: seq<nat>) {
    && Asks(r.payload, rid, selected) && r.key == "" && rid < m.nextRid
    && (rid in m.registry ==> m.registry[rid].selected == selected && m.registry[rid].sent && (r.state.Done? <==> m.registry[rid].credited))
    && (!r.state.Done? ==> rid in m.registry)
  }

  ghost predicate SettlesFor(run: Image -> Outcome, cfg: Cfg, rid: nat, selected: seq<nat>) {
    exists used, t, answer, misses :: NoRequests(misses) && run == SettleBody(cfg, rid, selected, used, t, answer, misses)
  }

  /** A completed request was settled by the settlement it asks for. */
  ghost predicate EntryOk(entry: Entry, rows: seq<Row>, cfg: Cfg) {
    entry.tag.TagComplete? ==>
      && entry.tag.task < |rows|
      && (IsRequest(rows[entry.tag.task]) ==>
            exists rid, selected :: Asks(rows[entry.tag.task].payload, rid, selected) && SettlesFor(entry.run, cfg, rid, selected))
  }

  ghost predicate DeskOk(rows: seq<Row>, m: Image, log: seq<Entry>, empty: Image, cfg: Cfg) {
    && Fresh(m)
    && (forall id :: 0 <= id < |rows| && IsRequest(rows[id]) ==>
          exists rid, selected :: RequestOk(rows[id], m, rid, selected) && Recorded(log, empty, rid, selected))
    && (forall i, j, rid, s, s' :: 0 <= i < j < |rows| && IsRequest(rows[i]) && IsRequest(rows[j]) && Asks(rows[i].payload, rid, s)
          ==> !Asks(rows[j].payload, rid, s'))
    && (forall k :: 0 <= k < |log| ==> EntryOk(log[k], rows, cfg))
  }

  // ---------------------------------------------------------------- what happens to requests

  predicate SameRequest(r: Row, r': Row) {
    r'.kind == r.kind && (IsRequest(r) ==> r'.payload == r.payload && r'.key == r.key && (r'.state.Done? <==> r.state.Done?))
  }

  /** No request came, was completed or changed what it asks. */
  ghost predicate SameRequests(rows: seq<Row>, rows': seq<Row>) {
    && |rows| <= |rows'|
    && (forall id :: 0 <= id < |rows| ==> SameRequest(rows[id], rows'[id]))
    && (forall id :: |rows| <= id < |rows'| ==> !IsRequest(rows'[id]))
  }

  lemma {:induction false} OtherJobs(db: Db, jobs: seq<Job>, now: int)
    requires EnqueueAll(db, jobs, now).Commit? && NoRequests(jobs)
    ensures SameRequests(db.rows, EnqueueAll(db, jobs, now).db.rows)
    decreases |jobs|
  {
    if |jobs| > 0 {
      hide Enqueue, SameRequests;
      assert jobs[0] in jobs && forall job :: job in jobs[1..] ==> job in jobs;
      var db1 := Enqueue(db, jobs[0], now).db;
      OtherJob(db, jobs[0], now);
      OtherJobs(db1, jobs[1..], now);
      SameRequestsTrans(db.rows, db1.rows, EnqueueAll(db, jobs, now).db.rows);
    } else {
      SameRowsRequests(db.rows);
    }
  }

  lemma OtherJob(db: Db, job: Job, now: int)
    requires Enqueue(db, job, now).Commit? && NoRequests([job])
    ensures SameRequests(db.rows, Enqueue(db, job, now).db.rows)
  {
    assert job in [job];
  }

  lemma RequestJob(db: Db, job: Job, now: int)
    requires EnqueueAll(db, [job], now).Commit? && job.key == ""
    ensures EnqueueAll(db, [job], now).db.rows == db.rows + [NewRow(db.rows, job, now)]
  {
    assert [job][1..] == [];
  }

  lemma OneRequest(rows: seq<Row>, i: nat, r: Row)
    requires i < |rows| && SameRequest(rows[i], r)
    ensures SameRequests(rows, rows[i := r])
  {
  }

  lemma SameRowsRequests(rows: seq<Row>)
    ensures SameRequests(rows, rows)
  {
  }

  lemma ClaimRequests(db: Db, id: nat, args: ClaimArgs, now: int)
    ensures SameRequests(db.rows, After(db, Claim(db, id, args, now)).rows)
  {
    hide SameRequests, PolicyFor;
    SameRowsRequests(db.rows);
    if id < |db.rows| {
      forall token, until | db.rows[id].state.Claimable()
        ensures SameRequests(db.rows, db.rows[id := Claimed(db.rows[id], token, until, args, now)])
      {
        OneRequest(db.rows, id, Claimed(db.rows[id], token, until, args, now));
      }
    }
  }

  lemma RecoverRequests(db: Db, caps: Caps, kinds: seq<Kind>, reset: bool, now: int)
    ensures SameRequests(db.rows, After(db, Recover(db, caps, kinds, reset, now)).rows)
  {
    forall id | 0 <= id < |db.rows|
      ensures SameRequest(db.rows[id], TaskTable.Recovered(db.rows[id], caps, kinds, reset, now))
    {
    }
  }

  lemma StoreRequests(db: Db, id: nat, token: nat, result: Json, checkpoint: Option<(Image, nat)>, now: int)
    ensures SameRequests(db.rows, After(db, StoreResult(db, id, token, result, checkpoint, now)).rows)
  {
    hide SameRequests;
    SameRowsRequests(db.rows);
    if Owned(db, id, token, now) && db.rows[id].state.Running? {
      OneRequest(db.rows, id, db.rows[id].Released(Ready, now).(result := Some(result), nextRunAt := 0));
    }
  }

  /** Calls outside of effects complete no request: only investigations are ended without an effect. */
  lemma QuietRequests(db: Db, call: Call, now: int)
    requires Quiet(db, call)
    ensures SameRequests(db.rows, Perform(db, call, now).rows)
  {
    hide SameRequests, Claim, Recover, StoreResult, Backoff;
    SameRowsRequests(db.rows);
    match call
    case CallClaim(id, args) => ClaimRequests(db, id, args, now);
    case CallRecover(caps, kinds, reset) => RecoverRequests(db, caps, kinds, reset, now);
    case CallStoreResult(id, token, result, checkpoint) => StoreRequests(db, id, token, result, checkpoint, now);
    case CallRetry(id, token, caps, delay, retryModel) =>
      if Retry(db, id, token, caps, delay, retryModel, now).Commit? {
        OneRequest(db.rows, id, Retry(db, id, token, caps, delay, retryModel, now).db.rows[id]);
      }
    case CallSkip(id, ttl) =>
      if SkipRecent(db, id, ttl, now).value { OneRequest(db.rows, id, db.rows[id].(state := Skipped, updatedAt := now)); }
    case CallFinish(id, token) =>
      if Finish(db, id, token, now).Commit? { OneRequest(db.rows, id, db.rows[id].Released(Done, now)); }
    case _ =>
  }

  // ---------------------------------------------------------------- the invariant is kept

  lemma RecordedLonger(log: seq<Entry>, entry: Entry, empty: Image, rid: nat, selected: seq<nat>)
    requires Recorded(log, empty, rid, selected)
    ensures Recorded(log + [entry], empty, rid, selected)
  {
    var q: nat :| q <= |log| && Shows(Replay(empty, log[..q]), rid, selected);
    assert (log + [entry])[..q] == log[..q];
  }

  lemma EntryStays(entry: Entry, rows: seq<Row>, rows': seq<Row>, cfg: Cfg)
    requires EntryOk(entry, rows, cfg) && |rows| <= |rows'|
    requires entry.tag.TagComplete? ==> rows'[entry.tag.task].kind == rows[entry.tag.task].kind
                                        && (IsRequest(rows[entry.tag.task]) ==> rows'[entry.tag.task].payload == rows[entry.tag.task].payload)
    ensures EntryOk(entry, rows', cfg)
  {
  }

  /** Requests stay as they are, and what becomes of the registry passes them by. */
  lemma PassedBy(rows: seq<Row>, rows': seq<Row>, m: Image, m': Image, log: seq<Entry>, empty: Image, cfg: Cfg)
    requires DeskOk(rows, m, log, empty, cfg) && SameRequests(rows, rows') && Passes(m, m')
    ensures DeskOk(rows', m', log, empty, cfg)
  {
    hide Recorded, SettlesFor, Asks, EntryOk;
    forall id | 0 <= id < |rows'| && IsRequest(rows'[id])
      ensures exists rid, selected :: RequestOk(rows'[id], m', rid, selected) && Recorded(log, empty, rid, selected)
    {
      assert SameRequest(rows[id], rows'[id]);
      var rid, selected :| RequestOk(rows[id], m, rid, selected) && Recorded(log, empty, rid, selected);
      assert rid in m.registry && !rows[id].state.Done? ==> Credit.Pending(m.registry, rid);
      assert RequestOk(rows'[id], m', rid, selected);
    }
    forall i, j, rid, s, s' | 0 <= i < j < |rows'| && IsRequest(rows'[i]) && IsRequest(rows'[j]) && Asks(rows'[i].payload, rid, s)
      ensures !Asks(rows'[j].payload, rid, s')
    {
      assert SameRequest(rows[i], rows'[i]) && SameRequest(rows[j], rows'[j]);
    }
    forall k | 0 <= k < |log|
      ensures EntryOk(log[k], rows', cfg)
    {
      assert EntryOk(log[k], rows, cfg);
      SameEntry(log[k], rows, rows', cfg);
    }
  }

  lemma SameEntry(entry: Entry, rows: seq<Row>, rows': seq<Row>, cfg: Cfg)
    requires EntryOk(entry, rows, cfg) && SameRequests(rows, rows')
    ensures EntryOk(entry, rows', cfg)
  {
    if entry.tag.TagComplete? {
      assert SameRequest(rows[entry.tag.task], rows'[entry.tag.task]);
      EntryStays(entry, rows, rows', cfg);
    }
  }

  lemma EntryAdded(rows: seq<Row>, m: Image, log: seq<Entry>, entry: Entry, empty: Image, cfg: Cfg)
    requires DeskOk(rows, m, log, empty, cfg) && EntryOk(entry, rows, cfg)
    ensures DeskOk(rows, m, log + [entry], empty, cfg)
  {
    hide Recorded, EntryOk, Asks, RequestOk;
    forall id | 0 <= id < |rows| && IsRequest(rows[id])
      ensures exists rid, selected :: RequestOk(rows[id], m, rid, selected) && Recorded(log + [entry], empty, rid, selected)
    {
      var rid, selected :| RequestOk(rows[id], m, rid, selected) && Recorded(log, empty, rid, selected);
      RecordedLonger(log, entry, empty, rid, selected);
    }
  }

  /** The request of a recall, and what it asks. */
  lemma RequestAt(rows: seq<Row>, m: Image, log: seq<Entry>, empty: Image, cfg: Cfg, id: nat) returns (rid: nat, selected: seq<nat>)
    requires DeskOk(rows, m, log, empty, cfg) && id < |rows| && IsRequest(rows[id])
    ensures RequestOk(rows[id], m, rid, selected) && Recorded(log, empty, rid, selected)
  {
    rid, selected :| RequestOk(rows[id], m, rid, selected) && Recorded(log, empty, rid, selected);
  }

  /** No request asks about a recall that was not given feedback. */
  lemma NotAsked(rows: seq<Row>, m: Image, log: seq<Entry>, empty: Image, cfg: Cfg, id: nat, rid: nat, selected: seq<nat>)
    requires DeskOk(rows, m, log, empty, cfg) && id < |rows| && IsRequest(rows[id])
    requires rid in m.registry && !m.registry[rid].sent
    ensures !Asks(rows[id].payload, rid, selected)
  {
    var other, shown := RequestAt(rows, m, log, empty, cfg, id);
    if Asks(rows[id].payload, rid, selected) {
      AsksOnce(rows[id].payload, rid, selected, other, shown);
    }
  }

  lemma Accepted(rows: seq<Row>, r: Row, m: Image, log: seq<Entry>, entry: Entry, empty: Image, cfg: Cfg, rid: nat)
    requires DeskOk(rows, m, log, empty, cfg) && rid in m.registry && !m.registry[rid].sent && !m.registry[rid].credited
    requires IsRequest(r) && r.key == "" && r.state.Pending? && Asks(r.payload, rid, m.registry[rid].selected)
    requires !entry.tag.TagComplete? && Shows(Replay(empty, log), rid, m.registry[rid].selected)
    ensures DeskOk(rows + [r], m.(registry := m.registry[rid := m.registry[rid].(sent := true)]), log + [entry], empty, cfg)
  {
    hide Replay, EntryOk, Asks;
    var rows', m', shown := rows + [r], m.(registry := m.registry[rid := m.registry[rid].(sent := true)]), m.registry[rid].selected;
    var log' := log + [entry];
    forall id | 0 <= id < |rows'| && IsRequest(rows'[id])
      ensures exists x, s :: RequestOk(rows'[id], m', x, s) && Recorded(log', empty, x, s)
    {
      if id < |rows| {
        var x, s := RequestAt(rows, m, log, empty, cfg, id);
        NotAsked(rows, m, log, empty, cfg, id, rid, s);
        assert x != rid && RequestOk(rows'[id], m', x, s);
        RecordedLonger(log, entry, empty, x, s);
      } else {
        assert log'[..|log|] == log;
        assert RequestOk(rows'[id], m', rid, shown) && Recorded(log', empty, rid, shown);
      }
    }
    forall i, j, x, s, s' | 0 <= i < j < |rows'| && IsRequest(rows'[i]) && IsRequest(rows'[j]) && Asks(rows'[i].payload, x, s)
      ensures !Asks(rows'[j].payload, x, s')
    {
      if j == |rows| && Asks(r.payload, x, s') {
        AsksOnce(r.payload, x, s', rid, shown);
        NotAsked(rows, m, log, empty, cfg, i, rid, s);
      }
    }
    forall k | 0 <= k < |log'|
      ensures EntryOk(log'[k], rows', cfg)
    {
      if k < |log| {
        assert EntryOk(log[k], rows, cfg);
        LongerTable(log[k], rows, r, cfg);
      } else {
        OtherEntry(entry, rows', cfg);
      }
    }
  }

  lemma LongerTable(entry: Entry, rows: seq<Row>, r: Row, cfg: Cfg)
    requires EntryOk(entry, rows, cfg)
    ensures EntryOk(entry, rows + [r], cfg)
  {
    EntryStays(entry, rows, rows + [r], cfg);
  }

  lemma OtherEntry(entry: Entry, rows: seq<Row>, cfg: Cfg)
    requires !entry.tag.TagComplete?
    ensures EntryOk(entry, rows, cfg)
  {
  }

  lemma SettledOnce(rows: seq<Row>, m: Image, m': Image, log: seq<Entry>, empty: Image, cfg: Cfg, id: nat, r: Row, rid: nat, selected: seq<nat>)
    requires DeskOk(rows, m, log, empty, cfg) && id < |rows| && IsRequest(rows[id])
    requires RequestOk(rows[id], m, rid, selected) && rid in m.registry
    requires r.state.Done? && IsRequest(r) && r.payload == rows[id].payload && r.key == rows[id].key
    requires m'.nextRid == m.nextRid && m'.registry.Keys == m.registry.Keys
    requires m'.registry[rid].credited && m'.registry[rid].sent && m'.registry[rid].selected == selected
    requires forall x :: x in m.registry && x != rid ==> m'.registry[x] == m.registry[x]
    ensures DeskOk(rows[id := r], m', log, empty, cfg)
  {
    hide Recorded, EntryOk, Asks;
    var rows' := rows[id := r];
    forall k | 0 <= k < |rows'| && IsRequest(rows'[k])
      ensures exists x, s :: RequestOk(rows'[k], m', x, s) && Recorded(log, empty, x, s)
    {
      var x, s := RequestAt(rows, m, log, empty, cfg, k);
      if k == id {
        AsksOnce(rows[id].payload, x, s, rid, selected);
        assert RequestOk(rows'[k], m', x, s);
      } else {
        assert x != rid by { assert k < id || id < k; }
        assert RequestOk(rows'[k], m', x, s);
      }
    }
    forall k | 0 <= k < |log|
      ensures EntryOk(log[k], rows', cfg)
    {
      assert EntryOk(log[k], rows, cfg);
      OneChangedEntry(log[k], rows, id, r, cfg);
    }
  }

  lemma OneChangedEntry(entry: Entry, rows: seq<Row>, id: nat, r: Row, cfg: Cfg)
    requires EntryOk(entry, rows, cfg) && id < |rows| && IsRequest(r) && IsRequest(rows[id]) && r.payload == rows[id].payload
    ensures EntryOk(entry, rows[id := r], cfg)
  {
    if entry.tag.TagComplete? { EntryStays(entry, rows, rows[id := r], cfg); }
  }

  lemma PassesItself(m: Image, m': Image)
    requires Fresh(m) && m'.registry == m.registry && m'.nextRid == m.nextRid
    ensures Passes(m, m')
  {
  }

  // ---------------------------------------------------------------- the steps of the system

  /** What each kind of effect may be: feedback is accepted by effects of the service's calls, requests are settled
      by their own completion, and everything else passes feedback by. */
  ghost predicate Honest(sys: System, a: Action, cfg: Cfg) {
    match a
    case Effect(_, run, _, _) => Calls(run)
    case Captured(_, _, run, _, _) => Calls(run)
    case UnitNext(_, run, _, _) => Indifferent(run)
    case Operate(_, _, _, _, run, _, _, _) => Indifferent(run)
    case CompleteTask(_, id, _, mutate, _, _, _) =>
      forall result ::
        if id < |sys.db.rows| && IsRequest(sys.db.rows[id])
        then forall rid, selected :: Asks(sys.db.rows[id].payload, rid, selected) ==> SettlesFor(mutate(result), cfg, rid, selected)
        else Indifferent(mutate(result))
    case _ => true
  }

  ghost predicate Calls(run: Image -> Outcome) {
    Indifferent(run) || exists rid, t, answer :: run == AcceptBody(rid, t, answer)
  }

  ghost predicate CreditOk(sys: System, empty: Image, cfg: Cfg) {
    DeskOk(sys.db.rows, Durable(sys.db, empty), sys.log, empty, cfg)
  }

  lemma CommitShape(sys: System, a: Action, empty: Image)
    requires Serial(sys, empty) && IsEffect(a) && Next(sys, a, empty).log != sys.log
    ensures MayAttempt(sys, a)
    ensures var (tx, made, entry) := Attempt(sys, a); var node, end := sys.nodes[a.i], Next(sys, a, empty);
            && tx.Commit? && !tx.value.replayed && end.db == tx.db && end.log == sys.log + [entry]
            && made.Made? && made == entry.run(node.mem)
            && node.mem.registry == Durable(sys.db, empty).registry && node.mem.nextRid == Durable(sys.db, empty).nextRid
            && Durable(end.db, empty).registry == made.state.registry && Durable(end.db, empty).nextRid == made.state.nextRid
  {
    hide TaskInvariant.TableOk, DurableOk, FiledOk, Attempt, Filed, FiledOnly, Replay, Next, Waits;
    if !MayAttempt(sys, a) { EffectRefused(sys, a, empty); }
    EffectEnd(sys, a, empty);
    AttemptPrepared(sys, a);
    AlikeAgrees(sys.nodes[a.i].mem, Durable(sys.db, empty));
  }

  lemma NoCommitShape(sys: System, a: Action, empty: Image)
    requires IsEffect(a) && Next(sys, a, empty).log == sys.log
    ensures Next(sys, a, empty).db == sys.db
  {
    hide Attempt, Filed, FiledOnly, Next, Waits;
    if MayAttempt(sys, a) {
      EffectEnd(sys, a, empty);
      AttemptPrepared(sys, a);
    } else {
      EffectRefused(sys, a, empty);
    }
  }

  /** What a committed effect does to the table: it ends its own task, if any, and files its jobs. */
  lemma CommitRows(sys: System, a: Action)
    requires IsEffect(a) && MayAttempt(sys, a) && Attempt(sys, a).0.Commit? && !Attempt(sys, a).0.value.replayed
    ensures var (tx, made, entry) := Attempt(sys, a); var db := sys.db;
            var db1 := if a.CompleteTask? && a.id < |db.rows| then db.(rows := db.rows[a.id := db.rows[a.id].Released(Done, a.now)]) else db;
            && (a.CompleteTask? ==> a.id < |db.rows| && db.rows[a.id].state.Applying? && entry.tag == TagComplete(a.id))
            && (!a.CompleteTask? ==> !entry.tag.TagComplete?)
            && if a.Operate? then tx.db.rows == db.rows
               else made.Made? && EnqueueAll(db1, made.jobs, a.now).Commit? && tx.db.rows == EnqueueAll(db1, made.jobs, a.now).db.rows
  {
    hide Enqueue, EnqueueAll, Waits;
  }

  lemma IndifferentCommit(sys: System, a: Action, empty: Image, cfg: Cfg)
    requires Serial(sys, empty) && CreditOk(sys, empty, cfg) && IsEffect(a) && Next(sys, a, empty).log != sys.log
    requires MayAttempt(sys, a) && Indifferent(Attempt(sys, a).2.run)
    requires a.CompleteTask? && a.id < |sys.db.rows| ==> !IsRequest(sys.db.rows[a.id])
    ensures CreditOk(Next(sys, a, empty), empty, cfg)
  {
    hide Attempt, DeskOk, EnqueueAll, Next, Serial, Passes, SameRequests, Waits;
    CommitShape(sys, a, empty);
    CommitRows(sys, a);
    var (tx, made, entry) := Attempt(sys, a);
    var m, end := Durable(sys.db, empty), Next(sys, a, empty);
    var m' := Durable(end.db, empty);
    assert Fresh(m) by { DeskIsFresh(sys.db.rows, m, sys.log, empty, cfg); }
    assert Passes(m, m') && NoRequests(made.jobs) by { SamePasses(m, sys.nodes[a.i].mem, made.state, m'); }
    SameRowsRequests(sys.db.rows);
    if a.CompleteTask? {
      var db1 := sys.db.(rows := sys.db.rows[a.id := sys.db.rows[a.id].Released(Done, a.now)]);
      OneRequest(sys.db.rows, a.id, db1.rows[a.id]);
      OtherJobs(db1, made.jobs, a.now);
      SameRequestsTrans(sys.db.rows, db1.rows, end.db.rows);
    } else if !a.Operate? {
      OtherJobs(sys.db, made.jobs, a.now);
    }
    PassedBy(sys.db.rows, end.db.rows, m, m', sys.log, empty, cfg);
    IndifferentEntry(entry, sys.db.rows, end.db.rows, cfg);
    EntryAdded(end.db.rows, m', sys.log, entry, empty, cfg);
  }

  lemma DeskIsFresh(rows: seq<Row>, m: Image, log: seq<Entry>, empty: Image, cfg: Cfg)
    requires DeskOk(rows, m, log, empty, cfg)
    ensures Fresh(m)
  {
  }

  lemma SamePasses(m: Image, seen: Image, made: Image, m': Image)
    requires seen.registry == m.registry && seen.nextRid == m.nextRid && m'.registry == made.registry && m'.nextRid == made.nextRid
    ensures Fresh(m) <==> Fresh(seen)
    ensures Passes(seen, made) <==> Passes(m, m')
  {
  }

  lemma SameRequestsTrans(a: seq<Row>, b: seq<Row>, c: seq<Row>)
    requires SameRequests(a, b) && SameRequests(b, c)
    ensures SameRequests(a, c)
  {
    forall id | 0 <= id < |c|
      ensures if id < |a| then SameRequest(a[id], c[id]) else !IsRequest(c[id])
    {
      if id < |b| { assert SameRequest(b[id], c[id]); }
    }
  }

  lemma IndifferentEntry(entry: Entry, rows: seq<Row>, rows': seq<Row>, cfg: Cfg)
    requires SameRequests(rows, rows')
    requires entry.tag.TagComplete? ==> entry.tag.task < |rows| && !IsRequest(rows[entry.tag.task])
    ensures EntryOk(entry, rows', cfg)
  {
    if entry.tag.TagComplete? { assert SameRequest(rows[entry.tag.task], rows'[entry.tag.task]); }
  }

  lemma ReplayedRegistry(sys: System, empty: Image)
    requires Serial(sys, empty)
    ensures Replay(empty, sys.log).registry == Durable(sys.db, empty).registry
  {
    hide TaskInvariant.TableOk, NodeOk, FiledOk, Replay;
    AlikeAgrees(Durable(sys.db, empty), Replay(empty, sys.log));
  }

  /** `seen` has the registry of `m`, and `m'` has the one that the body left. */
  lemma AcceptMakes(m: Image, seen: Image, m': Image, rid: nat, t: int, answer: Json)
    requires seen.registry == m.registry && seen.nextRid == m.nextRid
    requires var made := AcceptBody(rid, t, answer)(seen); made.Made? && m'.registry == made.state.registry && m'.nextRid == made.state.nextRid
    ensures rid in m.registry && !m.registry[rid].sent && !m.registry[rid].credited
    ensures m'.registry == m.registry[rid := m.registry[rid].(sent := true)] && m'.nextRid == m.nextRid
    ensures AcceptBody(rid, t, answer)(seen).jobs ==
            [Job(FeedbackPending, Asking(rid, m.registry[rid].selected), t, "", None, seen.engine.nextId)]
  {
    hide Asking;
  }

  lemma SameDesk(rows: seq<Row>, m: Image, m': Image, log: seq<Entry>, empty: Image, cfg: Cfg)
    requires DeskOk(rows, m, log, empty, cfg) && m'.registry == m.registry && m'.nextRid == m.nextRid
    ensures DeskOk(rows, m', log, empty, cfg)
  {
    hide Recorded, EntryOk, Asks;
    forall id | 0 <= id < |rows| && IsRequest(rows[id])
      ensures exists rid, selected :: RequestOk(rows[id], m', rid, selected) && Recorded(log, empty, rid, selected)
    {
      var rid, selected := RequestAt(rows, m, log, empty, cfg, id);
      assert RequestOk(rows[id], m', rid, selected);
    }
  }

  lemma AcceptCommit(sys: System, a: Action, empty: Image, cfg: Cfg, rid: nat, t: int, answer: Json)
    requires Serial(sys, empty) && CreditOk(sys, empty, cfg) && Next(sys, a, empty).log != sys.log
    requires (a.Effect? || a.Captured?) && a.run == AcceptBody(rid, t, answer)
    ensures CreditOk(Next(sys, a, empty), empty, cfg)
  {
    hide DeskOk, EnqueueAll, Next, Serial, Waits, Asking, AcceptBody, Replay, ApplyEffect, ApplyCaptured, NewRow;
    CommitShape(sys, a, empty);
    CommitRows(sys, a);
    var (tx, made, entry) := Attempt(sys, a);
    var m, seen, end := Durable(sys.db, empty), sys.nodes[a.i].mem, Next(sys, a, empty);
    AcceptMakes(m, seen, Durable(end.db, empty), rid, t, answer);
    var job := Job(FeedbackPending, Asking(rid, m.registry[rid].selected), t, "", None, seen.engine.nextId);
    RequestJob(sys.db, job, a.now);
    ReplayedRegistry(sys, empty);
    var r := NewRow(sys.db.rows, job, a.now);
    NewRequest(sys.db.rows, job, a.now);
    Accepted(sys.db.rows, r, m, sys.log, entry, empty, cfg, rid);
    SameDesk(end.db.rows, m.(registry := m.registry[rid := m.registry[rid].(sent := true)]), Durable(end.db, empty), end.log, empty, cfg);
  }

  lemma NewRequest(rows: seq<Row>, job: Job, now: int)
    ensures var r := NewRow(rows, job, now);
            r.kind == job.kind && r.key == job.key && r.payload == job.payload && r.state.Pending?
  {
  }

  lemma SettleMakes(m: Image, seen: Image, m': Image, cfg: Cfg, rid: nat, selected: seq<nat>, run: Image -> Outcome)
    requires seen.registry == m.registry && seen.nextRid == m.nextRid && SettlesFor(run, cfg, rid, selected)
    requires var made := run(seen); made.Made? && m'.registry == made.state.registry && m'.nextRid == made.state.nextRid
    requires Shows(m, rid, selected) && m.registry[rid].sent && !m.registry[rid].credited
    ensures m'.nextRid == m.nextRid && m'.registry.Keys == m.registry.Keys
    ensures m'.registry[rid].credited && m'.registry[rid].sent && m'.registry[rid].selected == selected
    ensures forall x :: x in m.registry && x != rid ==> m'.registry[x] == m.registry[x]
    ensures NoRequests(run(seen).jobs)
  {
    hide Credit.CreditAll, Stamped;
    var used, t, answer, misses :| NoRequests(misses) && run == SettleBody(cfg, rid, selected, used, t, answer, misses);
    StampedKinds(misses, run(seen).state.engine.nextId);
  }

  lemma SettleCommit(sys: System, a: Action, empty: Image, cfg: Cfg, rid: nat, selected: seq<nat>)
    requires Serial(sys, empty) && CreditOk(sys, empty, cfg) && Next(sys, a, empty).log != sys.log
    requires a.CompleteTask? && a.id < |sys.db.rows| && IsRequest(sys.db.rows[a.id])
    requires RequestOk(sys.db.rows[a.id], Durable(sys.db, empty), rid, selected)
    requires MayAttempt(sys, a) && SettlesFor(Attempt(sys, a).2.run, cfg, rid, selected)
    ensures CreditOk(Next(sys, a, empty), empty, cfg)
  {
    hide Attempt, DeskOk, EnqueueAll, Next, Serial, Waits, SettlesFor, SameRequests, Asks, Passes;
    CommitShape(sys, a, empty);
    CommitRows(sys, a);
    var (tx, made, entry) := Attempt(sys, a);
    var m, seen, end := Durable(sys.db, empty), sys.nodes[a.i].mem, Next(sys, a, empty);
    var m' := Durable(end.db, empty);
    SettleMakes(m, seen, m', cfg, rid, selected, entry.run);
    var r := sys.db.rows[a.id].Released(Done, a.now);
    var db1 := sys.db.(rows := sys.db.rows[a.id := r]);
    SettledOnce(sys.db.rows, m, m', sys.log, empty, cfg, a.id, r, rid, selected);
    OtherJobs(db1, made.jobs, a.now);
    assert Passes(m', m') by { DeskIsFresh(db1.rows, m', sys.log, empty, cfg); PassesItself(m', m'); }
    PassedBy(db1.rows, end.db.rows, m', m', sys.log, empty, cfg);
    assert SameRequest(db1.rows[a.id], end.db.rows[a.id]) && a.id < |end.db.rows| by { RequestsKept(db1.rows, end.db.rows, a.id); }
    EntryAdded(end.db.rows, m', sys.log, entry, empty, cfg);
  }

  lemma RequestsKept(rows: seq<Row>, rows': seq<Row>, id: nat)
    requires SameRequests(rows, rows') && id < |rows|
    ensures id < |rows'| && SameRequest(rows[id], rows'[id])
  {
  }

  lemma EffectKeepsCredit(sys: System, a: Action, empty: Image, cfg: Cfg)
    requires Serial(sys, empty) && CreditOk(sys, empty, cfg) && IsEffect(a) && Honest(sys, a, cfg)
    ensures CreditOk(Next(sys, a, empty), empty, cfg)
  {
    hide DeskOk, Next, Serial, Waits, SettlesFor, RequestOk, Indifferent, Asks, ApplyEffect, ApplyCaptured, ApplyUnit, Complete, ApplyOperation;
    if Next(sys, a, empty).log == sys.log {
      NoCommitShape(sys, a, empty);
    } else {
      CommitShape(sys, a, empty);
      if a.CompleteTask? && a.id < |sys.db.rows| && IsRequest(sys.db.rows[a.id]) {
        var rid, selected := RequestAt(sys.db.rows, Durable(sys.db, empty), sys.log, empty, cfg, a.id);
        assert Asks(sys.db.rows[a.id].payload, rid, selected) by { AskedBy(sys.db.rows[a.id], Durable(sys.db, empty), rid, selected); }
        SettleCommit(sys, a, empty, cfg, rid, selected);
      } else if (a.Effect? || a.Captured?) && !Indifferent(a.run) {
        var rid, t, answer :| a.run == AcceptBody(rid, t, answer);
        AcceptCommit(sys, a, empty, cfg, rid, t, answer);
      } else {
        IndifferentCommit(sys, a, empty, cfg);
      }
    }
  }

  lemma AskedBy(r: Row, m: Image, rid: nat, selected: seq<nat>)
    requires RequestOk(r, m, rid, selected)
    ensures Asks(r.payload, rid, selected)
  {
  }

  /** Steps outside of effects leave the registry alone and complete no request. */
  lemma AsideShape(sys: System, a: Action, empty: Image)
    requires Serial(sys, empty) && !IsEffect(a)
    ensures var end := Next(sys, a, empty);
            && end.log == sys.log && SameRequests(sys.db.rows, end.db.rows)
            && Durable(end.db, empty).registry == Durable(sys.db, empty).registry && Durable(end.db, empty).nextRid == Durable(sys.db, empty).nextRid
  {
    hide SameRequests, Quiet, Perform, Enqueue, Claim, StoreResult, WriteCheckpoint, Booted, Serial;
    SameRowsRequests(sys.db.rows);
    match a
    case Save(i, wire) => if i in sys.nodes { SaveShape(sys, i, wire, empty); }
    case ClaimSaving(i, id, args, now, wire) =>
      if i in sys.nodes {
        var full := args.(checkpoint := Some((sys.nodes[i].mem, sys.nodes[i].rev)));
        ClaimIsOwn(sys.db, sys.nodes[i], id, full, now);
        ClaimRequests(sys.db, id, full, now);
        OwnShape(sys, i, ClaimRevision(Claim(sys.db, id, full, now)), wire, empty);
      }
    case StoreSaving(i, id, token, result, now, wire) =>
      if i in sys.nodes {
        var saved := Some((sys.nodes[i].mem, sys.nodes[i].rev));
        StoreIsOwn(sys.db, sys.nodes[i], id, token, result, now);
        StoreRequests(sys.db, id, token, result, saved, now);
        OwnShape(sys, i, StoreResult(sys.db, id, token, result, saved, now), wire, empty);
      }
    case Tell(i, job, now) =>
      if i in sys.nodes && Investigates(job.kind) { TellShape(sys.db, job.(memoryNextId := sys.nodes[i].mem.engine.nextId), now); }
    case Store(call, now) =>
      if Quiet(sys.db, call) {
        QuietRequests(sys.db, call, now);
        QuietIsAside(sys.db, call, now);
      }
    case _ =>
  }

  lemma TellShape(db: Db, job: Job, now: int)
    requires Investigates(job.kind)
    ensures var db' := After(db, Enqueue(db, job, now)); SameRequests(db.rows, db'.rows) && db'.state == db.state
  {
    SameRowsRequests(db.rows);
  }

  lemma SaveShape(sys: System, i: nat, wire: Wire, empty: Image)
    requires Serial(sys, empty) && i in sys.nodes
    ensures var end := Next(sys, Save(i, wire), empty);
            && end.log == sys.log && end.db.rows == sys.db.rows
            && Durable(end.db, empty).registry == Durable(sys.db, empty).registry && Durable(end.db, empty).nextRid == Durable(sys.db, empty).nextRid
  {
    hide TaskInvariant.TableOk, FiledOk, Replay;
    if sys.nodes[i].rev == sys.db.revision { AlikeAgrees(sys.nodes[i].mem, Durable(sys.db, empty)); }
  }

  lemma OwnShape(sys: System, i: nat, tx: Tx<Option<nat>>, wire: Wire, empty: Image)
    requires Serial(sys, empty) && i in sys.nodes && OwnCheckpoint(sys.db, tx, sys.nodes[i])
    requires tx.Commit? ==> SameRequests(sys.db.rows, tx.db.rows)
    ensures var end := SettleIdentity(sys, i, Dump(sys.nodes[i], tx), wire);
            && end.log == sys.log && SameRequests(sys.db.rows, end.db.rows)
            && Durable(end.db, empty).registry == Durable(sys.db, empty).registry && Durable(end.db, empty).nextRid == Durable(sys.db, empty).nextRid
  {
    hide TaskInvariant.TableOk, FiledOk, Replay, SameRequests;
    SameRowsRequests(sys.db.rows);
    if sys.nodes[i].rev == sys.db.revision { AlikeAgrees(sys.nodes[i].mem, Durable(sys.db, empty)); }
  }

  lemma StepKeepsCredit(sys: System, a: Action, empty: Image, cfg: Cfg)
    requires Serial(sys, empty) && CreditOk(sys, empty, cfg) && Honest(sys, a, cfg)
    ensures CreditOk(Next(sys, a, empty), empty, cfg)
  {
    hide DeskOk, Next, Serial, Honest, SameRequests, Passes;
    if IsEffect(a) {
      EffectKeepsCredit(sys, a, empty, cfg);
    } else {
      AsideShape(sys, a, empty);
      var m, m' := Durable(sys.db, empty), Durable(Next(sys, a, empty).db, empty);
      assert Fresh(m) by { DeskIsFresh(sys.db.rows, m, sys.log, empty, cfg); }
      PassesItself(m, m');
      PassedBy(sys.db.rows, Next(sys, a, empty).db.rows, m, m', sys.log, empty, cfg);
    }
  }

  // ---------------------------------------------------------------- runs

  ghost predicate AllHonest(sys: System, actions: seq<Action>, empty: Image, cfg: Cfg)
    decreases |actions|
  {
    |actions| > 0 ==> Honest(sys, actions[0], cfg) && AllHonest(Next(sys, actions[0], empty), actions[1..], empty, cfg)
  }

  lemma {:induction false} RunsKeepCredit(sys: System, actions: seq<Action>, empty: Image, cfg: Cfg)
    requires Serial(sys, empty) && CreditOk(sys, empty, cfg) && AllHonest(sys, actions, empty, cfg)
    requires forall a :: a in actions ==> Sane(a)
    ensures Serial(Run(sys, actions, empty), empty) && CreditOk(Run(sys, actions, empty), empty, cfg)
    decreases |actions|
  {
    hide Serial, CreditOk, Honest, Sane, Next;
    if |actions| > 0 {
      var a := actions[0];
      assert a in actions && forall x :: x in actions[1..] ==> x in actions;
      StepKeepsCredit(sys, a, empty, cfg);
      StepSerial(sys, a, empty);
      RunsKeepCredit(Next(sys, a, empty), actions[1..], empty, cfg);
    }
  }

  /** An entry of the history that settled feedback on the recall `rid`. */
  ghost predicate Settled(entry: Entry, rows: seq<Row>, rid: nat, selected: seq<nat>) {
    entry.tag.TagComplete? && entry.tag.task < |rows| && IsRequest(rows[entry.tag.task]) && Asks(rows[entry.tag.task].payload, rid, selected)
  }

  /** The settlement is the one for exactly those memories, and some committed recall had sent exactly them. */
  ghost predicate SettledRight(entry: Entry, log: seq<Entry>, empty: Image, cfg: Cfg, rid: nat, selected: seq<nat>) {
    SettlesFor(entry.run, cfg, rid, selected) && Recorded(log, empty, rid, selected)
  }

  /** An open request for a verdict on `rid`. */
  ghost predicate Open(r: Row, rid: nat, selected: seq<nat>) {
    IsRequest(r) && !r.state.Done? && Asks(r.payload, rid, selected)
  }

  /** The recall is registered with what it sent, its feedback is accepted, and its credit is open. */
  predicate Awaits(m: Image, rid: nat, selected: seq<nat>) {
    Shows(m, rid, selected) && Credit.Pending(m.registry, rid)
  }

  /** Credit exactly once, over any run with repeated feedback, retries, evictions, aborted and unacknowledged
      commits, crashes and starts: the history settles each recall at most once, by the settlement of what that
      recall was recorded to have sent; and a recall whose request is not settled is still registered, with its
      feedback accepted and its credit open. */
  lemma CreditOnceOverRuns(sys: System, actions: seq<Action>, empty: Image, cfg: Cfg)
    requires Serial(sys, empty) && CreditOk(sys, empty, cfg) && AllHonest(sys, actions, empty, cfg)
    requires forall a :: a in actions ==> Sane(a)
    ensures var end := Run(sys, actions, empty);
            && (forall j, k, rid, s, s' :: 0 <= j < k < |end.log| && Settled(end.log[j], end.db.rows, rid, s) ==>
                  !Settled(end.log[k], end.db.rows, rid, s'))
            && (forall k, rid, s :: 0 <= k < |end.log| && Settled(end.log[k], end.db.rows, rid, s) ==>
                  SettledRight(end.log[k], end.log, empty, cfg, rid, s))
            && (forall id, rid, s :: 0 <= id < |end.db.rows| && Open(end.db.rows[id], rid, s) ==> Awaits(Durable(end.db, empty), rid, s))
  {
    hide Run, Serial, CreditOk, AllHonest, Sane, Settled, SettledRight, Open, Awaits;
    RunsKeepCredit(sys, actions, empty, cfg);
    var end := Run(sys, actions, empty);
    forall j, k, rid, s, s' | 0 <= j < k < |end.log| && Settled(end.log[j], end.db.rows, rid, s)
      ensures !Settled(end.log[k], end.db.rows, rid, s')
    {
      SettledOnlyOnce(end, empty, cfg, j, k, rid, s, s');
    }
    forall k, rid, s | 0 <= k < |end.log| && Settled(end.log[k], end.db.rows, rid, s)
      ensures SettledRight(end.log[k], end.log, empty, cfg, rid, s)
    {
      SettledAsRecorded(end, empty, cfg, k, rid, s);
    }
    forall id, rid, s | 0 <= id < |end.db.rows| && Open(end.db.rows[id], rid, s)
      ensures Awaits(Durable(end.db, empty), rid, s)
    {
      OpenAwaits(end, empty, cfg, id, rid, s);
    }
  }

  lemma SettledOnlyOnce(sys: System, empty: Image, cfg: Cfg, j: nat, k: nat, rid: nat, s: seq<nat>, s': seq<nat>)
    requires Serial(sys, empty) && CreditOk(sys, empty, cfg) && j < k < |sys.log| && Settled(sys.log[j], sys.db.rows, rid, s)
    ensures !Settled(sys.log[k], sys.db.rows, rid, s')
  {
    hide TaskInvariant.TableOk, DurableOk, NodeOk, Filed, Replay, Recorded, Asks, EntryOk, RequestOk;
  }

  lemma SettledAsRecorded(sys: System, empty: Image, cfg: Cfg, k: nat, rid: nat, s: seq<nat>)
    requires CreditOk(sys, empty, cfg) && k < |sys.log| && Settled(sys.log[k], sys.db.rows, rid, s)
    ensures SettledRight(sys.log[k], sys.log, empty, cfg, rid, s)
  {
    hide Replay, Recorded, Asks, SettlesFor;
    var id := sys.log[k].tag.task;
    assert EntryOk(sys.log[k], sys.db.rows, cfg);
    var x, shown := RequestAt(sys.db.rows, Durable(sys.db, empty), sys.log, empty, cfg, id);
    AsksOnce(sys.db.rows[id].payload, rid, s, x, shown);
    var y, sent :| Asks(sys.db.rows[id].payload, y, sent) && SettlesFor(sys.log[k].run, cfg, y, sent);
    AsksOnce(sys.db.rows[id].payload, rid, s, y, sent);
  }

  lemma OpenAwaits(sys: System, empty: Image, cfg: Cfg, id: nat, rid: nat, s: seq<nat>)
    requires CreditOk(sys, empty, cfg) && id < |sys.db.rows| && Open(sys.db.rows[id], rid, s)
    ensures Awaits(Durable(sys.db, empty), rid, s)
  {
    hide DeskOk, Asks;
    var x, shown := RequestAt(sys.db.rows, Durable(sys.db, empty), sys.log, empty, cfg, id);
    AsksOnce(sys.db.rows[id].payload, rid, s, x, shown) by { AskedBy(sys.db.rows[id], Durable(sys.db, empty), x, shown); }
  }

  /** A settlement credits only memories its recall sent, and changes only current versions. */
  lemma SettlementCreditsSent(run: Image -> Outcome, cfg: Cfg, rid: nat, selected: seq<nat>, m: Image)
    requires SettlesFor(run, cfg, rid, selected) && run(m).Made?
    ensures Credit.OnlyCurrent(m.engine.mems, run(m).state.engine.mems)
    ensures run(m).state.engine.mems == m.engine.mems
            || exists used, t :: |used| == |selected| && run(m).state.engine == Credit.CreditAll(m.engine, cfg, selected, used, t).0
                                 && forall id :: id in Credit.CreditAll(m.engine, cfg, selected, used, t).1 ==> id in selected
  {
    hide Credit.OnlyCurrent, Credit.CreditAll, Stamped;
    var used, t, answer, misses :| NoRequests(misses) && run == SettleBody(cfg, rid, selected, used, t, answer, misses);
    Credit.RetiredGetNoCredit(m.engine, cfg, selected, used, t);
    Credit.CreditedIds(m.engine, cfg, selected, used, t);
    Credit.SameIsOnlyCurrent(m.engine.mems);
  }

  /** A fresh installation meets the invariant. */
  lemma FreshDesk(sys: System, empty: Image, cfg: Cfg)
    requires sys.db == EmptyDb(sys.db.capacity) && sys.log == [] && Fresh(empty)
    ensures CreditOk(sys, empty, cfg)
  {
  }
}
