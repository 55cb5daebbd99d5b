/** Any interleaving of instances, workers, crashes and lost acknowledgements leaves one serial history
    of effects, and files each of them at most once. */
module SerialHistory {
  import opened MemoryTypes
  import opened TaskTable
  import opened TaskInvariant
  import opened Sidecar
  import opened VersionGraph

  // ---------------------------------------------------------------- the invariant

  /** The durable state is the replay of the committed effects, as a checkpoint keeps it. */
  ghost predicate DurableOk(db: Db, log: seq<Entry>, empty: Image) {
    && Alike(Durable(db, empty), Replay(empty, log))
    && (db.revision == 0 ==> db.state.None? && |log| == 0)
    && (db.revision > 0 ==> db.state.Some? && Dumped(db.state.value) == db.state.value)
  }

  /** No instance is ahead of the database, and one at its revision has the durable state, but for the
      pins it named last and the broken walks it counted outside of effects. */
  ghost predicate NodeOk(node: Node, db: Db, empty: Image) {
    && node.rev <= db.revision
    && (node.rev == db.revision ==> Alike(node.mem, Durable(db, empty)))
    && node.mem.engine.nextId <= Durable(db, empty).engine.nextId
  }

  /** Receipts of tasks are filed under the completion or under a request. */
  ghost predicate NamedKeys(db: Db) {
    forall k :: k in db.operations ==> k.1 == SEMANTIC || k.1 == OperationKey(RequestOf(k.1))
  }

  function RequestOf(key: Json): Json {
    if |key| >= 3 then key[3..] else ""
  }

  /** An effect is filed at most once, under the answer it gave, and nothing else is filed. */
  ghost predicate FiledOk(db: Db, log: seq<Entry>) {
    && NamedKeys(db)
    && (forall j, k :: 0 <= j < k < |log| && log[j].tag == log[k].tag ==> log[j].tag.TagPlain?)
    && (forall j :: 0 <= j < |log| && !log[j].tag.TagPlain? ==> Filed(db, log[j].tag) == Some(log[j].response))
    && (forall tag :: Filed(db, tag).Some? && !tag.TagCapture? ==> exists j :: 0 <= j < |log| && log[j].tag == tag)
  }

  ghost predicate Serial(sys: System, empty: Image) {
    && TableOk(sys.db)
    && DurableOk(sys.db, sys.log, empty)
    && (forall i :: i in sys.nodes ==> NodeOk(sys.nodes[i], sys.db, empty))
    && sys.db.memoryNextId <= Durable(sys.db, empty).engine.nextId
    && FiledOk(sys.db, sys.log)
  }

  /** Ids are handed out by counting up, and jobs carry the count of their time. */
  ghost predicate CountsUp(run: Image -> Outcome) {
    forall m :: run(m).Made? ==>
      var next := run(m).state.engine.nextId;
      m.engine.nextId <= next && forall job :: job in run(m).jobs ==> job.memoryNextId <= next
  }

  ghost predicate SameOutcome(a: Outcome, b: Outcome) {
    if a.Made? && b.Made? then Alike(a.state, b.state) && a.(state := b.state) == b else a == b
  }

  /** Nothing an effect does turns on the pins named before it or on the count of broken walks. */
  ghost predicate Blind(run: Image -> Outcome) {
    forall m, n :: Alike(m, n) ==> SameOutcome(run(m), run(n))
  }

  ghost predicate Regular(run: Image -> Outcome) {
    CountsUp(run) && Blind(run)
  }

  ghost predicate Sane(a: Action) {
    match a
    case Effect(_, run, _, _) => Regular(run)
    case Captured(_, _, run, _, _) => Regular(run)
    case UnitNext(_, run, _, _) => Regular(run)
    case CompleteTask(_, _, _, mutate, _, _, _) => forall r :: Regular(mutate(r))
    case Operate(_, _, _, _, run, _, _, _) => Regular(run)
    case _ => true
  }

  // ---------------------------------------------------------------- what a transaction did

  /** Only the receipt of `tag` may have been added. */
  ghost predicate FiledOnly(db: Db, db': Db, tag: Tag) {
    forall x :: x != tag ==> Filed(db', x) == Filed(db, x)
  }

  ghost predicate Replayed(db: Db, tx: Tx<Reply>, entry: Entry, rev: nat)
    requires tx.Commit?
  {
    tx.db == db && tx.value.revision == rev && Filed(db, entry.tag) == Some(tx.value.response)
  }

  ghost predicate Written(db: Db, tx: Tx<Reply>, made: Outcome, entry: Entry)
    requires tx.Commit?
  {
    && made.Made? && tx.db.revision == db.revision + 1 == tx.value.revision
    && tx.db.state == Some(Dumped(made.state))
    && tx.value.response == entry.response == made.response
    && (!entry.tag.TagPlain? ==> Filed(db, entry.tag).None? && Filed(tx.db, entry.tag) == Some(made.response))
    && FiledOnly(db, tx.db, entry.tag) && (NamedKeys(db) ==> NamedKeys(tx.db))
  }

  lemma {:induction false} EnqueueAllIds(db: Db, jobs: seq<Job>, now: int, bound: nat)
    requires EnqueueAll(db, jobs, now).Commit? && db.memoryNextId <= bound
    requires forall job :: job in jobs ==> job.memoryNextId <= bound
    ensures EnqueueAll(db, jobs, now).db.memoryNextId <= bound
    decreases |jobs|
  {
    if |jobs| > 0 {
      assert jobs[0] in jobs;
      EnqueueAllIds(Enqueue(db, jobs[0], now).db, jobs[1..], now, bound);
    }
  }

  lemma CommitEffectIds(db: Db, made: Outcome, expected: nat, now: int, e: Image)
    requires CommitEffect(db, made, expected, now).Commit? && db.memoryNextId <= e.engine.nextId
    requires e.engine.nextId <= made.state.engine.nextId && forall job :: job in made.jobs ==> job.memoryNextId <= made.state.engine.nextId
    ensures CommitEffect(db, made, expected, now).db.memoryNextId <= made.state.engine.nextId
  {
    EnqueueAllIds(db, made.jobs, now, made.state.engine.nextId);
  }

  lemma OperationKeys(a: Json, b: Json)
    ensures OperationKey(a) != SEMANTIC
    ensures OperationKey(a) == OperationKey(b) ==> a == b
    ensures RequestOf(OperationKey(a)) == a
  {
    assert OperationKey(a)[0] == 'o' && SEMANTIC[0] == 's';
    assert OperationKey(a)[3..] == a && OperationKey(b)[3..] == b;
  }

  lemma SameReceiptsFiled(db: Db, db': Db)
    requires db'.operations == db.operations && db'.unitReceipts == db.unitReceipts && db'.captures == db.captures
    ensures forall x :: Filed(db', x) == Filed(db, x)
  {
  }

  /** The effect of an instance at its current memory: `made`. */
  ghost predicate Prepared(sys: System, a: Action, tx: Tx<Reply>, made: Outcome, entry: Entry)
    requires IsEffect(a) && a.i in sys.nodes
  {
    var node := sys.nodes[a.i];
    && made == entry.run(node.mem)
    && (tx.Commit? ==> node.rev == sys.db.revision)
    && (tx.Commit? && tx.value.replayed ==> Replayed(sys.db, tx, entry, node.rev))
    && (tx.Commit? && !tx.value.replayed ==> Written(sys.db, tx, made, entry))
    && (tx.Commit? && !tx.value.replayed && Sane(a) && sys.db.memoryNextId <= node.mem.engine.nextId ==>
          node.mem.engine.nextId <= made.state.engine.nextId && tx.db.memoryNextId <= made.state.engine.nextId)
    && (Sane(a) ==> Blind(entry.run))
    && (TableOk(sys.db) && tx.Commit? ==> TableOk(tx.db))
  }

  /** What a committed effect with its jobs leaves, before any receipt is added. */
  ghost predicate Committed(db: Db, made: Outcome, rev: nat, tx: Tx<Reply>, mem: Image, regular: bool) {
    && tx.Commit? && made.Made? && db.revision == rev && tx.value == Reply(made.response, rev + 1, false)
    && tx.db.revision == rev + 1 && tx.db.state == Some(Dumped(made.state))
    && tx.db.operations == db.operations && tx.db.unitReceipts == db.unitReceipts && tx.db.captures == db.captures
    && (TableOk(db) ==> TableOk(tx.db))
    && (regular && db.memoryNextId <= mem.engine.nextId ==>
          mem.engine.nextId <= made.state.engine.nextId && tx.db.memoryNextId <= made.state.engine.nextId)
  }

  lemma CommitCommits(db: Db, run: Image -> Outcome, rev: nat, now: int, mem: Image)
    requires CommitEffect(db, run(mem), rev, now).Commit?
    ensures Committed(db, run(mem), rev, CommitEffect(db, run(mem), rev, now), mem, Regular(run))
  {
    hide CommitEffect, TableOk, Blind;
    var made := run(mem);
    CommitEffectShape(db, made, rev, now);
    if TableOk(db) { CommitEffectKeeps(db, made, rev, now); }
    if Regular(run) && db.memoryNextId <= mem.engine.nextId { CommitEffectIds(db, made, rev, now, mem); }
  }

  lemma EffectPrepared(sys: System, a: Action)
    requires a.Effect? && MayAttempt(sys, a)
    ensures var (tx, made, entry) := Attempt(sys, a); Prepared(sys, a, tx, made, entry)
  {
    hide CommitEffect, TableOk, Waits, Regular;
    var db, node := sys.db, sys.nodes[a.i];
    if CommitEffect(db, a.run(node.mem), node.rev, a.now).Commit? {
      CommitCommits(db, a.run, node.rev, a.now, node.mem);
      SameReceiptsFiled(db, CommitEffect(db, a.run(node.mem), node.rev, a.now).db);
    }
    assert Sane(a) ==> Blind(a.run) by { RegularIsBlind(a.run); }
  }

  lemma CapturedPrepared(sys: System, a: Action)
    requires a.Captured? && MayAttempt(sys, a)
    ensures var (tx, made, entry) := Attempt(sys, a); Prepared(sys, a, tx, made, entry)
  {
    hide CommitEffect, TableOk, Waits, Regular;
    var db, node := sys.db, sys.nodes[a.i];
    if CommitEffect(db, a.run(node.mem), node.rev, a.now).Commit? {
      CommitCommits(db, a.run, node.rev, a.now, node.mem);
      var db1 := CommitEffect(db, a.run(node.mem), node.rev, a.now).db;
      if TableOk(db) { TableUnderReceipts(db1); }
    }
    assert Sane(a) ==> Blind(a.run) by { RegularIsBlind(a.run); }
  }

  lemma UnitPrepared(sys: System, a: Action)
    requires a.UnitNext? && MayAttempt(sys, a)
    ensures var (tx, made, entry) := Attempt(sys, a); Prepared(sys, a, tx, made, entry)
  {
    hide CommitEffect, TableOk, Waits, Regular;
    var db, node := sys.db, sys.nodes[a.i];
    if CommitEffect(db, a.run(node.mem), node.rev, a.now).Commit? {
      CommitCommits(db, a.run, node.rev, a.now, node.mem);
      var db1 := CommitEffect(db, a.run(node.mem), node.rev, a.now).db;
      if TableOk(db) { TableUnderReceipts(db1); }
    }
    assert Sane(a) ==> Blind(a.run) by { RegularIsBlind(a.run); }
  }

  lemma RegularIsBlind(run: Image -> Outcome)
    ensures Regular(run) ==> Blind(run)
  {
  }

  lemma TableUnderReceipts(db: Db)
    requires TableOk(db)
    ensures forall db': Db :: db'.rows == db.rows && db'.drawn == db.drawn && db'.capacity == db.capacity ==> TableOk(db')
  {
  }

  lemma CompletePrepared(sys: System, a: Action)
    requires a.CompleteTask? && MayAttempt(sys, a)
    ensures var (tx, made, entry) := Attempt(sys, a); Prepared(sys, a, tx, made, entry)
  {
    hide CommitEffect, TableOk;
    var db, node := sys.db, sys.nodes[a.i];
    var (tx, made, entry) := Attempt(sys, a);
    if tx.Commit? {
      var released := db.(rows := db.rows[a.id := db.rows[a.id].Released(Done, a.now)]);
      CommitEffectShape(released, made, node.rev, a.now);
      var db1 := CommitEffect(released, made, node.rev, a.now).db;
      SameReceiptsFiled(db, db1);
      CompletionFiled(db1, a.id, made.response);
      if TableOk(db) { CompleteKeeps(db, a.id, a.token, r => a.mutate(r)(node.mem), node.rev, a.now, a.later); }
      if Sane(a) && db.memoryNextId <= node.mem.engine.nextId { CommitEffectIds(released, made, node.rev, a.now, node.mem); }
      SameReceiptsFiled(db1.(operations := db1.operations[(a.id, SEMANTIC) := made.response]), tx.db);
    }
  }

  lemma CompletionFiled(db: Db, id: nat, response: Json)
    ensures var db' := db.(operations := db.operations[(id, SEMANTIC) := response]);
            FiledOnly(db, db', TagComplete(id)) && Filed(db', TagComplete(id)) == Some(response)
  {
    forall x: Tag | x.TagOperation?
      ensures OperationKey(x.request) != SEMANTIC
    {
      OperationKeys(x.request, x.request);
    }
  }

  lemma OperationFiled(db: Db, id: nat, request: Json, response: Json)
    ensures var db' := db.(operations := db.operations[(id, OperationKey(request)) := response]);
            FiledOnly(db, db', TagOperation(id, request)) && Filed(db', TagOperation(id, request)) == Some(response)
  {
    forall x: Tag | x.TagOperation?
      ensures OperationKey(x.request) == OperationKey(request) ==> x.request == request
    {
      OperationKeys(x.request, request);
    }
    OperationKeys(request, request);
  }

  lemma OperatePrepared(sys: System, a: Action)
    requires a.Operate? && MayAttempt(sys, a)
    ensures var (tx, made, entry) := Attempt(sys, a); Prepared(sys, a, tx, made, entry)
  {
    hide TableOk, OperationKey;
    var db, node := sys.db, sys.nodes[a.i];
    var (tx, made, entry) := Attempt(sys, a);
    if tx.Commit? {
      if TableOk(db) { TableUnderReceipts(db); }
      if !tx.value.replayed {
        OperationKeys(a.request, a.request);
        OperationFiled(db, a.id, a.request, made.response);
        SameReceiptsFiled(db.(operations := db.operations[(a.id, OperationKey(a.request)) := made.response]), tx.db);
      }
    }
  }

  lemma AttemptPrepared(sys: System, a: Action)
    requires IsEffect(a) && MayAttempt(sys, a)
    ensures var (tx, made, entry) := Attempt(sys, a); Prepared(sys, a, tx, made, entry)
  {
    hide Attempt, Prepared, MayAttempt;
    if a.CompleteTask? {
      CompletePrepared(sys, a);
    } else if a.Operate? {
      OperatePrepared(sys, a);
    } else if a.UnitNext? {
      UnitPrepared(sys, a);
    } else if a.Captured? {
      CapturedPrepared(sys, a);
    } else {
      EffectPrepared(sys, a);
    }
  }

  // ---------------------------------------------------------------- one effect

  lemma FiledAppend(db: Db, tx: Tx<Reply>, made: Outcome, entry: Entry, log: seq<Entry>)
    requires FiledOk(db, log) && tx.Commit? && Written(db, tx, made, entry)
    ensures FiledOk(tx.db, log + [entry])
  {
    hide Filed;
    var log' := log + [entry];
    PlainUnfiled(db);
    PlainUnfiled(tx.db);
    forall j | 0 <= j < |log| && !log[j].tag.TagPlain?
      ensures log[j].tag != entry.tag
    {
    }
    forall tag | Filed(tx.db, tag).Some? && !tag.TagCapture?
      ensures exists j :: 0 <= j < |log'| && log'[j].tag == tag
    {
      if tag == entry.tag {
        assert log'[|log|].tag == tag;
      } else {
        assert Filed(db, tag).Some?;
        var j :| 0 <= j < |log| && log[j].tag == tag;
        assert log'[j].tag == tag;
      }
    }
  }

  lemma PlainUnfiled(db: Db)
    ensures Filed(db, TagPlain).None?
  {
  }

  lemma ReplayAppend(empty: Image, log: seq<Entry>, entry: Entry)
    ensures Replay(empty, log + [entry]) ==
            var e := Replay(empty, log); if entry.run(e).Made? then entry.run(e).state else e
  {
    assert (log + [entry])[..|log|] == log;
  }

  /** Instances that were in order stay so when the database moves on, and ids only grow. */
  lemma NodesFollow(sys: System, db: Db, empty: Image)
    requires forall i :: i in sys.nodes ==> NodeOk(sys.nodes[i], sys.db, empty)
    requires db.revision > sys.db.revision && Durable(sys.db, empty).engine.nextId <= Durable(db, empty).engine.nextId
    ensures forall i :: i in sys.nodes ==> sys.nodes[i].rev < db.revision && NodeOk(sys.nodes[i], db, empty)
  {
  }

  lemma SettleSerial(sys: System, a: Action, empty: Image)
    requires Serial(sys, empty) && IsEffect(a) && MayAttempt(sys, a) && Sane(a)
    requires var (tx, made, entry) := Attempt(sys, a);
             Prepared(sys, a, tx, made, entry) && (tx.Commit? && !tx.value.replayed ==> made.Made?)
    ensures var (tx, made, entry) := Attempt(sys, a); Serial(Settle(sys, a.i, tx, made, entry, a.wire), empty)
  {
    hide Attempt, TableOk, FiledOk, Replay, Waits, Sane, FiledOnly, Filed;
    var (tx, made, entry) := Attempt(sys, a);
    var node := sys.nodes[a.i];
    if tx.Commit? && a.wire.commits && !tx.value.replayed {
      ReplayAppend(empty, sys.log, entry);
      FiledAppend(sys.db, tx, made, entry, sys.log);
      NodesFollow(sys, tx.db, empty);
    }
  }

  lemma ScanIsSerial(sys: System, i: nat, scan: seq<nat>, ack: Option<nat>, empty: Image)
    requires Serial(sys, empty) && i in sys.nodes
    ensures Serial(sys.(nodes := sys.nodes[i := sys.nodes[i].(scan := scan, ack := ack)]), empty)
  {
    hide TableOk, FiledOk, Replay;
  }

  lemma EffectStepSerial(sys: System, a: Action, empty: Image)
    requires Serial(sys, empty) && IsEffect(a) && Sane(a)
    ensures Serial(EffectStep(sys, a), empty)
  {
    hide Serial, Attempt, Settle, Waits, Sane;
    if MayAttempt(sys, a) {
      AttemptPrepared(sys, a);
      AttemptShape(sys, a);
      SettleSerial(sys, a, empty);
      var (tx, made, entry) := Attempt(sys, a);
      var sys1 := Settle(sys, a.i, tx, made, entry, a.wire);
      if a.UnitNext? {
        assert a.i in sys1.nodes by { SettleNodes(sys, a.i, tx, made, entry, a.wire); }
        var n := ScanAfter(sys1.nodes[a.i], tx, a.wire);
        ScanIsSerial(sys1, a.i, n.scan, n.ack, empty);
      }
    } else if a.i in sys.nodes {
      ScanIsSerial(sys, a.i, [], sys.nodes[a.i].ack, empty);
    }
  }

  lemma SettleNodes(sys: System, i: nat, tx: Tx<Reply>, made: Outcome, entry: Entry, wire: Wire)
    requires i in sys.nodes && (tx.Commit? && !tx.value.replayed ==> made.Made?)
    ensures Settle(sys, i, tx, made, entry, wire).nodes.Keys == sys.nodes.Keys
  {
  }

  // ---------------------------------------------------------------- commits of unchanged memory

  /** The transaction wrote the instance's own memory as the next checkpoint, or wrote none. */
  ghost predicate OwnCheckpoint(db: Db, tx: Tx<Option<nat>>, node: Node) {
    tx.Commit? ==>
      && (TableOk(db) ==> TableOk(tx.db))
      && tx.db.memoryNextId == db.memoryNextId
      && tx.db.operations == db.operations && tx.db.unitReceipts == db.unitReceipts && tx.db.captures == db.captures
      && if tx.value.Some?
         then db.revision == node.rev && tx.db.revision == node.rev + 1 == tx.value.value && tx.db.state == Some(Dumped(node.mem))
         else tx.db.revision == db.revision && tx.db.state == db.state
  }

  lemma SameReceipts(db: Db, db': Db, log: seq<Entry>)
    requires FiledOk(db, log)
    requires db'.operations == db.operations && db'.unitReceipts == db.unitReceipts && db'.captures == db.captures
    ensures FiledOk(db', log)
  {
    hide Filed;
    SameReceiptsFiled(db, db');
  }

  lemma IdentitySerial(sys: System, i: nat, tx: Tx<Option<nat>>, wire: Wire, empty: Image)
    requires Serial(sys, empty) && i in sys.nodes && OwnCheckpoint(sys.db, tx, sys.nodes[i])
    ensures var sys' := SettleIdentity(sys, i, tx, wire);
            Serial(sys', empty) && sys'.log == sys.log && Alike(Durable(sys'.db, empty), Durable(sys.db, empty))
  {
    hide TableOk, FiledOk, Replay;
    if tx.Commit? && wire.commits {
      SameReceipts(sys.db, tx.db, sys.log);
      if tx.value.Some? {
        NodesFollow(sys, tx.db, empty);
      }
    }
  }

  lemma SaveIsOwn(db: Db, node: Node)
    ensures OwnCheckpoint(db, SaveRevision(WriteCheckpoint(db, node.mem, node.rev)), node)
  {
    hide CountActive, RowsOk;
  }

  lemma ClaimIsOwn(db: Db, node: Node, id: nat, args: ClaimArgs, now: int)
    requires args.checkpoint == Some((node.mem, node.rev))
    ensures OwnCheckpoint(db, ClaimRevision(Claim(db, id, args, now)), node)
  {
    hide TableOk, Claimed;
    var tx := Claim(db, id, args, now);
    if tx.Commit? && TableOk(db) {
      ClaimKeeps(db, id, args, now);
    }
  }

  lemma StoreIsOwn(db: Db, node: Node, id: nat, token: nat, result: Json, now: int)
    ensures OwnCheckpoint(db, StoreResult(db, id, token, result, Some((node.mem, node.rev)), now), node)
  {
    hide TableOk;
    var tx := StoreResult(db, id, token, result, Some((node.mem, node.rev)), now);
    if tx.Commit? && TableOk(db) {
      StoreResultKeeps(db, id, token, result, Some((node.mem, node.rev)), now);
    }
  }

  lemma DumpIsOwn(db: Db, tx: Tx<Option<nat>>, node: Node)
    requires OwnCheckpoint(db, tx, node)
    ensures OwnCheckpoint(db, Dump(node, tx), node)
  {
  }

  // ---------------------------------------------------------------- other steps

  /** What a step outside every effect may do to the database. */
  ghost predicate Aside(db: Db, db': Db, bound: nat) {
    && (TableOk(db) ==> TableOk(db'))
    && db'.revision == db.revision && db'.state == db.state
    && (db.memoryNextId <= bound ==> db'.memoryNextId <= bound)
    && db'.operations == db.operations && db'.unitReceipts == db.unitReceipts
    && (forall r :: r in db.captures ==> r in db'.captures && db'.captures[r] == db.captures[r])
  }

  lemma AsideSerial(sys: System, db: Db, bound: nat, empty: Image)
    requires Serial(sys, empty) && Aside(sys.db, db, bound) && bound <= Durable(sys.db, empty).engine.nextId
    requires sys.db.memoryNextId <= bound || db.memoryNextId <= Durable(sys.db, empty).engine.nextId
    ensures Serial(sys.(db := db), empty)
  {
    hide TableOk, Replay;
    forall j | 0 <= j < |sys.log| && !sys.log[j].tag.TagPlain?
      ensures Filed(db, sys.log[j].tag) == Some(sys.log[j].response)
    {
    }
    forall tag: Tag | Filed(db, tag).Some? && !tag.TagCapture?
      ensures exists j :: 0 <= j < |sys.log| && sys.log[j].tag == tag
    {
      assert Filed(sys.db, tag).Some?;
    }
  }

  lemma QuietIsAside(db: Db, call: Call, now: int)
    requires Quiet(db, call)
    ensures Aside(db, Perform(db, call, now), db.memoryNextId)
  {
    hide TableOk, Perform, Evolves;
    if TableOk(db) {
      CallKeeps(db, call, now);
    }
    if call.CallRemember? {
      RememberKeepsState(db, call.capture, call.response, now);
    } else if call.CallClaim? {
      ClaimKeepsState(db, call.id, call.args, now);
    } else {
      QuietKeepsState(db, call, now);
    }
  }

  ghost predicate SameState(db: Db, db': Db) {
    && db'.revision == db.revision && db'.state == db.state && db'.memoryNextId == db.memoryNextId
    && db'.operations == db.operations && db'.unitReceipts == db.unitReceipts
  }

  lemma RememberKeepsState(db: Db, capture: Capture, response: Json, now: int)
    ensures var db' := Perform(db, CallRemember(capture, response), now);
            SameState(db, db') && forall r :: r in db.captures ==> r in db'.captures && db'.captures[r] == db.captures[r]
  {
  }

  lemma ClaimKeepsState(db: Db, id: nat, args: ClaimArgs, now: int)
    requires args.checkpoint.None?
    ensures var db' := Perform(db, CallClaim(id, args), now); SameState(db, db') && db'.captures == db.captures
  {
    hide Claimed, PolicyFor;
  }

  lemma QuietKeepsState(db: Db, call: Call, now: int)
    requires Quiet(db, call) && !call.CallRemember? && !call.CallClaim?
    ensures var db' := Perform(db, call, now); SameState(db, db') && db'.captures == db.captures
  {
    hide RetryState, Backoff, Recovered, AllKnown, Owned;
  }

  lemma TellIsAside(db: Db, job: Job, now: int, bound: nat)
    requires job.memoryNextId <= bound
    ensures Aside(db, After(db, Enqueue(db, job, now)), bound)
  {
    hide TableOk, Evolves;
    if TableOk(db) && Enqueue(db, job, now).Commit? {
      EnqueueKeeps(db, job, now);
    }
  }

  lemma GlanceSerial(sys: System, i: nat, left: nat, right: nat, empty: Image)
    requires Serial(sys, empty) && i in sys.nodes
    ensures Serial(Next(sys, Glance(i, left, right), empty), empty)
  {
    hide TableOk, FiledOk, Replay, Follow;
  }

  /** A restarted instance has exactly the durable state: the id bound never exceeds its counter. */
  lemma RestartSerial(sys: System, i: nat, empty: Image)
    requires Serial(sys, empty)
    ensures var node := Booted(sys.db, empty);
            node.Some? ==> node.value.mem == Durable(sys.db, empty) && node.value.rev == sys.db.revision
    ensures Serial(Next(sys, Restart(i), empty), empty)
  {
    hide TableOk, FiledOk, Replay;
  }

  lemma StepSerial(sys: System, a: Action, empty: Image)
    requires Serial(sys, empty) && Sane(a)
    ensures Serial(Next(sys, a, empty), empty)
  {
    hide TableOk, DurableOk, NodeOk, FiledOk, Quiet, Aside, OwnCheckpoint, EffectStep, SettleIdentity, Perform, Enqueue,
         Claim, StoreResult, Booted, Sane;
    if IsEffect(a) {
      EffectStepSerial(sys, a, empty);
    } else {
      match a
      case Save(i, wire) =>
        if Next(sys, a, empty) != sys {
          SaveIsOwn(sys.db, sys.nodes[i]);
          IdentitySerial(sys, i, SaveRevision(WriteCheckpoint(sys.db, sys.nodes[i].mem, sys.nodes[i].rev)), wire, empty);
        }
      case ClaimSaving(i, id, args, now, wire) =>
        if i in sys.nodes {
          var full := args.(checkpoint := Some((sys.nodes[i].mem, sys.nodes[i].rev)));
          ClaimIsOwn(sys.db, sys.nodes[i], id, full, now);
          DumpIsOwn(sys.db, ClaimRevision(Claim(sys.db, id, full, now)), sys.nodes[i]);
          IdentitySerial(sys, i, Dump(sys.nodes[i], ClaimRevision(Claim(sys.db, id, full, now))), wire, empty);
        }
      case StoreSaving(i, id, token, result, now, wire) =>
        if i in sys.nodes {
          StoreIsOwn(sys.db, sys.nodes[i], id, token, result, now);
          var saved := Some((sys.nodes[i].mem, sys.nodes[i].rev));
          DumpIsOwn(sys.db, StoreResult(sys.db, id, token, result, saved, now), sys.nodes[i]);
          IdentitySerial(sys, i, Dump(sys.nodes[i], StoreResult(sys.db, id, token, result, saved, now)), wire, empty);
        }
      case Tell(i, job, now) =>
        if Next(sys, a, empty) != sys {
          var bound := Durable(sys.db, empty).engine.nextId;
          TellIsAside(sys.db, job.(memoryNextId := sys.nodes[i].mem.engine.nextId), now, bound) by { NodeIds(sys, i, empty); }
          AsideSerial(sys, After(sys.db, Enqueue(sys.db, job.(memoryNextId := sys.nodes[i].mem.engine.nextId), now)), bound, empty);
        }
      case Store(call, now) =>
        if Quiet(sys.db, call) {
          QuietIsAside(sys.db, call, now);
          AsideSerial(sys, Perform(sys.db, call, now), sys.db.memoryNextId, empty);
        }
      case Glance(i, left, right) => if i in sys.nodes { GlanceSerial(sys, i, left, right, empty); }
      case Restart(i) => RestartSerial(sys, i, empty);
      case Scan(i, limit) =>
        if i in sys.nodes { ScanIsSerial(sys, i, PendingUnits(sys.ev.work, limit), sys.nodes[i].ack, empty); }
      case Acknowledge(i) =>
        if i in sys.nodes { ScanIsSerial(sys, i, sys.nodes[i].scan, None, empty); }
      case GiveUp(i) =>
        if i in sys.nodes { ScanIsSerial(sys, i, [], None, empty); }
      case _ =>
    }
  }

  lemma NodeIds(sys: System, i: nat, empty: Image)
    requires Serial(sys, empty) && i in sys.nodes
    ensures sys.nodes[i].mem.engine.nextId <= Durable(sys.db, empty).engine.nextId
  {
  }

  /** Serial history: after any run, the durable state is the replay of the committed effects, an
      instance at the current revision has exactly that state in memory, and every receipt stands for
      exactly one of the committed effects. */
  lemma {:induction false} RunsAreSerial(sys: System, actions: seq<Action>, empty: Image)
    requires Serial(sys, empty) && forall a :: a in actions ==> Sane(a)
    ensures Serial(Run(sys, actions, empty), empty)
    decreases |actions|
  {
    hide Serial, Sane, Next;
    if |actions| > 0 {
      assert actions[0] in actions;
      StepSerial(sys, actions[0], empty);
      forall a | a in actions[1..]
        ensures Sane(a)
      {
        assert a in actions;
      }
      RunsAreSerial(Next(sys, actions[0], empty), actions[1..], empty);
    }
  }
}
