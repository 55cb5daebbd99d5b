/** An effect on the service's heap: memory objects, queued signals and registered retrievals are changed
    in place, and after an error every object that existed before has its old contents again. */
module EffectRollback {
  import opened MemoryTypes
  import opened EngineHeap

  class Signal {
    const kind: string
    var payload: string
    var t: int

    constructor (kind: string, payload: string, t: int)
      ensures this.payload == payload && this.t == t
    {
      this.kind, this.payload, this.t := kind, payload, t;
    }
  }

  datatype RetrievalFields = RetrievalFields(selected: seq<nat>, texts: seq<string>, feedbackSent: bool, credited: bool, nUseful: nat)

  class Retrieval {
    var fields: RetrievalFields

    constructor (fields: RetrievalFields)
      ensures this.fields == fields
    {
      this.fields := fields;
    }
  }

  /** The durable store, as far as an effect sees it. */
  class Checkpoints {
    var revision: nat
    var state: Option<Engine>
  }

  /** The service's own cursors. */
  datatype Cursors = Cursors(t: int, unitId: nat, scene: string, sceneT: int, lastTurn: Option<(string, Option<nat>)>,
                             missCounts: map<string, nat>, counters: seq<int>)

  /** What an effect can do before it raises or ends: write any field of any object it can reach, insert
      and delete, and replace any container. */
  datatype Write =
    | SetMemory(target: Memory, to: Mem)
    | SetStored(id: nat, to: Mem)
    | NewMemory(m: Mem)
    | DropMemory(id: nat)
    | SetTensions(tensions: map<Pair, Tension>)
    | SetShadow(shadow: seq<Shadow>)
    | SetExternal(external: set<nat>)
    | CountBroken
    | SetCursors(cursors: Cursors)
    | Emit(kind: string, key: string, payload: string, t: int)
    | Amend(signal: Signal, payload: string, t: int)
    | Drain
    | SetRetrieval(ret: Retrieval, fields: RetrievalFields)
    | NewRetrieval(fields: RetrievalFields)
    | DropRetrieval(rid: nat)
    | Raise

  datatype Backup = Backup(
    mems: map<nat, Memory>, fields: map<nat, Mem>,
    tensions: map<Pair, Tension>, shadow: seq<Shadow>, external: set<nat>, nextId: nat, broken: nat,
    cursors: Cursors,
    items: seq<Signal>, payloads: seq<(string, int)>, byKey: map<string, Signal>,
    retrievals: map<nat, Retrieval>, retrievalFields: map<nat, RetrievalFields>, nextRetrieval: nat)

  class Service {
    const eng: MemoryEngine
    const store: Checkpoints
    var cursors: Cursors
    var items: seq<Signal>
    var byKey: map<string, Signal>
    var retrievals: map<nat, Retrieval>
    var nextRetrieval: nat
    var revision: nat
    var fault: bool

    constructor (eng: MemoryEngine, store: Checkpoints, cursors: Cursors)
      ensures this.eng == eng && this.store == store && this.cursors == cursors
      ensures items == [] && byKey == map[] && retrievals == map[] && nextRetrieval == 0
      ensures revision == store.revision && !fault
    {
      this.eng, this.store, this.cursors := eng, store, cursors;
      items, byKey, retrievals, nextRetrieval := [], map[], map[], 0;
      revision, fault := store.revision, false;
    }

    ghost function Signals(): set<Signal>
      reads this
    {
      set s | s in items
    }

    ghost function Registered(): set<Retrieval>
      reads this
    {
      set rid | rid in retrievals :: retrievals[rid]
    }

    // -------------------------------------------------------------- backup and restore

    /** Everything an effect may change, by value, beside the objects it must be put back into. */
    function Snapshot(): Backup
      reads this, eng, eng.Objects(), Signals(), Registered()
    {
      Backup(eng.mems, eng.Graph(), eng.tensions, eng.shadow, eng.external, eng.nextId, eng.broken, cursors,
             items, seq(|items|, i requires 0 <= i < |items| reads this, Signals() => (items[i].payload, items[i].t)), byKey,
             retrievals, map rid | rid in retrievals :: retrievals[rid].fields, nextRetrieval)
    }

    /** The objects and values of a backup belong together. */
    ghost predicate Consistent(b: Backup) {
      && b.fields.Keys == b.mems.Keys && eng.cfg.Ok()
      && (forall id :: id in b.mems ==> id < b.nextId && b.mems[id].id == id && b.mems[id].Fits(b.fields[id]))
      && |b.payloads| == |b.items|
      && (forall i, j :: 0 <= i < |b.items| && 0 <= j < |b.items| && b.items[i] == b.items[j] ==> b.payloads[i] == b.payloads[j])
      && b.retrievalFields.Keys == b.retrievals.Keys
      && (forall i, j :: i in b.retrievals && j in b.retrievals && b.retrievals[i] == b.retrievals[j] ==> b.retrievalFields[i] == b.retrievalFields[j])
    }

    lemma SnapshotConsistent()
      requires eng.Valid()
      ensures Consistent(Snapshot())
    {
    }

    ghost function Kept(b: Backup): set<object> {
      (set id | id in b.mems :: b.mems[id] as object) + (set s | s in b.items :: s as object) + (set rid | rid in b.retrievals :: b.retrievals[rid] as object)
    }

    lemma SnapshotReach()
      ensures Kept(Snapshot()) <= (set m | m in eng.Objects() :: m as object) + (set s | s in Signals() :: s as object) + (set r | r in Registered() :: r as object)
    {
      var b := Snapshot();
      var kept := Kept(b);
      forall o | o in kept
        ensures o in (set m | m in eng.Objects() :: m as object) + (set s | s in Signals() :: s as object) + (set r | r in Registered() :: r as object)
      {
        if o in (set id | id in b.mems :: b.mems[id] as object) {
          var id :| id in b.mems && o == b.mems[id];
          assert eng.mems[id] in eng.Objects();
        } else if o in (set s | s in b.items :: s as object) {
          var s :| s in b.items && o == s;
          assert s in Signals();
        } else {
          var rid :| rid in b.retrievals && o == b.retrievals[rid];
          assert retrievals[rid] in Registered();
        }
      }
    }

    method RestoreMemories(b: Backup)
      requires Consistent(b)
      modifies set id | id in b.mems :: b.mems[id]
      ensures forall id :: id in b.mems ==> b.mems[id].View() == b.fields[id]
    {
      var todo := b.mems.Keys;
      while todo != {}
        invariant todo <= b.mems.Keys
        invariant forall id :: id in b.mems && id !in todo ==> b.mems[id].View() == b.fields[id]
        decreases |todo|
      {
        var id :| id in todo;
        todo := todo - {id};
        b.mems[id].Set(b.fields[id]);
      }
    }

    method RestoreSignals(b: Backup)
      requires Consistent(b)
      modifies (set s | s in b.items)
      ensures forall i :: 0 <= i < |b.items| ==> (b.items[i].payload, b.items[i].t) == b.payloads[i]
    {
      for i := 0 to |b.items|
        invariant forall j :: 0 <= j < i ==> (b.items[j].payload, b.items[j].t) == b.payloads[j]
      {
        b.items[i].payload, b.items[i].t := b.payloads[i].0, b.payloads[i].1;
      }
    }

    method RestoreRetrievals(b: Backup)
      requires Consistent(b)
      modifies set rid | rid in b.retrievals :: b.retrievals[rid]
      ensures forall rid :: rid in b.retrievals ==> b.retrievals[rid].fields == b.retrievalFields[rid]
    {
      var todo := b.retrievals.Keys;
      while todo != {}
        invariant todo <= b.retrievals.Keys
        invariant forall rid :: rid in b.retrievals && rid !in todo ==> b.retrievals[rid].fields == b.retrievalFields[rid]
        decreases |todo|
      {
        var rid :| rid in todo;
        todo := todo - {rid};
        b.retrievals[rid].fields := b.retrievalFields[rid];
      }
    }

    /** Every object holds what the backup says. */
    ghost predicate Restored(b: Backup)
      requires Consistent(b)
      reads set id | id in b.mems :: b.mems[id], set s | s in b.items, set rid | rid in b.retrievals :: b.retrievals[rid]
    {
      && (forall id :: id in b.mems ==> b.mems[id].View() == b.fields[id])
      && (forall i :: 0 <= i < |b.items| ==> (b.items[i].payload, b.items[i].t) == b.payloads[i])
      && (forall rid :: rid in b.retrievals ==> b.retrievals[rid].fields == b.retrievalFields[rid])
    }

    method RestoreObjects(b: Backup)
      requires Consistent(b)
      modifies Kept(b)
      ensures Restored(b)
    {
      RestoreMemories(b);
      RestoreSignals(b);
      RestoreRetrievals(b);
    }

    method RestoreEngine(b: Backup)
      modifies eng`mems, eng`tensions, eng`shadow, eng`external, eng`nextId, eng`broken
      ensures eng.mems == b.mems && eng.tensions == b.tensions && eng.shadow == b.shadow
      ensures eng.external == b.external && eng.nextId == b.nextId && eng.broken == b.broken
    {
      eng.mems, eng.tensions, eng.shadow, eng.external := b.mems, b.tensions, b.shadow, b.external;
      eng.nextId, eng.broken := b.nextId, b.broken;
    }

    method RestoreContainers(b: Backup)
      requires Consistent(b) && Restored(b)
      modifies `cursors, `items, `byKey, `retrievals, `nextRetrieval
      modifies eng`mems, eng`tensions, eng`shadow, eng`external, eng`nextId, eng`broken
      ensures Restored(b) && InPlace(b)
    {
      RestoreEngine(b);
      cursors, items, byKey, retrievals, nextRetrieval := b.cursors, b.items, b.byKey, b.retrievals, b.nextRetrieval;
    }

    /** Every container holds what the backup says. */
    ghost predicate InPlace(b: Backup)
      reads this, eng
    {
      && eng.mems == b.mems && eng.tensions == b.tensions && eng.shadow == b.shadow
      && eng.external == b.external && eng.nextId == b.nextId && eng.broken == b.broken
      && cursors == b.cursors && items == b.items && byKey == b.byKey
      && retrievals == b.retrievals && nextRetrieval == b.nextRetrieval
    }

    lemma SnapshotRestored(b: Backup)
      requires Consistent(b) && Restored(b) && InPlace(b)
      ensures Snapshot() == b && eng.Valid()
    {
      assert eng.Graph() == b.fields;
      assert Snapshot().payloads == b.payloads;
      assert Snapshot().retrievalFields == b.retrievalFields;
    }

    // -------------------------------------------------------------- the body of an effect

    /** The body can only hold references to objects that were there when it began. */
    ghost predicate Reachable(script: seq<Write>)
      reads this, eng
    {
      forall w :: w in script ==>
        match w
        case SetMemory(target, _) => target in eng.Objects()
        case Amend(signal, _, _) => signal in items
        case SetRetrieval(ret, _) => ret in Registered()
        case _ => true
    }

    /** Objects in place now were there before or are new. */
    twostate predicate OldOrNew()
      reads this, eng
    {
      && (forall m :: m in eng.Objects() ==> m in old(eng.Objects()) || fresh(m))
      && (forall s :: s in items ==> s in old(items) || fresh(s))
      && (forall r :: r in Registered() ==> r in old(Registered()) || fresh(r))
    }

    /** A signal under a key that is queued already is amended in place. */
    method EmitSignal(kind: string, key: string, payload: string, t: int)
      requires forall k :: k in byKey ==> byKey[k] in items
      modifies `items, `byKey, Signals()
      ensures forall s :: s in items ==> s in old(items) || fresh(s)
      ensures forall k :: k in byKey ==> byKey[k] in items
    {
      if key in byKey {
        byKey[key].payload, byKey[key].t := payload, t;
      } else {
        var s := new Signal(kind, payload, t);
        items := items + [s];
        if key != "" { byKey := byKey[key := s]; }
      }
    }

    /** One write. */
    method Execute(w: Write)
      requires eng.Valid()
      requires forall k :: k in byKey ==> byKey[k] in items
      modifies `cursors, `items, `byKey, `retrievals, `nextRetrieval
      modifies eng`mems, eng`tensions, eng`shadow, eng`external, eng`nextId, eng`broken, eng.Objects()
      modifies Signals(), Registered()
      modifies if w.SetMemory? then {w.target} else {}, if w.Amend? then {w.signal} else {}, if w.SetRetrieval? then {w.ret} else {}
      ensures eng.Valid() && OldOrNew()
      ensures forall k :: k in byKey ==> byKey[k] in items
    {
      match w
      case SetMemory(target, to) => target.Set(to);
      case SetStored(id, to) =>
        if id in eng.mems { eng.mems[id].Set(to); }
      case NewMemory(m) => var made := eng.Insert(m);
      case DropMemory(id) => eng.mems := eng.mems - {id};
      case SetTensions(tensions) => eng.tensions := tensions;
      case SetShadow(shadow) => eng.shadow := shadow;
      case SetExternal(external) => eng.external := external;
      case CountBroken => eng.broken := eng.broken + 1;
      case SetCursors(c) => cursors := c;
      case Emit(kind, key, payload, t) =>
        EmitSignal(kind, key, payload, t);
      case Amend(signal, payload, t) => signal.payload, signal.t := payload, t;
      case Drain => items, byKey := [], map[];
      case SetRetrieval(ret, fields) => ret.fields := fields;
      case NewRetrieval(fields) =>
        var r := new Retrieval(fields);
        retrievals, nextRetrieval := retrievals[nextRetrieval := r], nextRetrieval + 1;
      case DropRetrieval(rid) => retrievals := retrievals - {rid};
      case Raise =>
    }

    /** Run the body until it ends or raises. */
    method Mutate(script: seq<Write>) returns (raised: bool)
      requires eng.Valid() && Reachable(script)
      requires forall k :: k in byKey ==> byKey[k] in items
      modifies `cursors, `items, `byKey, `retrievals, `nextRetrieval
      modifies eng`mems, eng`tensions, eng`shadow, eng`external, eng`nextId, eng`broken, eng.Objects(), Signals(), Registered()
      ensures eng.Valid() && OldOrNew()
      ensures forall k :: k in byKey ==> byKey[k] in items
    {
      for i := 0 to |script|
        invariant eng.Valid() && OldOrNew()
        invariant forall k :: k in byKey ==> byKey[k] in items
      {
        assert script[i] in script;
        if script[i].Raise? {
          return true;
        }
        Execute(script[i]);
      }
      raised := false;
    }

    // -------------------------------------------------------------- the effect

    /** An effect either commits, with the memory as it left it, or it leaves every object and container
        as before. A commit whose acknowledgement is lost freezes the instance. */
    method EffectTransaction(script: seq<Write>, wire: Wire) returns (ok: bool)
      requires eng.Valid() && Reachable(script)
      requires forall k :: k in byKey ==> byKey[k] in items
      modifies this, store, eng`mems, eng`tensions, eng`shadow, eng`external, eng`nextId, eng`broken
      modifies eng.Objects(), Signals(), Registered()
      ensures eng.Valid()
      ensures ok ==> !old(fault) && !fault && old(store.revision) == old(revision)
      ensures ok ==> store.revision == revision == old(revision) + 1 && store.state == Some(Saved(eng.State()))
      ensures !ok ==> Snapshot() == old(Snapshot()) && revision == old(revision)
      ensures !ok && !old(fault) ==> (fault <==> !wire.readable || store.revision != revision)
      ensures !ok ==> fault || store.revision == old(store.revision)
      ensures old(fault) ==> !ok && fault && store.revision == old(store.revision)
    {
      hide Snapshot, Consistent, Kept;
      if fault {
        return false;
      }
      var backup := Snapshot();
      SnapshotConsistent();
      SnapshotReach();
      ok := RunAndCommit(script, wire);
      if !ok {
        RollBack(backup, wire);
      }
    }

    method RunAndCommit(script: seq<Write>, wire: Wire) returns (acknowledged: bool)
      requires eng.Valid() && Reachable(script)
      requires forall k :: k in byKey ==> byKey[k] in items
      modifies `revision, store
      modifies `cursors, `items, `byKey, `retrievals, `nextRetrieval
      modifies eng`mems, eng`tensions, eng`shadow, eng`external, eng`nextId, eng`broken, eng.Objects(), Signals(), Registered()
      ensures eng.Valid()
      ensures store.revision in {old(store.revision), old(store.revision) + 1}
      ensures acknowledged ==> old(store.revision) == old(revision) && store.revision == revision == old(revision) + 1
      ensures acknowledged ==> store.state == Some(Saved(eng.State()))
      ensures !acknowledged ==> revision == old(revision)
      ensures store.revision != old(store.revision) ==> old(store.revision) == old(revision)
    {
      if store.revision != revision {
        return false;
      }
      var raised := Mutate(script);
      if raised || !wire.commits {
        return false;
      }
      acknowledged := CommitCheckpoint(wire);
    }

    method CommitCheckpoint(wire: Wire) returns (acknowledged: bool)
      requires store.revision == revision
      modifies `revision, store
      ensures acknowledged == wire.acked && store.revision == old(revision) + 1
      ensures store.state == Some(Saved(eng.State()))
      ensures revision == if acknowledged then old(revision) + 1 else old(revision)
    {
      ghost var e, g := eng.State(), eng.Graph();
      store.revision, store.state := store.revision + 1, Some(Saved(eng.State()));
      if wire.acked {
        revision := revision + 1;
      }
      acknowledged := wire.acked;
      assert eng.Graph() == g;
      assert eng.State() == e;
    }

    /** Put every value back where it came from, object by object; then look whether the commit may have
        gone through after all. */
    method RollBack(backup: Backup, wire: Wire)
      requires Consistent(backup)
      modifies `fault, `cursors, `items, `byKey, `retrievals, `nextRetrieval
      modifies eng`mems, eng`tensions, eng`shadow, eng`external, eng`nextId, eng`broken, Kept(backup)
      ensures eng.Valid() && Snapshot() == backup && (fault <==> !wire.readable || store.revision != revision)
    {
      hide Snapshot, Consistent, Restored, InPlace;
      RestoreObjects(backup);
      RestoreContainers(backup);
      fault := !wire.readable || store.revision != revision;
      SnapshotRestored(backup);
    }
  }
}
