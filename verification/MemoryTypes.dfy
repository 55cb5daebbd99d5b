/** Values shared by every module: the fields of one memory version, the tunable constants of the
    engine, and the abstract state an engine object stands for. */
module MemoryTypes {

  datatype Option<+T> = None | Some(value: T)

  datatype Pool = Candidate | Main | Archive

  /** The mutable fields of one memory version. Its id is the key it is stored under. */
  datatype Mem = Mem(
    belief: int,
    value: string,
    pool: Pool,
    v: real,
    hits: int,
    evid: int,
    birth: int,
    lastHit: Option<int>,
    lastSeen: int,
    archivedAt: Option<int>,
    supersededBy: Option<nat>,
    aggregatedInto: Option<nat>,
    aggMembers: seq<nat>,
    pendingReview: bool,
    src: set<nat>,
    dHit: real,
    dShadow: real,
    salience: real,
    withdrawnAt: Option<int>)
  {
    /** The version this one was replaced by. Replacement wins over collection into an aggregate. */
    function Next(): Option<nat> {
      if supersededBy.Some? then supersededBy else aggregatedInto
    }

    predicate Root() {
      supersededBy.None? && aggregatedInto.None?
    }

    /** Neither replaced, nor collected, nor withdrawn. */
    predicate Current() {
      Root() && withdrawnAt.None?
    }

    predicate Visible() {
      pool != Archive && Current()
    }

    function IdleSince(): int {
      if lastHit.Some? then lastHit.value else birth
    }

    function Stamp(): int {
      if archivedAt.Some? then archivedAt.value else -1
    }
  }

  type Graph = map<nat, Mem>

  type Pair = (nat, nat)

  datatype Tension = Tension(firstSeen: int, lastSeen: int, observations: int)

  /** A hit that was suppressed and waits for the verdict on `key`. */
  datatype Shadow = Shadow(key: Pair, mid: nat, tRet: int, relevant: bool)

  datatype Engine = Engine(
    mems: Graph,
    tensions: map<Pair, Tension>,
    shadow: seq<Shadow>,
    external: set<nat>,
    nextId: nat,
    broken: nat)

  /** What a checkpoint keeps of the engine: the pins that the service named are not saved. */
  function Saved(e: Engine): Engine {
    e.(external := {})
  }

  /** The engine without the named pins and without the count of broken walks, which also moves outside
      of effects. */
  function Bare(e: Engine): Engine {
    e.(external := {}, broken := 0)
  }

  // ---------------------------------------------------------------- what a service holds

  /** A registered recall: the memories it sent, whether feedback was accepted and settled. */
  datatype Ret = Ret(selected: seq<nat>, sent: bool, credited: bool, useful: nat)
  {
    predicate Evictable() { !sent || credited }
  }

  /** The memory of a service: its engine, and the recalls that feedback may still be given on. */
  datatype Image = Image(engine: Engine, registry: map<nat, Ret>, nextRid: nat)

  function Dumped(m: Image): Image {
    m.(engine := Saved(m.engine))
  }

  /** Equal in everything that an effect can turn on. */
  predicate Alike(a: Image, b: Image) {
    a.(engine := Bare(a.engine)) == b.(engine := Bare(b.engine))
  }

  /** How a transaction fares: it may fail before its commit, its acknowledgement may get lost, and
      the database may be unreadable when the instance looks for the reason. */
  datatype Wire = Wire(commits: bool, acked: bool, readable: bool)

  // ---------------------------------------------------------------- constants

  datatype Cfg = Cfg(
    lam: real, eta: real, etaShadow: real, etaC: real, vInit: real,
    thetaP: real, thetaD: real, idleP: real, tauDup: real,
    capM: int, capC: int, capA: int, capContext: int,
    tensionDelay: int, shadowPendingCap: nat,
    twoPool: bool, shadowCredit: bool, ingestDedup: bool, capacityOn: bool, tensionOn: bool,
    salienceOn: bool, salienceDefault: real, retentionFloor: real, retentionWeight: real,
    noveltyOn: bool, noveltyBonus: real,
    scope: int -> string,
    expNeg: real -> real)
  {
    /** A negative weight would let the retention scale, a divisor, reach zero. */
    predicate Ok() {
      retentionWeight >= 0.0
    }
  }

  function Max(a: real, b: real): real {
    if a >= b then a else b
  }

  function Clamp(x: real, lo: real, hi: real): real {
    Max(lo, if x <= hi then x else hi)
  }

  function SortedPair(a: nat, b: nat): Pair {
    if a <= b then (a, b) else (b, a)
  }

  /** How much longer a salient memory is kept. */
  function RetentionScale(salience: real, cfg: Cfg): (s: real)
    requires cfg.Ok()
    ensures s >= 1.0
  {
    if !cfg.salienceOn then 1.0
    else
      var floor := Clamp(cfg.retentionFloor, 0.0, 0.999999);
      var excess := Max(0.0, (Clamp(salience, 0.0, 1.0) - floor) / (1.0 - floor));
      1.0 + cfg.retentionWeight * excess
  }
}
