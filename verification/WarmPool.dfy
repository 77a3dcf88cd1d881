/**
 The warm pool as values: each workstation slot's state machine, the browsers and temporary
 directories it owns, and what every operation does to them. `WarmPoolManager` (its own file)
 is the object that carries the operations out step by step.
 */
module WarmPools {
  import opened Domain

  datatype WarmState = Idle | Reserved | Busy | Recycling | Draining | Error

  datatype Slot = Slot(state: WarmState, handle: Option<BrowserId>, tempDir: Option<nat>, failed: bool)

  /** `dirs[d]` tells whether temporary directory number `d` still exists. */
  datatype WarmPool = WarmPool(
    slots: map<WorkstationId, Slot>, order: seq<WorkstationId>, draining: bool, dirs: seq<bool>)

  /** The pool together with the processes it launches. */
  datatype Fleet = Fleet(pool: WarmPool, browsers: Browsers)

  datatype PoolConfig = PoolConfig(flags: Flags, maxRetries: int)

  /** The launcher's answer to one attempt, with the outcome of the prewarm navigation. */
  datatype Attempt = SpawnFailed | PrewarmFailed(endpoint: string) | Warmed(endpoint: string)

  type Answers = int -> Attempt

  datatype PoolError = StateError | ProvisioningError

  datatype Reservation = Reservation(workstation: WorkstationId, handle: BrowserId)

  // ---------- the operations ----------

  function WithSlot(p: WarmPool, w: WorkstationId, s: Slot): WarmPool {
    p.(slots := p.slots[w := s])
  }

  function SetState(p: WarmPool, w: WorkstationId, state: WarmState): WarmPool
    requires w in p.slots
  {
    WithSlot(p, w, p.slots[w].(state := state))
  }

  function RemoveDir(dirs: seq<bool>, d: nat): seq<bool> {
    if d < |dirs| then dirs[d := false] else dirs
  }

  /** Browsers launched from attempt number `attempt` on, and the one that also prewarmed. */
  function Launched(cfg: PoolConfig, bs: Browsers, answers: Answers, attempt: int): (Browsers, Option<BrowserId>)
    decreases cfg.maxRetries - attempt
  {
    if attempt > cfg.maxRetries then
      (bs, None)
    else match answers(attempt)
      case SpawnFailed =>
        Launched(cfg, bs, answers, attempt + 1)
      case PrewarmFailed(endpoint) =>
        Launched(cfg, bs + [Browser(endpoint, cfg.flags, ByPool, [ByPool])], answers, attempt + 1)
      case Warmed(endpoint) =>
        (bs + [Browser(endpoint, cfg.flags, ByPool, [])], Some(|bs|))
  }

  function TornDown(f: Fleet, w: WorkstationId): Fleet
    requires w in f.pool.slots
  {
    var s := f.pool.slots[w];
    var bs := if s.handle.Some? then Shut(f.browsers, s.handle.value, ByPool) else f.browsers;
    var dirs := if s.tempDir.Some? then RemoveDir(f.pool.dirs, s.tempDir.value) else f.pool.dirs;
    Fleet(WithSlot(f.pool, w, s.(handle := None, tempDir := None)).(dirs := dirs), bs)
  }

  function WithNewDir(f: Fleet, w: WorkstationId): Fleet
    requires w in f.pool.slots
  {
    var s := f.pool.slots[w].(tempDir := Some(|f.pool.dirs|));
    f.(pool := WithSlot(f.pool, w, s).(dirs := f.pool.dirs + [true]))
  }

  function Provisioned(cfg: PoolConfig, f: Fleet, w: WorkstationId, answers: Answers): Fleet
    requires w in f.pool.slots
  {
    var (bs, handle) := Launched(cfg, f.browsers, answers, 1);
    var s := f.pool.slots[w];
    Fleet(
      WithSlot(f.pool, w,
               if handle.Some? then s.(handle := handle, state := Idle, failed := false)
               else s.(state := Error, failed := true)),
      bs)
  }

  /** What `release_slot`, `enable_slot` and `restart_slot` do once the state allows it. */
  function Recycled(cfg: PoolConfig, f: Fleet, w: WorkstationId, answers: Answers): Fleet
    requires w in f.pool.slots
  {
    var marked := f.(pool := SetState(f.pool, w, Recycling));
    Provisioned(cfg, WithNewDir(TornDown(marked, w), w), w, answers)
  }

  function RecycledFrom(
    cfg: PoolConfig, f: Fleet, w: WorkstationId, answers: Answers, allowed: set<WarmState>): (Fleet, Option<PoolError>)
  {
    if w !in f.pool.slots || f.pool.slots[w].state !in allowed then
      (f, Some(StateError))
    else
      var g := Recycled(cfg, f, w, answers);
      (g, if g.pool.slots[w].state == Idle then None else Some(ProvisioningError))
  }

  function FirstIdle(p: WarmPool, order: seq<WorkstationId>): Option<WorkstationId> {
    if order == [] then None
    else if order[0] in p.slots && p.slots[order[0]].state == Idle then Some(order[0])
    else FirstIdle(p, order[1..])
  }

  /** The slot a reservation goes to: the named one, or the first idle one when none is named. */
  function Selected(p: WarmPool, hint: Option<WorkstationId>): Option<WorkstationId> {
    if hint.Some? && hint.value != "" then
      if hint.value in p.slots && p.slots[hint.value].state == Idle then hint else None
    else
      FirstIdle(p, p.order)
  }

  function Reserve(p: WarmPool, hint: Option<WorkstationId>): (WarmPool, Result<Reservation, PoolError>) {
    if p.draining then
      (p, Err(StateError))
    else match Selected(p, hint)
      case None => (p, Err(StateError))
      case Some(w) =>
        if w in p.slots && p.slots[w].handle.Some? then
          (SetState(p, w, Reserved), Ok(Reservation(w, p.slots[w].handle.value)))
        else
          (p, Err(StateError))
  }

  /** `mark_busy` (to Busy) and `cancel_reservation` (to Idle). */
  function LeaveReserved(p: WarmPool, w: WorkstationId, to: WarmState): (WarmPool, Option<PoolError>) {
    if w in p.slots && p.slots[w].state == Reserved then (SetState(p, w, to), None)
    else (p, Some(StateError))
  }

  function MarkBusy(p: WarmPool, w: WorkstationId): (WarmPool, Option<PoolError>) {
    LeaveReserved(p, w, Busy)
  }

  function Cancel(p: WarmPool, w: WorkstationId): (WarmPool, Option<PoolError>) {
    LeaveReserved(p, w, Idle)
  }

  function Release(cfg: PoolConfig, f: Fleet, w: WorkstationId, answers: Answers): (Fleet, Option<PoolError>) {
    RecycledFrom(cfg, f, w, answers, {Busy, Reserved})
  }

  function Restart(cfg: PoolConfig, f: Fleet, w: WorkstationId, answers: Answers): (Fleet, Option<PoolError>) {
    RecycledFrom(cfg, f, w, answers, {Idle, Error})
  }

  function Enable(cfg: PoolConfig, f: Fleet, w: WorkstationId, answers: Answers): (Fleet, Option<PoolError>) {
    RecycledFrom(cfg, f, w, answers, {Draining, Error})
  }

  function DrainSlot(f: Fleet, w: WorkstationId): (Fleet, Option<PoolError>) {
    if w !in f.pool.slots || f.pool.slots[w].state !in {Idle, Error} then
      (f, Some(StateError))
    else
      (TornDown(f.(pool := SetState(f.pool, w, Draining)), w), None)
  }

  function DrainFrom(f: Fleet, todo: seq<WorkstationId>): Fleet
    decreases |todo|
  {
    if todo == [] then f
    else if todo[0] !in f.pool.slots then DrainFrom(f, todo[1..])
    else DrainFrom(TornDown(f.(pool := SetState(f.pool, todo[0], Draining)), todo[0]), todo[1..])
  }

  function Drain(f: Fleet): Fleet {
    DrainFrom(f.(pool := f.pool.(draining := true)), f.pool.order)
  }

  function Built(p: WarmPool, w: WorkstationId): WarmPool {
    p.(slots := p.slots[w := Slot(Recycling, None, None, false)], order := p.order + [w])
  }

  /** One iteration of `start`: build the slot, then provision it. */
  function Started(cfg: PoolConfig, f: Fleet, w: WorkstationId, answers: Answers): Fleet {
    Provisioned(cfg, WithNewDir(f.(pool := Built(f.pool, w)), w), w, answers)
  }

  /** `start`: one slot after the other, in configuration order. */
  function StartPool(
    cfg: PoolConfig, f: Fleet, workstations: seq<WorkstationId>, answers: WorkstationId -> Answers): Fleet
  {
    if workstations == [] then f
    else
      var n := |workstations| - 1;
      Started(cfg, StartPool(cfg, f, workstations[..n], answers), workstations[n], answers(workstations[n]))
  }

  // ---------- the operator's interface ----------

  datatype OperatorAction =
    | OpReserve(hint: Option<WorkstationId>)
    | OpBusy(w: WorkstationId)
    | OpCancel(w: WorkstationId)
    | OpRelease(w: WorkstationId, answers: Answers)
    | OpDrainSlot(w: WorkstationId)
    | OpEnable(w: WorkstationId, answers: Answers)
    | OpRestart(w: WorkstationId, answers: Answers)
  {
    /** Restart, drain and enable, which act on slots nobody has taken. */
    predicate Maintains() {
      OpRestart? || OpDrainSlot? || OpEnable?
    }
  }

  function Operated(cfg: PoolConfig, f: Fleet, a: OperatorAction): Fleet {
    match a
    case OpReserve(hint) => f.(pool := Reserve(f.pool, hint).0)
    case OpBusy(w) => f.(pool := MarkBusy(f.pool, w).0)
    case OpCancel(w) => f.(pool := Cancel(f.pool, w).0)
    case OpRelease(w, answers) => Release(cfg, f, w, answers).0
    case OpDrainSlot(w) => DrainSlot(f, w).0
    case OpEnable(w, answers) => Enable(cfg, f, w, answers).0
    case OpRestart(w, answers) => Restart(cfg, f, w, answers).0
  }

  /** The workstations that are taken for nobody's session, after an action on the pool. */
  function LentAfter(cfg: PoolConfig, f: Fleet, a: OperatorAction, lent: set<WorkstationId>): set<WorkstationId> {
    match a
    case OpReserve(hint) =>
      var got := Reserve(f.pool, hint).1;
      if got.Ok? then lent + {got.value.workstation} else lent
    case OpCancel(w) => if Cancel(f.pool, w).1.None? then lent - {w} else lent
    case OpRelease(w, answers) => if Release(cfg, f, w, answers).1 == Some(StateError) then lent else lent - {w}
    case _ => lent
  }

  // ---------- what always holds ----------

  ghost function Held(p: WarmPool): set<BrowserId> {
    set w | w in p.slots && p.slots[w].handle.Some? :: p.slots[w].handle.value
  }

  ghost function OwnedDirs(p: WarmPool): set<nat> {
    set w | w in p.slots && p.slots[w].tempDir.Some? :: p.slots[w].tempDir.value
  }

  /** No two slots hold the same browser, none the same directory. */
  ghost predicate Unshared(p: WarmPool) {
    forall v, w | v in p.slots && w in p.slots && v != w ::
      && (p.slots[v].handle.Some? ==> p.slots[v].handle != p.slots[w].handle)
      && (p.slots[v].tempDir.Some? ==> p.slots[v].tempDir != p.slots[w].tempDir)
  }

  /** Each browser the pool ever launched is held and running, or was asked to stop exactly once, by the pool. */
  ghost predicate BrowsersConserved(cfg: PoolConfig, held: set<BrowserId>, bs: Browsers) {
    && (forall id | id in held :: id < |bs| && bs[id].owner == ByPool)
    && (forall id | 0 <= id < |bs| && bs[id].owner == ByPool ::
          bs[id].flags == cfg.flags && bs[id].shutBy == if id in held then [] else [ByPool])
  }

  /** Each temporary directory is owned or was removed. */
  ghost predicate DirsConserved(owned: set<nat>, dirs: seq<bool>) {
    && (forall d | d in owned :: d < |dirs|)
    && (forall d | 0 <= d < |dirs| :: dirs[d] <==> d in owned)
  }

  /** Nothing is lost: what the slots do not hold was given up, and no two slots hold the same. */
  ghost predicate Conserved(cfg: PoolConfig, f: Fleet) {
    && Unshared(f.pool)
    && BrowsersConserved(cfg, Held(f.pool), f.browsers)
    && DirsConserved(OwnedDirs(f.pool), f.pool.dirs)
  }

  /** A slot whose lock is free: which states go with a browser and with a directory. */
  predicate Settled(s: Slot) {
    && s.state != Recycling
    && (s.handle.Some? <==> s.state in {Idle, Reserved, Busy})
    && (s.tempDir.Some? <==> s.state != Draining)
    && (s.failed ==> s.state in {Error, Draining})
  }

  ghost predicate Ordered(p: WarmPool) {
    && Distinct(p.order)
    && (forall w :: w in p.order <==> w in p.slots)
  }

  ghost predicate PoolInv(cfg: PoolConfig, f: Fleet) {
    && Ordered(f.pool)
    && Conserved(cfg, f)
    && (forall w | w in f.pool.slots :: Settled(f.pool.slots[w]))
  }
}
