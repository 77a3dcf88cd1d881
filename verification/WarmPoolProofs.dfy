/** What every warm pool operation keeps, over single operations and over whole runs. */
module WarmPoolProofs {
  import opened Domain
  import opened WarmPools

  /** The slots other than `w` are untouched, and only the pool's own browsers are. */
  ghost predicate OnlySlot(f: Fleet, g: Fleet, w: WorkstationId) {
    && g.pool.slots.Keys == f.pool.slots.Keys
    && g.pool.order == f.pool.order
    && g.pool.draining == f.pool.draining
    && (forall v | v in f.pool.slots && v != w :: g.pool.slots[v] == f.pool.slots[v])
    && OnlyActed(f.browsers, g.browsers, ByPool)
  }

  ghost function Singleton<T>(x: Option<T>): set<T> {
    if x.Some? then {x.value} else {}
  }

  /** A slot may take this value: what is new in it belongs to no slot yet. */
  ghost predicate Unclaimed(p: WarmPool, old_: Slot, s: Slot) {
    && (s.handle != old_.handle && s.handle.Some? ==> s.handle.value !in Held(p))
    && (s.tempDir != old_.tempDir && s.tempDir.Some? ==> s.tempDir.value !in OwnedDirs(p))
  }

  lemma SlotUpdate(p: WarmPool, w: WorkstationId, s: Slot)
    requires Unshared(p) && w in p.slots && Unclaimed(p, p.slots[w], s)
    ensures Unshared(WithSlot(p, w, s))
    ensures Held(WithSlot(p, w, s)) == Held(p) - Singleton(p.slots[w].handle) + Singleton(s.handle)
    ensures OwnedDirs(WithSlot(p, w, s)) == OwnedDirs(p) - Singleton(p.slots[w].tempDir) + Singleton(s.tempDir)
    ensures Singleton(p.slots[w].handle) <= Held(p)
    ensures Singleton(p.slots[w].tempDir) <= OwnedDirs(p)
  {
    UnsharedUpdate(p, w, s);
    HeldUpdate(p, w, s);
    DirsUpdate(p, w, s);
    SlotHolds(p, w);
    hide Held;
    hide OwnedDirs;
    hide Unshared;
  }

  lemma HeldUpdate(p: WarmPool, w: WorkstationId, s: Slot)
    requires Unshared(p) && w in p.slots
    ensures Held(WithSlot(p, w, s)) == Held(p) - Singleton(p.slots[w].handle) + Singleton(s.handle)
  {
    var q := WithSlot(p, w, s);
    forall id | id in Held(p) - Singleton(p.slots[w].handle) ensures id in Held(q) {
      var v :| v in p.slots && p.slots[v].handle == Some(id);
      assert q.slots[v] == p.slots[v];
    }
    assert q.slots[w] == s;
    assert forall v | v in p.slots && v != w :: q.slots[v] == p.slots[v];
  }

  lemma DirsUpdate(p: WarmPool, w: WorkstationId, s: Slot)
    requires Unshared(p) && w in p.slots
    ensures OwnedDirs(WithSlot(p, w, s)) == OwnedDirs(p) - Singleton(p.slots[w].tempDir) + Singleton(s.tempDir)
  {
    var q := WithSlot(p, w, s);
    forall d | d in OwnedDirs(p) - Singleton(p.slots[w].tempDir) ensures d in OwnedDirs(q) {
      var v :| v in p.slots && p.slots[v].tempDir == Some(d);
      assert q.slots[v] == p.slots[v];
    }
    assert q.slots[w] == s;
    assert forall v | v in p.slots && v != w :: q.slots[v] == p.slots[v];
  }

  lemma UnsharedUpdate(p: WarmPool, w: WorkstationId, s: Slot)
    requires Unshared(p) && w in p.slots && Unclaimed(p, p.slots[w], s)
    ensures Unshared(WithSlot(p, w, s))
  {
    assert forall v | v in p.slots && p.slots[v].handle.Some? :: p.slots[v].handle.value in Held(p);
    assert forall v | v in p.slots && p.slots[v].tempDir.Some? :: p.slots[v].tempDir.value in OwnedDirs(p);
  }

  /** Writing a slot keeps conservation if the browsers and directories agree with its new contents. */
  lemma SlotWritten(cfg: PoolConfig, f: Fleet, w: WorkstationId, s: Slot, g: Fleet)
    requires Conserved(cfg, f) && w in f.pool.slots && Unclaimed(f.pool, f.pool.slots[w], s)
    requires g.pool == WithSlot(f.pool, w, s).(dirs := g.pool.dirs)
    requires BrowsersConserved(cfg, Held(f.pool) - Singleton(f.pool.slots[w].handle) + Singleton(s.handle), g.browsers)
    requires DirsConserved(OwnedDirs(f.pool) - Singleton(f.pool.slots[w].tempDir) + Singleton(s.tempDir), g.pool.dirs)
    requires OnlyActed(f.browsers, g.browsers, ByPool)
    ensures Conserved(cfg, g) && OnlySlot(f, g, w)
  {
    hide BrowsersConserved;
    hide DirsConserved;
    hide OnlyActed;
    SlotUpdate(f.pool, w, s);
    var written := WithSlot(f.pool, w, s);
    assert Unshared(g.pool) && Held(g.pool) == Held(written) && OwnedDirs(g.pool) == OwnedDirs(written);
  }

  lemma SlotHolds(p: WarmPool, w: WorkstationId)
    requires w in p.slots
    ensures Singleton(p.slots[w].handle) <= Held(p) && Singleton(p.slots[w].tempDir) <= OwnedDirs(p)
  {
  }

  lemma SetStateConserves(cfg: PoolConfig, f: Fleet, w: WorkstationId, state: WarmState)
    requires Conserved(cfg, f) && w in f.pool.slots
    ensures var g := f.(pool := SetState(f.pool, w, state));
            Conserved(cfg, g) && OnlySlot(f, g, w)
  {
    hide Held;
    hide OwnedDirs;
    hide Unshared;
    SlotHolds(f.pool, w);
    var s := f.pool.slots[w];
    assert Held(f.pool) - Singleton(s.handle) + Singleton(s.handle) == Held(f.pool);
    assert OwnedDirs(f.pool) - Singleton(s.tempDir) + Singleton(s.tempDir) == OwnedDirs(f.pool);
    SlotWritten(cfg, f, w, s.(state := state), f.(pool := SetState(f.pool, w, state)));
  }

  lemma TornDownConserves(cfg: PoolConfig, f: Fleet, w: WorkstationId)
    requires Conserved(cfg, f) && w in f.pool.slots
    ensures var g := TornDown(f, w);
            && Conserved(cfg, g) && OnlySlot(f, g, w)
            && g.pool.slots[w] == f.pool.slots[w].(handle := None, tempDir := None)
  {
    hide Held;
    hide OwnedDirs;
    hide Unshared;
    SlotHolds(f.pool, w);
    SlotWritten(cfg, f, w, f.pool.slots[w].(handle := None, tempDir := None), TornDown(f, w));
  }

  lemma NewDirConserves(cfg: PoolConfig, f: Fleet, w: WorkstationId)
    requires Conserved(cfg, f) && w in f.pool.slots && f.pool.slots[w].tempDir.None?
    ensures var g := WithNewDir(f, w);
            && Conserved(cfg, g) && OnlySlot(f, g, w)
            && g.pool.slots[w] == f.pool.slots[w].(tempDir := g.pool.slots[w].tempDir)
            && g.pool.slots[w].tempDir.Some?
  {
    hide Held;
    hide OwnedDirs;
    hide Unshared;
    SlotHolds(f.pool, w);
    var s := f.pool.slots[w];
    assert Held(f.pool) - Singleton(s.handle) + Singleton(s.handle) == Held(f.pool);
    SlotWritten(cfg, f, w, s.(tempDir := Some(|f.pool.dirs|)), WithNewDir(f, w));
  }

  /** Every browser of a failed attempt is shut down at once; at most the last one launched is kept. */
  lemma {:induction false} LaunchedKeepsOne(cfg: PoolConfig, bs: Browsers, answers: Answers, attempt: int)
    ensures var (later, kept) := Launched(cfg, bs, answers, attempt);
            && bs <= later
            && (kept.Some? ==> |bs| <= kept.value == |later| - 1)
            && (forall id | |bs| <= id < |later| ::
                  && later[id].owner == ByPool
                  && later[id].flags == cfg.flags
                  && later[id].shutBy == if kept == Some(id) then [] else [ByPool])
    decreases cfg.maxRetries - attempt
  {
    if attempt <= cfg.maxRetries {
      match answers(attempt)
      case SpawnFailed =>
        LaunchedKeepsOne(cfg, bs, answers, attempt + 1);
      case PrewarmFailed(endpoint) =>
        LaunchedKeepsOne(cfg, bs + [Browser(endpoint, cfg.flags, ByPool, [ByPool])], answers, attempt + 1);
      case Warmed(endpoint) =>
    }
  }

  lemma ProvisionedConserves(cfg: PoolConfig, f: Fleet, w: WorkstationId, answers: Answers)
    requires Conserved(cfg, f) && w in f.pool.slots
    requires f.pool.slots[w].handle.None? && f.pool.slots[w].tempDir.Some?
    ensures var g := Provisioned(cfg, f, w, answers);
            && Conserved(cfg, g) && OnlySlot(f, g, w)
            && Settled(g.pool.slots[w]) && g.pool.slots[w].state in {Idle, Error}
  {
    hide Held;
    hide OwnedDirs;
    hide Unshared;
    hide Launched;
    var g := Provisioned(cfg, f, w, answers);
    LaunchedKeepsOne(cfg, f.browsers, answers, 1);
    SlotHolds(f.pool, w);
    var s := f.pool.slots[w];
    assert OwnedDirs(f.pool) - Singleton(s.tempDir) + Singleton(s.tempDir) == OwnedDirs(f.pool);
    SlotWritten(cfg, f, w, g.pool.slots[w], g);
  }

  /** A recycle replaces a slot's browser and directory and leaves the slot Idle or in Error. */
  lemma RecycledConserves(cfg: PoolConfig, f: Fleet, w: WorkstationId, answers: Answers)
    requires Conserved(cfg, f) && w in f.pool.slots
    ensures var g := Recycled(cfg, f, w, answers);
            && Conserved(cfg, g) && OnlySlot(f, g, w)
            && Settled(g.pool.slots[w]) && g.pool.slots[w].state in {Idle, Error}
  {
    hide Conserved;
    var marked := f.(pool := SetState(f.pool, w, Recycling));
    SetStateConserves(cfg, f, w, Recycling);
    TornDownConserves(cfg, marked, w);
    var empty := TornDown(marked, w);
    NewDirConserves(cfg, empty, w);
    ProvisionedConserves(cfg, WithNewDir(empty, w), w, answers);
  }

  /** Recycling, from any set of states: refused without effect, or the slot is Idle or in Error. */
  lemma RecycledFromKeepsInv(
    cfg: PoolConfig, f: Fleet, w: WorkstationId, answers: Answers, allowed: set<WarmState>)
    requires PoolInv(cfg, f)
    ensures var (g, error) := RecycledFrom(cfg, f, w, answers, allowed);
            && PoolInv(cfg, g) && OnlySlot(f, g, w)
            && (error == Some(StateError) <==> w !in f.pool.slots || f.pool.slots[w].state !in allowed)
            && (error == Some(StateError) ==> g == f)
            && (error.None? ==> g.pool.slots[w].state == Idle)
            && (error == Some(ProvisioningError) ==> g.pool.slots[w].state == Error)
  {
    hide Conserved;
    if w in f.pool.slots && f.pool.slots[w].state in allowed {
      RecycledConserves(cfg, f, w, answers);
    }
  }

  lemma DrainedSlotKeepsInv(cfg: PoolConfig, f: Fleet, w: WorkstationId)
    requires PoolInv(cfg, f) && w in f.pool.slots
    ensures var g := TornDown(f.(pool := SetState(f.pool, w, Draining)), w);
            PoolInv(cfg, g) && OnlySlot(f, g, w) && g.pool.slots[w].state == Draining
  {
    hide Conserved;
    SetStateConserves(cfg, f, w, Draining);
    TornDownConserves(cfg, f.(pool := SetState(f.pool, w, Draining)), w);
  }

  /** Position `i` of the order holds `w`, the earliest idle slot. */
  ghost predicate FirstAt(p: WarmPool, order: seq<WorkstationId>, i: int, w: WorkstationId)
    requires forall v | v in order :: v in p.slots
  {
    && 0 <= i < |order| && order[i] == w && p.slots[w].state == Idle
    && forall j | 0 <= j < i :: p.slots[order[j]].state != Idle
  }

  /** The selection is an idle slot: the named one, or the earliest in pool order; none only if there is none. */
  lemma {:induction false} FirstIdleIsFirst(p: WarmPool, order: seq<WorkstationId>)
    requires forall w | w in order :: w in p.slots
    ensures var found := FirstIdle(p, order);
            && (found.None? <==> forall w | w in order :: p.slots[w].state != Idle)
            && (found.Some? ==> exists i :: FirstAt(p, order, i, found.value))
  {
    if order == [] {
    } else if p.slots[order[0]].state == Idle {
      assert FirstAt(p, order, 0, order[0]);
    } else {
      FirstIdleIsFirst(p, order[1..]);
      assert order == [order[0]] + order[1..];
      var found := FirstIdle(p, order[1..]);
      if found.Some? {
        var i :| FirstAt(p, order[1..], i, found.value);
        assert FirstAt(p, order, i + 1, found.value);
      }
    }
  }

  /** A reservation fails exactly when the pool drains or has no suitable idle slot; its handle is the slot's. */
  lemma ReserveCorrect(cfg: PoolConfig, f: Fleet, hint: Option<WorkstationId>)
    requires PoolInv(cfg, f)
    ensures var (p, got) := Reserve(f.pool, hint);
            var named := hint.Some? && hint.value != "";
            && PoolInv(cfg, f.(pool := p))
            && (got.Err? <==> f.pool.draining
                              || (named && (hint.value !in f.pool.slots || f.pool.slots[hint.value].state != Idle))
                              || (!named && forall w | w in f.pool.slots :: f.pool.slots[w].state != Idle))
            && (got.Err? ==> p == f.pool)
            && (got.Ok? ==>
                  var w := got.value.workstation;
                  && (named ==> w == hint.value)
                  && OnlySlot(f, f.(pool := p), w)
                  && w in f.pool.slots && f.pool.slots[w].state == Idle
                  && f.pool.slots[w].handle == Some(got.value.handle)
                  && p.slots[w] == f.pool.slots[w].(state := Reserved))
  {
    hide Conserved;
    FirstIdleIsFirst(f.pool, f.pool.order);
    hide FirstIdle;
    var (p, got) := Reserve(f.pool, hint);
    if got.Ok? {
      SetStateConserves(cfg, f, got.value.workstation, Reserved);
    }
  }

  lemma RefusedChangesNothing(p: WarmPool, hint: Option<WorkstationId>)
    ensures Reserve(p, hint).1.Err? ==> Reserve(p, hint).0 == p
  {
  }

  lemma LeaveReservedCorrect(cfg: PoolConfig, f: Fleet, w: WorkstationId, to: WarmState)
    requires PoolInv(cfg, f) && to in {Busy, Idle}
    ensures var (p, error) := LeaveReserved(f.pool, w, to);
            && PoolInv(cfg, f.(pool := p)) && OnlySlot(f, f.(pool := p), w)
            && (error.None? <==> w in f.pool.slots && f.pool.slots[w].state == Reserved)
            && (error.Some? ==> p == f.pool)
            && (error.None? ==> p.slots[w] == f.pool.slots[w].(state := to))
  {
    hide Conserved;
    if w in f.pool.slots && f.pool.slots[w].state == Reserved {
      SetStateConserves(cfg, f, w, to);
    }
  }

  lemma {:induction false} DrainFromCorrect(cfg: PoolConfig, f: Fleet, todo: seq<WorkstationId>)
    requires PoolInv(cfg, f) && (forall w | w in todo :: w in f.pool.slots)
    ensures var g := DrainFrom(f, todo);
            && PoolInv(cfg, g)
            && OnlyActed(f.browsers, g.browsers, ByPool)
            && g.pool.order == f.pool.order && g.pool.draining == f.pool.draining
            && g.pool.slots.Keys == f.pool.slots.Keys
            && (forall w | w in f.pool.slots :: f.pool.slots[w].state == Draining ==> g.pool.slots[w].state == Draining)
            && (forall w | w in todo :: g.pool.slots[w].state == Draining)
    decreases |todo|
  {
    hide PoolInv;
    hide OnlyActed;
    hide TornDown;
    if todo == [] {
      NothingActed(f.browsers, ByPool);
    } else {
      var w := todo[0];
      DrainedSlotKeepsInv(cfg, f, w);
      var g := TornDown(f.(pool := SetState(f.pool, w, Draining)), w);
      DrainFromCorrect(cfg, g, todo[1..]);
      OnlyActedTwice(f.browsers, g.browsers, DrainFrom(g, todo[1..]).browsers, ByPool);
      assert todo == [w] + todo[1..];
    }
  }

  /** After `drain` the pool owns nothing: every browser is shut down, every directory removed. */
  lemma DrainReleasesEverything(cfg: PoolConfig, f: Fleet)
    requires PoolInv(cfg, f)
    ensures var g := Drain(f);
            && PoolInv(cfg, g) && g.pool.draining && OnlyActed(f.browsers, g.browsers, ByPool)
            && g.pool.slots.Keys == f.pool.slots.Keys
            && (forall w | w in g.pool.slots :: g.pool.slots[w].state == Draining)
            && (forall id | 0 <= id < |g.browsers| && g.browsers[id].owner == ByPool ::
                  g.browsers[id].shutBy == [ByPool])
            && (forall d | 0 <= d < |g.pool.dirs| :: !g.pool.dirs[d])
  {
    var start := f.(pool := f.pool.(draining := true));
    assert PoolInv(cfg, start) by {
      assert Held(start.pool) == Held(f.pool) && OwnedDirs(start.pool) == OwnedDirs(f.pool);
    }
    DrainFromCorrect(cfg, start, f.pool.order);
    var g := Drain(f);
    assert Held(g.pool) == {} && OwnedDirs(g.pool) == {};
  }

  lemma BuiltSlotConserves(cfg: PoolConfig, f: Fleet, w: WorkstationId)
    requires Conserved(cfg, f) && w !in f.pool.slots
    ensures Conserved(cfg, f.(pool := Built(f.pool, w)))
  {
    var p := Built(f.pool, w);
    assert Held(p) == Held(f.pool) && OwnedDirs(p) == OwnedDirs(f.pool) by {
      assert forall v | v in f.pool.slots :: p.slots[v] == f.pool.slots[v];
    }
  }

  lemma StartedKeepsInv(cfg: PoolConfig, f: Fleet, w: WorkstationId, answers: Answers)
    requires PoolInv(cfg, f) && w !in f.pool.slots
    ensures var g := Started(cfg, f, w, answers);
            && PoolInv(cfg, g) && OnlyActed(f.browsers, g.browsers, ByPool)
            && g.pool.slots.Keys == f.pool.slots.Keys + {w}
            && (forall v | v in f.pool.slots :: g.pool.slots[v] == f.pool.slots[v])
            && g.pool.slots[w].state in {Idle, Error}
            && g.pool.draining == f.pool.draining
  {
    hide Conserved;
    BuiltSlotConserves(cfg, f, w);
    var built := f.(pool := Built(f.pool, w));
    NewDirConserves(cfg, built, w);
    ProvisionedConserves(cfg, WithNewDir(built, w), w, answers);
  }

  // ---------- runs ----------

  datatype PoolAction = Operator(action: OperatorAction) | DrainAll

  function PoolStep(cfg: PoolConfig, f: Fleet, a: PoolAction): Fleet {
    match a
    case Operator(action) => Operated(cfg, f, action)
    case DrainAll => Drain(f)
  }

  function PoolRun(cfg: PoolConfig, f: Fleet, actions: seq<PoolAction>): Fleet
    decreases |actions|
  {
    if actions == [] then f else PoolRun(cfg, PoolStep(cfg, f, actions[0]), actions[1..])
  }

  lemma OperatedKeepsInv(cfg: PoolConfig, f: Fleet, a: OperatorAction)
    requires PoolInv(cfg, f)
    ensures var g := Operated(cfg, f, a);
            && PoolInv(cfg, g)
            && OnlyActed(f.browsers, g.browsers, ByPool)
            && g.pool.slots.Keys == f.pool.slots.Keys
            && g.pool.draining == f.pool.draining
  {
    hide PoolInv;
    match a
    case OpReserve(hint) => ReserveCorrect(cfg, f, hint);
    case OpBusy(w) => LeaveReservedCorrect(cfg, f, w, Busy);
    case OpCancel(w) => LeaveReservedCorrect(cfg, f, w, Idle);
    case OpRelease(w, answers) => RecycledFromKeepsInv(cfg, f, w, answers, {Busy, Reserved});
    case OpDrainSlot(w) => if DrainSlot(f, w).1.None? { DrainedSlotKeepsInv(cfg, f, w); }
    case OpEnable(w, answers) => RecycledFromKeepsInv(cfg, f, w, answers, {Draining, Error});
    case OpRestart(w, answers) => RecycledFromKeepsInv(cfg, f, w, answers, {Idle, Error});
  }

  lemma PoolStepKeepsInv(cfg: PoolConfig, f: Fleet, a: PoolAction)
    requires PoolInv(cfg, f)
    ensures var g := PoolStep(cfg, f, a);
            && PoolInv(cfg, g)
            && OnlyActed(f.browsers, g.browsers, ByPool)
            && g.pool.slots.Keys == f.pool.slots.Keys
            && g.pool.draining == (f.pool.draining || a.DrainAll?)
  {
    hide PoolInv;
    hide Operated;
    match a
    case Operator(action) => OperatedKeepsInv(cfg, f, action);
    case DrainAll => DrainReleasesEverything(cfg, f);
  }

  /** Conservation of browsers and directories, and the slot states, over every run. */
  lemma {:induction false} PoolRunKeepsInv(cfg: PoolConfig, f: Fleet, actions: seq<PoolAction>)
    requires PoolInv(cfg, f)
    ensures PoolInv(cfg, PoolRun(cfg, f, actions))
    decreases |actions|
  {
    hide PoolInv;
    if actions != [] {
      PoolStepKeepsInv(cfg, f, actions[0]);
      PoolRunKeepsInv(cfg, PoolStep(cfg, f, actions[0]), actions[1..]);
    }
  }

  ghost predicate NothingTaken(p: WarmPool) {
    && p.draining
    && forall w | w in p.slots :: p.slots[w].state !in {Reserved, Busy}
  }

  lemma OperatedTakesNothing(cfg: PoolConfig, f: Fleet, a: OperatorAction)
    requires PoolInv(cfg, f) && NothingTaken(f.pool)
    ensures NothingTaken(Operated(cfg, f, a).pool)
  {
    hide PoolInv;
    match a
    case OpReserve(hint) =>
    case OpBusy(w) =>
    case OpCancel(w) =>
    case OpRelease(w, answers) =>
    case OpDrainSlot(w) => if DrainSlot(f, w).1.None? { DrainedSlotKeepsInv(cfg, f, w); }
    case OpEnable(w, answers) => RecycledFromKeepsInv(cfg, f, w, answers, {Draining, Error});
    case OpRestart(w, answers) => RecycledFromKeepsInv(cfg, f, w, answers, {Idle, Error});
  }

  lemma NothingTakenIsKept(cfg: PoolConfig, f: Fleet, a: PoolAction)
    requires PoolInv(cfg, f) && NothingTaken(f.pool)
    ensures NothingTaken(PoolStep(cfg, f, a).pool)
  {
    hide PoolInv;
    hide Operated;
    match a
    case Operator(action) => OperatedTakesNothing(cfg, f, action);
    case DrainAll => DrainReleasesEverything(cfg, f);
  }

  /** Once `drain` has returned, no slot is ever Reserved or Busy again, whatever is enabled afterwards. */
  lemma {:induction false} DrainIsForever(cfg: PoolConfig, f: Fleet, actions: seq<PoolAction>)
    requires PoolInv(cfg, f) && NothingTaken(f.pool)
    ensures NothingTaken(PoolRun(cfg, f, actions).pool)
    decreases |actions|
  {
    hide PoolInv;
    hide NothingTaken;
    if actions != [] {
      PoolStepKeepsInv(cfg, f, actions[0]);
      NothingTakenIsKept(cfg, f, actions[0]);
      DrainIsForever(cfg, PoolStep(cfg, f, actions[0]), actions[1..]);
    }
  }

  lemma AfterDrainNothingIsTaken(cfg: PoolConfig, f: Fleet, actions: seq<PoolAction>)
    requires PoolInv(cfg, f)
    ensures NothingTaken(PoolRun(cfg, Drain(f), actions).pool)
  {
    DrainReleasesEverything(cfg, f);
    DrainIsForever(cfg, Drain(f), actions);
  }

  /** The operator's restart, drain and enable never touch a slot that a session has taken. */
  lemma MaintenanceSparesTakenSlots(cfg: PoolConfig, f: Fleet, a: OperatorAction, w: WorkstationId)
    requires PoolInv(cfg, f) && a.Maintains()
    requires w in f.pool.slots && f.pool.slots[w].state in {Reserved, Busy}
    ensures w in Operated(cfg, f, a).pool.slots && Operated(cfg, f, a).pool.slots[w] == f.pool.slots[w]
  {
    hide PoolInv;
    match a
    case OpRestart(v, answers) => RecycledFromKeepsInv(cfg, f, v, answers, {Idle, Error});
    case OpEnable(v, answers) => RecycledFromKeepsInv(cfg, f, v, answers, {Draining, Error});
    case OpDrainSlot(v) => if DrainSlot(f, v).1.None? { DrainedSlotKeepsInv(cfg, f, v); }
  }
}
