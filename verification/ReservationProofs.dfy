/** A create's reservation and the operator's requests that land before its session is stored. */
module ReservationProofs {
  import opened Domain
  import opened VncPools
  import opened WarmPools
  import opened WarmPoolProofs
  import opened Runners
  import opened RunnerInvariants
  import opened CustodyProofs
  import opened OperatorProofs
  import opened CreateProofs

  // ---------- which slots are left taken ----------

  /** The slots taken for no stored session, after a create. */
  function LentByCreate(cfg: Settings, r: Runner, payload: CreatePayload, w: CreateWorld): set<WorkstationId> {
    var (waiting, got) := Waiting(cfg, r, payload, w);
    var own := if got.WarmBrowser? then {got.reservation.workstation} else {};
    match Reached(cfg, r, payload, w)
    case VncFailed => r.lent
    case BrowserFailed => r.lent
    case ValidationFailed => if StillReserved(waiting, got) then waiting.lent - own else waiting.lent
    case ReservationLost => waiting.lent
    case _ => Storing(cfg, r, payload, w).0.lent - own
  }

  lemma CreateLends(cfg: Settings, r: Runner, payload: CreatePayload, w: CreateWorld)
    ensures Create(cfg, r, payload, w).0.lent == LentByCreate(cfg, r, payload, w)
  {
    hide Create;
    hide Waiting;
    hide Storing;
    hide ResolveVnc;
    hide EffectiveFlags;
    hide MinExpiry;
    hide NewSession;
    hide Release;
    hide Released;
    hide Reached;
    if Reached(cfg, r, payload, w) in {VncFailed, BrowserFailed} {
      EarlyFailureLendsNothing(cfg, r, payload, w);
    } else {
      BrowserAcquired(cfg, r, payload, w);
      SlotIsThere(cfg, r, payload, w);
      CreateFromWaiting(cfg, r, payload, w);
      if Reached(cfg, r, payload, w) == ReservationLost {
        LostReservation(cfg, r, payload, w);
      }
    }
  }

  lemma EarlyFailureLendsNothing(cfg: Settings, r: Runner, payload: CreatePayload, w: CreateWorld)
    requires Reached(cfg, r, payload, w) in {VncFailed, BrowserFailed}
    ensures Create(cfg, r, payload, w).0.lent == r.lent
  {
    hide AcquireBrowser;
    hide ResolveVnc;
    hide Confirmed;
    hide EffectiveFlags;
    var r0 := r.(issued := r.issued + {w.id});
    ResolveFrame(cfg, r0, payload, w);
    AcquireLends(cfg, ResolveVnc(cfg, r0, payload, w).0, payload, w);
  }

  /** A pool a slot was reserved from does not go away. */
  lemma SlotIsThere(cfg: Settings, r: Runner, payload: CreatePayload, w: CreateWorld)
    ensures var (waiting, got) := Waiting(cfg, r, payload, w);
            got.WarmBrowser? ==> waiting.pool.Some? && Storing(cfg, r, payload, w).0.pool.Some?
  {
    hide AcquireBrowser;
    hide ResolveVnc;
    hide OperateAll;
    hide MarkTaken;
    var r1 := ResolveVnc(cfg, r.(issued := r.issued + {w.id}), payload, w).0;
    AcquireLends(cfg, r1, payload, w);
    var (waiting, got) := Waiting(cfg, r, payload, w);
    OperateAllFrame(cfg, AcquireBrowser(cfg, r1, payload, w).0, w.between);
    MarkLendsNothing(waiting, got);
    OperateAllFrame(cfg, MarkTaken(waiting, got).0, w.afterwards);
  }

  lemma LostReservation(cfg: Settings, r: Runner, payload: CreatePayload, w: CreateWorld)
    requires Reached(cfg, r, payload, w) == ReservationLost
    ensures var (waiting, got) := Waiting(cfg, r, payload, w); !StillReserved(waiting, got)
  {
    hide ResolveVnc;
    hide Waiting;
  }

  lemma AcquireLends(cfg: Settings, r: Runner, payload: CreatePayload, w: CreateWorld)
    ensures var (q, got) := AcquireBrowser(cfg, r, payload, w);
            && q.lent == (if got.WarmBrowser? then r.lent + {got.reservation.workstation} else r.lent)
            && (got.WarmBrowser? ==> q.pool.Some?)
  {
    hide Reserve;
    hide EffectiveFlags;
  }

  /** The slot a create reserved, when the create comes to mark it busy. */
  ghost predicate ReservedAt(cfg: Settings, r: Runner, payload: CreatePayload, w: CreateWorld, ws: WorkstationId) {
    var got := Waiting(cfg, r, payload, w).1;
    && ResolveVnc(cfg, r.(issued := r.issued + {w.id}), payload, w).1.VncGranted?
    && got.WarmBrowser? && got.reservation.workstation == ws
  }

  /**
   The slot a create reserved ends up taken for no session exactly when the operator marked it busy
   meanwhile. Then the create fails, and its clean-up leaves the slot Busy.
   */
  lemma StrandedIff(cfg: Settings, r: Runner, payload: CreatePayload, w: CreateWorld, ws: WorkstationId)
    requires RunnerInv(cfg, r) && w.id !in r.issued && Undisturbed(r, w.between) && ReservedAt(cfg, r, payload, w, ws)
    ensures var waiting := Waiting(cfg, r, payload, w).0;
            var (after, result) := Create(cfg, r, payload, w);
            && waiting.pool.Some? && ws in waiting.pool.value.slots
            && (ws in after.lent <==> waiting.pool.value.slots[ws].state == Busy)
            && (ws in after.lent ==>
                  && result.Err? && after.pool == waiting.pool && ws !in after.warm.Values)
            && after.lent - {ws}
               == (if Reached(cfg, r, payload, w) in {PublishFailed, Completed}
                   then Storing(cfg, r, payload, w).0.lent else waiting.lent) - {ws}
  {
    hide RunnerInv;
    hide CustodyInv;
    hide Create;
    hide Clean;
    hide ResolveVnc;
    hide AcquireBrowser;
    hide OperateAll;
    hide MarkTaken;
    hide EffectiveFlags;
    CreateLends(cfg, r, payload, w);
    WaitingSlot(cfg, r, payload, w, ws);
    var waiting := Waiting(cfg, r, payload, w).0;
    if waiting.pool.value.slots[ws].state == Busy {
      CreateIsAllOrNothing(cfg, r, payload, w);
      LostCreate(cfg, r, payload, w);
      assert Create(cfg, r, payload, w).0.warm == waiting.warm;
    }
  }

  /** The reserved slot is still there; when taken, it is taken for no session. */
  lemma WaitingSlot(cfg: Settings, r: Runner, payload: CreatePayload, w: CreateWorld, ws: WorkstationId)
    requires RunnerInv(cfg, r) && w.id !in r.issued && Undisturbed(r, w.between) && ReservedAt(cfg, r, payload, w, ws)
    ensures var waiting := Waiting(cfg, r, payload, w).0;
            && waiting.pool.Some? && ws in waiting.pool.value.slots
            && ws !in waiting.warm.Values
            && (ws in waiting.lent <==> waiting.pool.value.slots[ws].state in {Reserved, Busy})
  {
    hide RunnerInv;
    hide CustodyInv;
    hide EffectiveFlags;
    hide Reserve;
    hide OperateAll;
    hide ResolveVnc;
    hide AcquireBrowser;
    hide SameTables;
    ResourcesInCustody(cfg, r);
    var r1 := ResolveVnc(cfg, r.(issued := r.issued + {w.id}), payload, w).0;
    ResolveFrame(cfg, r.(issued := r.issued + {w.id}), payload, w);
    CreateProofs.AcquireCorrect(cfg, r1, payload, w);
    var r2 := AcquireBrowser(cfg, r1, payload, w).0;
    ReservedForNobody(cfg.Pool(), HoldingsOf(r), payload.hint);
    WaitingIsHeld(cfg, r, payload, w);
    SlotsStay(cfg, r, payload.hint);
    OperateAllKeepsSlots(cfg, r2, w.between);
    OperateAllFrame(cfg, r2, w.between);
    var waiting := Waiting(cfg, r, payload, w).0;
    TakenMeans(cfg.Pool(), HoldingsOf(waiting), ws);
    assert waiting.warm == r.warm;
  }

  lemma SlotsStay(cfg: Settings, r: Runner, hint: Option<WorkstationId>)
    ensures r.pool.Some? ==> r.pool.value.slots.Keys <= Reserve(r.pool.value, hint).0.slots.Keys
  {
  }

  /** A create whose slot is no longer Reserved changes the pool no further. */
  lemma LostCreate(cfg: Settings, r: Runner, payload: CreatePayload, w: CreateWorld)
    requires ResolveVnc(cfg, r.(issued := r.issued + {w.id}), payload, w).1.VncGranted?
    requires var (waiting, got) := Waiting(cfg, r, payload, w); got.WarmBrowser? && !StillReserved(waiting, got)
    ensures var waiting := Waiting(cfg, r, payload, w).0;
            var (after, result) := Create(cfg, r, payload, w);
            && result.Err? && result.error in {Invalid, NoCapacity}
            && after == waiting.(vnc := after.vnc)
  {
    hide ResolveVnc;
    hide AcquireBrowser;
    hide OperateAll;
    hide Released;
  }

  /** One mark-busy by the operator on the reserved slot, and it stays Busy for nobody. */
  lemma BusyMeanwhileStrands(cfg: Settings, r: Runner, payload: CreatePayload, w: CreateWorld, ws: WorkstationId)
    requires RunnerInv(cfg, r) && w.id !in r.issued && ReservedAt(cfg, r, payload, w, ws) && w.between == [OpBusy(ws)]
    ensures var (after, result) := Create(cfg, r, payload, w);
            && result.Err? && after.pool.Some? && ws in after.pool.value.slots
            && after.pool.value.slots[ws].state == Busy && ws !in after.warm.Values
  {
    hide RunnerInv;
    hide CustodyInv;
    hide Create;
    hide ResolveVnc;
    hide AcquireBrowser;
    hide EffectiveFlags;
    StrandedIff(cfg, r, payload, w, ws);
    var r1 := ResolveVnc(cfg, r.(issued := r.issued + {w.id}), payload, w).0;
    CreateProofs.AcquireCorrect(cfg, r1, payload, w);
    var r2 := AcquireBrowser(cfg, r1, payload, w).0;
    OneRequest(cfg, r2, OpBusy(ws));
  }

  lemma NoRequest(cfg: Settings, r: Runner)
    ensures OperateAll(cfg, r, []) == r
  {
  }

  lemma OneRequest(cfg: Settings, r: Runner, a: OperatorAction)
    ensures OperateAll(cfg, r, [a]) == Operate(cfg, r, a)
  {
    hide Operate;
    assert [a][..0] == [];
    NoRequest(cfg, r);
  }

  lemma TwoRequests(cfg: Settings, r: Runner, a: OperatorAction, b: OperatorAction)
    ensures OperateAll(cfg, r, [a, b]) == Operate(cfg, Operate(cfg, r, a), b)
  {
    hide Operate;
    assert [a, b][..1] == [a];
    OneRequest(cfg, r, a);
  }

  // ---------- maintenance ----------

  lemma MaintainedReservation(
    cfg: Settings, r: Runner, hint: Option<WorkstationId>, between: seq<OperatorAction>,
    afterwards: seq<OperatorAction>)
    requires Returned(cfg, r, r) && r.pool.Some? && Reserve(r.pool.value, hint).1.Ok?
    requires (forall a | a in between :: a.Maintains()) && (forall a | a in afterwards :: a.Maintains())
    ensures var (p, answer) := Reserve(r.pool.value, hint); var got := WarmBrowser(answer.value);
            var waiting := OperateAll(
                             cfg, r.(pool := Some(p), lent := r.lent + {answer.value.workstation}), between);
            var storing := OperateAll(cfg, MarkTaken(waiting, got).0, afterwards);
            StillReserved(waiting, got) && SameBrowser(storing, got)
  {
    hide CustodyInv;
    hide PoolInv;
    hide SameTables;
    hide OnlyActed;
    hide OperateAll;
    hide Reserve;
    var (p, answer) := Reserve(r.pool.value, hint);
    var ws := answer.value.workstation;
    var q := r.(pool := Some(p), lent := r.lent + {ws});
    PoolInCustody(cfg.Pool(), HoldingsOf(r));
    ReserveCorrect(cfg.Pool(), Fleet(r.pool.value, r.browsers), hint);
    OperatorCustody(cfg, r, OpReserve(hint));
    assert Operate(cfg, r, OpReserve(hint)) == q;
    MaintenanceSparesAll(cfg, q, between, ws);
    MaintenanceLendsNone(cfg, q, between);
    OperateAllKeepsCustody(cfg, q, between);
    var waiting := OperateAll(cfg, q, between);
    OperatorCustody(cfg, waiting, OpBusy(ws));
    assert Operate(cfg, waiting, OpBusy(ws)) == MarkTaken(waiting, WarmBrowser(answer.value)).0;
    MaintenanceSparesAll(cfg, MarkTaken(waiting, WarmBrowser(answer.value)).0, afterwards, ws);
  }

  /** Restarts, drains and enables meanwhile neither disturb a session nor touch the reserved slot. */
  lemma MaintenanceIsHarmless(cfg: Settings, r: Runner, payload: CreatePayload, w: CreateWorld)
    requires RunnerInv(cfg, r) && w.id !in r.issued
    requires (forall a | a in w.between :: a.Maintains()) && (forall a | a in w.afterwards :: a.Maintains())
    ensures Permitted(cfg, r, DoCreate(payload, w))
    ensures Create(cfg, r, payload, w).0.lent == r.lent
    ensures Reached(cfg, r, payload, w) != ReservationLost
  {
    hide RunnerInv;
    hide CustodyInv;
    hide Create;
    hide ResolveVnc;
    hide AcquireBrowser;
    hide OperateAll;
    hide EffectiveFlags;
    hide StillReserved;
    hide SameBrowser;
    hide Reserve;
    hide MarkTaken;
    CreateLends(cfg, r, payload, w);
    var r1 := ResolveVnc(cfg, r.(issued := r.issued + {w.id}), payload, w).0;
    ResolveFrame(cfg, r.(issued := r.issued + {w.id}), payload, w);
    CreateProofs.AcquireCorrect(cfg, r1, payload, w);
    var (r2, got) := AcquireBrowser(cfg, r1, payload, w);
    var (storing, _) := Storing(cfg, r, payload, w);
    var waiting := Waiting(cfg, r, payload, w).0;
    MarkLendsNothing(waiting, got);
    MaintenanceLendsNone(cfg, r2, w.between);
    MaintenanceLendsNone(cfg, MarkTaken(waiting, got).0, w.afterwards);
    MaintenanceDisturbsNone(r, w.between);
    MaintenanceDisturbsNone(r, w.afterwards);
    ReadyToReturn(cfg, r, r1);
    ResourcesInCustody(cfg, r);
    if got.WarmBrowser? {
      MaintainedReservation(cfg, r1, payload.hint, w.between, w.afterwards);
      ReservedForNobody(cfg.Pool(), HoldingsOf(r), payload.hint);
    } else {
      NothingReserved(waiting, got);
      NothingReserved(storing, got);
    }
  }

  lemma MaintenanceDisturbsNone(r: Runner, actions: seq<OperatorAction>)
    requires forall a | a in actions :: a.Maintains()
    ensures Undisturbed(r, actions)
  {
  }

  lemma MarkLendsNothing(r: Runner, got: Acquisition)
    ensures var q := MarkTaken(r, got).0; q == r.(pool := q.pool) && (q.pool.Some? <==> r.pool.Some?)
  {
    hide MarkBusy;
  }

  lemma NothingReserved(r: Runner, got: Acquisition)
    requires !got.WarmBrowser?
    ensures StillReserved(r, got) && SameBrowser(r, got)
  {
  }

  // ---------- a reservation swapped under a create ----------

  /**
   The operator recycles the reserved slot and reserves it again. The create goes through, and
   its session holds the handle of a browser that has been stopped.
   */
  lemma SwapMeanwhileBreaks(
    cfg: Settings, r: Runner, payload: CreatePayload, w: CreateWorld, ws: WorkstationId, answers: Answers,
    endpoint: string)
    requires RunnerInv(cfg, r) && w.id !in r.issued && ReservedAt(cfg, r, payload, w, ws)
    requires w.between == [OpRelease(ws, answers), OpReserve(Some(ws))] && w.afterwards == [] && ws != ""
    requires cfg.maxRetries >= 1 && answers(1) == Warmed(endpoint)
    requires w.valid && w.delivered && payload.status in {Init, Ready}
    ensures var (after, result) := Create(cfg, r, payload, w);
            result.Ok? && !RunnerInv(cfg, after)
  {
    hide RunnerInv;
    hide CustodyInv;
    hide Create;
    hide ResolveVnc;
    hide AcquireBrowser;
    hide OperateAll;
    hide MarkTaken;
    hide StillReserved;
    hide SameBrowser;
    hide EffectiveFlags;
    hide Clean;
    hide Reserve;
    hide Operate;
    ReservationOf(cfg, r, payload, w, ws);
    var r1 := ResolveVnc(cfg, r.(issued := r.issued + {w.id}), payload, w).0;
    var (r2, got) := AcquireBrowser(cfg, r1, payload, w);
    TwoRequests(cfg, r2, w.between[0], w.between[1]);
    assert w.between == [w.between[0], w.between[1]];
    SwappedReservation(cfg, r1, payload.hint, ws, answers, endpoint);
    NoRequest(cfg, MarkTaken(Waiting(cfg, r, payload, w).0, got).0);
    assert Reached(cfg, r, payload, w) == Completed;
    CreateIsAllOrNothing(cfg, r, payload, w);
  }

  /** A single release by the operator after the slot was marked busy does the same. */
  lemma ReleaseAfterwardsBreaks(
    cfg: Settings, r: Runner, payload: CreatePayload, w: CreateWorld, ws: WorkstationId, answers: Answers)
    requires RunnerInv(cfg, r) && w.id !in r.issued && ReservedAt(cfg, r, payload, w, ws)
    requires w.between == [] && w.afterwards == [OpRelease(ws, answers)]
    requires w.valid && w.delivered && payload.status in {Init, Ready}
    ensures var (after, result) := Create(cfg, r, payload, w);
            result.Ok? && !RunnerInv(cfg, after)
  {
    hide RunnerInv;
    hide CustodyInv;
    hide Create;
    hide ResolveVnc;
    hide AcquireBrowser;
    hide OperateAll;
    hide MarkTaken;
    hide StillReserved;
    hide SameBrowser;
    hide EffectiveFlags;
    hide Clean;
    hide Reserve;
    hide Operate;
    ReservationOf(cfg, r, payload, w, ws);
    var r1 := ResolveVnc(cfg, r.(issued := r.issued + {w.id}), payload, w).0;
    var (r2, got) := AcquireBrowser(cfg, r1, payload, w);
    NoRequest(cfg, r2);
    OneRequest(cfg, MarkTaken(r2, got).0, OpRelease(ws, answers));
    ReleasedReservation(cfg, r1, payload.hint, ws, answers);
    assert Reached(cfg, r, payload, w) == Completed;
    CreateIsAllOrNothing(cfg, r, payload, w);
  }

  /** The reservation a create makes, and that its workstation is no session's. */
  lemma ReservationOf(cfg: Settings, r: Runner, payload: CreatePayload, w: CreateWorld, ws: WorkstationId)
    requires RunnerInv(cfg, r) && ReservedAt(cfg, r, payload, w, ws)
    ensures var r1 := ResolveVnc(cfg, r.(issued := r.issued + {w.id}), payload, w).0;
            && Returned(cfg, r1, r1) && r1.pool.Some? && r1.pool == r.pool && ws !in r.warm.Values
            && var (p, answer) := Reserve(r1.pool.value, payload.hint);
               && answer.Ok? && answer.value.workstation == ws
               && AcquireBrowser(cfg, r1, payload, w)
                  == (r1.(pool := Some(p), lent := r1.lent + {ws}), WarmBrowser(answer.value))
  {
    hide RunnerInv;
    hide CustodyInv;
    hide ResolveVnc;
    hide AcquireBrowser;
    hide EffectiveFlags;
    hide Reserve;
    var r1 := ResolveVnc(cfg, r.(issued := r.issued + {w.id}), payload, w).0;
    ResolveFrame(cfg, r.(issued := r.issued + {w.id}), payload, w);
    ResourcesInCustody(cfg, r);
    ReadyToReturn(cfg, r, r1);
    CreateProofs.AcquireCorrect(cfg, r1, payload, w);
    ReservedForNobody(cfg.Pool(), HoldingsOf(r), payload.hint);
  }

  lemma ReleasedReservation(
    cfg: Settings, r: Runner, hint: Option<WorkstationId>, ws: WorkstationId, answers: Answers)
    requires Returned(cfg, r, r) && r.pool.Some? && Reserve(r.pool.value, hint).1.Ok?
    requires Reserve(r.pool.value, hint).1.value.workstation == ws
    ensures var (p, answer) := Reserve(r.pool.value, hint); var got := WarmBrowser(answer.value);
            var q := r.(pool := Some(p), lent := r.lent + {ws});
            && StillReserved(q, got)
            && !SameBrowser(Operate(cfg, MarkTaken(q, got).0, OpRelease(ws, answers)), got)
  {
    hide CustodyInv;
    hide PoolInv;
    hide SameTables;
    hide OnlyActed;
    hide RecycledFrom;
    hide Reserve;
    PoolInCustody(cfg.Pool(), HoldingsOf(r));
    ReserveCorrect(cfg.Pool(), Fleet(r.pool.value, r.browsers), hint);
    var (p, answer) := Reserve(r.pool.value, hint);
    var q := MarkTaken(r.(pool := Some(p), lent := r.lent + {ws}), WarmBrowser(answer.value)).0;
    RecycledIsFree(cfg.Pool(), Fleet(q.pool.value, q.browsers), ws, answers, {Busy, Reserved});
  }

  lemma RecycledAnew(cfg: PoolConfig, f: Fleet, w: WorkstationId, answers: Answers, endpoint: string)
    requires w in f.pool.slots && f.pool.slots[w].state in {Busy, Reserved}
    requires cfg.maxRetries >= 1 && answers(1) == Warmed(endpoint)
    ensures var p := Release(cfg, f, w, answers).0.pool;
            && w in p.slots && p.slots[w].state == Idle && p.slots[w].handle == Some(|f.browsers|)
            && p.draining == f.pool.draining
  {
  }

  lemma ReservedAnew(p: WarmPool, w: WorkstationId)
    requires w in p.slots && p.slots[w].state == Idle && p.slots[w].handle.Some? && !p.draining && w != ""
    ensures var q := Reserve(p, Some(w)).0; w in q.slots && q.slots[w] == p.slots[w].(state := Reserved)
  {
  }

  lemma ReservationKeepsFlag(p: WarmPool, hint: Option<WorkstationId>)
    ensures Reserve(p, hint).0.draining == p.draining
    ensures Reserve(p, hint).1.Ok? ==> !p.draining
  {
    hide Selected;
  }

  lemma SwappedReservation(
    cfg: Settings, r: Runner, hint: Option<WorkstationId>, ws: WorkstationId, answers: Answers, endpoint: string)
    requires Returned(cfg, r, r) && r.pool.Some? && Reserve(r.pool.value, hint).1.Ok?
    requires Reserve(r.pool.value, hint).1.value.workstation == ws && ws != ""
    requires cfg.maxRetries >= 1 && answers(1) == Warmed(endpoint)
    ensures var (p, got) := Reserve(r.pool.value, hint);
            var q := r.(pool := Some(p), lent := r.lent + {ws});
            var swapped := Operate(cfg, Operate(cfg, q, OpRelease(ws, answers)), OpReserve(Some(ws)));
            && StillReserved(swapped, WarmBrowser(got.value))
            && !SameBrowser(MarkTaken(swapped, WarmBrowser(got.value)).0, WarmBrowser(got.value))
  {
    hide CustodyInv;
    hide PoolInv;
    hide SameTables;
    hide OnlyActed;
    hide Release;
    hide Reserve;
    PoolInCustody(cfg.Pool(), HoldingsOf(r));
    ReserveCorrect(cfg.Pool(), Fleet(r.pool.value, r.browsers), hint);
    HandleIsKnown(cfg.Pool(), r.pool.value, r.browsers, ws);
    ReservationKeepsFlag(r.pool.value, hint);
    var f := Fleet(Reserve(r.pool.value, hint).0, r.browsers);
    RecycledAnew(cfg.Pool(), f, ws, answers, endpoint);
    ReservedAnew(Release(cfg.Pool(), f, ws, answers).0.pool, ws);
  }

  // ---------- a session disturbed while a create waits ----------

  /** Session `id` no longer has its slot to itself. */
  ghost predicate Dispossessed(r: Runner, id: SessionId) {
    && r.pool.Some? && id in r.warm && r.warm[id] in r.pool.value.slots
    && (r.pool.value.slots[r.warm[id]].state !in {Reserved, Busy} || r.warm[id] in r.lent)
  }

  lemma SessionSlots(cfg: PoolConfig, h: Holdings)
    requires CustodyInv(cfg, h)
    ensures h.pool.None? ==> h.warm == map[]
    ensures h.pool.Some? ==> forall id | id in h.warm :: h.warm[id] in h.pool.value.slots
  {
    hide PoolInv;
    hide ColdSide;
    hide WarmSide;
  }

  lemma DispossessedIsUnsound(cfg: Settings, r: Runner, id: SessionId)
    ensures Dispossessed(r, id) ==> !RunnerInv(cfg, r)
  {
    if RunnerInv(cfg, r) && id in r.warm {
      ResourcesInCustody(cfg, r);
      hide RunnerInv;
      assert r.warm[id] in r.warm.Values;
      SessionSlots(cfg.Pool(), HoldingsOf(r));
      if r.pool.Some? {
        TakenMeans(cfg.Pool(), HoldingsOf(r), r.warm[id]);
      }
    }
  }

  lemma RecycledIsFree(
    cfg: PoolConfig, f: Fleet, w: WorkstationId, answers: Answers, allowed: set<WarmState>)
    ensures var (g, error) := RecycledFrom(cfg, f, w, answers, allowed);
            && (forall v | v in f.pool.slots && v != w :: v in g.pool.slots && g.pool.slots[v] == f.pool.slots[v])
            && (error == Some(StateError) <==> w !in f.pool.slots || f.pool.slots[w].state !in allowed)
            && (error == Some(StateError) ==> g == f)
            && (error != Some(StateError) ==> w in g.pool.slots && g.pool.slots[w].state in {Idle, Error})
  {
    hide Launched;
  }

  lemma StaysDispossessed(cfg: Settings, r: Runner, a: OperatorAction, id: SessionId)
    requires Dispossessed(r, id)
    ensures Dispossessed(Operate(cfg, r, a), id)
  {
    hide RecycledFrom;
    var f := Fleet(r.pool.value, r.browsers);
    match a
    case OpReserve(hint) =>
    case OpBusy(w) =>
    case OpCancel(w) =>
    case OpRelease(w, answers) => RecycledIsFree(cfg.Pool(), f, w, answers, {Busy, Reserved});
    case OpDrainSlot(w) =>
    case OpEnable(w, answers) => RecycledIsFree(cfg.Pool(), f, w, answers, {Draining, Error});
    case OpRestart(w, answers) => RecycledIsFree(cfg.Pool(), f, w, answers, {Idle, Error});
  }

  lemma DisruptionDispossesses(cfg: Settings, r: Runner, id: SessionId, answers: Answers)
    requires r.pool.Some? && id in r.warm && r.warm[id] in r.pool.value.slots
    ensures Dispossessed(Operate(cfg, r, OpRelease(r.warm[id], answers)), id)
  {
    hide RecycledFrom;
    RecycledIsFree(cfg.Pool(), Fleet(r.pool.value, r.browsers), r.warm[id], answers, {Busy, Reserved});
  }

  /** Once a session has been disturbed, no further request of the operator's repairs it. */
  lemma {:induction false} DisturbedIsDispossessed(cfg: Settings, r: Runner, actions: seq<OperatorAction>)
    returns (id: SessionId)
    requires r.pool.Some? && (forall k | k in r.warm :: r.warm[k] in r.pool.value.slots) && !Undisturbed(r, actions)
    ensures id in r.warm && Dispossessed(OperateAll(cfg, r, actions), id)
    decreases |actions|
  {
    hide Operate;
    hide Dispossessed;
    var n := |actions| - 1;
    var mid := OperateAll(cfg, r, actions[..n]);
    OperateAllFrame(cfg, r, actions[..n]);
    OperateAllKeepsSlots(cfg, r, actions[..n]);
    if Undisturbed(r, actions[..n]) {
      assert actions == actions[..n] + [actions[n]];
      assert Disrupts(r, actions[n]);
      id :| id in r.warm && r.warm[id] == actions[n].w;
      DisruptionDispossesses(cfg, mid, id, actions[n].answers);
    } else {
      id := DisturbedIsDispossessed(cfg, r, actions[..n]);
      StaysDispossessed(cfg, mid, actions[n], id);
    }
  }

  /** Marking, giving back and recycling another slot does not help the session. */
  lemma MarkKeepsDispossessed(r: Runner, got: Acquisition, id: SessionId)
    requires Dispossessed(r, id) && (got.WarmBrowser? ==> got.reservation.workstation != r.warm[id])
    ensures Dispossessed(MarkTaken(r, got).0, id)
  {
  }

  lemma GiveBackKeepsDispossessed(r: Runner, got: Acquisition, slot: Option<VncSlot>, id: SessionId)
    requires Dispossessed(r, id) && (got.WarmBrowser? ==> got.reservation.workstation != r.warm[id])
    ensures Dispossessed(GiveBack(r, got), id) && Dispossessed(DiscardVnc(GiveBack(r, got), slot), id)
  {
    hide Released;
    hide Shut;
    assert Dispossessed(GiveBack(r, got), id);
    hide GiveBack;
  }

  lemma UnstoredKeepsDispossessed(
    cfg: Settings, r: Runner, got: Acquisition, slot: Option<VncSlot>, recycle: Answers, id: SessionId)
    requires Dispossessed(r, id) && (got.WarmBrowser? ==> got.reservation.workstation != r.warm[id])
    ensures Dispossessed(Unstored(cfg, r, got, slot, recycle), id)
  {
    hide RecycledFrom;
    hide MinExpiry;
    hide Released;
    hide GiveBack;
    var clean := DiscardVnc(r, slot).(nextExpiry := MinExpiry(r.order, r.sessions, {}), excluded := {});
    match got
    case Refused => GiveBackKeepsDispossessed(clean, got, None, id);
    case ColdBrowser(_) => GiveBackKeepsDispossessed(clean, got, None, id);
    case WarmBrowser(reservation) =>
      RecycledIsFree(cfg.Pool(), Fleet(r.pool.value, r.browsers), reservation.workstation, recycle, {Busy, Reserved});
  }

  lemma StoreKeepsDispossessed(
    r: Runner, s: Session, got: Acquisition, slot: Option<VncSlot>, events: seq<Event>, id: SessionId)
    requires Dispossessed(r, id) && !got.Refused? && s.id != id
    requires got.WarmBrowser? ==> got.reservation.workstation != r.warm[id]
    ensures Dispossessed(Store(r, s, got, slot).(events := events), id)
  {
    hide MinExpiry;
  }

  lemma {:induction false} RequestsKeepDispossessed(
    cfg: Settings, r: Runner, actions: seq<OperatorAction>, id: SessionId)
    requires Dispossessed(r, id)
    ensures Dispossessed(OperateAll(cfg, r, actions), id)
  {
    hide Operate;
    hide Dispossessed;
    if actions != [] {
      var n := |actions| - 1;
      RequestsKeepDispossessed(cfg, r, actions[..n], id);
      StaysDispossessed(cfg, OperateAll(cfg, r, actions[..n]), actions[n], id);
    }
  }

  /** A create whose display and browser were granted, seen from the state in which it stops waiting. */
  lemma CreateFromWaiting(cfg: Settings, r: Runner, payload: CreatePayload, w: CreateWorld)
    requires Reached(cfg, r, payload, w) !in {VncFailed, BrowserFailed}
    ensures var (waiting, got) := Waiting(cfg, r, payload, w); var storing := Storing(cfg, r, payload, w).0;
            var grant := ResolveVnc(cfg, r.(issued := r.issued + {w.id}), payload, w).1;
            var s := NewSession(cfg, storing.browsers, payload, w, grant.details, got);
            var after := Create(cfg, r, payload, w).0;
            after == if Reached(cfg, r, payload, w) == PublishFailed then
                       Unstored(cfg, storing, got, grant.slot, w.recycle)
                     else if Reached(cfg, r, payload, w) == Completed then
                       Store(storing, s, got, grant.slot)
                       .(events := storing.events + [Event(Created, s, w.publishedAt, None)])
                     else
                       DiscardVnc(GiveBack(waiting, got), grant.slot)
  {
    hide ResolveVnc;
    hide AcquireBrowser;
    hide OperateAll;
    hide GiveBack;
    hide DiscardVnc;
    hide Store;
    hide Unstored;
    hide EffectiveFlags;
  }

  /** A session disturbed before the create is through has lost its slot when it is. */
  lemma CreateKeepsDispossessed(cfg: Settings, r: Runner, payload: CreatePayload, w: CreateWorld, id: SessionId)
    requires Reached(cfg, r, payload, w) !in {VncFailed, BrowserFailed} && id != w.id && id in r.warm
    requires var got := Waiting(cfg, r, payload, w).1;
             got.WarmBrowser? ==> got.reservation.workstation != r.warm[id]
    requires if Reached(cfg, r, payload, w) in {PublishFailed, Completed}
             then Dispossessed(Storing(cfg, r, payload, w).0, id)
             else Dispossessed(Waiting(cfg, r, payload, w).0, id)
    ensures Dispossessed(Create(cfg, r, payload, w).0, id)
  {
    hide Dispossessed;
    hide Create;
    hide Waiting;
    hide Storing;
    hide ResolveVnc;
    hide GiveBack;
    hide DiscardVnc;
    hide Store;
    hide Unstored;
    hide EffectiveFlags;
    hide Reached;
    WaitingTables(cfg, r, payload, w);
    BrowserAcquired(cfg, r, payload, w);
    CreateFromWaiting(cfg, r, payload, w);
    var (waiting, got) := Waiting(cfg, r, payload, w);
    var storing := Storing(cfg, r, payload, w).0;
    var grant := ResolveVnc(cfg, r.(issued := r.issued + {w.id}), payload, w).1;
    var s := NewSession(cfg, storing.browsers, payload, w, grant.details, got);
    var stage := Reached(cfg, r, payload, w);
    if stage == PublishFailed {
      UnstoredKeepsDispossessed(cfg, storing, got, grant.slot, w.recycle, id);
    } else if stage == Completed {
      StoreKeepsDispossessed(
        storing, s, got, grant.slot, storing.events + [Event(Created, s, w.publishedAt, None)], id);
    } else {
      GiveBackKeepsDispossessed(waiting, got, grant.slot, id);
    }
  }

  lemma BrowserAcquired(cfg: Settings, r: Runner, payload: CreatePayload, w: CreateWorld)
    requires Reached(cfg, r, payload, w) !in {VncFailed, BrowserFailed}
    ensures ResolveVnc(cfg, r.(issued := r.issued + {w.id}), payload, w).1.VncGranted?
    ensures !Waiting(cfg, r, payload, w).1.Refused?
  {
    hide ResolveVnc;
    hide Waiting;
  }

  lemma WaitingTables(cfg: Settings, r: Runner, payload: CreatePayload, w: CreateWorld)
    ensures Waiting(cfg, r, payload, w).0.warm == r.warm && Storing(cfg, r, payload, w).0.warm == r.warm
    ensures Storing(cfg, r, payload, w).1 == Waiting(cfg, r, payload, w).1
  {
    hide ResolveVnc;
    hide AcquireBrowser;
    hide MarkTaken;
    hide OperateAll;
    hide EffectiveFlags;
    var r1 := ResolveVnc(cfg, r.(issued := r.issued + {w.id}), payload, w).0;
    ResolveFrame(cfg, r.(issued := r.issued + {w.id}), payload, w);
    CreateProofs.AcquireCorrect(cfg, r1, payload, w);
    var (r2, got) := AcquireBrowser(cfg, r1, payload, w);
    OperateAllFrame(cfg, r2, w.between);
    MarkLendsNothing(Waiting(cfg, r, payload, w).0, got);
    OperateAllFrame(cfg, MarkTaken(Waiting(cfg, r, payload, w).0, got).0, w.afterwards);
  }

  /** The sessions' slots stay in the pool, and the one a create reserves is none of them. */
  lemma WaitingSlots(cfg: Settings, r: Runner, payload: CreatePayload, w: CreateWorld)
    requires RunnerInv(cfg, r)
    ensures var r1 := ResolveVnc(cfg, r.(issued := r.issued + {w.id}), payload, w).0;
            var (r2, got) := AcquireBrowser(cfg, r1, payload, w); var waiting := Waiting(cfg, r, payload, w).0;
            && (r.pool.None? ==> r.warm == map[])
            && (r.pool.Some? ==> r2.pool.Some? && waiting.pool.Some?)
            && (forall id | id in r.warm && r.pool.Some? ::
                  r.warm[id] in r2.pool.value.slots && r.warm[id] in waiting.pool.value.slots)
            && (got.WarmBrowser? ==> forall id | id in r.warm :: got.reservation.workstation != r.warm[id])
  {
    hide RunnerInv;
    hide CustodyInv;
    hide ResolveVnc;
    hide AcquireBrowser;
    hide OperateAll;
    hide EffectiveFlags;
    hide Reserve;
    ResourcesInCustody(cfg, r);
    var r1 := ResolveVnc(cfg, r.(issued := r.issued + {w.id}), payload, w).0;
    ResolveFrame(cfg, r.(issued := r.issued + {w.id}), payload, w);
    CreateProofs.AcquireCorrect(cfg, r1, payload, w);
    var (r2, got) := AcquireBrowser(cfg, r1, payload, w);
    SessionSlots(cfg.Pool(), HoldingsOf(r));
    SlotsStay(cfg, r, payload.hint);
    if r.pool.Some? {
      ReservedForNobody(cfg.Pool(), HoldingsOf(r), payload.hint);
      OperateAllKeepsSlots(cfg, r2, w.between);
      assert forall id | id in r.warm :: r.warm[id] in r.warm.Values;
    }
  }

  /** A create meanwhile disturbed leaves an unsound runner behind. */
  lemma InterruptedIsUnsound(cfg: Settings, r: Runner, payload: CreatePayload, w: CreateWorld)
    requires RunnerInv(cfg, r) && w.id !in r.issued && !Uninterrupted(cfg, r, payload, w)
    ensures !RunnerInv(cfg, Create(cfg, r, payload, w).0)
  {
    hide RunnerInv;
    hide Create;
    hide ResolveVnc;
    hide AcquireBrowser;
    hide OperateAll;
    hide MarkTaken;
    hide Dispossessed;
    hide Reached;
    FreshIdentifier(cfg, r, w.id);
    WaitingSlots(cfg, r, payload, w);
    WaitingTables(cfg, r, payload, w);
    var r2 := AcquireBrowser(
                cfg, ResolveVnc(cfg, r.(issued := r.issued + {w.id}), payload, w).0, payload, w).0;
    var (waiting, got) := Waiting(cfg, r, payload, w);
    var q := MarkTaken(waiting, got).0;
    OperateAllFrame(cfg, r2, w.between);
    MarkLendsNothing(waiting, got);
    MarkKeepsSlots(waiting, got);
    var id;
    if !Undisturbed(r, w.between) {
      id := DisturbedIsDispossessed(cfg, r2, w.between);
      assert Dispossessed(waiting, id);
      MarkKeepsDispossessed(waiting, got, id);
      RequestsKeepDispossessed(cfg, q, w.afterwards, id);
    } else {
      id := DisturbedIsDispossessed(cfg, q, w.afterwards);
    }
    ReachedFar(cfg, r, payload, w);
    CreateKeepsDispossessed(cfg, r, payload, w, id);
    DispossessedIsUnsound(cfg, Create(cfg, r, payload, w).0, id);
  }

  lemma ReachedFar(cfg: Settings, r: Runner, payload: CreatePayload, w: CreateWorld)
    requires !Uninterrupted(cfg, r, payload, w)
    ensures Reached(cfg, r, payload, w) !in {VncFailed, BrowserFailed}
    ensures Undisturbed(r, w.between) ==> Reached(cfg, r, payload, w) in {PublishFailed, Completed}
  {
    hide Reached;
  }

  lemma MarkKeepsSlots(r: Runner, got: Acquisition)
    ensures r.pool.Some? ==>
              var q := MarkTaken(r, got).0; q.pool.Some? && q.pool.value.slots.Keys == r.pool.value.slots.Keys
  {
  }

  /**
   The exact condition for a create to keep the runner's invariant: while it waits the operator
   disturbs no session, and if it succeeds, the slot it marks busy still has the browser it reserved.
   */
  lemma CreateKeepsInvIff(cfg: Settings, r: Runner, payload: CreatePayload, w: CreateWorld)
    requires RunnerInv(cfg, r) && w.id !in r.issued
    ensures RunnerInv(cfg, Create(cfg, r, payload, w).0) <==> Permitted(cfg, r, DoCreate(payload, w))
  {
    hide RunnerInv;
    hide Create;
    hide Waiting;
    hide SameBrowser;
    hide Reached;
    if Uninterrupted(cfg, r, payload, w) {
      CreateIsAllOrNothing(cfg, r, payload, w);
    } else {
      InterruptedIsUnsound(cfg, r, payload, w);
    }
  }
}
