/** What holds over every run of the runner, from boot to stop. */
module RunProofs {
  import opened Domain
  import opened VncPools
  import opened WarmPools
  import opened WarmPoolProofs
  import opened Runners
  import opened RunnerInvariants
  import opened CustodyProofs
  import opened OperatorProofs
  import opened TableProofs
  import opened CreateProofs
  import opened ReservationProofs
  import opened UpdateProofs
  import opened SweepProofs

  // ---------- runs ----------

  /** A step keeps the invariant, whether it succeeds or fails, exactly when it is permitted. */
  lemma StepKeepsInvIff(cfg: Settings, r: Runner, a: Action)
    requires RunnerInv(cfg, r) && (a.DoCreate? ==> a.creating.id !in r.issued)
    ensures RunnerInv(cfg, Step(cfg, r, a).0) <==> Permitted(cfg, r, a)
  {
    hide RunnerInv;
    hide UpdateSession;
    hide AfterUpdate;
    hide Settle;
    hide Create;
    hide Operate;
    hide Uninterrupted;
    match a
    case DoCreate(payload, w) => CreateKeepsInvIff(cfg, r, payload, w);
    case DoUpdate(id, u, w) => UpdateKeepsInv(cfg, r, id, u, w);
    case DoEnd(id, reason, endedAt, w) => UpdateKeepsInv(cfg, r, id, EndUpdate(reason, endedAt), w);
    case DoTouch(id, now, w) => UpdateKeepsInv(cfg, r, id, TouchUpdate(now), w);
    case DoScan(now) => ScanKeepsInv(cfg, r, now);
    case DoOperate(operation) => OperatorKeepsInvIff(cfg, r, operation);
  }

  /**
   Over every run, including runs in which launches, recycles and publications fail: table
   ownership, custody of browsers and displays, exact caches, a faithful log, the sourcing policy.
   */
  lemma {:induction false} RunKeepsInv(cfg: Settings, r: Runner, actions: seq<Action>)
    requires RunnerInv(cfg, r) && AllPermitted(cfg, r, actions)
    ensures RunnerInv(cfg, Run(cfg, r, actions))
    decreases |actions|
  {
    hide RunnerInv;
    hide Step;
    if actions != [] {
      StepKeepsInvIff(cfg, r, actions[0]);
      RunKeepsInv(cfg, Step(cfg, r, actions[0]).0, actions[1..]);
    }
  }

  /** No identifier is used for two creates of a run, nor for one before it. */
  ghost predicate FreshIds(cfg: Settings, r: Runner, actions: seq<Action>)
    decreases |actions|
  {
    actions == [] ||
    (&& (actions[0].DoCreate? ==> actions[0].creating.id !in r.issued)
     && FreshIds(cfg, Step(cfg, r, actions[0]).0, actions[1..]))
  }

  ghost predicate SoundThroughout(cfg: Settings, r: Runner, actions: seq<Action>)
    decreases |actions|
  {
    RunnerInv(cfg, r) && (actions == [] || SoundThroughout(cfg, Step(cfg, r, actions[0]).0, actions[1..]))
  }

  /** The invariant holds before and after every step of a run exactly when every step was permitted. */
  lemma {:induction false} RunIsSoundIff(cfg: Settings, r: Runner, actions: seq<Action>)
    requires RunnerInv(cfg, r) && FreshIds(cfg, r, actions)
    ensures SoundThroughout(cfg, r, actions) <==> AllPermitted(cfg, r, actions)
    decreases |actions|
  {
    hide RunnerInv;
    hide Step;
    hide Permitted;
    if actions != [] {
      StepKeepsInvIff(cfg, r, actions[0]);
      if Permitted(cfg, r, actions[0]) {
        RunIsSoundIff(cfg, Step(cfg, r, actions[0]).0, actions[1..]);
      }
    }
  }

  lemma StepKeepsPublished(cfg: Settings, r: Runner, a: Action)
    requires RunnerInv(cfg, r) && Permitted(cfg, r, a) && r.unpublished == {}
    requires !a.DoCreate? ==> Step(cfg, r, a).1 !in {Some(RecycleFailed), Some(NotDelivered)}
    ensures Step(cfg, r, a).0.unpublished == {}
  {
    hide RunnerInv;
    hide UpdateSession;
    hide AfterUpdate;
    hide Settle;
    hide Create;
    hide Operate;
    hide Scan;
    match a
    case DoCreate(payload, w) => CreateIsAllOrNothing(cfg, r, payload, w);
    case DoUpdate(id, u, w) => UpdateKeepsInv(cfg, r, id, u, w);
    case DoEnd(id, reason, endedAt, w) => UpdateKeepsInv(cfg, r, id, EndUpdate(reason, endedAt), w);
    case DoTouch(id, now, w) => UpdateKeepsInv(cfg, r, id, TouchUpdate(now), w);
    case DoScan(now) => ScanKeepsInv(cfg, r, now);
    case DoOperate(operation) => OperateFrame(cfg, r, operation);
  }

  lemma LogIsComplete(cfg: Settings, r: Runner)
    requires RunnerInv(cfg, r) && r.unpublished == {}
    ensures Replay(r.events) == r.sessions && WellFormedLog(r.events)
  {
    hide CustodyInv;
    hide DisplaysInv;
    hide SessionsInv;
    hide LinksInv;
    hide CachesInv;
  }

  lemma {:induction false} AllIsPublished(cfg: Settings, r: Runner, actions: seq<Action>)
    requires RunnerInv(cfg, r) && AllPermitted(cfg, r, actions) && NoneFails(cfg, r, actions) && r.unpublished == {}
    ensures Run(cfg, r, actions).unpublished == {} && RunnerInv(cfg, Run(cfg, r, actions))
    decreases |actions|
  {
    hide RunnerInv;
    hide Step;
    hide Uninterrupted;
    hide Reached;
    if actions != [] {
      StepKeepsInvIff(cfg, r, actions[0]);
      StepKeepsPublished(cfg, r, actions[0]);
      AllIsPublished(cfg, Step(cfg, r, actions[0]).0, actions[1..]);
    }
  }

  /** Position by position: CREATED is a session's first event and no other, ENDED goes with a DEAD snapshot. */
  ghost predicate WellPlaced(events: seq<Event>, i: int)
    requires 0 <= i < |events|
  {
    && (events[i].kind == Created <==> !exists j :: 0 <= j < i && events[j].session.id == events[i].session.id)
    && (events[i].kind == Ended <==> events[i].session.status == Dead)
  }

  /**
   When no update of the run fails, folding the published events rebuilds the session table
   exactly, and every event is well placed in the log.
   */
  lemma LogRebuildsSessions(cfg: Settings, r: Runner, actions: seq<Action>)
    requires RunnerInv(cfg, r) && AllPermitted(cfg, r, actions) && NoneFails(cfg, r, actions) && r.unpublished == {}
    ensures var q := Run(cfg, r, actions);
            && Replay(q.events) == q.sessions && WellFormedLog(q.events)
            && (forall i | 0 <= i < |q.events| :: WellPlaced(q.events, i))
  {
    hide RunnerInv;
    hide Run;
    hide Replay;
    AllIsPublished(cfg, r, actions);
    var q := Run(cfg, r, actions);
    LogIsComplete(cfg, q);
    forall i | 0 <= i < |q.events| ensures WellPlaced(q.events, i) {
      LogByPosition(q.events, i);
    }
  }

  // ---------- boot and stop ----------

  lemma EmptyPoolIsSound(cfg: PoolConfig)
    ensures PoolInv(cfg, Fleet(WarmPool(map[], [], false, []), []))
  {
  }

  lemma AllByPool(bs: Browsers, later: Browsers)
    requires OnlyActed(bs, later, ByPool) && forall id | 0 <= id < |bs| :: bs[id].owner == ByPool
    ensures forall id | 0 <= id < |later| :: later[id].owner == ByPool
  {
  }

  lemma {:induction false} StartPoolKeepsInv(
    cfg: PoolConfig, workstations: seq<WorkstationId>, answers: WorkstationId -> Answers)
    requires Distinct(workstations)
    ensures var f := StartPool(cfg, Fleet(WarmPool(map[], [], false, []), []), workstations, answers);
            && PoolInv(cfg, f)
            && f.pool.slots.Keys == (set w | w in workstations)
            && (forall id | 0 <= id < |f.browsers| :: f.browsers[id].owner == ByPool)
            && (forall w | w in f.pool.slots :: f.pool.slots[w].state in {Idle, Error})
  {
    hide PoolInv;
    hide Started;
    hide OnlyActed;
    if workstations == [] {
      EmptyPoolIsSound(cfg);
    } else {
      var n := |workstations| - 1;
      var w := workstations[n];
      StartPoolKeepsInv(cfg, workstations[..n], answers);
      var f := StartPool(cfg, Fleet(WarmPool(map[], [], false, []), []), workstations[..n], answers);
      assert w !in f.pool.slots;
      StartedKeepsInv(cfg, f, w, answers(w));
      AllByPool(f.browsers, Started(cfg, f, w, answers(w)).browsers);
      assert workstations == workstations[..n] + [w];
    }
  }

  /** Nothing is held yet: the pool's browsers are all there are. */
  lemma BootCustody(cfg: PoolConfig, h: Holdings)
    requires h.handles == map[] && h.warm == map[] && h.lent == {}
    requires h.pool.Some? ==>
               && PoolInv(cfg, Fleet(h.pool.value, h.browsers))
               && (forall b | 0 <= b < |h.browsers| :: h.browsers[b].owner == ByPool)
               && (forall w | w in h.pool.value.slots :: h.pool.value.slots[w].state in {Idle, Error})
    requires h.pool.None? ==> h.browsers == []
    ensures CustodyInv(cfg, h)
  {
    hide PoolInv;
  }

  lemma BootEstablishesInv(
    cfg: Settings, workstations: Option<seq<WorkstationId>>, answers: WorkstationId -> Answers, hasVnc: bool)
    requires Distinct(cfg.ranges.displays) && Distinct(cfg.ranges.vncPorts) && Distinct(cfg.ranges.wsPorts)
    requires workstations.Some? ==> Distinct(workstations.value)
    ensures RunnerInv(cfg, Booted(cfg, workstations, answers, hasVnc))
  {
    hide VncInv;
    hide CustodyInv;
    hide PoolInv;
    FreshConserves(cfg.ranges);
    if workstations.Some? {
      StartPoolKeepsInv(cfg.Pool(), workstations.value, answers);
    }
    hide StartPool;
    BootCustody(cfg.Pool(), HoldingsOf(Booted(cfg, workstations, answers, hasVnc)));
  }

  /** In one statement: whatever happened since boot, the invariant holds. */
  lemma EveryReachableStateIsSound(
    cfg: Settings, workstations: Option<seq<WorkstationId>>, answers: WorkstationId -> Answers, hasVnc: bool,
    actions: seq<Action>)
    requires Distinct(cfg.ranges.displays) && Distinct(cfg.ranges.vncPorts) && Distinct(cfg.ranges.wsPorts)
    requires workstations.Some? ==> Distinct(workstations.value)
    requires AllPermitted(cfg, Booted(cfg, workstations, answers, hasVnc), actions)
    ensures RunnerInv(cfg, Run(cfg, Booted(cfg, workstations, answers, hasVnc), actions))
  {
    BootEstablishesInv(cfg, workstations, answers, hasVnc);
    hide RunnerInv;
    RunKeepsInv(cfg, Booted(cfg, workstations, answers, hasVnc), actions);
  }

  // ---------- ownership and sourcing, read off the invariant ----------

  /** The operator restarts, drains and enables slots, and does nothing else. */
  ghost predicate Maintenance(a: Action) {
    && (a.DoOperate? ==> a.operation.Maintains())
    && (a.DoCreate? ==>
          && (forall b | b in a.creating.between :: b.Maintains())
          && (forall b | b in a.creating.afterwards :: b.Maintains()))
  }

  lemma StepLendsNothing(cfg: Settings, r: Runner, a: Action)
    requires Maintenance(a) && RunnerInv(cfg, r) && (a.DoCreate? ==> a.creating.id !in r.issued)
    ensures Step(cfg, r, a).0.lent == r.lent && Permitted(cfg, r, a)
  {
    hide RunnerInv;
    hide Operated;
    hide Create;
    hide UpdateSession;
    hide Uninterrupted;
    match a
    case DoCreate(payload, w) => MaintenanceIsHarmless(cfg, r, payload, w);
    case DoUpdate(id, u, w) => UpdateLendsNothing(cfg, r, id, u, w);
    case DoEnd(id, reason, endedAt, w) => UpdateLendsNothing(cfg, r, id, EndUpdate(reason, endedAt), w);
    case DoTouch(id, now, w) => UpdateLendsNothing(cfg, r, id, TouchUpdate(now), w);
    case DoScan(now) =>
    case DoOperate(operation) =>
  }

  lemma UpdateLendsNothing(cfg: Settings, r: Runner, id: SessionId, u: Update, w: UpdateWorld)
    ensures UpdateSession(cfg, r, id, u, w).0.lent == r.lent
  {
    hide UpdateSession;
    hide Settle;
    hide AfterUpdate;
    if id in r.sessions {
      SettleLendsNothing(cfg, r, id, u, w);
      UpdateByParts(cfg, r, id, u, w);
    } else {
      UnknownIsNotFound(cfg, r, id, u, w);
    }
  }

  lemma SettleLendsNothing(cfg: Settings, r: Runner, id: SessionId, u: Update, w: UpdateWorld)
    requires id in r.sessions
    ensures Settle(cfg, r, id, u, w).0.lent == r.lent
  {
    hide AfterUpdate;
    hide MinExpiry;
    hide Release;
    hide Released;
    hide Recount;
  }

  /** With an operator who only maintains slots, every run is permitted. */
  lemma {:induction false} MaintenanceLendsNothing(cfg: Settings, r: Runner, actions: seq<Action>)
    requires RunnerInv(cfg, r) && FreshIds(cfg, r, actions) && forall a | a in actions :: Maintenance(a)
    ensures Run(cfg, r, actions).lent == r.lent && AllPermitted(cfg, r, actions)
    decreases |actions|
  {
    hide Step;
    hide RunnerInv;
    hide Permitted;
    if actions != [] {
      StepLendsNothing(cfg, r, actions[0]);
      StepKeepsInvIff(cfg, r, actions[0]);
      MaintenanceLendsNothing(cfg, Step(cfg, r, actions[0]).0, actions[1..]);
    }
  }

  /**
   Ownership over every run: with an operator who only maintains slots, each session on a warm
   slot has its own, these are exactly the Busy slots, and no slot is left Reserved.
   */
  lemma BusySlotsAreSessions(
    cfg: Settings, workstations: Option<seq<WorkstationId>>, answers: WorkstationId -> Answers, hasVnc: bool,
    actions: seq<Action>)
    requires Distinct(cfg.ranges.displays) && Distinct(cfg.ranges.vncPorts) && Distinct(cfg.ranges.wsPorts)
    requires workstations.Some? ==> Distinct(workstations.value)
    requires FreshIds(cfg, Booted(cfg, workstations, answers, hasVnc), actions)
    requires forall a | a in actions :: Maintenance(a)
    ensures var r := Run(cfg, Booted(cfg, workstations, answers, hasVnc), actions);
            && Injective(r.warm)
            && r.handles.Keys <= LiveIds(r.sessions) && r.warm.Keys <= LiveIds(r.sessions)
            && r.vncHandles.Keys <= LiveIds(r.sessions)
            && (r.pool.Some? ==> forall w | w in r.pool.value.slots ::
                  && r.pool.value.slots[w].state != Reserved
                  && (r.pool.value.slots[w].state == Busy <==> w in r.warm.Values))
  {
    hide AllPermitted;
    hide FreshIds;
    hide Booted;
    hide Run;
    BootEstablishesInv(cfg, workstations, answers, hasVnc);
    MaintenanceLendsNothing(cfg, Booted(cfg, workstations, answers, hasVnc), actions);
    EveryReachableStateIsSound(cfg, workstations, answers, hasVnc, actions);
    BootLendsNothing(cfg, workstations, answers, hasVnc);
    TakenSlots(cfg, Run(cfg, Booted(cfg, workstations, answers, hasVnc), actions));
  }

  lemma BootLendsNothing(
    cfg: Settings, workstations: Option<seq<WorkstationId>>, answers: WorkstationId -> Answers, hasVnc: bool)
    ensures Booted(cfg, workstations, answers, hasVnc).lent == {}
  {
  }

  lemma TakenSlots(cfg: Settings, r: Runner)
    requires RunnerInv(cfg, r) && r.lent == {}
    ensures Injective(r.warm)
    ensures r.handles.Keys <= LiveIds(r.sessions) && r.warm.Keys <= LiveIds(r.sessions)
    ensures r.vncHandles.Keys <= LiveIds(r.sessions)
    ensures r.pool.Some? ==> forall w | w in r.pool.value.slots ::
              && r.pool.value.slots[w].state != Reserved
              && (r.pool.value.slots[w].state == Busy <==> w in r.warm.Values)
  {
    hide PoolInv;
    hide ColdSide;
    hide WarmSide;
    hide DisplaysInv;
    hide LogInv;
    hide CachesInv;
    hide SessionsInv;
    hide PolicyInv;
  }

  /** Over every run no browser is asked twice to stop, a cold one only by the manager, a warm one only by the pool. */
  lemma BrowsersShutOnceByOwner(
    cfg: Settings, workstations: Option<seq<WorkstationId>>, answers: WorkstationId -> Answers, hasVnc: bool,
    actions: seq<Action>)
    requires Distinct(cfg.ranges.displays) && Distinct(cfg.ranges.vncPorts) && Distinct(cfg.ranges.wsPorts)
    requires workstations.Some? ==> Distinct(workstations.value)
    requires AllPermitted(cfg, Booted(cfg, workstations, answers, hasVnc), actions)
    ensures ShutAtMostOnceByOwner(Run(cfg, Booted(cfg, workstations, answers, hasVnc), actions).browsers)
  {
    hide AllPermitted;
    hide Booted;
    hide Run;
    hide RunnerInv;
    EveryReachableStateIsSound(cfg, workstations, answers, hasVnc, actions);
    var r := Run(cfg, Booted(cfg, workstations, answers, hasVnc), actions);
    ResourcesInCustody(cfg, r);
    CustodyShutsOnce(cfg.Pool(), HoldingsOf(r));
  }

  lemma CustodyShutsOnce(cfg: PoolConfig, h: Holdings)
    requires CustodyInv(cfg, h)
    ensures ShutAtMostOnceByOwner(h.browsers)
  {
    hide WarmSide;
    hide SlotsInv;
    hide ColdHeld;
    hide Held;
  }

  /** Every session on a warm slot, with or without a stored browser handle, has the pool's flags. */
  ghost predicate WarmFlagged(cfg: Settings, r: Runner) {
    forall id | id in r.warm :: id in r.sessions && r.sessions[id].flags == cfg.requiredFlags
  }

  lemma CreateKeepsWarmFlags(cfg: Settings, r: Runner, payload: CreatePayload, w: CreateWorld)
    requires RunnerInv(cfg, r) && Permitted(cfg, r, DoCreate(payload, w)) && WarmFlagged(cfg, r)
    ensures WarmFlagged(cfg, Create(cfg, r, payload, w).0)
  {
    assert w.id !in r.issued;
    hide RunnerInv;
    hide Create;
    hide EffectiveFlags;
    hide Reached;
    hide SameBrowser;
    CreateIsAllOrNothing(cfg, r, payload, w);
    hide Clean;
    hide TablesUntouched;
    hide WarmWillDo;
    hide WarmFlagged;
    FreshIdentifier(cfg, r, w.id);
    if Create(cfg, r, payload, w).1.Ok? {
      NewSessionIsFlagged(cfg, r, payload, w);
    } else {
      CleanKeepsTables(cfg, r, Create(cfg, r, payload, w).0, Reached(cfg, r, payload, w));
      SameWarmFlags(cfg, r, Create(cfg, r, payload, w).0);
    }
  }

  lemma NewSessionIsFlagged(cfg: Settings, r: Runner, payload: CreatePayload, w: CreateWorld)
    requires WarmFlagged(cfg, r) && w.id !in r.warm && Create(cfg, r, payload, w).1.Ok?
    ensures WarmFlagged(cfg, Create(cfg, r, payload, w).0)
  {
    hide Create;
    hide EffectiveFlags;
    CreateAppends(cfg, r, payload, w);
  }

  lemma CleanKeepsTables(cfg: Settings, r: Runner, q: Runner, stage: Stage)
    requires Clean(cfg, r, q, stage)
    ensures q.warm == r.warm && q.sessions == r.sessions
  {
    hide RunnerInv;
  }

  lemma UpdateKeepsWarmFlags(cfg: Settings, r: Runner, id: SessionId, u: Update, w: UpdateWorld)
    requires RunnerInv(cfg, r) && WarmFlagged(cfg, r)
    ensures WarmFlagged(cfg, UpdateSession(cfg, r, id, u, w).0)
  {
    hide RunnerInv;
    hide UpdateSession;
    hide AfterUpdate;
    hide ShowsDisplay;
    if id in r.sessions {
      UpdateKeepsResourcesIff(cfg, r, id, u, w);
      UpdateAppliesFields(cfg, r, id, u, w);
    } else {
      UnknownIsNotFound(cfg, r, id, u, w);
    }
  }

  lemma StepKeepsWarmFlags(cfg: Settings, r: Runner, a: Action)
    requires RunnerInv(cfg, r) && Permitted(cfg, r, a) && WarmFlagged(cfg, r)
    ensures WarmFlagged(cfg, Step(cfg, r, a).0)
  {
    hide RunnerInv;
    hide UpdateSession;
    hide Create;
    hide Operate;
    hide Uninterrupted;
    hide WarmFlagged;
    match a
    case DoCreate(payload, w) => CreateKeepsWarmFlags(cfg, r, payload, w);
    case DoUpdate(id, u, w) => UpdateKeepsWarmFlags(cfg, r, id, u, w);
    case DoEnd(id, reason, endedAt, w) => UpdateKeepsWarmFlags(cfg, r, id, EndUpdate(reason, endedAt), w);
    case DoTouch(id, now, w) => UpdateKeepsWarmFlags(cfg, r, id, TouchUpdate(now), w);
    case DoScan(now) => SameWarmFlags(cfg, r, Scan(r, now).0);
    case DoOperate(operation) =>
      OperateFrame(cfg, r, operation);
      SameWarmFlags(cfg, r, Operate(cfg, r, operation));
  }

  lemma SameWarmFlags(cfg: Settings, r: Runner, q: Runner)
    requires WarmFlagged(cfg, r) && q.warm == r.warm && q.sessions == r.sessions
    ensures WarmFlagged(cfg, q)
  {
  }

  lemma {:induction false} RunKeepsWarmFlags(cfg: Settings, r: Runner, actions: seq<Action>)
    requires RunnerInv(cfg, r) && AllPermitted(cfg, r, actions) && WarmFlagged(cfg, r)
    ensures WarmFlagged(cfg, Run(cfg, r, actions))
    decreases |actions|
  {
    hide RunnerInv;
    hide Step;
    hide Uninterrupted;
    hide Reached;
    hide WarmFlagged;
    if actions != [] {
      StepKeepsInvIff(cfg, r, actions[0]);
      StepKeepsWarmFlags(cfg, r, actions[0]);
      RunKeepsWarmFlags(cfg, Step(cfg, r, actions[0]).0, actions[1..]);
    }
  }

  /**
   Sourcing over every run: in warm-only mode every session with a browser sits on a warm
   slot, in cold-only mode none does, and whoever owns it, a session's browser runs with the
   session's flags. A session on a warm slot has the flags the pool launches with, also when an
   update of its endpoint has taken its browser handle away.
   */
  lemma SourcingPolicyHolds(
    cfg: Settings, workstations: Option<seq<WorkstationId>>, answers: WorkstationId -> Answers, hasVnc: bool,
    actions: seq<Action>)
    requires Distinct(cfg.ranges.displays) && Distinct(cfg.ranges.vncPorts) && Distinct(cfg.ranges.wsPorts)
    requires workstations.Some? ==> Distinct(workstations.value)
    requires AllPermitted(cfg, Booted(cfg, workstations, answers, hasVnc), actions)
    ensures var r := Run(cfg, Booted(cfg, workstations, answers, hasVnc), actions);
            && (cfg.mode == WarmOnly ==> r.handles.Keys <= r.warm.Keys)
            && (cfg.mode == ColdOnly ==> r.warm == map[])
            && (forall id | id in r.handles ::
                  && id in r.sessions && Running(r.browsers, r.handles[id])
                  && r.browsers[r.handles[id]].flags == r.sessions[id].flags)
            && (forall id | id in r.warm :: id in r.sessions && r.sessions[id].flags == cfg.requiredFlags)
  {
    hide AllPermitted;
    hide Run;
    assert WarmFlagged(cfg, Booted(cfg, workstations, answers, hasVnc));
    hide Booted;
    BootEstablishesInv(cfg, workstations, answers, hasVnc);
    EveryReachableStateIsSound(cfg, workstations, answers, hasVnc, actions);
    RunKeepsWarmFlags(cfg, Booted(cfg, workstations, answers, hasVnc), actions);
    var r := Run(cfg, Booted(cfg, workstations, answers, hasVnc), actions);
    forall id | id in r.handles
      ensures id in r.sessions && Running(r.browsers, r.handles[id])
      ensures r.browsers[r.handles[id]].flags == r.sessions[id].flags
    {
      HandleMatchesSession(cfg, r, id);
    }
    hide CustodyInv;
  }

  lemma HandleMatchesSession(cfg: Settings, r: Runner, id: SessionId)
    requires RunnerInv(cfg, r) && id in r.handles
    ensures id in r.sessions && Running(r.browsers, r.handles[id])
    ensures r.browsers[r.handles[id]].flags == r.sessions[id].flags
  {
    hide CustodyInv;
    hide DisplaysInv;
    hide LogInv;
    hide CachesInv;
    hide SessionsInv;
    hide PolicyInv;
    ResourcesInCustody(cfg, r);
    HandleRuns(cfg, r, id);
    assert id in LiveIds(r.sessions);
  }

  ghost predicate HeldBy(order: seq<SessionId>, vncHandles: map<SessionId, VncSlot>, slot: VncSlot) {
    exists id :: id in order && id in vncHandles && vncHandles[id] == slot
  }

  lemma {:induction false} HeldSlotsAreHandles(order: seq<SessionId>, vncHandles: map<SessionId, VncSlot>)
    ensures forall slot :: slot in HeldSlots(order, vncHandles) <==> HeldBy(order, vncHandles, slot)
  {
    if order != [] {
      var n := |order| - 1;
      HeldSlotsAreHandles(order[..n], vncHandles);
      assert order == order[..n] + [order[n]];
      forall id | id in order && id in vncHandles ensures vncHandles[id] in HeldSlots(order, vncHandles) {
        if id in order[..n] { assert vncHandles[id] in HeldSlots(order[..n], vncHandles); }
      }
    }
  }

  lemma {:induction false} ReleaseEachEmpties(ranges: Ranges, p: VncPool, slots: seq<VncSlot>)
    requires VncInv(ranges, p)
    ensures VncInv(ranges, ReleaseEach(p, slots))
    ensures ReleaseEach(p, slots).active == p.active - set slot | slot in slots
  {
    hide VncInv;
    if slots != [] {
      var n := |slots| - 1;
      ReleaseEachEmpties(ranges, p, slots[..n]);
      ReleaseCorrect(ranges, ReleaseEach(p, slots[..n]), slots[n]);
      assert slots == slots[..n] + [slots[n]];
    }
  }

  lemma StopFreesDisplays(cfg: Settings, r: Runner)
    requires RunnerInv(cfg, r) && r.vnc.Some?
    ensures var p := ReleaseEach(r.vnc.value, HeldSlots(r.order, r.vncHandles));
            VncInv(cfg.ranges, p) && p.active == {}
  {
    hide CustodyInv;
    hide VncInv;
    hide LogInv;
    hide CachesInv;
    HeldSlotsAreHandles(r.order, r.vncHandles);
    var slots := HeldSlots(r.order, r.vncHandles);
    ReleaseEachEmpties(cfg.ranges, r.vnc.value, slots);
    forall slot | slot in r.vncHandles.Values ensures slot in slots {
      var id :| id in r.vncHandles && r.vncHandles[id] == slot;
      assert id in LiveIds(r.sessions) && id in r.order;
    }
  }

  lemma StopEndsBrowsers(cfg: PoolConfig, h: Holdings)
    requires CustodyInv(cfg, h)
    ensures var bs := ShutAll(h.browsers, ColdHeld(h.handles, h.warm));
            && OnlyActed(h.browsers, bs, ByManager)
            && (h.pool.Some? ==> PoolInv(cfg, Fleet(h.pool.value, bs)))
            && (forall b | 0 <= b < |bs| && bs[b].owner == ByManager :: bs[b].shutBy == [ByManager])
            && (h.pool.None? ==> forall b | 0 <= b < |bs| :: bs[b].owner == ByManager)
  {
    hide PoolInv;
    hide WarmSide;
    hide SlotsInv;
    ColdBrowsersEnd(h.browsers, h.handles, h.warm);
    hide ColdSide;
    hide ShutAll;
    if h.pool.Some? {
      PoolIgnoresManager(cfg, h.pool.value, h.browsers, ShutAll(h.browsers, ColdHeld(h.handles, h.warm)));
    }
  }

  lemma ColdBrowsersEnd(bs: Browsers, handles: map<SessionId, BrowserId>, warm: map<SessionId, WorkstationId>)
    requires ColdSide(bs, handles, warm)
    ensures var later := ShutAll(bs, ColdHeld(handles, warm));
            && |later| == |bs| && OnlyActed(bs, later, ByManager)
            && (forall b | 0 <= b < |later| && later[b].owner == ByManager :: later[b].shutBy == [ByManager])
  {
    assert forall b | b in ColdHeld(handles, warm) :: b < |bs| && bs[b].owner == ByManager;
    hide ColdHeld;
  }

  lemma StopEndsEveryBrowser(cfg: Settings, r: Runner)
    requires CustodyInv(cfg.Pool(), HoldingsOf(r))
    ensures var q := Stop(r);
            && (forall b | 0 <= b < |q.browsers| :: q.browsers[b].shutBy == [q.browsers[b].owner])
            && (q.pool.Some? ==> forall d | 0 <= d < |q.pool.value.dirs| :: !q.pool.value.dirs[d])
  {
    hide CustodyInv;
    hide PoolInv;
    hide ShutAll;
    hide Drain;
    hide ReleaseEach;
    StopEndsBrowsers(cfg.Pool(), HoldingsOf(r));
    if r.pool.Some? {
      var bs := ShutAll(r.browsers, ColdHeld(r.handles, r.warm));
      DrainReleasesEverything(cfg.Pool(), Fleet(r.pool.value, bs));
      var q := Stop(r);
      forall b | 0 <= b < |q.browsers| ensures q.browsers[b].shutBy == [q.browsers[b].owner] {
        if q.browsers[b].owner == ByManager {
          assert b < |bs|;
        }
      }
    }
  }

  /**
   Stopping leaks nothing: from every reachable state, afterwards each browser ever launched
   has been asked to shut down exactly once, by the party that launched it, no temporary
   directory is left, and every display and port is free again.
   */
  lemma StopReleasesEverything(cfg: Settings, r: Runner)
    requires RunnerInv(cfg, r)
    ensures var q := Stop(r);
            && (forall b | 0 <= b < |q.browsers| :: q.browsers[b].shutBy == [q.browsers[b].owner])
            && (q.pool.Some? ==> forall d | 0 <= d < |q.pool.value.dirs| :: !q.pool.value.dirs[d])
            && (q.vnc.Some? ==> VncInv(cfg.ranges, q.vnc.value) && q.vnc.value.active == {})
            && q.handles == map[] && q.warm == map[] && q.vncHandles == map[]
            && q.sessions == r.sessions && q.events == r.events
  {
    hide RunnerInv;
    hide CustodyInv;
    hide VncInv;
    ResourcesInCustody(cfg, r);
    StopEndsEveryBrowser(cfg, r);
    if r.vnc.Some? {
      StopFreesDisplays(cfg, r);
    }
  }

  // ---------- the operator's interference, on concrete runs ----------

  /** One warm slot, cold launches allowed, no displays. */
  const OneSlot := Settings(Hybrid, false, map[], 1, Ranges([], [], []))

  const SLOT := "ws"

  function AlwaysWarmed(w: WorkstationId): Answers {
    (attempt: int) => Warmed("ws://browser")
  }

  function JustBooted(): Runner {
    Booted(OneSlot, Some([SLOT]), AlwaysWarmed, false)
  }

  const HeadlessInit := CreatePayload(Init, true, 60, map[], map[], [], None, None, None)

  /** Everything goes well for the create, but the operator makes these requests meanwhile. */
  function Meddled(between: seq<OperatorAction>, afterwards: seq<OperatorAction>): CreateWorld {
    CreateWorld(0, 0, 0, AllStarted, "", None, between, true, afterwards, AlwaysWarmed(SLOT), true)
  }

  lemma BootedSlot()
    ensures var p := JustBooted().pool;
            p.Some? && p.value.order == [SLOT] && SLOT in p.value.slots && !p.value.draining
            && p.value.slots[SLOT].state == Idle && p.value.slots[SLOT].handle == Some(0)
  {
    var cfg := OneSlot.Pool();
    var empty := Fleet(WarmPool(map[], [], false, []), []);
    assert [SLOT][..0] == [];
    assert StartPool(cfg, empty, [], AlwaysWarmed) == empty;
    assert StartPool(cfg, empty, [SLOT], AlwaysWarmed) == Started(cfg, empty, SLOT, AlwaysWarmed(SLOT));
  }

  lemma ReservedAtBoot(between: seq<OperatorAction>, afterwards: seq<OperatorAction>)
    ensures RunnerInv(OneSlot, JustBooted())
    ensures ReservedAt(OneSlot, JustBooted(), HeadlessInit, Meddled(between, afterwards), SLOT)
    ensures 0 !in JustBooted().issued
  {
    var w := Meddled(between, afterwards);
    BootEstablishesInv(OneSlot, Some([SLOT]), AlwaysWarmed, false);
    BootedSlot();
    hide RunnerInv;
    hide StartPool;
    var r1 := ResolveVnc(OneSlot, JustBooted().(issued := JustBooted().issued + {w.id}), HeadlessInit, w).0;
    CreateProofs.AcquireCorrect(OneSlot, r1, HeadlessInit, w);
    assert EffectiveFlags(OneSlot, HeadlessInit) == map[];
  }

  lemma StrandedFromBoot()
    ensures var (after, result) := Create(OneSlot, JustBooted(), HeadlessInit, Meddled([OpBusy(SLOT)], []));
            && RunnerInv(OneSlot, JustBooted()) && result.Err?
            && after.pool.Some? && SLOT in after.pool.value.slots
            && after.pool.value.slots[SLOT].state == Busy && SLOT !in after.warm.Values
  {
    hide RunnerInv;
    hide Create;
    hide ReservedAt;
    hide JustBooted;
    ReservedAtBoot([OpBusy(SLOT)], []);
    BusyMeanwhileStrands(OneSlot, JustBooted(), HeadlessInit, Meddled([OpBusy(SLOT)], []), SLOT);
  }

  lemma SwappedFromBoot()
    ensures var requests := [OpRelease(SLOT, AlwaysWarmed(SLOT)), OpReserve(Some(SLOT))];
            var (after, result) := Create(OneSlot, JustBooted(), HeadlessInit, Meddled(requests, []));
            RunnerInv(OneSlot, JustBooted()) && result.Ok? && !RunnerInv(OneSlot, after)
  {
    hide RunnerInv;
    hide Create;
    hide ReservedAt;
    hide JustBooted;
    var requests := [OpRelease(SLOT, AlwaysWarmed(SLOT)), OpReserve(Some(SLOT))];
    ReservedAtBoot(requests, []);
    SwapMeanwhileBreaks(
      OneSlot, JustBooted(), HeadlessInit, Meddled(requests, []), SLOT, AlwaysWarmed(SLOT), "ws://browser");
  }

  lemma ReleasedFromBoot()
    ensures var requests := [OpRelease(SLOT, AlwaysWarmed(SLOT))];
            var (after, result) := Create(OneSlot, JustBooted(), HeadlessInit, Meddled([], requests));
            RunnerInv(OneSlot, JustBooted()) && result.Ok? && !RunnerInv(OneSlot, after)
  {
    hide RunnerInv;
    hide Create;
    hide ReservedAt;
    hide JustBooted;
    var requests := [OpRelease(SLOT, AlwaysWarmed(SLOT))];
    ReservedAtBoot([], requests);
    ReleaseAfterwardsBreaks(OneSlot, JustBooted(), HeadlessInit, Meddled([], requests), SLOT, AlwaysWarmed(SLOT));
  }
}
