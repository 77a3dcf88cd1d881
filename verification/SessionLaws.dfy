/** What the session operations answer and announce, and what they do about displays and recycled slots. */
module SessionLaws {
  import opened Domain
  import opened BrowserFlags
  import opened VncPools
  import opened WarmPools
  import opened WarmPoolProofs
  import opened WarmPoolLaws
  import opened Runners
  import opened RunnerInvariants
  import opened CustodyProofs
  import opened CreateProofs
  import opened ReservationProofs
  import opened UpdateProofs
  import opened SweepProofs
  import opened RunProofs

  // ---------- boot ----------

  /**
   A runner that has just started has no session and has said nothing. It has the configured warm
   slots in order, each Idle exactly if some attempt warmed it, and all displays free if it has any.
   */
  lemma BootedExact(
    cfg: Settings, workstations: Option<seq<WorkstationId>>, answers: WorkstationId -> Answers, hasVnc: bool)
    requires workstations.Some? ==> Distinct(workstations.value)
    ensures var r := Booted(cfg, workstations, answers, hasVnc);
            && r.sessions == map[] && r.order == [] && r.events == [] && r.issued == {} && r.active == 0
            && (r.pool.Some? <==> workstations.Some?)
            && (r.pool.Some? ==>
                  && r.pool.value.order == workstations.value && !r.pool.value.draining
                  && (forall w | w in workstations.value ::
                        && w in r.pool.value.slots
                        && r.pool.value.slots[w].state == if NeverWarm(cfg.Pool(), answers(w)) then Error else Idle))
            && r.vnc == if hasVnc then Some(VncPool(cfg.ranges.displays, cfg.ranges.vncPorts, cfg.ranges.wsPorts, {}))
                        else None
  {
    if workstations.Some? {
      var empty := Fleet(WarmPool(map[], [], false, []), []);
      EmptyPoolIsSound(cfg.Pool());
      StartPoolExact(cfg.Pool(), empty, workstations.value, answers);
      StartKeepsFlag(cfg.Pool(), empty, workstations.value, answers);
    }
    hide StartPool;
    hide NeverWarm;
  }

  lemma {:induction false} StartKeepsFlag(
    cfg: PoolConfig, f: Fleet, workstations: seq<WorkstationId>, answers: WorkstationId -> Answers)
    ensures StartPool(cfg, f, workstations, answers).pool.draining == f.pool.draining
  {
    hide Launched;
    if workstations != [] {
      StartKeepsFlag(cfg, f, workstations[..|workstations| - 1], answers);
    }
  }

  // ---------- the display of a new session ----------

  /** A request for something to look at. */
  predicate WantsDisplay(cfg: Settings, payload: CreatePayload) {
    cfg.vncEnabled && !payload.headless
  }

  /** The runner has to allocate a display itself. */
  predicate Allocates(cfg: Settings, r: Runner, payload: CreatePayload) {
    WantsDisplay(cfg, payload) && payload.vnc.None? && r.vnc.Some?
  }

  /** All displays are in use, or the helpers do not start. */
  predicate NoDisplay(cfg: Settings, p: VncPool, w: CreateWorld) {
    |p.active| >= Capacity(cfg.ranges) || w.startup.StartFailed?
  }

  lemma GrantExact(cfg: Settings, r: Runner, payload: CreatePayload, w: CreateWorld)
    requires DisplaysInv(cfg.ranges, r.vnc, r.vncHandles)
    ensures var (q, grant) := ResolveVnc(cfg, r, payload, w);
            && (grant.VncRefused? <==> Allocates(cfg, r, payload) && NoDisplay(cfg, r.vnc.value, w))
            && (!Allocates(cfg, r, payload) ==> q == r && grant.VncGranted? && grant.slot.None?)
            && (grant.VncGranted? && !WantsDisplay(cfg, payload) ==> grant.details.None?)
            && (grant.VncGranted? && WantsDisplay(cfg, payload) && payload.vnc.Some? ==>
                  grant.details == Some(VncDetails(payload.vnc.value.url, None, None)))
            && (WantsDisplay(cfg, payload) && payload.vnc.None? && r.vnc.None? ==> grant.details.None?)
            && (grant.VncGranted? && Allocates(cfg, r, payload) ==>
                  && grant.details == Some(VncDetails(w.vncUrl, None, None))
                  && grant.slot.Some? && grant.slot.value !in r.vnc.value.active
                  && q.vnc.Some? && q.vnc.value.active == r.vnc.value.active + {grant.slot.value})
  {
    hide VncInv;
    if r.vnc.Some? {
      AllocateCorrect(cfg.ranges, r.vnc.value, w.startup);
    }
    hide Allocated;
  }

  /**
   The view of a created session: none when it is headless or VNC is off; the one it came with,
   without token and time to live; or one the runner allocates, on a display of its own; none
   without a controller. Only an allocation touches the displays.
   */
  lemma DisplayAsAsked(cfg: Settings, r: Runner, payload: CreatePayload, w: CreateWorld)
    requires RunnerInv(cfg, r) && w.id !in r.issued && Create(cfg, r, payload, w).1.Ok?
    ensures var (q, result) := Create(cfg, r, payload, w); var s := result.value;
            && (!WantsDisplay(cfg, payload) ==> s.vnc.None?)
            && (WantsDisplay(cfg, payload) && payload.vnc.Some? ==>
                  s.vnc == Some(VncDetails(payload.vnc.value.url, None, None)))
            && (WantsDisplay(cfg, payload) && payload.vnc.None? && r.vnc.None? ==> s.vnc.None?)
            && (!Allocates(cfg, r, payload) ==> q.vncHandles == r.vncHandles && q.vnc == r.vnc)
            && (Allocates(cfg, r, payload) ==>
                  && s.vnc == Some(VncDetails(w.vncUrl, None, None))
                  && w.id in q.vncHandles && q.vncHandles == r.vncHandles[w.id := q.vncHandles[w.id]]
                  && q.vncHandles[w.id] !in r.vnc.value.active
                  && q.vnc.Some? && q.vnc.value.active == r.vnc.value.active + {q.vncHandles[w.id]})
  {
    var r0 := r.(issued := r.issued + {w.id});
    ResourcesInCustody(cfg, r);
    GrantExact(cfg, r0, payload, w);
    hide RunnerInv;
    hide CustodyInv;
    hide Create;
    hide ResolveVnc;
    hide EffectiveFlags;
    hide MinExpiry;
    SuccessStores(cfg, r, payload, w);
    StoringDisplays(cfg, r, payload, w);
    CreatedView(cfg, r, payload, w);
  }

  /** Nothing between the grant of a display and the store touches displays. */
  lemma StoringDisplays(cfg: Settings, r: Runner, payload: CreatePayload, w: CreateWorld)
    ensures var storing := Storing(cfg, r, payload, w).0;
            && storing.vnc == ResolveVnc(cfg, r.(issued := r.issued + {w.id}), payload, w).0.vnc
            && storing.vncHandles == r.vncHandles
  {
    hide ResolveVnc;
    hide AcquireBrowser;
    hide Operate;
    hide Reserve;
    hide EffectiveFlags;
    hide MarkBusy;
    var r0 := r.(issued := r.issued + {w.id});
    ResolveFrame(cfg, r0, payload, w);
    var r1 := ResolveVnc(cfg, r0, payload, w).0;
    CreateProofs.AcquireCorrect(cfg, r1, payload, w);
    var (r2, got) := AcquireBrowser(cfg, r1, payload, w);
    OperatorProofs.OperateAllFrame(cfg, r2, w.between);
    OperatorProofs.OperateAllFrame(cfg, MarkTaken(Waiting(cfg, r, payload, w).0, got).0, w.afterwards);
  }

  /** The created session shows what was granted, and the grant was not refused. */
  lemma CreatedView(cfg: Settings, r: Runner, payload: CreatePayload, w: CreateWorld)
    requires Create(cfg, r, payload, w).1.Ok?
    ensures var grant := ResolveVnc(cfg, r.(issued := r.issued + {w.id}), payload, w).1;
            grant.VncGranted? && Create(cfg, r, payload, w).1.value.vnc == grant.details
  {
    hide ResolveVnc;
    hide AcquireBrowser;
    hide Confirmed;
    hide Store;
    hide Unstored;
    hide EffectiveFlags;
  }

  // ---------- the answer of a create ----------

  /** There is a browser for the request: a warm slot will do, or a cold one may be launched and comes up. */
  predicate BrowserToBeHad(cfg: Settings, r: Runner, payload: CreatePayload, w: CreateWorld) {
    WarmWillDo(cfg, r, payload) || (cfg.mode != WarmOnly && w.cold.Some?)
  }

  /**
   What a create answers: each failure in the order in which it is met, and success exactly when
   there is none. `StillReserved` is the one condition the operator can take away.
   */
  lemma CreateAnswers(cfg: Settings, r: Runner, payload: CreatePayload, w: CreateWorld)
    requires RunnerInv(cfg, r) && w.id !in r.issued
    ensures var answer := Create(cfg, r, payload, w).1;
            var (waiting, got) := Waiting(cfg, r, payload, w);
            if Allocates(cfg, r, payload) && NoDisplay(cfg, r.vnc.value, w) then answer == Err(NoVnc)
            else if !BrowserToBeHad(cfg, r, payload, w) then answer == Err(NoCapacity)
            else if !w.valid then answer == Err(Invalid)
            else if !StillReserved(waiting, got) then answer == Err(NoCapacity)
            else if payload.status !in {Init, Ready} || !w.delivered then answer == Err(NotDelivered)
            else answer.Ok?
  {
    var r0 := r.(issued := r.issued + {w.id});
    ResourcesInCustody(cfg, r);
    GrantExact(cfg, r0, payload, w);
    ResolveFrame(cfg, r0, payload, w);
    CreateProofs.AcquireCorrect(cfg, ResolveVnc(cfg, r0, payload, w).0, payload, w);
    AnswerByStage(cfg, r, payload, w);
    hide RunnerInv;
    hide Create;
    hide ResolveVnc;
    hide AcquireBrowser;
    hide EffectiveFlags;
    hide StillReserved;
    hide OperateAll;
    hide Reserve;
    hide CustodyInv;
    hide DisplaysInv;
  }

  lemma AnswerByStage(cfg: Settings, r: Runner, payload: CreatePayload, w: CreateWorld)
    ensures var answer := Create(cfg, r, payload, w).1;
            match Reached(cfg, r, payload, w)
            case VncFailed => answer == Err(NoVnc)
            case BrowserFailed => answer == Err(NoCapacity)
            case ValidationFailed => answer == Err(Invalid)
            case ReservationLost => answer == Err(NoCapacity)
            case PublishFailed => answer == Err(NotDelivered)
            case Completed => answer.Ok?
  {
    hide ResolveVnc;
    hide AcquireBrowser;
    hide OperateAll;
    hide Store;
    hide Unstored;
    hide GiveBack;
    hide EffectiveFlags;
  }

  // ---------- the answer and the announcement of an update ----------

  /** The update ends a session on a warm slot. */
  predicate EndsWarm(r: Runner, id: SessionId, u: Update) {
    id in r.warm && u.status == Set(Dead)
  }

  /**
   What an update answers, and what it announces: nothing on a failure, else one event, ENDED
   exactly for a DEAD session, with the session as it is stored now, the time and the reason.
   */
  lemma UpdateAnswers(cfg: Settings, r: Runner, id: SessionId, u: Update, w: UpdateWorld)
    requires RunnerInv(cfg, r)
    ensures var (q, answer) := UpdateSession(cfg, r, id, u, w);
            if id !in r.sessions then answer == Err(NotFound) && q == r
            else if EndsWarm(r, id, u) && NeverWarm(cfg.Pool(), w.recycle) then
              answer == Err(RecycleFailed) && q.events == r.events
            else if !w.delivered then answer == Err(NotDelivered) && q.events == r.events
            else
              && id in q.sessions && answer == Ok(q.sessions[id])
              && q.events == r.events
                   + [Event(if q.sessions[id].status == Dead then Ended else EventKind.Updated,
                            q.sessions[id], w.publishedAt, u.reason)]
  {
    if id in r.sessions {
      UpdateKeepsInv(cfg, r, id, u, w);
      RecycleWorksIff(cfg, r, id, u, w);
      UpdateByParts(cfg, r, id, u, w);
      hide RunnerInv;
      hide UpdateSession;
      hide Settle;
      hide AfterUpdate;
      hide NeverWarm;
    } else {
      UnknownIsNotFound(cfg, r, id, u, w);
    }
  }

  lemma SettledSlot(cfg: Settings, r: Runner, id: SessionId, u: Update, w: UpdateWorld)
    requires RunnerInv(cfg, r) && id in r.sessions && EndsWarm(r, id, u)
    ensures r.pool.Some? && r.warm[id] in r.pool.value.slots && r.pool.value.slots[r.warm[id]].state == Busy
    ensures var s := AfterUpdate(r, id, u, w); var trimmed := Trimmed(Replace(r, id, s), id, r.sessions[id], s);
            && Releasing(r, id, u)
            && trimmed.pool == r.pool && trimmed.warm == r.warm
            && PoolInv(cfg.Pool(), Fleet(r.pool.value, trimmed.browsers))
            && OnlyActed(r.browsers, trimmed.browsers, ByManager)
            && Settle(cfg, r, id, u, w) == ReleaseWarm(cfg, trimmed, id, w.recycle)
  {
    ReadyToSettle(cfg, r, id);
    assert r.sessions[id].Live() by { WarmIsLive(cfg, r, id); }
    SessionSlotIsBusy(cfg.Pool(), HoldingsOf(r), id);
    var s := AfterUpdate(r, id, u, w);
    hide RunnerInv;
    hide CustodyInv;
    hide DisplaysInv;
    hide LinksInv;
    hide Patched;
    hide PoolInv;
    hide OnlyActed;
    ReplaceKeepsHoldings(r, id, s);
    var r1 := Replace(r, id, s);
    TrimmedKeepsCustody(cfg, r1, r.sessions, r.sessions[id], s);
    TrimmedActs(cfg, r1, r.sessions, r.sessions[id], s);
    OperatorProofs.PoolInCustody(cfg.Pool(), HoldingsOf(Trimmed(r1, id, r.sessions[id], s)));
    hide Trimmed;
    hide Replace;
  }

  lemma WarmIsLive(cfg: Settings, r: Runner, id: SessionId)
    requires RunnerInv(cfg, r) && id in r.warm
    ensures id in r.sessions && r.sessions[id].Live()
  {
    hide CustodyInv;
    hide DisplaysInv;
    hide LogInv;
    assert id in LiveIds(r.sessions);
  }

  lemma TrimmedActs(
    cfg: Settings, r: Runner, sessions: map<SessionId, Session>, before: Session, s: Session)
    requires CustodyInv(cfg.Pool(), HoldingsOf(r))
    ensures OnlyActed(r.browsers, Trimmed(r, before.id, before, s).browsers, ByManager)
  {
    hide CustodyInv;
    hide OnlyActed;
    NothingActed(r.browsers, ByManager);
    if before.id in r.handles {
      DropHandle(cfg.Pool(), HoldingsOf(r), before.id);
    }
  }

  /** The recycle an update needs fails exactly when the update ends a warm session and no launch attempt warms. */
  lemma RecycleWorksIff(cfg: Settings, r: Runner, id: SessionId, u: Update, w: UpdateWorld)
    requires RunnerInv(cfg, r) && id in r.sessions
    ensures Settle(cfg, r, id, u, w).1 <==> !(EndsWarm(r, id, u) && NeverWarm(cfg.Pool(), w.recycle))
  {
    if EndsWarm(r, id, u) {
      SettledSlot(cfg, r, id, u, w);
      hide RunnerInv;
      hide Settle;
      hide PoolInv;
      var s := AfterUpdate(r, id, u, w);
      var trimmed := Trimmed(Replace(r, id, s), id, r.sessions[id], s);
      hide Trimmed;
      var f := Fleet(r.pool.value, trimmed.browsers);
      OperationsAcceptIff(cfg.Pool(), f, r.warm[id], w.recycle);
      AcceptedRecycles(cfg.Pool(), f, r.warm[id], w.recycle, Release(cfg.Pool(), f, r.warm[id], w.recycle));
      hide Release;
    }
  }

  // ---------- switching the view ----------

  /** An update of the view flag alone. */
  function ViewUpdate(enabled: bool): Update {
    Update(Unset, Unset, Unset, Unset, Unset, None, None, Unset, Unset, Set(Some(enabled)), None)
  }

  /**
   Switching the view of a live session off returns its display; switching it on where there is
   something to view keeps it. Browser and warm slot stay, and the session says what was asked.
   */
  lemma ViewSwitches(cfg: Settings, r: Runner, id: SessionId, enabled: bool, w: UpdateWorld)
    requires RunnerInv(cfg, r) && id in r.sessions && r.sessions[id].status != Dead
    ensures var q := UpdateSession(cfg, r, id, ViewUpdate(enabled), w).0; var before := r.sessions[id];
            var shown := enabled && !before.headless && before.vnc.Some?;
            && id in q.sessions && q.sessions[id].vncEnabled == Some(shown)
            && q.handles == r.handles && q.warm == r.warm
            && q.vncHandles == (if shown then r.vncHandles else r.vncHandles - {id})
            && (shown || id !in r.vncHandles ==> q.vnc == r.vnc)
            && (!shown && id in r.vncHandles ==>
                  && r.vnc.Some? && q.vnc.Some?
                  && q.vnc.value.active == r.vnc.value.active - {r.vncHandles[id]})
  {
    hide RunnerInv;
    SwitchedSession(r, id, enabled, w);
    UpdateKeepsInv(cfg, r, id, ViewUpdate(enabled), w);
    UpdateKeepsResourcesIff(cfg, r, id, ViewUpdate(enabled), w);
    DisplaysAfter(cfg, r, id, ViewUpdate(enabled), w);
    hide UpdateSession;
    hide Settle;
    hide AfterUpdate;
  }

  lemma SwitchedSession(r: Runner, id: SessionId, enabled: bool, w: UpdateWorld)
    requires id in r.sessions && r.sessions[id].status != Dead
    ensures var before := r.sessions[id]; var s := AfterUpdate(r, id, ViewUpdate(enabled), w);
            var shown := enabled && !before.headless && before.vnc.Some?;
            && s.Live() && s.wsEndpoint == before.wsEndpoint && s.vncEnabled == Some(shown)
            && (ShowsDisplay(s) <==> shown)
  {
  }

  /** The display an update takes from a session is free again, and no other. */
  lemma DisplaysAfter(cfg: Settings, r: Runner, id: SessionId, u: Update, w: UpdateWorld)
    requires RunnerInv(cfg, r) && id in r.sessions
    ensures var q := UpdateSession(cfg, r, id, u, w).0;
            && (id !in r.vncHandles || id in q.vncHandles ==> q.vnc == r.vnc)
            && (id in r.vncHandles && id !in q.vncHandles ==>
                  && r.vnc.Some? && q.vnc.Some? && q.vnc.value.active == r.vnc.value.active - {r.vncHandles[id]})
  {
    ReadyToSettle(cfg, r, id);
    DisplayHeld(cfg, r, id);
    hide RunnerInv;
    hide CustodyInv;
    hide DisplaysInv;
    hide LinksInv;
    hide UpdateSession;
    hide AfterUpdate;
    hide Trimmed;
    hide Replace;
    hide Settle;
    UpdateLeavesResources(cfg, r, id, u, w);
    var s := AfterUpdate(r, id, u, w);
    ReplaceKeepsHoldings(r, id, s);
    SettleKeepsDisplays(cfg, r, id, u, w);
    TrimmedDisplays(Replace(r, id, s), id, r.sessions[id], s);
  }

  lemma TrimmedDisplays(r: Runner, id: SessionId, before: Session, s: Session)
    requires before.id == id && (id in r.vncHandles ==> r.vnc.Some?)
    ensures var q := Trimmed(r, id, before, s);
            && (id !in r.vncHandles || id in q.vncHandles ==> q.vnc == r.vnc)
            && (id in r.vncHandles && id !in q.vncHandles ==> q.vnc == Some(Released(r.vnc.value, r.vncHandles[id])))
  {
    hide Released;
    hide Shut;
  }

  lemma SettleKeepsDisplays(cfg: Settings, r: Runner, id: SessionId, u: Update, w: UpdateWorld)
    requires id in r.sessions
    ensures var s := AfterUpdate(r, id, u, w); var trimmed := Trimmed(Replace(r, id, s), id, r.sessions[id], s);
            var q := Settle(cfg, r, id, u, w).0;
            q.vnc == trimmed.vnc && q.vncHandles == trimmed.vncHandles
  {
    hide Release;
    hide Trimmed;
    hide Replace;
    hide AfterUpdate;
  }

  /** Publishing an update concerns the log alone. */
  lemma UpdateLeavesResources(cfg: Settings, r: Runner, id: SessionId, u: Update, w: UpdateWorld)
    requires id in r.sessions
    ensures var q := UpdateSession(cfg, r, id, u, w).0; var settled := Settle(cfg, r, id, u, w).0;
            && q.vnc == settled.vnc && q.vncHandles == settled.vncHandles
            && q.pool == settled.pool && q.browsers == settled.browsers
  {
    UpdateByParts(cfg, r, id, u, w);
    hide UpdateSession;
    hide Settle;
    hide AfterUpdate;
  }

  lemma DisplayHeld(cfg: Settings, r: Runner, id: SessionId)
    requires DisplaysInv(cfg.ranges, r.vnc, r.vncHandles)
    ensures id in r.vncHandles ==> r.vnc.Some? && r.vncHandles[id] in r.vnc.value.active
  {
    hide VncInv;
    assert id in r.vncHandles ==> r.vncHandles[id] in r.vncHandles.Values;
  }

  // ---------- nobody inherits a browser ----------

  /**
   Ending a session on a warm slot never hands its browser on: the browser is stopped, the slot has
   a new directory, and a browser launched since exactly when some attempt warms, else it is in Error.
   */
  lemma EndRecyclesSlot(cfg: Settings, r: Runner, id: SessionId, u: Update, w: UpdateWorld)
    requires RunnerInv(cfg, r) && EndsWarm(r, id, u)
    ensures r.pool.Some? && r.warm[id] in r.pool.value.slots
    ensures var q := UpdateSession(cfg, r, id, u, w).0; var ws := r.warm[id];
            && q.pool.Some? && Replaced(Fleet(r.pool.value, r.browsers), Fleet(q.pool.value, q.browsers), ws)
            && (if NeverWarm(cfg.Pool(), w.recycle) then q.pool.value.slots[ws].state == Error
                else FreshlyWarm(cfg.Pool(), r.browsers, Fleet(q.pool.value, q.browsers), ws, w.recycle))
  {
    WarmIsLive(cfg, r, id);
    SettledSlot(cfg, r, id, u, w);
    hide RunnerInv;
    hide UpdateSession;
    hide Settle;
    hide NeverWarm;
    hide Replaced;
    hide FreshlyWarm;
    UpdateLeavesResources(cfg, r, id, u, w);
    var s := AfterUpdate(r, id, u, w);
    var trimmed := Trimmed(Replace(r, id, s), id, r.sessions[id], s);
    hide AfterUpdate;
    hide Trimmed;
    hide Replace;
    SlotRecycled(cfg, r, trimmed.browsers, r.warm[id], w.recycle);
    ReleasedFrom(cfg, trimmed, id, w.recycle);
  }

  lemma ReleasedFrom(cfg: Settings, r: Runner, id: SessionId, recycle: Answers)
    requires id in r.warm && r.pool.Some?
    ensures var q := ReleaseWarm(cfg, r, id, recycle).0;
            var f := Release(cfg.Pool(), Fleet(r.pool.value, r.browsers), r.warm[id], recycle).0;
            q.pool == Some(f.pool) && q.browsers == f.browsers
  {
    hide Release;
  }

  lemma SlotRecycled(cfg: Settings, r: Runner, bs: Browsers, ws: WorkstationId, recycle: Answers)
    requires r.pool.Some? && StateIs(r.pool.value, ws, {Busy, Reserved})
    requires PoolInv(cfg.Pool(), Fleet(r.pool.value, bs)) && OnlyActed(r.browsers, bs, ByManager)
    ensures var g := Release(cfg.Pool(), Fleet(r.pool.value, bs), ws, recycle).0;
            && Replaced(Fleet(r.pool.value, r.browsers), g, ws)
            && (if NeverWarm(cfg.Pool(), recycle) then g.pool.slots[ws].state == Error
                else FreshlyWarm(cfg.Pool(), r.browsers, g, ws, recycle))
  {
    hide PoolInv;
    hide NeverWarm;
    hide Release;
    var f := Fleet(r.pool.value, bs);
    OperationsAcceptIff(cfg.Pool(), f, ws, recycle);
    AcceptedRecycles(cfg.Pool(), f, ws, recycle, Release(cfg.Pool(), f, ws, recycle));
    Grown(r.browsers, bs, ByManager);
    hide OnlyActed;
  }

  lemma Grown(bs: Browsers, later: Browsers, party: Party)
    requires OnlyActed(bs, later, party)
    ensures |bs| <= |later|
  {
  }

  /** Ending a session with a cold browser stops that browser. */
  lemma EndStopsColdBrowser(cfg: Settings, r: Runner, id: SessionId, u: Update, w: UpdateWorld)
    requires RunnerInv(cfg, r) && id in r.handles && id !in r.warm && u.status == Set(Dead)
    ensures var q := UpdateSession(cfg, r, id, u, w).0;
            r.handles[id] < |q.browsers| && q.browsers[r.handles[id]].shutBy == [ByManager]
  {
    HandleHolder(cfg, r, id);
    EndsDead(r, id, u, w);
    UpdateByParts(cfg, r, id, u, w);
    hide RunnerInv;
    hide UpdateSession;
    hide AfterUpdate;
    hide MinExpiry;
    hide Recount;
    hide Release;
    hide Released;
  }

  lemma EndsDead(r: Runner, id: SessionId, u: Update, w: UpdateWorld)
    requires id in r.sessions && u.status == Set(Dead)
    ensures !AfterUpdate(r, id, u, w).Live()
  {
  }

  lemma HandleHolder(cfg: Settings, r: Runner, id: SessionId)
    requires RunnerInv(cfg, r) && id in r.handles
    ensures id in r.sessions && r.sessions[id].id == id && r.sessions[id].wsEndpoint.Some?
    ensures r.handles[id] < |r.browsers| && r.browsers[r.handles[id]].shutBy == []
  {
    ResourcesInCustody(cfg, r);
    HandleRuns(cfg, r, id);
    hide CustodyInv;
    hide DisplaysInv;
    hide LogInv;
    assert id in LiveIds(r.sessions);
  }

  /**
   A create that acquires a browser and fails keeps none: a cold one is stopped. A warm slot whose
   session could not be published is recycled like an ended session's; one that was only reserved
   goes back to Idle as it was.
   */
  lemma FailedCreateReleases(cfg: Settings, r: Runner, payload: CreatePayload, w: CreateWorld)
    requires RunnerInv(cfg, r) && w.id !in r.issued && Uninterrupted(cfg, r, payload, w)
    requires Create(cfg, r, payload, w).1.Err?
    ensures var after := Create(cfg, r, payload, w).0; var stage := Reached(cfg, r, payload, w);
            var (waiting, got) := Waiting(cfg, r, payload, w); var storing := Storing(cfg, r, payload, w).0;
            && (got.ColdBrowser? && stage != VncFailed ==>
                  got.handle < |after.browsers| && after.browsers[got.handle].shutBy == [ByManager])
            && (got.WarmBrowser? && stage == ValidationFailed && StillReserved(waiting, got) && waiting.pool.Some? ==>
                  var ws := got.reservation.workstation;
                  && after.browsers == waiting.browsers
                  && after.pool == Some(waiting.pool.value.(slots := waiting.pool.value.slots[
                                          ws := waiting.pool.value.slots[ws].(state := Idle)])))
            && (got.WarmBrowser? && stage == PublishFailed && storing.pool.Some?
                && StateIs(storing.pool.value, got.reservation.workstation, {Busy, Reserved}) ==>
                  var ws := got.reservation.workstation;
                  && after.pool.Some?
                  && Replaced(Fleet(storing.pool.value, storing.browsers), Fleet(after.pool.value, after.browsers), ws)
                  && (if NeverWarm(cfg.Pool(), w.recycle) then after.pool.value.slots[ws].state == Error
                      else FreshlyWarm(cfg.Pool(), storing.browsers, Fleet(after.pool.value, after.browsers), ws,
                                       w.recycle)))
  {
    hide RunnerInv;
    hide CustodyInv;
    hide Create;
    hide Waiting;
    hide Storing;
    hide ResolveVnc;
    hide StillReserved;
    hide NeverWarm;
    hide Replaced;
    hide FreshlyWarm;
    hide EffectiveFlags;
    var stage := Reached(cfg, r, payload, w);
    FarFailure(cfg, r, payload, w);
    if stage !in {VncFailed, BrowserFailed} {
      CreateFromWaiting(cfg, r, payload, w);
      WaitingIsHeld(cfg, r, payload, w);
      var (waiting, got) := Waiting(cfg, r, payload, w);
      var grant := ResolveVnc(cfg, r.(issued := r.issued + {w.id}), payload, w).1;
      if stage == PublishFailed {
        StoringIsHeld(cfg, r, payload, w);
        SameAcquisition(cfg, r, payload, w);
        UnstoredReleases(cfg, Storing(cfg, r, payload, w).0, got, w.id, grant.slot, w.recycle);
      } else {
        GiveBackReleases(cfg, waiting, got, w.id, grant.slot);
      }
    }
    hide Reached;
  }

  lemma SameAcquisition(cfg: Settings, r: Runner, payload: CreatePayload, w: CreateWorld)
    ensures Storing(cfg, r, payload, w).1 == Waiting(cfg, r, payload, w).1
  {
    hide Waiting;
    hide MarkTaken;
  }

  lemma FarFailure(cfg: Settings, r: Runner, payload: CreatePayload, w: CreateWorld)
    requires RunnerInv(cfg, r) && w.id !in r.issued && Uninterrupted(cfg, r, payload, w)
    requires Create(cfg, r, payload, w).1.Err?
    ensures var stage := Reached(cfg, r, payload, w);
            && stage != Completed
            && (stage == BrowserFailed ==> Waiting(cfg, r, payload, w).1.Refused?)
            && (stage !in {VncFailed, BrowserFailed} ==>
                  && !Waiting(cfg, r, payload, w).1.Refused? && Undisturbed(r, w.between)
                  && ResolveVnc(cfg, r.(issued := r.issued + {w.id}), payload, w).1.VncGranted?)
            && (stage == PublishFailed ==> Undisturbed(r, w.afterwards))
  {
    CreateIsAllOrNothing(cfg, r, payload, w);
    hide RunnerInv;
    hide Create;
    hide Waiting;
    hide ResolveVnc;
    hide StillReserved;
  }

  /** A cold browser held for a create is running. */
  lemma PendingRuns(cfg: Settings, r: Runner, got: Acquisition, id: SessionId)
    requires CustodyInv(cfg.Pool(), Pending(HoldingsOf(r), id, got)) && got.ColdBrowser?
    ensures Running(r.browsers, got.handle)
  {
    hide CustodyInv;
    var view := r.(handles := r.handles[id := got.handle]);
    assert HoldingsOf(view) == Pending(HoldingsOf(r), id, got);
    HandleRuns(cfg, view, id);
  }

  lemma GiveBackReleases(cfg: Settings, r: Runner, got: Acquisition, id: SessionId, slot: Option<VncSlot>)
    requires CustodyInv(cfg.Pool(), Pending(HoldingsOf(r), id, got))
    ensures var after := DiscardVnc(GiveBack(r, got), slot);
            && (got.ColdBrowser? ==>
                  got.handle < |after.browsers| && after.browsers[got.handle].shutBy == [ByManager])
            && (got.WarmBrowser? && StillReserved(r, got) && r.pool.Some? ==>
                  var ws := got.reservation.workstation;
                  && after.browsers == r.browsers
                  && after.pool == Some(r.pool.value.(slots := r.pool.value.slots[
                                          ws := r.pool.value.slots[ws].(state := Idle)])))
  {
    hide CustodyInv;
    hide Released;
    if got.ColdBrowser? {
      PendingRuns(cfg, r, got, id);
    }
  }

  lemma UnstoredReleases(
    cfg: Settings, r: Runner, got: Acquisition, id: SessionId, slot: Option<VncSlot>, recycle: Answers)
    requires CustodyInv(cfg.Pool(), Pending(HoldingsOf(r), id, got))
    ensures var after := Unstored(cfg, r, got, slot, recycle);
            && (got.ColdBrowser? ==>
                  got.handle < |after.browsers| && after.browsers[got.handle].shutBy == [ByManager])
            && (got.WarmBrowser? && r.pool.Some?
                && StateIs(r.pool.value, got.reservation.workstation, {Busy, Reserved}) ==>
                  var ws := got.reservation.workstation;
                  && after.pool.Some?
                  && Replaced(Fleet(r.pool.value, r.browsers), Fleet(after.pool.value, after.browsers), ws)
                  && (if NeverWarm(cfg.Pool(), recycle) then after.pool.value.slots[ws].state == Error
                      else FreshlyWarm(cfg.Pool(), r.browsers, Fleet(after.pool.value, after.browsers), ws, recycle)))
  {
    hide CustodyInv;
    hide Released;
    hide Release;
    hide MinExpiry;
    hide NeverWarm;
    hide Replaced;
    hide FreshlyWarm;
    if got.ColdBrowser? {
      PendingRuns(cfg, r, got, id);
    } else if got.WarmBrowser? && r.pool.Some? && StateIs(r.pool.value, got.reservation.workstation, {Busy, Reserved}) {
      OperatorProofs.PoolInCustody(cfg.Pool(), HoldingsOf(r));
      NothingActed(r.browsers, ByManager);
      SlotRecycled(cfg, r, r.browsers, got.reservation.workstation, recycle);
    }
  }

  // ---------- what a sweep announces ----------

  /** Event `e` says that session `id`, as it is now, timed out. */
  predicate TimedOut(e: Event, id: SessionId, sessions: map<SessionId, Session>) {
    && e.kind == Ended && e.reason == Some("idle-timeout") && e.session.id == id
    && id in sessions && sessions[id] == e.session
  }

  /** `events` is `base` followed by one announcement for each of `ids`. */
  ghost predicate Announced(
    base: seq<Event>, events: seq<Event>, ids: seq<SessionId>, sessions: map<SessionId, Session>)
  {
    && |events| == |base| + |ids| && base <= events
    && (forall k | 0 <= k < |ids| :: TimedOut(events[|base| + k], ids[k], sessions))
  }

  lemma AnnouncedOneMore(
    base: seq<Event>, events: seq<Event>, ids: seq<SessionId>, sessions: map<SessionId, Session>, e: Event)
    requires ids != [] && Distinct(ids) && Announced(base, events, ids[..|ids| - 1], sessions)
    requires e.kind == Ended && e.reason == Some(IDLE_TIMEOUT) && e.session.id == ids[|ids| - 1]
    ensures Announced(base, events + [e], ids, sessions[e.session.id := e.session])
  {
    var n := |ids| - 1;
    assert forall k | 0 <= k < n :: ids[..n][k] == ids[k] && ids[k] != ids[n];
  }

  /** Ending sessions without a failure announces each of them, in the order given. */
  lemma {:induction false} EndAllAnnounces(
    cfg: Settings, r: Runner, ids: seq<SessionId>, now: Instant, worlds: int -> UpdateWorld)
    requires RunnerInv(cfg, r) && Distinct(ids) && (forall id | id in ids :: id in r.sessions)
    ensures var (q, result) := EndAll(cfg, r, ids, now, worlds);
            result.Ok? ==> Announced(r.events, q.events, ids, q.sessions)
    decreases |ids|
  {
    hide RunnerInv;
    hide UpdateSession;
    hide Announced;
    if ids == [] {
      NothingAnnounced(r.events, r.sessions);
    } else {
      var n := |ids| - 1;
      EndAllAnnounces(cfg, r, ids[..n], now, worlds);
      EndAllExact(cfg, r, ids[..n], now, worlds);
      var (q, counted) := EndAll(cfg, r, ids[..n], now, worlds);
      if counted.Ok? {
        assert ids[n] in q.sessions by { EndedKeys(r.sessions, q.sessions, ids[..n], now); }
        OneEndAnnounced(cfg, q, ids[n], now, worlds(n));
        if UpdateSession(cfg, q, ids[n], EndUpdate(Some(IDLE_TIMEOUT), Some(now)), worlds(n)).1.Ok? {
          var p := UpdateSession(cfg, q, ids[n], EndUpdate(Some(IDLE_TIMEOUT), Some(now)), worlds(n)).0;
          AnnouncedOneMore(r.events, q.events, ids, q.sessions, p.events[|q.events|]);
        }
      }
    }
  }

  lemma NothingAnnounced(events: seq<Event>, sessions: map<SessionId, Session>)
    ensures Announced(events, events, [], sessions)
  {
  }

  lemma OneEndAnnounced(cfg: Settings, r: Runner, id: SessionId, now: Instant, w: UpdateWorld)
    requires RunnerInv(cfg, r) && id in r.sessions
    ensures var (q, answer) := UpdateSession(cfg, r, id, EndUpdate(Some(IDLE_TIMEOUT), Some(now)), w);
            && answer != Err(NotFound)
            && (answer.Ok? ==>
                  && |q.events| == |r.events| + 1
                  && var e := q.events[|r.events|];
                     && q.events == r.events + [e] && q.sessions == r.sessions[id := e.session]
                     && e.kind == Ended && e.reason == Some(IDLE_TIMEOUT) && e.session.id == id)
  {
    var u := EndUpdate(Some(IDLE_TIMEOUT), Some(now));
    EndReason(Some(IDLE_TIMEOUT), Some(now));
    UpdateAnswers(cfg, r, id, u, w);
    UpdateKeepsInv(cfg, r, id, u, w);
    EndedSession(r, id, Some(IDLE_TIMEOUT), Some(now), w);
    KeepsId(cfg, r, id, u, w);
    hide RunnerInv;
    hide UpdateSession;
    hide AfterUpdate;
    hide EndUpdate;
    hide Settle;
  }

  lemma EndReason(reason: Option<string>, endedAt: Option<Instant>)
    ensures EndUpdate(reason, endedAt).reason == reason
  {
  }

  /** A sweep without failures announces each overdue session, in table order, as ended by its idle timeout. */
  lemma SweepAnnounces(cfg: Settings, r: Runner, now: Instant, worlds: int -> UpdateWorld)
    requires RunnerInv(cfg, r)
    ensures var (q, result) := Sweep(cfg, r, now, worlds); var ids := ExpiredIds(r.order, r.sessions, now);
            && (forall id :: id in ids <==> id in r.sessions && Overdue(r.sessions[id], now))
            && (result.Ok? ==> Announced(r.events, q.events, ids, q.sessions))
  {
    hide RunnerInv;
    hide EndAll;
    hide Announced;
    hide ExpiredIds;
    hide MinExpiry;
    ScanKeepsInv(cfg, r, now);
    var (scanned, ids) := Scan(r, now);
    EndAllAnnounces(cfg, scanned, ids, now, worlds);
  }
}
