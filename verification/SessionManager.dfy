/** `SessionManager`: the session lifecycle carried out step by step on mutable tables. */
module SessionManagers {
  import opened Domain
  import opened BrowserFlags
  import opened BrowserHosts
  import opened VncPools
  import opened WarmPools
  import opened WarmPoolManagers
  import opened Runners
  import opened RunnerInvariants
  import CreateProofs
  import ReservationProofs
  import WarmPoolProofs
  import UpdateProofs
  import SweepProofs

  class SessionManager {
    const cfg: Settings
    const host: BrowserHost
    const pool: WarmPoolManager?
    const vnc: VncController?

    var sessions: map<SessionId, Session>
    var order: seq<SessionId>
    var handles: map<SessionId, BrowserId>
    var warm: map<SessionId, WorkstationId>
    var vncHandles: map<SessionId, VncSlot>
    var active: int
    var nextExpiry: Option<Instant>
    var events: seq<Event>

    ghost var issued: set<SessionId>
    ghost var unpublished: set<SessionId>
    ghost var excluded: set<SessionId>
    ghost var lent: set<WorkstationId>

    ghost function PoolFrame(): set<object>
      reads this, pool
    {
      if pool == null then {} else {pool} + pool.slots.Values
    }

    ghost function VncFrame(): set<object> {
      if vnc == null then {} else {vnc.pool}
    }

    ghost function Footprint(): set<object>
      reads this, pool
    {
      {this, host} + PoolFrame() + VncFrame()
    }

    /** The parts fit together. */
    ghost predicate Shape()
      reads this, pool, PoolFrame()
    {
      pool != null ==> pool.Valid() && pool.host == host && pool.cfg == cfg.Pool()
    }

    ghost function State(): Runner
      reads Footprint(), this, pool
    {
      Runner(sessions, order, handles, warm, vncHandles, active, nextExpiry,
             if pool == null then None else Some(pool.model),
             if vnc == null then None else Some(vnc.pool.State()),
             host.processes, events, issued, unpublished, excluded, lent)
    }

    /** The lock is free: the parts fit and the runner's invariant holds. */
    ghost predicate Valid()
      reads Footprint(), this, pool
    {
      Shape() && RunnerInv(cfg, State())
    }

    constructor (cfg: Settings, host: BrowserHost, pool: WarmPoolManager?, vnc: VncController?)
      requires pool != null ==> pool.Valid() && pool.host == host && pool.cfg == cfg.Pool()
      ensures Shape() && this.cfg == cfg && this.host == host && this.pool == pool && this.vnc == vnc
      ensures State() == Runner(map[], [], map[], map[], map[], 0, None,
                                if pool == null then None else Some(pool.model),
                                if vnc == null then None else Some(vnc.pool.State()),
                                host.processes, [], {}, {}, {}, {})
    {
      this.cfg, this.host, this.pool, this.vnc := cfg, host, pool, vnc;
      sessions, order, handles, warm, vncHandles := map[], [], map[], map[], map[];
      active, nextExpiry, events := 0, None, [];
      issued, unpublished, excluded, lent := {}, {}, {}, {};
    }

    // ---------- helpers of create ----------

    method ResolveVncDetails(payload: CreatePayload, w: CreateWorld) returns (grant: VncGrant)
      requires Shape()
      modifies VncFrame()
      ensures Shape() && (State(), grant) == ResolveVnc(cfg, old(State()), payload, w)
    {
      if payload.headless || !cfg.vncEnabled {
        return VncGranted(None, None);
      }
      var sanitized := Sanitized(payload.vnc);
      if sanitized.Some? {
        return VncGranted(sanitized, None);
      }
      if vnc == null {
        return VncGranted(None, None);
      }
      var slot := vnc.Allocate(w.startup);
      grant := if slot.Some? then VncGranted(Some(VncDetails(w.vncUrl, None, None)), slot) else VncRefused;
    }

    method DiscardVncHandle(slot: Option<VncSlot>)
      requires Shape()
      modifies VncFrame()
      ensures Shape() && State() == DiscardVnc(old(State()), slot)
    {
      if slot.Some? && vnc != null {
        vnc.Release(slot.value);
      }
    }

    method LaunchColdBrowser(effective: Flags, w: CreateWorld) returns (got: Acquisition)
      requires Shape()
      modifies host
      ensures Shape()
      ensures match w.cold
              case None => got == Refused && State() == old(State())
              case Some(endpoint) =>
                && got == ColdBrowser(|old(host.processes)|)
                && State() == old(State()).(
                                browsers := old(host.processes) + [Browser(endpoint, effective, ByManager, [])])
    {
      if w.cold.None? {
        return Refused;
      }
      var id := host.Launch(w.cold.value, effective, ByManager);
      got := ColdBrowser(id);
    }

    method ReserveWarmSlot(hint: Option<WorkstationId>) returns (reserved: Option<Reservation>)
      requires Shape() && pool != null
      modifies `lent, PoolFrame()
      ensures Shape() && PoolFrame() == old(PoolFrame())
      ensures var (p, answer) := Reserve(old(pool.model), hint);
              match answer
              case Ok(reservation) =>
                && reserved == Some(reservation)
                && State() == old(State()).(pool := Some(p), lent := old(lent) + {reservation.workstation})
              case Err(_) => reserved.None? && State() == old(State())
    {
      hide Reserve;
      WarmPoolProofs.RefusedChangesNothing(pool.model, hint);
      var answer := pool.ReserveSlot(hint);
      if answer.Err? {
        return None;
      }
      lent := lent + {answer.value.workstation};
      reserved := Some(answer.value);
    }

    method AcquireHandle(payload: CreatePayload, w: CreateWorld) returns (got: Acquisition)
      requires Shape()
      modifies `lent, host, PoolFrame()
      ensures PoolFrame() == old(PoolFrame())
      ensures Shape() && (State(), got) == AcquireBrowser(cfg, old(State()), payload, w)
      ensures got.WarmBrowser? ==> pool != null
    {
      hide Merged;
      hide Normalised;
      hide RequiresAdditional;
      hide Reserve;
      var requested := NormaliseBrowserFlags(payload.flags);
      var effective := Merged(cfg.requiredFlags, requested);
      var custom := RequiresAdditionalFlags(requested, cfg.requiredFlags);
      if cfg.mode == ColdOnly || custom {
        if cfg.mode == WarmOnly {
          return Refused;
        }
        got := LaunchColdBrowser(effective, w);
        return;
      }
      if pool != null {
        var reserved := ReserveWarmSlot(payload.hint);
        if reserved.Some? {
          return WarmBrowser(reserved.value);
        }
        if cfg.mode == WarmOnly {
          return Refused;
        }
      } else if cfg.mode == WarmOnly {
        return Refused;
      }
      got := LaunchColdBrowser(effective, w);
    }

    method GiveBackBrowser(got: Acquisition)
      requires Shape()
      modifies `lent, host, PoolFrame()
      ensures PoolFrame() == old(PoolFrame())
      ensures Shape() && State() == GiveBack(old(State()), got)
    {
      hide Shut;
      hide LeaveReserved;
      match got {
        case Refused =>
        case ColdBrowser(handle) =>
          host.Shutdown(handle, ByManager);
        case WarmBrowser(reservation) =>
          if pool != null {
            var error := pool.CancelReservation(reservation.workstation);
            lent := if error.None? then lent - {reservation.workstation} else lent;
          }
      }
    }

    method MarkWarmSlotBusy(got: Acquisition) returns (taken: bool)
      requires Shape()
      modifies PoolFrame()
      ensures PoolFrame() == old(PoolFrame())
      ensures Shape() && (State(), taken) == MarkTaken(old(State()), got)
    {
      taken := true;
      if got.WarmBrowser? && pool != null {
        var error := pool.MarkBusy(got.reservation.workstation);
        taken := error.None?;
      }
    }

    /** A request of the operator's, which goes to the pool past the session manager and its lock. */
    method OperatorRequest(a: OperatorAction)
      requires Shape()
      modifies `lent, host, PoolFrame()
      ensures PoolFrame() == old(PoolFrame())
      ensures Shape() && State() == Operate(cfg, old(State()), a) == Step(cfg, old(State()), DoOperate(a)).0
    {
      hide Operated;
      hide LentAfter;
      if pool != null {
        lent := LentAfter(cfg.Pool(), pool.View(), a, lent);
        pool.Perform(a);
      }
    }

    method OperatorRequests(actions: seq<OperatorAction>)
      requires Shape()
      modifies `lent, host, PoolFrame()
      ensures PoolFrame() == old(PoolFrame())
      ensures Shape() && State() == OperateAll(cfg, old(State()), actions)
    {
      hide Operate;
      for i := 0 to |actions|
        invariant PoolFrame() == old(PoolFrame())
        invariant Shape() && State() == OperateAll(cfg, old(State()), actions[..i])
      {
        assert actions[..i + 1][..i] == actions[..i];
        OperatorRequest(actions[i]);
      }
      assert actions[..|actions|] == actions;
    }

    method RecalculateNextExpiry()
      requires Shape()
      modifies `nextExpiry, `excluded
      ensures Shape()
      ensures State() == old(State()).(nextExpiry := MinExpiry(order, sessions, {}), excluded := {})
    {
      var earliest: Option<Instant> := None;
      for i := 0 to |order|
        invariant earliest == MinExpiry(order[..i], sessions, {})
      {
        assert order[..i + 1][..i] == order[..i];
        var id := order[i];
        if id in sessions && sessions[id].Live() {
          var candidate := sessions[id].Deadline();
          if earliest.None? || candidate < earliest.value {
            earliest := Some(candidate);
          }
        }
      }
      assert order[..|order|] == order;
      nextExpiry := earliest;
      excluded := {};
    }

    /** Append the event to the publisher's buffer, unless the validator or the publisher refuses it. */
    method PublishEvent(event: Event, delivered: bool) returns (published: bool)
      modifies `events
      ensures published <==> event.Acceptable() && delivered
      ensures events == if published then old(events) + [event] else old(events)
    {
      published := event.Acceptable() && delivered;
      if published {
        events := events + [event];
      }
    }

    // ---------- create ----------

    method StoreSession(s: Session, got: Acquisition, slot: Option<VncSlot>)
      requires Shape() && !got.Refused?
      modifies `sessions, `order, `handles, `warm, `vncHandles, `active, `nextExpiry, `excluded, `lent
      ensures Shape() && State() == Store(old(State()), s, got, slot)
      ensures s.id in handles && order != []
    {
      LinkSession(s);
      LinkResources(s.id, got, slot);
      RecalculateNextExpiry();
    }

    method LinkSession(s: Session)
      requires Shape()
      modifies `sessions, `order, `active
      ensures Shape()
      ensures State() == old(State()).(
                sessions := old(sessions)[s.id := s], order := old(order) + [s.id],
                active := if s.Live() then old(active) + 1 else old(active))
    {
      sessions := sessions[s.id := s];
      order := order + [s.id];
      active := if s.Live() then active + 1 else active;
    }

    method LinkResources(id: SessionId, got: Acquisition, slot: Option<VncSlot>)
      requires Shape() && !got.Refused?
      modifies `handles, `warm, `vncHandles, `lent
      ensures Shape()
      ensures State() == old(State()).(
                handles := old(handles)[id := Handle(got)],
                warm := if got.WarmBrowser? then old(warm)[id := got.reservation.workstation] else old(warm),
                lent := if got.WarmBrowser? then old(lent) - {got.reservation.workstation} else old(lent),
                vncHandles := if slot.Some? then old(vncHandles)[id := slot.value] else old(vncHandles))
    {
      handles := handles[id := Handle(got)];
      warm := if got.WarmBrowser? then warm[id := got.reservation.workstation] else warm;
      lent := if got.WarmBrowser? then lent - {got.reservation.workstation} else lent;
      vncHandles := if slot.Some? then vncHandles[id := slot.value] else vncHandles;
    }

    method UnlinkSession(s: Session)
      requires Shape() && order != []
      modifies `sessions, `order, `handles, `active
      ensures Shape() && State() == Unlinked(old(State()), s)
    {
      sessions := sessions - {s.id};
      order := order[..|order| - 1];
      handles := handles - {s.id};
      active := if !s.Live() then active else if active - 1 < 0 then 0 else active - 1;
    }

    /** Undo `StoreSession` after a failed publication, table by table, and release what was acquired. */
    method Rollback(s: Session, got: Acquisition, slot: Option<VncSlot>, recycle: Answers)
      requires Shape() && s.id in handles && order != []
      modifies this, Footprint()
      ensures Shape() && Footprint() == old(Footprint())
      ensures State() == RolledBack(cfg, old(State()), s, got, slot, recycle)
    {
      hide Unlinked;
      hide ReleaseVnc;
      hide DiscardVnc;
      hide ReleaseWarm;
      hide MinExpiry;
      var handle := handles[s.id];
      UnlinkSession(s);
      RollbackVnc(s.id, slot);
      RollbackBrowser(s.id, handle, recycle);
      RecalculateNextExpiry();
    }

    method RollbackVnc(id: SessionId, slot: Option<VncSlot>)
      requires Shape()
      modifies `vncHandles, VncFrame()
      ensures Shape()
      ensures State() == if id in old(vncHandles) then ReleaseVnc(old(State()), id) else DiscardVnc(old(State()), slot)
    {
      if id in vncHandles {
        ReleaseVncHandle(id);
      } else {
        DiscardVncHandle(slot);
      }
    }

    method RollbackBrowser(id: SessionId, handle: BrowserId, recycle: Answers)
      requires Shape()
      modifies `warm, host, PoolFrame()
      ensures Shape() && PoolFrame() == old(PoolFrame())
      ensures State() == if id in old(warm) then ReleaseWarm(cfg, old(State()), id, recycle).0
                         else old(State()).(browsers := Shut(old(host.processes), handle, ByManager))
    {
      hide ReleaseWarm;
      if id in warm {
        var recycled := ReleaseWarmSlot(id, recycle);
      } else {
        host.Shutdown(handle, ByManager);
      }
    }

    method PrepareSession(payload: CreatePayload, w: CreateWorld) returns (prepared: Result<Prepared, Failure>)
      requires Shape()
      modifies `lent, Footprint() - {this}
      ensures Shape() && Footprint() == old(Footprint())
      ensures (State(), prepared) == Prepare(cfg, old(State()), payload, w)
      ensures prepared.Ok? ==> !prepared.value.got.Refused? && (prepared.value.got.WarmBrowser? ==> pool != null)
    {
      hide ResolveVnc;
      hide AcquireBrowser;
      hide DiscardVnc;
      hide Confirmed;
      var grant := ResolveVncDetails(payload, w);
      if grant.VncRefused? {
        return Err(NoVnc);
      }
      var got := AcquireHandle(payload, w);
      if got.Refused? {
        DiscardVncHandle(grant.slot);
        return Err(NoCapacity);
      }
      var failure := ConfirmAcquisition(got, grant.slot, w);
      if failure.Some? {
        return Err(failure.value);
      }
      prepared := Ok(Prepared(grant.details, grant.slot, got));
    }

    /** Validate and mark busy, while the operator's requests come in. */
    method ConfirmAcquisition(got: Acquisition, slot: Option<VncSlot>, w: CreateWorld)
      returns (failure: Option<Failure>)
      requires Shape()
      modifies `lent, Footprint() - {this}
      ensures Shape() && Footprint() == old(Footprint())
      ensures (State(), failure) == Confirmed(cfg, old(State()), got, slot, w)
    {
      hide GiveBack;
      hide DiscardVnc;
      hide MarkTaken;
      hide OperateAll;
      OperatorRequests(w.between);
      if !w.valid {
        ReturnAcquired(got, slot);
        return Some(Invalid);
      }
      var taken := MarkWarmSlotBusy(got);
      if !taken {
        ReturnAcquired(got, slot);
        return Some(NoCapacity);
      }
      OperatorRequests(w.afterwards);
      failure := None;
    }

    method ReturnAcquired(got: Acquisition, slot: Option<VncSlot>)
      requires Shape()
      modifies `lent, Footprint() - {this}
      ensures Shape() && Footprint() == old(Footprint())
      ensures State() == DiscardVnc(GiveBack(old(State()), got), slot)
    {
      hide GiveBack;
      hide DiscardVnc;
      GiveBackBrowser(got);
      DiscardVncHandle(slot);
    }

    // ---------- update ----------

    method ShutdownBrowserOf(id: SessionId)
      requires Shape()
      modifies `handles, host
      ensures Shape() && State() == ShutdownBrowser(old(State()), id)
    {
      if id !in handles {
        return;
      }
      var handle := handles[id];
      handles := handles - {id};
      if id !in warm {
        host.Shutdown(handle, ByManager);
      }
    }

    method ReleaseVncHandle(id: SessionId)
      requires Shape()
      modifies `vncHandles, VncFrame()
      ensures Shape() && State() == ReleaseVnc(old(State()), id)
    {
      if id !in vncHandles {
        return;
      }
      var slot := vncHandles[id];
      vncHandles := vncHandles - {id};
      if vnc != null {
        vnc.Release(slot);
      }
    }

    method ReleaseWarmSlot(id: SessionId, recycle: Answers) returns (recycled: bool)
      requires Shape()
      modifies `warm, host, PoolFrame()
      ensures Shape() && PoolFrame() == old(PoolFrame())
      ensures (State(), recycled) == ReleaseWarm(cfg, old(State()), id, recycle)
    {
      if pool == null || id !in warm {
        return true;
      }
      var w := warm[id];
      warm := warm - {id};
      var error := pool.ReleaseSlot(w, recycle);
      recycled := error.None?;
    }

    /** `create_session` as one locked region. */
    method CreateSession(payload: CreatePayload, w: CreateWorld) returns (result: Result<Session, Failure>)
      requires Valid() && w.id !in issued
      modifies Footprint()
      ensures Shape() && Footprint() == old(Footprint())
      ensures (State(), result) == Create(cfg, old(State()), payload, w)
      ensures State() == Step(cfg, old(State()), DoCreate(payload, w)).0
      ensures Valid() <==> Permitted(cfg, old(State()), DoCreate(payload, w))
    {
      hide RunnerInv;
      hide Permitted;
      ghost var before := State();
      CreateProofs.FreshIdentifier(cfg, before, w.id);
      CountIsNatural(cfg, before);
      result := CreateSteps(payload, w);
      ReservationProofs.CreateKeepsInvIff(cfg, before, payload, w);
    }

    method CreateSteps(payload: CreatePayload, w: CreateWorld) returns (result: Result<Session, Failure>)
      requires Shape() && active >= 0
      requires w.id !in sessions && w.id !in handles && w.id !in warm && w.id !in vncHandles
      modifies Footprint()
      ensures Shape() && Footprint() == old(Footprint())
      ensures (State(), result) == Create(cfg, old(State()), payload, w)
    {
      hide Prepare;
      hide NewSession;
      hide Store;
      hide Unstored;
      issued := issued + {w.id};
      var prepared := PrepareSession(payload, w);
      if prepared.Err? {
        return Err(prepared.error);
      }
      var got, slot := prepared.value.got, prepared.value.slot;
      var s := NewSession(cfg, host.processes, payload, w, prepared.value.details, got);
      SessionIdIsFresh(cfg, host.processes, payload, w, prepared.value.details, got);
      var published := StoreAndPublish(s, got, slot, w);
      result := if published then Ok(s) else Err(NotDelivered);
    }

    method StoreAndPublish(s: Session, got: Acquisition, slot: Option<VncSlot>, w: CreateWorld)
      returns (published: bool)
      requires Shape() && active >= 0 && !got.Refused? && (got.WarmBrowser? ==> pool != null)
      requires s.id !in sessions && s.id !in handles && s.id !in warm && s.id !in vncHandles
      modifies this, Footprint()
      ensures Shape() && Footprint() == old(Footprint())
      ensures var event := Event(Created, s, w.publishedAt, None);
              && (published <==> event.Acceptable() && w.delivered)
              && State() == if published then Store(old(State()), s, got, slot).(events := old(events) + [event])
                            else Unstored(cfg, old(State()), got, slot, w.recycle)
    {
      hide Store;
      hide RolledBack;
      hide Unstored;
      ghost var r := State();
      StoreSession(s, got, slot);
      published := PublishEvent(Event(Created, s, w.publishedAt, None), w.delivered);
      if !published {
        Rollback(s, got, slot, w.recycle);
        RollbackUndoesStore(cfg, r, s, got, slot, w.recycle);
      }
    }

    // ---------- the rest of update ----------

    method ReplaceSession(id: SessionId, s: Session)
      requires Shape() && id in sessions
      modifies `sessions, `active, `nextExpiry, `excluded, `unpublished
      ensures Shape() && State() == Replace(old(State()), id, s)
    {
      var before := sessions[id];
      sessions := sessions[id := s];
      active := if before.Live() && !s.Live() then (if active - 1 < 0 then 0 else active - 1)
                else if !before.Live() && s.Live() then active + 1
                else active;
      unpublished := unpublished + {id};
      RecalculateNextExpiry();
    }

    /** `update_session` as one locked region. */
    method UpdateSession(id: SessionId, u: Update, w: UpdateWorld) returns (result: Result<Session, Failure>)
      requires Valid()
      modifies Footprint()
      ensures Valid() && Footprint() == old(Footprint())
      ensures (State(), result) == Runners.UpdateSession(cfg, old(State()), id, u, w)
      ensures State() == Step(cfg, old(State()), DoUpdate(id, u, w)).0
    {
      hide RunnerInv;
      ghost var before := State();
      if id !in sessions {
        UpdateProofs.UnknownIsNotFound(cfg, before, id, u, w);
        return Err(NotFound);
      }
      result := UpdateSteps(id, u, w);
      UpdateProofs.UpdateKeepsInv(cfg, before, id, u, w);
    }

    method UpdateSteps(id: SessionId, u: Update, w: UpdateWorld) returns (result: Result<Session, Failure>)
      requires Shape() && id in sessions
      modifies Footprint()
      ensures Shape() && Footprint() == old(Footprint())
      ensures (State(), result) == Runners.UpdateSession(cfg, old(State()), id, u, w)
    {
      hide UpdateProofs.Settle;
      hide UpdateProofs.AfterUpdate;
      hide Runners.UpdateSession;
      UpdateProofs.UpdateByParts(cfg, State(), id, u, w);
      var s, recycled := SettleSteps(id, u, w);
      if !recycled {
        return Err(RecycleFailed);
      }
      var event := Event(if s.Live() then Updated else Ended, s, w.publishedAt, u.reason);
      var published := PublishEvent(event, w.delivered);
      unpublished := if published then unpublished - {s.id} else unpublished;
      result := if published then Ok(s) else Err(NotDelivered);
    }

    /** The table change of an update and what it lets go of, before it publishes. */
    method SettleSteps(id: SessionId, u: Update, w: UpdateWorld) returns (s: Session, recycled: bool)
      requires Shape() && id in sessions
      modifies Footprint()
      ensures Shape() && Footprint() == old(Footprint())
      ensures s == UpdateProofs.AfterUpdate(old(State()), id, u, w)
      ensures (State(), recycled) == UpdateProofs.Settle(cfg, old(State()), id, u, w)
    {
      hide Patched;
      hide Replace;
      hide UpdateProofs.Trimmed;
      hide ReleaseWarm;
      var before := sessions[id];
      var releaseWarm := id in warm && before.Live() && u.status == Set(Dead);
      s := Patched(before, u, w, releaseWarm);
      ReplaceSession(id, s);
      LetGo(id, before, s);
      recycled := true;
      if releaseWarm {
        recycled := ReleaseWarmSlot(id, w.recycle);
      }
    }

    method LetGo(id: SessionId, before: Session, s: Session)
      requires Shape()
      modifies `handles, `vncHandles, host, VncFrame()
      ensures Shape()
      ensures State() == UpdateProofs.Trimmed(old(State()), id, before, s)
    {
      hide ShutdownBrowser;
      hide ReleaseVnc;
      hide ShouldCleanupBrowser;
      hide ShouldCleanupVnc;
      CleanupBrowser(id, before, s);
      CleanupVnc(id, before, s);
    }

    method CleanupBrowser(id: SessionId, before: Session, s: Session)
      requires Shape()
      modifies `handles, host
      ensures Shape()
      ensures State() == if ShouldCleanupBrowser(before, s) then ShutdownBrowser(old(State()), id) else old(State())
    {
      if before.wsEndpoint.Some? && (!s.Live() || s.wsEndpoint != before.wsEndpoint) {
        ShutdownBrowserOf(id);
      }
    }

    method CleanupVnc(id: SessionId, before: Session, s: Session)
      requires Shape()
      modifies `vncHandles, VncFrame()
      ensures Shape()
      ensures State() == if ShouldCleanupVnc(old(State()), before, s) then ReleaseVnc(old(State()), id)
                         else old(State())
    {
      if before.id in vncHandles && (!s.Live() || s.headless || s.vnc.None? || s.vncEnabled != Some(true)) {
        ReleaseVncHandle(id);
      }
    }

    method EndSession(id: SessionId, reason: Option<string>, endedAt: Option<Instant>, w: UpdateWorld)
      returns (result: Result<Session, Failure>)
      requires Valid()
      modifies Footprint()
      ensures Valid() && Footprint() == old(Footprint())
      ensures (State(), result) == Runners.UpdateSession(cfg, old(State()), id, EndUpdate(reason, endedAt), w)
      ensures State() == Step(cfg, old(State()), DoEnd(id, reason, endedAt, w)).0
    {
      hide RunnerInv;
      hide Runners.UpdateSession;
      hide EndUpdate;
      result := UpdateSession(id, EndUpdate(reason, endedAt), w);
    }

    method TouchSession(id: SessionId, now: Instant, w: UpdateWorld) returns (result: Result<Session, Failure>)
      requires Valid()
      modifies Footprint()
      ensures Valid() && Footprint() == old(Footprint())
      ensures (State(), result) == Runners.UpdateSession(cfg, old(State()), id, TouchUpdate(now), w)
      ensures State() == Step(cfg, old(State()), DoTouch(id, now, w)).0
    {
      hide RunnerInv;
      hide Runners.UpdateSession;
      hide TouchUpdate;
      result := UpdateSession(id, TouchUpdate(now), w);
    }

    // ---------- the reaper ----------

    /** The locked scan of `reap_expired_sessions`. */
    method ScanExpired(now: Instant) returns (expired: seq<SessionId>)
      requires Valid()
      modifies `nextExpiry, `excluded
      ensures Valid() && (State(), expired) == Scan(old(State()), now)
      ensures State() == Step(cfg, old(State()), DoScan(now)).0
    {
      hide RunnerInv;
      ghost var before := State();
      DistinctOrder(cfg, before);
      SweepProofs.ScanKeepsInv(cfg, before, now);
      var earliest;
      expired, earliest := CollectExpired(now);
      nextExpiry := earliest;
      excluded := ElementSet(expired);
    }

    method CollectExpired(now: Instant) returns (expired: seq<SessionId>, earliest: Option<Instant>)
      requires Distinct(order)
      ensures expired == ExpiredIds(order, sessions, now)
      ensures earliest == MinExpiry(order, sessions, ElementSet(expired))
    {
      SweepProofs.ExpiredIdsExact(order, sessions, now);
      ghost var skip := ElementSet(ExpiredIds(order, sessions, now));
      expired := [];
      earliest := None;
      for i := 0 to |order|
        invariant expired == ExpiredIds(order[..i], sessions, now)
        invariant earliest == MinExpiry(order[..i], sessions, skip)
      {
        assert order[..i + 1][..i] == order[..i];
        var id := order[i];
        if id in sessions && sessions[id].Live() {
          var candidate := sessions[id].Deadline();
          if candidate <= now {
            expired := expired + [id];
          } else if earliest.None? || candidate < earliest.value {
            earliest := Some(candidate);
          }
        }
      }
      assert order[..|order|] == order;
    }

    /** `reap_expired_sessions` with nothing else in between: the scan, then one end per collected session. */
    method ReapExpiredSessions(now: Instant, worlds: int -> UpdateWorld) returns (result: Result<nat, Failure>)
      requires Valid()
      modifies Footprint()
      ensures Valid() && Footprint() == old(Footprint())
      ensures (State(), result) == Sweep(cfg, old(State()), now, worlds)
    {
      hide RunnerInv;
      hide Scan;
      hide EndAll;
      hide Runners.UpdateSession;
      var ids := ScanExpired(now);
      ghost var scanned := State();
      var count := 0;
      NothingToEnd(cfg, scanned, now, worlds);
      assert ids[..0] == [];
      for i := 0 to |ids|
        invariant Valid() && Footprint() == old(Footprint())
        invariant (State(), Result<nat, Failure>.Ok(count)) == EndAll(cfg, scanned, ids[..i], now, worlds)
      {
        OneMoreToEnd(cfg, scanned, ids, i, now, worlds);
        var ended := EndSession(ids[i], Some(IDLE_TIMEOUT), Some(now), worlds(i));
        if ended.Ok? {
          count := count + 1;
        } else if ended.error != NotFound {
          FailedSweep(cfg, scanned, ids, i + 1, now, worlds);
          return Err(ended.error);
        }
      }
      assert ids[..|ids|] == ids;
      result := Ok(count);
    }

    // ---------- stop ----------

    /** `stop`, as the last thing the manager does. */
    method StopManager()
      requires Valid()
      modifies Footprint()
      ensures Shape() && Footprint() == old(Footprint())
      ensures State() == Stop(old(State()))
    {
      hide RunnerInv;
      hide HeldSlots;
      hide ReleaseEach;
      hide ShutAll;
      hide Drain;
      hide ColdHeld;
      hide Covered;
      hide Distinct;
      TablesAreCovered(cfg, State());
      DropColdBrowsers();
      DrainWarmPool();
      ReturnAllDisplays();
    }

    method DropColdBrowsers()
      requires Shape() && Distinct(order) && Covered(order, handles, warm)
      modifies `handles, host
      ensures Shape()
      ensures State() == old(State()).(
                handles := map[], browsers := ShutAll(old(host.processes), ColdHeld(old(handles), old(warm))))
    {
      StopColdBrowsers();
      handles := map[];
    }

    method DrainWarmPool()
      requires Shape()
      modifies `warm, host, PoolFrame()
      ensures Shape() && PoolFrame() == old(PoolFrame())
      ensures State() == if pool == null then old(State())
                         else
                           var f := Drain(old(pool.View()));
                           old(State()).(warm := map[], pool := Some(f.pool), browsers := f.browsers)
    {
      hide DrainFrom;
      if pool != null {
        pool.DrainPool();
        warm := map[];
      }
    }

    method StopColdBrowsers()
      requires Shape() && Distinct(order) && Covered(order, handles, warm)
      modifies host
      ensures host.processes == ShutAll(old(host.processes), ColdHeld(handles, warm))
    {
      assert host.processes == ShutAll(host.processes, {});
      for i := 0 to |order|
        invariant host.processes == ShutAll(old(host.processes), ColdBefore(order[..i], handles, warm))
      {
        var id := order[i];
        assert order[..i + 1] == order[..i] + [id];
        if id in handles && id !in warm {
          assert ColdBefore(order[..i + 1], handles, warm) == ColdBefore(order[..i], handles, warm) + {handles[id]};
          OneMoreShut(old(host.processes), ColdBefore(order[..i], handles, warm), handles[id]);
          host.Shutdown(handles[id], ByManager);
        } else {
          assert ColdBefore(order[..i + 1], handles, warm) == ColdBefore(order[..i], handles, warm);
        }
      }
      assert order[..|order|] == order;
      assert ColdBefore(order, handles, warm) == ColdHeld(handles, warm);
    }

    method ReturnAllDisplays()
      requires Shape() && (vnc == null ==> vncHandles == map[])
      modifies `vncHandles, VncFrame()
      ensures Shape()
      ensures State() == old(State()).(
                vncHandles := map[],
                vnc := if vnc == null then None
                       else Some(ReleaseEach(old(vnc.pool.State()), HeldSlots(order, old(vncHandles)))))
    {
      var held := vncHandles;
      vncHandles := map[];
      if vnc == null {
        return;
      }
      ghost var p := vnc.pool.State();
      for i := 0 to |order|
        invariant vncHandles == map[]
        invariant vnc.pool.State() == ReleaseEach(p, HeldSlots(order[..i], held))
      {
        var id := order[i];
        assert order[..i + 1][..i] == order[..i];
        ghost var done := HeldSlots(order[..i], held);
        assert HeldSlots(order[..i + 1], held) == if id in held then done + [held[id]] else done;
        if id in held {
          assert (done + [held[id]])[..|done|] == done;
          vnc.Release(held[id]);
        }
      }
      assert order[..|order|] == order;
    }
  }

  /** The browsers of the cold sessions in `order`. */
  ghost function ColdBefore(
    order: seq<SessionId>, handles: map<SessionId, BrowserId>, warm: map<SessionId, WorkstationId>): set<BrowserId>
  {
    set id | id in order && id in handles && id !in warm :: handles[id]
  }

  /** Every handle belongs to a listed session, and no two cold sessions share one. */
  ghost predicate Covered(
    order: seq<SessionId>, handles: map<SessionId, BrowserId>, warm: map<SessionId, WorkstationId>)
  {
    && (forall id | id in handles :: id in order)
    && (forall a, b | a in handles && b in handles && a !in warm && b !in warm && handles[a] == handles[b] :: a == b)
  }

  lemma TablesAreCovered(cfg: Settings, r: Runner)
    requires RunnerInv(cfg, r)
    ensures Distinct(r.order) && Covered(r.order, r.handles, r.warm)
    ensures r.pool.None? ==> r.warm == map[]
    ensures r.vnc.None? ==> r.vncHandles == map[]
  {
    hide PoolInv;
    hide VncInv;
    hide LogInv;
    hide PolicyInv;
    hide CachesInv;
    forall id | id in r.handles ensures id in r.order {
      assert id in LiveIds(r.sessions);
    }
  }

  lemma OneMoreShut(bs: Browsers, ids: set<BrowserId>, id: BrowserId)
    requires id !in ids
    ensures ShutAll(bs, ids + {id}) == Shut(ShutAll(bs, ids), id, ByManager)
  {
  }

  lemma CountIsNatural(cfg: Settings, r: Runner)
    requires RunnerInv(cfg, r)
    ensures r.active >= 0
  {
    hide CustodyInv;
    hide DisplaysInv;
    hide LinksInv;
    hide LogInv;
    hide SessionsInv;
    hide PolicyInv;
  }

  lemma SessionIdIsFresh(
    cfg: Settings, bs: Browsers, payload: CreatePayload, w: CreateWorld, details: Option<VncDetails>, got: Acquisition)
    requires !got.Refused?
    ensures NewSession(cfg, bs, payload, w, details, got).id == w.id
  {
  }

  lemma DistinctOrder(cfg: Settings, r: Runner)
    requires RunnerInv(cfg, r)
    ensures Distinct(r.order)
  {
    hide CustodyInv;
    hide DisplaysInv;
    hide LinksInv;
    hide LogInv;
    hide PolicyInv;
    hide CachesInv;
  }

  lemma NothingToEnd(cfg: Settings, r: Runner, now: Instant, worlds: int -> UpdateWorld)
    ensures EndAll(cfg, r, [], now, worlds) == (r, Ok(0))
  {
  }

  lemma OneMoreToEnd(cfg: Settings, r: Runner, ids: seq<SessionId>, i: nat, now: Instant, worlds: int -> UpdateWorld)
    requires i < |ids| && EndAll(cfg, r, ids[..i], now, worlds).1.Ok?
    ensures var (q, counted) := EndAll(cfg, r, ids[..i], now, worlds);
            var (p, ended) := UpdateSession(cfg, q, ids[i], EndUpdate(Some(IDLE_TIMEOUT), Some(now)), worlds(i));
            EndAll(cfg, r, ids[..i + 1], now, worlds) ==
              if ended.Ok? then (p, Ok(counted.value + 1))
              else if ended.error == NotFound then (p, counted)
              else (p, Err(ended.error))
  {
    hide UpdateSession;
    assert ids[..i + 1][..i] == ids[..i];
  }

  /** Once a sweep has failed, the remaining identifiers are not tried. */
  lemma {:induction false} FailedSweep(
    cfg: Settings, r: Runner, ids: seq<SessionId>, n: nat, now: Instant, worlds: int -> UpdateWorld)
    requires n <= |ids| && EndAll(cfg, r, ids[..n], now, worlds).1.Err?
    ensures EndAll(cfg, r, ids, now, worlds) == EndAll(cfg, r, ids[..n], now, worlds)
    decreases |ids|
  {
    hide UpdateSession;
    if n < |ids| {
      var m := |ids| - 1;
      assert ids[..m][..n] == ids[..n];
      FailedSweep(cfg, r, ids[..m], n, now, worlds);
    } else {
      assert ids[..n] == ids;
    }
  }
}
