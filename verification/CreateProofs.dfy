/** Creating a session keeps the runner's invariant, and a create that fails changes no table. */
module CreateProofs {
  import opened Domain
  import opened BrowserFlags
  import opened VncPools
  import opened WarmPools
  import opened WarmPoolProofs
  import opened Runners
  import opened RunnerInvariants
  import opened CustodyProofs
  import opened OperatorProofs
  import opened TableProofs

  // ---------- the displays ----------

  lemma DisplayGranted(
    ranges: Ranges, p: VncPool, startup: Startup, vncHandles: map<SessionId, VncSlot>, id: SessionId)
    requires DisplaysInv(ranges, Some(p), vncHandles) && id !in vncHandles
    ensures var (q, slot) := Allocated(p, startup);
            if slot.None? then DisplaysInv(ranges, Some(q), vncHandles)
            else
              && DisplaysInv(ranges, Some(q), vncHandles[id := slot.value])
              && DisplaysInv(ranges, Some(Released(q, slot.value)), vncHandles)
  {
    hide VncInv;
    var (q, slot) := Allocated(p, startup);
    AllocateCorrect(ranges, p, startup);
    if slot.Some? {
      ReleaseCorrect(ranges, q, slot.value);
      var more := vncHandles[id := slot.value];
      assert more.Values == vncHandles.Values + {slot.value} by {
        assert more[id] == slot.value && forall k | k in vncHandles :: more[k] == vncHandles[k];
      }
      assert slot.value !in vncHandles.Values;
    }
  }

  lemma ResolveVncCorrect(cfg: Settings, r: Runner, payload: CreatePayload, w: CreateWorld)
    requires DisplaysInv(cfg.ranges, r.vnc, r.vncHandles) && w.id !in r.vncHandles
    ensures var (r1, grant) := ResolveVnc(cfg, r, payload, w);
            && r1 == r.(vnc := r1.vnc)
            && (grant.VncRefused? ==> DisplaysInv(cfg.ranges, r1.vnc, r.vncHandles))
            && (grant.VncGranted? ==>
                  && grant.details == Sanitized(grant.details)
                  && DisplaysInv(cfg.ranges, DiscardVnc(r1, grant.slot).vnc, r.vncHandles)
                  && DisplaysInv(cfg.ranges, r1.vnc,
                       if grant.slot.Some? then r.vncHandles[w.id := grant.slot.value] else r.vncHandles))
  {
    if r.vnc.Some? {
      DisplayGranted(cfg.ranges, r.vnc.value, w.startup, r.vncHandles, w.id);
    }
    hide DisplaysInv;
  }

  // ---------- the browser ----------

  /** A warm slot will do: the mode allows one, the flags ask for nothing more, and one can be reserved. */
  predicate WarmWillDo(cfg: Settings, r: Runner, payload: CreatePayload) {
    && cfg.mode != ColdOnly && cfg.requiredFlags + Normalised(payload.flags) == cfg.requiredFlags
    && r.pool.Some? && Reserve(r.pool.value, payload.hint).1.Ok?
  }

  /**
   Where the browser of a new session comes from: a warm slot exactly when one will do, else a
   cold launch exactly when the mode allows it and it works, else nowhere.
   */
  lemma AcquireCorrect(cfg: Settings, r: Runner, payload: CreatePayload, w: CreateWorld)
    ensures var (r2, got) := AcquireBrowser(cfg, r, payload, w);
            && (got.WarmBrowser? <==> WarmWillDo(cfg, r, payload))
            && (got.ColdBrowser? <==> !WarmWillDo(cfg, r, payload) && cfg.mode != WarmOnly && w.cold.Some?)
            && (got.Refused? ==> r2 == r)
            && (got.ColdBrowser? ==>
                  && cfg.mode != WarmOnly && w.cold.Some? && got.handle == |r.browsers|
                  && r2 == r.(browsers := r.browsers
                                + [Browser(w.cold.value, EffectiveFlags(cfg, payload), ByManager, [])]))
            && (got.WarmBrowser? ==>
                  && cfg.mode != ColdOnly && r.pool.Some?
                  && EffectiveFlags(cfg, payload) == cfg.requiredFlags
                  && Reserve(r.pool.value, payload.hint).1 == Ok(got.reservation)
                  && r2 == r.(pool := Some(Reserve(r.pool.value, payload.hint).0),
                              lent := r.lent + {got.reservation.workstation}))
  {
    WarmFlagsSufficeIff(Normalised(payload.flags), cfg.requiredFlags);
  }

  /** The holdings while `got` is held for session `id` and not stored yet: a reserved slot counts as lent. */
  function Pending(h: Holdings, id: SessionId, got: Acquisition): Holdings {
    if got.ColdBrowser? then h.(handles := h.handles[id := got.handle]) else h
  }

  /** The holdings once the session is stored with what was acquired for it. */
  function Adopted(h: Holdings, id: SessionId, got: Acquisition): Holdings
    requires !got.Refused?
  {
    h.(handles := h.handles[id := Handle(got)],
       warm := if got.WarmBrowser? then h.warm[id := got.reservation.workstation] else h.warm,
       lent := if got.WarmBrowser? then h.lent - {got.reservation.workstation} else h.lent)
  }

  /** A runner whose tables are those of `base`, and whose stored handles still belong to them. */
  ghost predicate SameTables(base: Runner, r: Runner) {
    && r == base.(pool := r.pool, browsers := r.browsers, lent := r.lent)
    && LinksInv(r.sessions, r.handles, r.warm, r.vncHandles, r.browsers)
  }

  /** The acquired browser exists and was launched with these flags. */
  predicate LaunchedWith(bs: Browsers, got: Acquisition, flags: Flags) {
    got.Refused? || (Handle(got) < |bs| && bs[Handle(got)].flags == flags)
  }

  /** `r` is `base` after acquiring `got` for session `id`. */
  ghost predicate Holding(cfg: Settings, base: Runner, r: Runner, got: Acquisition, id: SessionId, flags: Flags) {
    && SameTables(base, r)
    && LaunchedWith(r.browsers, got, flags)
    && (got.WarmBrowser? ==>
          && r.pool.Some? && got.reservation.workstation in r.pool.value.slots
          && got.reservation.workstation !in r.warm.Values)
    && CustodyInv(cfg.Pool(), Pending(HoldingsOf(r), id, got))
  }

  /** `r` is `base` and holds nothing for a session that is not stored. */
  ghost predicate Returned(cfg: Settings, base: Runner, r: Runner) {
    SameTables(base, r) && CustodyInv(cfg.Pool(), HoldingsOf(r))
  }

  lemma StillLaunched(bs: Browsers, later: Browsers, party: Party, got: Acquisition, flags: Flags)
    requires LaunchedWith(bs, got, flags) && OnlyActed(bs, later, party)
    ensures LaunchedWith(later, got, flags)
  {
  }

  lemma StillSameTables(base: Runner, r: Runner, q: Runner, party: Party)
    requires SameTables(base, r) && q == r.(pool := q.pool, browsers := q.browsers, lent := q.lent)
    requires OnlyActed(r.browsers, q.browsers, party)
    ensures SameTables(base, q)
  {
    hide LinksInv;
    hide OnlyActed;
    LinksKept(r.sessions, r.handles, r.warm, r.vncHandles, r.browsers, q.browsers, party);
  }

  lemma ColdAcquired(cfg: Settings, r: Runner, id: SessionId, endpoint: string, flags: Flags)
    requires Returned(cfg, r, r) && id !in r.handles && id !in r.warm
    ensures var q := r.(browsers := r.browsers + [Browser(endpoint, flags, ByManager, [])]);
            Holding(cfg, r, q, ColdBrowser(|r.browsers|), id, flags)
  {
    hide CustodyInv;
    hide SameTables;
    AdoptCold(cfg.Pool(), HoldingsOf(r), id, endpoint, flags);
    StillSameTables(r, r, r.(browsers := r.browsers + [Browser(endpoint, flags, ByManager, [])]), ByManager);
  }

  lemma WarmAcquired(cfg: Settings, r: Runner, id: SessionId, hint: Option<WorkstationId>)
    requires Returned(cfg, r, r) && r.pool.Some? && Reserve(r.pool.value, hint).1.Ok?
    ensures var (p, got) := Reserve(r.pool.value, hint);
            var q := r.(pool := Some(p), lent := r.lent + {got.value.workstation});
            Holding(cfg, r, q, WarmBrowser(got.value), id, cfg.requiredFlags)
  {
    hide CustodyInv;
    hide SameTables;
    hide PoolInv;
    hide OnlyActed;
    var f := Fleet(r.pool.value, r.browsers);
    PoolInCustody(cfg.Pool(), HoldingsOf(r));
    ReserveCorrect(cfg.Pool(), f, hint);
    HandleIsKnown(cfg.Pool(), f.pool, f.browsers, Reserve(f.pool, hint).1.value.workstation);
    ReservedForNobody(cfg.Pool(), HoldingsOf(r), hint);
    OperatorCustody(cfg, r, OpReserve(hint));
    NothingActed(r.browsers, ByManager);
    StillSameTables(r, r, Operate(cfg, r, OpReserve(hint)), ByManager);
  }

  /** Whatever is acquired is in custody; a browser was launched with the session's effective flags. */
  lemma AcquiredIsHeld(cfg: Settings, r: Runner, payload: CreatePayload, w: CreateWorld)
    requires Returned(cfg, r, r) && w.id !in r.handles && w.id !in r.warm
    ensures var (r2, got) := AcquireBrowser(cfg, r, payload, w);
            Holding(cfg, r, r2, got, w.id, EffectiveFlags(cfg, payload))
  {
    hide CustodyInv;
    hide SameTables;
    hide EffectiveFlags;
    var (r2, got) := AcquireBrowser(cfg, r, payload, w);
    AcquireCorrect(cfg, r, payload, w);
    match got
    case Refused =>
    case ColdBrowser(handle) => ColdAcquired(cfg, r, w.id, w.cold.value, EffectiveFlags(cfg, payload));
    case WarmBrowser(reservation) => WarmAcquired(cfg, r, w.id, payload.hint);
  }

  /** The operator may do anything but disrupt a session: what is held stays held. */
  lemma HeldMeanwhile(
    cfg: Settings, base: Runner, r: Runner, got: Acquisition, id: SessionId, flags: Flags, actions: seq<OperatorAction>)
    requires Holding(cfg, base, r, got, id, flags) && Undisturbed(r, actions)
    ensures Holding(cfg, base, OperateAll(cfg, r, actions), got, id, flags)
  {
    hide CustodyInv;
    hide SameTables;
    hide OnlyActed;
    var view := r.(handles := Pending(HoldingsOf(r), id, got).handles);
    assert HoldingsOf(view) == Pending(HoldingsOf(r), id, got);
    OperateAllKeepsCustody(cfg, view, actions);
    OperateIgnoresHandles(cfg, r, actions, view.handles);
    OperateAllFrame(cfg, r, actions);
    if r.pool.Some? {
      OperateAllKeepsSlots(cfg, r, actions);
    }
    var q := OperateAll(cfg, r, actions);
    assert HoldingsOf(OperateAll(cfg, view, actions)) == Pending(HoldingsOf(q), id, got);
    StillSameTables(base, r, q, ByPool);
    StillLaunched(r.browsers, q.browsers, ByPool, got, flags);
  }

  /** Giving back: a cold browser is stopped, a slot still Reserved is Idle again, one that is not stays lent. */
  lemma GivenBackIsReturned(cfg: Settings, base: Runner, r: Runner, got: Acquisition, id: SessionId, flags: Flags)
    requires Holding(cfg, base, r, got, id, flags) && id !in r.handles && id !in r.warm
    ensures Returned(cfg, base, GiveBack(r, got))
  {
    hide CustodyInv;
    hide SameTables;
    hide OnlyActed;
    match got
    case Refused =>
    case ColdBrowser(handle) =>
      var kept := Pending(HoldingsOf(r), id, got);
      DropHandle(cfg.Pool(), kept, id);
      assert kept.handles - {id} == r.handles;
      StillSameTables(base, r, GiveBack(r, got), ByManager);
    case WarmBrowser(reservation) =>
      OperatorCustody(cfg, r, OpCancel(reservation.workstation));
      assert Operate(cfg, r, OpCancel(reservation.workstation)) == GiveBack(r, got);
      StillSameTables(base, r, GiveBack(r, got), ByPool);
  }

  /** Marking a held slot busy: refused without effect, or it is held Busy. */
  lemma MarkedIsHeld(cfg: Settings, base: Runner, r: Runner, got: Acquisition, id: SessionId, flags: Flags)
    requires Holding(cfg, base, r, got, id, flags) && !got.Refused?
    ensures var (q, taken) := MarkTaken(r, got);
            && (taken <==> StillReserved(r, got))
            && (!taken ==> q == r)
            && Holding(cfg, base, q, got, id, flags)
  {
    hide CustodyInv;
    hide SameTables;
    hide OnlyActed;
    if got.WarmBrowser? {
      OperatorCustody(cfg, r, OpBusy(got.reservation.workstation));
      assert Operate(cfg, r, OpBusy(got.reservation.workstation)) == MarkTaken(r, got).0;
      StillSameTables(base, r, MarkTaken(r, got).0, ByPool);
    }
  }

  /** What is held may be stored exactly when a warm slot is Busy with the browser that was reserved. */
  lemma AdoptedIff(cfg: Settings, base: Runner, r: Runner, got: Acquisition, id: SessionId, flags: Flags)
    requires Holding(cfg, base, r, got, id, flags) && !got.Refused? && id !in r.handles && id !in r.warm
    ensures CustodyInv(cfg.Pool(), Adopted(HoldingsOf(r), id, got)) <==> SameBrowser(r, got)
  {
    hide CustodyInv;
    hide SameTables;
    if got.WarmBrowser? {
      var w := got.reservation.workstation;
      SessionSlotIsBusy(cfg.Pool(), Adopted(HoldingsOf(r), id, got), id);
      if w in r.pool.value.slots && r.pool.value.slots[w].state == Busy {
        TakeSlot(cfg.Pool(), HoldingsOf(r), id, w);
        var h := HoldingsOf(r).(warm := r.warm[id := w], lent := r.lent - {w});
        AdoptHandleIff(cfg.Pool(), h, id, got.reservation.handle);
        assert Adopted(HoldingsOf(r), id, got) == h.(handles := h.handles[id := got.reservation.handle]);
      }
    }
  }

  // ---------- the whole operation ----------

  /** `r` is `before` except for what a failed create may leave: recycled processes and a fresh expiry. */
  ghost predicate TablesUntouched(before: Runner, r: Runner) {
    r == before.(issued := r.issued, vnc := r.vnc, pool := r.pool, browsers := r.browsers, lent := r.lent,
                 nextExpiry := r.nextExpiry, excluded := r.excluded)
  }

  lemma UntouchedKeepsInv(cfg: Settings, before: Runner, r: Runner)
    requires RunnerInv(cfg, before) && TablesUntouched(before, r)
    requires before.issued <= r.issued
    requires CustodyInv(cfg.Pool(), HoldingsOf(r)) && DisplaysInv(cfg.ranges, r.vnc, r.vncHandles)
    requires LinksInv(r.sessions, r.handles, r.warm, r.vncHandles, r.browsers)
    requires CachesInv(r.active, r.nextExpiry, r.sessions, r.order, r.excluded)
    ensures RunnerInv(cfg, r)
  {
    hide CustodyInv;
    hide DisplaysInv;
    hide LinksInv;
    hide CachesInv;
    hide LogInv;
    hide PolicyInv;
    IssuedOnly(r.sessions, r.order, r.warm, before.issued, r.issued);
  }

  /** A publish that fails: VNC slot returned, cold browser stopped or warm slot recycled, tables as before. */
  lemma UnstoredIsReturned(
    cfg: Settings, base: Runner, r: Runner, got: Acquisition, id: SessionId, flags: Flags,
    slot: Option<VncSlot>, recycle: Answers)
    requires Holding(cfg, base, r, got, id, flags) && !got.Refused?
    requires id !in r.handles && id !in r.warm
    ensures var u := Unstored(cfg, r, got, slot, recycle);
            && TablesUntouched(base, u) && u.issued == base.issued
            && Returned(cfg, u, u)
            && u.vnc == DiscardVnc(base, slot).vnc
            && u.nextExpiry == MinExpiry(u.order, u.sessions, {}) && u.excluded == {}
  {
    hide CustodyInv;
    hide LinksInv;
    hide OnlyActed;
    hide MinExpiry;
    hide Release;
    var u := Unstored(cfg, r, got, slot, recycle);
    match got
    case ColdBrowser(_) =>
      var h := Pending(HoldingsOf(r), id, got);
      DropHandle(cfg.Pool(), h, id);
      assert h.handles - {id} == r.handles;
      LinksKept(r.sessions, r.handles, r.warm, r.vncHandles, r.browsers, u.browsers, ByManager);
    case WarmBrowser(reservation) =>
      OperatorCustody(cfg, r, OpRelease(reservation.workstation, recycle));
      RefusedIsNotLent(cfg, r, reservation.workstation, recycle);
      assert HoldingsOf(u) == HoldingsOf(Operate(cfg, r, OpRelease(reservation.workstation, recycle)));
      LinksKept(r.sessions, r.handles, r.warm, r.vncHandles, r.browsers, u.browsers, ByPool);
  }

  /** After a release, refused or not, the workstation is lent to nobody. */
  lemma RefusedIsNotLent(cfg: Settings, r: Runner, w: WorkstationId, recycle: Answers)
    requires CustodyInv(cfg.Pool(), HoldingsOf(r)) && r.pool.Some? && w in r.pool.value.slots
    ensures Operate(cfg, r, OpRelease(w, recycle)).lent == r.lent - {w}
  {
    hide CustodyInv;
    hide Recycled;
    TakenMeans(cfg.Pool(), HoldingsOf(r), w);
  }

  /** A publish that succeeds: the session is stored with what was acquired, soundly if that includes its browser. */
  lemma StoredIsSoundIff(
    cfg: Settings, base: Runner, r: Runner, got: Acquisition, payload: CreatePayload, w: CreateWorld,
    details: Option<VncDetails>, slot: Option<VncSlot>)
    requires Holding(cfg, base, r, got, w.id, EffectiveFlags(cfg, payload)) && !got.Refused?
    requires SessionsInv(r.sessions, r.order, r.warm, r.issued - {w.id}) && w.id in r.issued
    requires w.id !in r.sessions && w.id !in r.warm && w.id !in r.unpublished
    requires CachesInv(r.active, r.nextExpiry, r.sessions, r.order, r.excluded)
    requires LogInv(r.events, r.sessions, r.unpublished)
    requires PolicyInv(cfg.mode, r.handles, r.warm)
    requires got.ColdBrowser? ==> cfg.mode != WarmOnly
    requires got.WarmBrowser? ==> cfg.mode != ColdOnly
    requires details == Sanitized(details)
    requires DisplaysInv(cfg.ranges, r.vnc, if slot.Some? then r.vncHandles[w.id := slot.value] else r.vncHandles)
    ensures var s := NewSession(cfg, r.browsers, payload, w, details, got);
            var event := Event(Created, s, w.publishedAt, None);
            event.Acceptable() ==>
              (RunnerInv(cfg, Store(r, s, got, slot).(events := r.events + [event]))
               <==> CustodyInv(cfg.Pool(), Adopted(HoldingsOf(r), w.id, got)))
  {
    hide CustodyInv;
    hide DisplaysInv;
    hide LinksInv;
    hide SessionsInv;
    hide LogInv;
    hide OnlyActed;
    var s := NewSession(cfg, r.browsers, payload, w, details, got);
    var event := Event(Created, s, w.publishedAt, None);
    if event.Acceptable() {
      var q := Store(r, s, got, slot).(events := r.events + [event]);
      SessionsStored(r.sessions, r.order, r.warm, r.issued - {w.id}, s);
      assert r.issued - {w.id} + {w.id} == r.issued;
      NothingActed(r.browsers, ByManager);
      LinksStored(r.sessions, r.handles, r.warm, r.vncHandles, r.browsers, r.browsers, ByManager, s, Handle(got), slot);
      ActiveStored(r.sessions, s);
      LogAppended(r.events, r.sessions, r.unpublished, event);
      assert r.unpublished - {w.id} == r.unpublished;
      assert HoldingsOf(q) == Adopted(HoldingsOf(r), w.id, got);
    }
  }

  /** An identifier that was never issued occurs in no table. */
  lemma FreshIdentifier(cfg: Settings, r: Runner, id: SessionId)
    requires RunnerInv(cfg, r) && id !in r.issued
    ensures id !in r.sessions && id !in r.handles && id !in r.warm && id !in r.vncHandles && id !in r.unpublished
  {
    hide CustodyInv;
    hide DisplaysInv;
    hide CachesInv;
  }

  lemma IssuedOnly(
    sessions: map<SessionId, Session>, order: seq<SessionId>, warm: map<SessionId, WorkstationId>,
    issued: set<SessionId>, more: set<SessionId>)
    requires SessionsInv(sessions, order, warm, issued) && issued <= more
    ensures SessionsInv(sessions, order, warm, more)
  {
  }

  lemma ResourcesInCustody(cfg: Settings, r: Runner)
    requires RunnerInv(cfg, r)
    ensures CustodyInv(cfg.Pool(), HoldingsOf(r)) && DisplaysInv(cfg.ranges, r.vnc, r.vncHandles)
  {
    hide CustodyInv;
    hide DisplaysInv;
  }

  lemma ReadyToReturn(cfg: Settings, r: Runner, r1: Runner)
    requires RunnerInv(cfg, r) && r1 == r.(issued := r1.issued, vnc := r1.vnc)
    ensures Returned(cfg, r1, r1)
  {
    hide CustodyInv;
    hide DisplaysInv;
    hide LinksInv;
  }

  /** A failed create: the invariant holds, every table and the log are as before. */
  ghost predicate Clean(cfg: Settings, before: Runner, after: Runner, stage: Stage) {
    && RunnerInv(cfg, after)
    && TablesUntouched(before, after)
    && after.nextExpiry == if stage == PublishFailed then MinExpiry(after.order, after.sessions, {})
                              else before.nextExpiry
  }

  lemma EarlyFailureIsClean(cfg: Settings, before: Runner, r1: Runner, r: Runner, slot: Option<VncSlot>, stage: Stage)
    requires RunnerInv(cfg, before) && before.issued <= r1.issued
    requires r1 == before.(issued := r1.issued, vnc := r1.vnc) && Returned(cfg, r1, r)
    requires DisplaysInv(cfg.ranges, DiscardVnc(r1, slot).vnc, before.vncHandles)
    requires stage != PublishFailed
    ensures Clean(cfg, before, DiscardVnc(r, slot), stage)
    ensures DiscardVnc(r, slot).unpublished == before.unpublished
  {
    hide CustodyInv;
    hide DisplaysInv;
    hide CachesInv;
    hide LinksInv;
    hide LogInv;
    hide PolicyInv;
    hide SessionsInv;
    UntouchedKeepsInv(cfg, before, DiscardVnc(r, slot));
  }

  lemma LateFailureIsClean(
    cfg: Settings, before: Runner, r1: Runner, r: Runner, got: Acquisition, id: SessionId, flags: Flags,
    slot: Option<VncSlot>, recycle: Answers)
    requires RunnerInv(cfg, before) && before.issued <= r1.issued && id !in before.handles && id !in before.warm
    requires r1 == before.(issued := r1.issued, vnc := r1.vnc)
    requires Holding(cfg, r1, r, got, id, flags) && !got.Refused?
    requires DisplaysInv(cfg.ranges, DiscardVnc(r1, slot).vnc, before.vncHandles)
    ensures Clean(cfg, before, Unstored(cfg, r, got, slot, recycle), PublishFailed)
    ensures Unstored(cfg, r, got, slot, recycle).unpublished == before.unpublished
  {
    hide CustodyInv;
    hide DisplaysInv;
    hide LinksInv;
    hide LogInv;
    hide PolicyInv;
    hide SessionsInv;
    hide MinExpiry;
    hide Unstored;
    UnstoredIsReturned(cfg, r1, r, got, id, flags, slot, recycle);
    UntouchedKeepsInv(cfg, before, Unstored(cfg, r, got, slot, recycle));
  }

  lemma SuccessIsSoundIff(
    cfg: Settings, before: Runner, r1: Runner, r: Runner, got: Acquisition, payload: CreatePayload, w: CreateWorld,
    details: Option<VncDetails>, slot: Option<VncSlot>)
    requires RunnerInv(cfg, before) && w.id !in before.issued
    requires r1 == before.(issued := before.issued + {w.id}, vnc := r1.vnc)
    requires Holding(cfg, r1, r, got, w.id, EffectiveFlags(cfg, payload)) && !got.Refused?
    requires DisplaysInv(
               cfg.ranges, r1.vnc, if slot.Some? then before.vncHandles[w.id := slot.value] else before.vncHandles)
    requires got.ColdBrowser? ==> cfg.mode != WarmOnly
    requires got.WarmBrowser? ==> cfg.mode != ColdOnly
    requires details == Sanitized(details)
    ensures var s := NewSession(cfg, r.browsers, payload, w, details, got);
            var event := Event(Created, s, w.publishedAt, None);
            event.Acceptable() ==>
              (RunnerInv(cfg, Store(r, s, got, slot).(events := r.events + [event]))
               <==> CustodyInv(cfg.Pool(), Adopted(HoldingsOf(r), w.id, got)))
  {
    hide CustodyInv;
    hide DisplaysInv;
    hide LinksInv;
    hide LogInv;
    hide SessionsInv;
    hide PolicyInv;
    hide CachesInv;
    hide NewSession;
    hide Store;
    hide EffectiveFlags;
    FreshIdentifier(cfg, before, w.id);
    assert r1.issued - {w.id} == before.issued;
    StoredIsSoundIff(cfg, r1, r, got, payload, w, details, slot);
  }

  /** What a create holds when it comes to mark its slot busy, whatever the operator did meanwhile. */
  lemma WaitingIsHeld(cfg: Settings, r: Runner, payload: CreatePayload, w: CreateWorld)
    requires RunnerInv(cfg, r) && w.id !in r.issued && Undisturbed(r, w.between)
    ensures var r1 := ResolveVnc(cfg, r.(issued := r.issued + {w.id}), payload, w).0;
            var (waiting, got) := Waiting(cfg, r, payload, w);
            && r1 == r.(issued := r.issued + {w.id}, vnc := r1.vnc)
            && Returned(cfg, r1, r1)
            && Holding(cfg, r1, waiting, got, w.id, EffectiveFlags(cfg, payload))
            && w.id !in waiting.handles && w.id !in waiting.warm
  {
    hide RunnerInv;
    hide CustodyInv;
    hide DisplaysInv;
    hide LinksInv;
    hide ResolveVnc;
    hide AcquireBrowser;
    hide EffectiveFlags;
    ResourcesInCustody(cfg, r);
    FreshIdentifier(cfg, r, w.id);
    var r0 := r.(issued := r.issued + {w.id});
    ResolveVncCorrect(cfg, r0, payload, w);
    var r1 := ResolveVnc(cfg, r0, payload, w).0;
    ReadyToReturn(cfg, r, r1);
    AcquiredIsHeld(cfg, r1, payload, w);
    var (r2, got) := AcquireBrowser(cfg, r1, payload, w);
    HeldMeanwhile(cfg, r1, r2, got, w.id, EffectiveFlags(cfg, payload), w.between);
  }

  /** What it holds when it comes to store its session. */
  lemma StoringIsHeld(cfg: Settings, r: Runner, payload: CreatePayload, w: CreateWorld)
    requires RunnerInv(cfg, r) && w.id !in r.issued && Undisturbed(r, w.between) && Undisturbed(r, w.afterwards)
    requires !Waiting(cfg, r, payload, w).1.Refused?
    ensures var r1 := ResolveVnc(cfg, r.(issued := r.issued + {w.id}), payload, w).0;
            var (storing, got) := Storing(cfg, r, payload, w);
            && Holding(cfg, r1, storing, got, w.id, EffectiveFlags(cfg, payload))
            && w.id !in storing.handles && w.id !in storing.warm
  {
    hide RunnerInv;
    hide CustodyInv;
    hide LinksInv;
    hide ResolveVnc;
    hide Waiting;
    hide MarkTaken;
    hide EffectiveFlags;
    WaitingIsHeld(cfg, r, payload, w);
    var r1 := ResolveVnc(cfg, r.(issued := r.issued + {w.id}), payload, w).0;
    var (waiting, got) := Waiting(cfg, r, payload, w);
    MarkedIsHeld(cfg, r1, waiting, got, w.id, EffectiveFlags(cfg, payload));
    HeldMeanwhile(cfg, r1, MarkTaken(waiting, got).0, got, w.id, EffectiveFlags(cfg, payload), w.afterwards);
  }

  /**
   Create is all or nothing, whatever the operator asks of the pool meanwhile. It succeeds exactly
   when all its stages do. One that fails keeps the runner's invariant and leaves every table, the
   counter and the event log as they were. One that succeeds keeps the invariant exactly when the
   slot it stores is Busy with the browser it reserved.
   */
  lemma CreateIsAllOrNothing(cfg: Settings, r: Runner, payload: CreatePayload, w: CreateWorld)
    requires RunnerInv(cfg, r) && w.id !in r.issued && Uninterrupted(cfg, r, payload, w)
    ensures var (after, result) := Create(cfg, r, payload, w);
            var (storing, got) := Storing(cfg, r, payload, w);
            var stage := Reached(cfg, r, payload, w);
            && (result.Ok? <==> stage == Completed)
            && (result.Err? ==> Clean(cfg, r, after, stage))
            && (result.Ok? ==> (RunnerInv(cfg, after) <==> SameBrowser(storing, got)))
            && after.unpublished == r.unpublished
  {
    hide RunnerInv;
    hide CustodyInv;
    hide DisplaysInv;
    hide SameTables;
    hide ResolveVnc;
    hide AcquireBrowser;
    hide OperateAll;
    hide GiveBack;
    hide MarkTaken;
    hide Unstored;
    hide NewSession;
    hide EffectiveFlags;
    hide SameBrowser;
    hide StillReserved;
    hide Clean;
    var r0 := r.(issued := r.issued + {w.id});
    var (r1, grant) := ResolveVnc(cfg, r0, payload, w);
    ResourcesInCustody(cfg, r);
    FreshIdentifier(cfg, r, w.id);
    ResolveVncCorrect(cfg, r0, payload, w);
    ReadyToReturn(cfg, r, r1);
    AcquireCorrect(cfg, r1, payload, w);
    var got := AcquireBrowser(cfg, r1, payload, w).1;
    var waiting := Waiting(cfg, r, payload, w).0;
    if grant.VncRefused? {
      EarlyFailureIsClean(cfg, r, r1, r1, None, VncFailed);
    } else if got.Refused? {
      EarlyFailureIsClean(cfg, r, r1, r1, grant.slot, BrowserFailed);
    } else {
      WaitingIsHeld(cfg, r, payload, w);
      MarkedIsHeld(cfg, r1, waiting, got, w.id, EffectiveFlags(cfg, payload));
      if !w.valid || !StillReserved(waiting, got) {
        GivenBackIsReturned(cfg, r1, waiting, got, w.id, EffectiveFlags(cfg, payload));
        EarlyFailureIsClean(cfg, r, r1, GiveBack(waiting, got), grant.slot, Reached(cfg, r, payload, w));
      } else {
        StoringIsHeld(cfg, r, payload, w);
        MarkedCreate(cfg, r, r1, Storing(cfg, r, payload, w).0, got, payload, w, grant.details, grant.slot);
      }
    }
  }

  /** The last part of a create: store and publish, or roll back. */
  lemma MarkedCreate(
    cfg: Settings, before: Runner, r1: Runner, r: Runner, got: Acquisition, payload: CreatePayload, w: CreateWorld,
    details: Option<VncDetails>, slot: Option<VncSlot>)
    requires RunnerInv(cfg, before) && w.id !in before.issued
    requires r1 == before.(issued := before.issued + {w.id}, vnc := r1.vnc)
    requires Holding(cfg, r1, r, got, w.id, EffectiveFlags(cfg, payload)) && !got.Refused?
    requires DisplaysInv(cfg.ranges, DiscardVnc(r1, slot).vnc, before.vncHandles)
    requires DisplaysInv(
               cfg.ranges, r1.vnc, if slot.Some? then before.vncHandles[w.id := slot.value] else before.vncHandles)
    requires got.ColdBrowser? ==> cfg.mode != WarmOnly
    requires got.WarmBrowser? ==> cfg.mode != ColdOnly
    requires details == Sanitized(details)
    ensures var s := NewSession(cfg, r.browsers, payload, w, details, got);
            var event := Event(Created, s, w.publishedAt, None);
            var stored := Store(r, s, got, slot).(events := r.events + [event]);
            && (event.Acceptable() <==> payload.status in {Init, Ready})
            && Clean(cfg, before, Unstored(cfg, r, got, slot, w.recycle), PublishFailed)
            && (event.Acceptable() ==>
                  (RunnerInv(cfg, stored) <==> SameBrowser(r, got)))
            && stored.unpublished == before.unpublished
            && Unstored(cfg, r, got, slot, w.recycle).unpublished == before.unpublished
  {
    hide RunnerInv;
    hide CustodyInv;
    hide DisplaysInv;
    hide LinksInv;
    hide EffectiveFlags;
    hide Clean;
    hide Unstored;
    hide MinExpiry;
    FreshIdentifier(cfg, before, w.id);
    LateFailureIsClean(cfg, before, r1, r, got, w.id, EffectiveFlags(cfg, payload), slot, w.recycle);
    AdoptedIff(cfg, r1, r, got, w.id, EffectiveFlags(cfg, payload));
    SuccessIsSoundIff(cfg, before, r1, r, got, payload, w, details, slot);
  }

  /** What a stored session holds: its own running browser, launched with its flags at its endpoint. */
  ghost predicate Equipped(before: Runner, after: Runner, s: Session) {
    && s.id in after.handles && after.handles == before.handles[s.id := after.handles[s.id]]
    && var b := after.handles[s.id];
       && Running(after.browsers, b)
       && after.browsers[b].flags == s.flags && s.wsEndpoint == Some(after.browsers[b].endpoint)
       && b !in before.handles.Values
  }

  /** Each stored handle is of a running browser, and of no other session. */
  lemma HandleRuns(cfg: Settings, r: Runner, id: SessionId)
    requires CustodyInv(cfg.Pool(), HoldingsOf(r)) && id in r.handles
    ensures Running(r.browsers, r.handles[id])
    ensures forall other | other in r.handles && other != id :: r.handles[other] != r.handles[id]
  {
    forall k | k in r.handles && k !in r.warm
      ensures r.handles[k] < |r.browsers| && r.browsers[r.handles[k]].owner == ByManager
      ensures r.browsers[r.handles[k]].shutBy == []
    {
      assert r.handles[k] in ColdHeld(r.handles, r.warm);
    }
    forall k | k in r.handles && k in r.warm
      ensures r.handles[k] < |r.browsers| && r.browsers[r.handles[k]].owner == ByPool
      ensures r.browsers[r.handles[k]].shutBy == []
    {
      WarmHandleRuns(cfg.Pool(), HoldingsOf(r), k);
    }
    hide PoolInv;
    hide ColdHeld;
    if r.pool.Some? {
      assert Unshared(r.pool.value) by { PoolIsUnshared(cfg.Pool(), HoldingsOf(r)); }
    }
  }

  lemma PoolIsUnshared(cfg: PoolConfig, h: Holdings)
    requires CustodyInv(cfg, h) && h.pool.Some?
    ensures Unshared(h.pool.value)
  {
    hide BrowsersConserved;
    hide DirsConserved;
    hide ColdSide;
    hide WarmSide;
    hide SlotsInv;
  }

  lemma WarmHandleRuns(cfg: PoolConfig, h: Holdings, id: SessionId)
    requires CustodyInv(cfg, h) && id in h.handles && id in h.warm
    ensures h.handles[id] < |h.browsers| && h.browsers[h.handles[id]].owner == ByPool
    ensures h.browsers[h.handles[id]].shutBy == []
  {
    hide ColdSide;
    hide SlotsInv;
    assert h.handles[id] in Held(h.pool.value);
  }

  /** The slot of a reservation was Idle and nobody's. */
  lemma ReservedForNobody(cfg: PoolConfig, h: Holdings, hint: Option<WorkstationId>)
    requires CustodyInv(cfg, h) && h.pool.Some?
    ensures var got := Reserve(h.pool.value, hint).1;
            got.Ok? ==>
              var w := got.value.workstation;
              && w in h.pool.value.slots && h.pool.value.slots[w].state == Idle
              && w !in h.warm.Values && w !in h.lent
  {
    hide ColdSide;
    hide WarmSide;
    hide PoolInv;
    assert PoolInv(cfg, Fleet(h.pool.value, h.browsers)) && SlotsInv(h.pool.value, h.warm, h.lent);
    ReserveCorrect(cfg, Fleet(h.pool.value, h.browsers), hint);
  }

  /** A permitted create that succeeds leaves a sound runner. */
  lemma CreateIsSound(cfg: Settings, r: Runner, payload: CreatePayload, w: CreateWorld)
    requires RunnerInv(cfg, r) && Permitted(cfg, r, DoCreate(payload, w)) && Create(cfg, r, payload, w).1.Ok?
    ensures RunnerInv(cfg, Create(cfg, r, payload, w).0) && Reached(cfg, r, payload, w) == Completed
  {
    hide RunnerInv;
    hide Create;
    hide Reached;
    hide SameBrowser;
    CreateIsAllOrNothing(cfg, r, payload, w);
  }

  /** The tables before a create comes to store its session, and what it acquired. */
  lemma StoringFrame(cfg: Settings, r: Runner, payload: CreatePayload, w: CreateWorld)
    ensures var (storing, got) := Storing(cfg, r, payload, w);
            && storing.sessions == r.sessions && storing.order == r.order && storing.events == r.events
            && storing.handles == r.handles && storing.warm == r.warm
            && (got.WarmBrowser? <==> WarmWillDo(cfg, r, payload))
            && (got.WarmBrowser? ==> Reserve(r.pool.value, payload.hint).1 == Ok(got.reservation))
            && (!got.WarmBrowser? && w.between == [] && w.afterwards == [] ==> storing.pool == r.pool)
  {
    hide ResolveVnc;
    hide AcquireBrowser;
    hide Operate;
    hide Reserve;
    hide EffectiveFlags;
    hide MarkBusy;
    var r0 := r.(issued := r.issued + {w.id});
    ResolveFrame(cfg, r0, payload, w);
    var r1 := ResolveVnc(cfg, r0, payload, w).0;
    AcquireCorrect(cfg, r1, payload, w);
    var (r2, got) := AcquireBrowser(cfg, r1, payload, w);
    OperateAllFrame(cfg, r2, w.between);
    OperateAllFrame(cfg, MarkTaken(Waiting(cfg, r, payload, w).0, got).0, w.afterwards);
  }

  lemma ResolveFrame(cfg: Settings, r: Runner, payload: CreatePayload, w: CreateWorld)
    ensures var q := ResolveVnc(cfg, r, payload, w).0; q == r.(vnc := q.vnc)
  {
    hide Allocated;
  }

  /** A create that succeeds returns the session as asked and stores it, from the state it had come to. */
  lemma SuccessStores(cfg: Settings, r: Runner, payload: CreatePayload, w: CreateWorld)
    requires Create(cfg, r, payload, w).1.Ok?
    ensures var (q, result) := Create(cfg, r, payload, w); var s := result.value;
            var (storing, got) := Storing(cfg, r, payload, w);
            && !got.Refused?
            && q == Store(storing, s, got, ResolveVnc(cfg, r.(issued := r.issued + {w.id}), payload, w).1.slot)
                      .(events := storing.events + [Event(Created, s, w.publishedAt, None)])
            && Asked(cfg, s, payload, w)
            && s.workstation == if got.WarmBrowser? then Some(got.reservation.workstation) else None
  {
    hide ResolveVnc;
    hide AcquireBrowser;
    hide OperateAll;
    hide MarkTaken;
    hide GiveBack;
    hide Store;
    hide Unstored;
    hide EffectiveFlags;
    hide Asked;
    var (storing, got) := Storing(cfg, r, payload, w);
    if !got.Refused? {
      SessionAsAsked(
        cfg, storing.browsers, payload, w,
        ResolveVnc(cfg, r.(issued := r.issued + {w.id}), payload, w).1.details, got);
    }
  }

  /** A create that succeeds adds exactly the session it returns, and says so once. */
  lemma CreateAppends(cfg: Settings, r: Runner, payload: CreatePayload, w: CreateWorld)
    requires Create(cfg, r, payload, w).1.Ok?
    ensures var (q, result) := Create(cfg, r, payload, w); var s := result.value;
            && q.sessions == r.sessions[w.id := s] && q.order == r.order + [w.id]
            && q.events == r.events + [Event(Created, s, w.publishedAt, None)]
            && Asked(cfg, s, payload, w)
            && w.id in q.handles && q.handles == r.handles[w.id := q.handles[w.id]]
            && q.warm == (if s.workstation.Some? then r.warm[w.id := s.workstation.value] else r.warm)
            && (s.workstation.Some? <==> WarmWillDo(cfg, r, payload))
            && (s.workstation.None? && w.between == [] && w.afterwards == [] ==> q.pool == r.pool)
  {
    hide Create;
    hide Storing;
    hide ResolveVnc;
    hide Reserve;
    hide EffectiveFlags;
    hide MinExpiry;
    StoringFrame(cfg, r, payload, w);
    SuccessStores(cfg, r, payload, w);
  }

  /** The session a permitted create stores has its own running browser, with its flags and endpoint. */
  lemma CreateEquips(cfg: Settings, r: Runner, payload: CreatePayload, w: CreateWorld)
    requires RunnerInv(cfg, r) && Permitted(cfg, r, DoCreate(payload, w)) && Create(cfg, r, payload, w).1.Ok?
    ensures var (q, result) := Create(cfg, r, payload, w); Equipped(r, q, result.value)
  {
    hide RunnerInv;
    hide CustodyInv;
    hide Create;
    hide Uninterrupted;
    hide Reached;
    hide WarmWillDo;
    CreateIsSound(cfg, r, payload, w);
    CreateAppends(cfg, r, payload, w);
    FreshIdentifier(cfg, r, w.id);
    var q := Create(cfg, r, payload, w).0;
    StoredLinks(cfg, q, w.id);
    ResourcesInCustody(cfg, q);
    HandleRuns(cfg, q, w.id);
    forall other | other in r.handles ensures r.handles[other] != q.handles[w.id] {
      assert other in q.handles && other != w.id;
    }
  }

  /** A create that succeeds adds exactly the session it returns, says so once, and equips it as asked. */
  lemma CreateStores(cfg: Settings, r: Runner, payload: CreatePayload, w: CreateWorld)
    requires RunnerInv(cfg, r) && Permitted(cfg, r, DoCreate(payload, w)) && Create(cfg, r, payload, w).1.Ok?
    ensures var (q, result) := Create(cfg, r, payload, w); var s := result.value;
            && q.sessions == r.sessions[w.id := s] && q.order == r.order + [w.id]
            && q.events == r.events + [Event(Created, s, w.publishedAt, None)]
            && Asked(cfg, s, payload, w)
            && Equipped(r, q, s)
            && (s.workstation.Some? <==> WarmWillDo(cfg, r, payload))
            && (s.workstation.Some? ==>
                  && q.warm == r.warm[w.id := s.workstation.value]
                  && s.workstation.value !in r.warm.Values
                  && r.pool.Some? && s.workstation.value in r.pool.value.slots
                  && r.pool.value.slots[s.workstation.value].state == Idle)
            && (s.workstation.None? ==> q.warm == r.warm)
            && (s.workstation.None? && w.between == [] && w.afterwards == [] ==> q.pool == r.pool)
  {
    hide RunnerInv;
    hide CustodyInv;
    hide Create;
    hide Permitted;
    hide Equipped;
    hide Storing;
    hide Reserve;
    hide Store;
    hide ResolveVnc;
    hide EffectiveFlags;
    CreateAppends(cfg, r, payload, w);
    CreateEquips(cfg, r, payload, w);
    StoringFrame(cfg, r, payload, w);
    SuccessStores(cfg, r, payload, w);
    ResourcesInCustody(cfg, r);
    if r.pool.Some? {
      ReservedForNobody(cfg.Pool(), HoldingsOf(r), payload.hint);
    }
  }

  lemma StoredLinks(cfg: Settings, r: Runner, id: SessionId)
    requires RunnerInv(cfg, r) && id in r.handles
    ensures id in r.sessions && r.handles[id] < |r.browsers|
    ensures r.sessions[id].wsEndpoint == Some(r.browsers[r.handles[id]].endpoint)
    ensures r.sessions[id].flags == r.browsers[r.handles[id]].flags
  {
    hide CustodyInv;
    hide DisplaysInv;
    assert id in LiveIds(r.sessions);
  }

  /** The session is the one the request describes. */
  predicate Asked(cfg: Settings, s: Session, payload: CreatePayload, w: CreateWorld) {
    && s.id == w.id && s.status == payload.status && s.createdAt == w.now && s.lastSeenAt == w.now && s.endedAt.None?
    && s.headless == payload.headless && s.idleTtl == payload.idleTtl
    && s.labels == payload.labels && s.metadata == payload.metadata
    && s.flags == cfg.requiredFlags + Normalised(payload.flags)
    && (s.vncEnabled == Some(true) <==> s.vnc.Some? && !s.headless && payload.vncEnabled != Some(false))
  }

  lemma SessionAsAsked(
    cfg: Settings, bs: Browsers, payload: CreatePayload, w: CreateWorld, details: Option<VncDetails>, got: Acquisition)
    requires !got.Refused?
    ensures Asked(cfg, NewSession(cfg, bs, payload, w, details, got), payload, w)
  {
  }
}
