/**
 The runner as a value: the session tables, the browsers and VNC slots behind them, the cached
 aggregates and the event log, and what each operation of the session manager does to them.
 `SessionManager` (its own file) carries the operations out step by step, with rollback.
 */
module Runners {
  import opened Domain
  import opened BrowserFlags
  import opened VncPools
  import opened WarmPools

  datatype Mode = WarmOnly | ColdOnly | Hybrid

  datatype Settings = Settings(
    mode: Mode, vncEnabled: bool, requiredFlags: Flags, maxRetries: int, ranges: Ranges)
  {
    function Pool(): PoolConfig {
      PoolConfig(requiredFlags, maxRetries)
    }
  }

  /**
   The last four fields record history: identifiers ever used for a create, sessions whose
   latest change was not published, the sessions a reaper scan left out of `nextExpiry`, and
   workstations that are taken but for no stored session: reserved by a create that is under
   way, or taken through the operator's interface.
   */
  datatype Runner = Runner(
    sessions: map<SessionId, Session>,
    order: seq<SessionId>,
    handles: map<SessionId, BrowserId>,
    warm: map<SessionId, WorkstationId>,
    vncHandles: map<SessionId, VncSlot>,
    active: int,
    nextExpiry: Option<Instant>,
    pool: Option<WarmPool>,
    vnc: Option<VncPool>,
    browsers: Browsers,
    events: seq<Event>,
    issued: set<SessionId>,
    unpublished: set<SessionId>,
    excluded: set<SessionId>,
    lent: set<WorkstationId>)

  datatype CreatePayload = CreatePayload(
    status: Status, headless: bool, idleTtl: int, labels: map<string, string>, metadata: map<string, string>,
    flags: seq<RawFlag>, hint: Option<WorkstationId>, vnc: Option<VncDetails>, vncEnabled: Option<bool>)

  /**
   What the surroundings do during one create: identifier, clock, helpers, launcher, validator,
   publisher, and what the operator asks of the pool: `between` acquiring the browser and marking
   its slot busy, and `afterwards`, before the session is stored. The operator's requests do not
   wait for the session manager's lock.
   */
  datatype CreateWorld = CreateWorld(
    id: SessionId, now: Instant, publishedAt: Instant, startup: Startup, vncUrl: string,
    cold: Option<string>, between: seq<OperatorAction>, valid: bool, afterwards: seq<OperatorAction>,
    recycle: Answers, delivered: bool)

  datatype Field<T> = Unset | Set(value: T)

  datatype Update = Update(
    status: Field<Status>, lastSeenAt: Field<Instant>, endedAt: Field<Option<Instant>>, headless: Field<bool>,
    idleTtl: Field<int>, labels: Option<map<string, string>>, metadata: Option<map<string, string>>,
    wsEndpoint: Field<Option<string>>, vnc: Field<Option<VncDetails>>, vncEnabled: Field<Option<bool>>,
    reason: Option<string>)

  datatype UpdateWorld = UpdateWorld(
    seenAt: Instant, endedAt: Instant, publishedAt: Instant, recycle: Answers, delivered: bool)

  datatype Failure = NoVnc | NoCapacity | Invalid | NotFound | RecycleFailed | NotDelivered

  // ---------- cached aggregates ----------

  function LiveIds(sessions: map<SessionId, Session>): set<SessionId> {
    set id | id in sessions && sessions[id].Live()
  }

  function Earlier(a: Option<Instant>, b: Instant): Option<Instant> {
    if a.None? || b < a.value then Some(b) else a
  }

  /** The earliest deadline among the live sessions of `order` that are not in `skip`. */
  function MinExpiry(order: seq<SessionId>, sessions: map<SessionId, Session>, skip: set<SessionId>): Option<Instant> {
    if order == [] then None
    else
      var id := order[|order| - 1];
      var before := MinExpiry(order[..|order| - 1], sessions, skip);
      if id in sessions && sessions[id].Live() && id !in skip then Earlier(before, sessions[id].Deadline()) else before
  }

  function Recount(active: int, before: Session, after: Session): int {
    if before.Live() && !after.Live() then (if active - 1 < 0 then 0 else active - 1)
    else if !before.Live() && after.Live() then active + 1
    else active
  }

  // ---------- create ----------

  function Sanitized(details: Option<VncDetails>): Option<VncDetails> {
    if details.Some? then Some(details.value.(token := None, tokenTtl := None)) else None
  }

  datatype VncGrant = VncRefused | VncGranted(details: Option<VncDetails>, slot: Option<VncSlot>)

  function ResolveVnc(cfg: Settings, r: Runner, payload: CreatePayload, w: CreateWorld): (Runner, VncGrant) {
    if payload.headless || !cfg.vncEnabled then (r, VncGranted(None, None))
    else if payload.vnc.Some? then (r, VncGranted(Sanitized(payload.vnc), None))
    else if r.vnc.None? then (r, VncGranted(None, None))
    else
      var (p, slot) := Allocated(r.vnc.value, w.startup);
      (r.(vnc := Some(p)),
       if slot.Some? then VncGranted(Some(VncDetails(w.vncUrl, None, None)), slot) else VncRefused)
  }

  function DiscardVnc(r: Runner, slot: Option<VncSlot>): Runner {
    if slot.Some? && r.vnc.Some? then r.(vnc := Some(Released(r.vnc.value, slot.value))) else r
  }

  datatype Acquisition = Refused | ColdBrowser(handle: BrowserId) | WarmBrowser(reservation: Reservation)

  function EffectiveFlags(cfg: Settings, payload: CreatePayload): Flags {
    Merged(cfg.requiredFlags, Normalised(payload.flags))
  }

  function LaunchCold(cfg: Settings, r: Runner, payload: CreatePayload, w: CreateWorld): (Runner, Acquisition) {
    match w.cold
    case None => (r, Refused)
    case Some(endpoint) =>
      (r.(browsers := r.browsers + [Browser(endpoint, EffectiveFlags(cfg, payload), ByManager, [])]),
       ColdBrowser(|r.browsers|))
  }

  function AcquireBrowser(cfg: Settings, r: Runner, payload: CreatePayload, w: CreateWorld): (Runner, Acquisition) {
    if cfg.mode == ColdOnly || RequiresAdditional(Normalised(payload.flags), cfg.requiredFlags) then
      if cfg.mode == WarmOnly then (r, Refused) else LaunchCold(cfg, r, payload, w)
    else if r.pool.None? then
      if cfg.mode == WarmOnly then (r, Refused) else LaunchCold(cfg, r, payload, w)
    else
      var (p, got) := Reserve(r.pool.value, payload.hint);
      match got
      case Ok(reservation) =>
        (r.(pool := Some(p), lent := r.lent + {reservation.workstation}), WarmBrowser(reservation))
      case Err(_) => if cfg.mode == WarmOnly then (r, Refused) else LaunchCold(cfg, r, payload, w)
  }

  /** Undo an acquisition that was not stored: cancel the reservation or stop the cold browser. */
  function GiveBack(r: Runner, got: Acquisition): Runner {
    match got
    case Refused => r
    case ColdBrowser(handle) => r.(browsers := Shut(r.browsers, handle, ByManager))
    case WarmBrowser(reservation) =>
      if r.pool.Some? then
        var (p, error) := Cancel(r.pool.value, reservation.workstation);
        r.(pool := Some(p), lent := if error.None? then r.lent - {reservation.workstation} else r.lent)
      else
        r
  }

  function Handle(got: Acquisition): BrowserId
    requires !got.Refused?
  {
    if got.ColdBrowser? then got.handle else got.reservation.handle
  }

  function EndpointOf(bs: Browsers, id: BrowserId): string {
    if id < |bs| then bs[id].endpoint else ""
  }

  function NewSession(
    cfg: Settings, bs: Browsers, payload: CreatePayload, w: CreateWorld, details: Option<VncDetails>,
    got: Acquisition): Session
    requires !got.Refused?
  {
    var visible := if payload.vncEnabled.None? then true else payload.vncEnabled.value;
    Session(
      w.id, payload.status, w.now, w.now, None, payload.headless, payload.idleTtl, payload.labels, payload.metadata,
      EffectiveFlags(cfg, payload), Some(EndpointOf(bs, Handle(got))), details,
      Some(visible && details.Some? && !payload.headless),
      if got.WarmBrowser? then Some(got.reservation.workstation) else None)
  }

  function Store(r: Runner, s: Session, got: Acquisition, slot: Option<VncSlot>): Runner
    requires !got.Refused?
  {
    var sessions := r.sessions[s.id := s];
    r.(sessions := sessions,
       order := r.order + [s.id],
       handles := r.handles[s.id := Handle(got)],
       warm := if got.WarmBrowser? then r.warm[s.id := got.reservation.workstation] else r.warm,
       lent := if got.WarmBrowser? then r.lent - {got.reservation.workstation} else r.lent,
       vncHandles := if slot.Some? then r.vncHandles[s.id := slot.value] else r.vncHandles,
       active := if s.Live() then r.active + 1 else r.active,
       nextExpiry := MinExpiry(r.order + [s.id], sessions, {}),
       excluded := {})
  }

  /**
   A create whose CREATED event is not published leaves the tables as they were before it;
   only the expiry cache is recomputed, the VNC slot returned, and the browser stopped or recycled.
   */
  function Unstored(cfg: Settings, r: Runner, got: Acquisition, slot: Option<VncSlot>, recycle: Answers): Runner {
    var clean := DiscardVnc(r, slot).(nextExpiry := MinExpiry(r.order, r.sessions, {}), excluded := {});
    if got.WarmBrowser? && r.pool.Some? then
      var f := Release(cfg.Pool(), Fleet(r.pool.value, r.browsers), got.reservation.workstation, recycle).0;
      clean.(pool := Some(f.pool), browsers := f.browsers, lent := r.lent - {got.reservation.workstation})
    else
      GiveBack(clean, got)
  }

  /** A stored session taken out of the tables again, before what it holds is released. */
  function Unlinked(r: Runner, s: Session): Runner {
    r.(sessions := r.sessions - {s.id},
       order := if r.order == [] then [] else r.order[..|r.order| - 1],
       handles := r.handles - {s.id},
       active := if !s.Live() then r.active else if r.active - 1 < 0 then 0 else r.active - 1)
  }

  /** The rollback as the code performs it; `RollbackUndoesStore` shows that it amounts to `Unstored`. */
  function RolledBack(
    cfg: Settings, r: Runner, s: Session, got: Acquisition, slot: Option<VncSlot>, recycle: Answers): Runner
    requires s.id in r.handles
  {
    var r1 := Unlinked(r, s);
    var r2 := if s.id in r1.vncHandles then ReleaseVnc(r1, s.id) else DiscardVnc(r1, slot);
    var r3 := if s.id in r2.warm then ReleaseWarm(cfg, r2, s.id, recycle).0
              else r2.(browsers := Shut(r2.browsers, r.handles[s.id], ByManager));
    r3.(nextExpiry := MinExpiry(r3.order, r3.sessions, {}), excluded := {})
  }

  lemma RollbackUndoesStore(
    cfg: Settings, r: Runner, s: Session, got: Acquisition, slot: Option<VncSlot>, recycle: Answers)
    requires !got.Refused?
    requires s.id !in r.sessions && s.id !in r.handles && s.id !in r.warm && s.id !in r.vncHandles
    requires r.active >= 0 && (got.WarmBrowser? ==> r.pool.Some?)
    ensures RolledBack(cfg, Store(r, s, got, slot), s, got, slot, recycle) == Unstored(cfg, r, got, slot, recycle)
  {
    hide Store;
    hide Unlinked;
    hide ReleaseVnc;
    hide DiscardVnc;
    hide ReleaseWarm;
    hide Release;
    hide MinExpiry;
    hide Handle;
    var q := Store(r, s, got, slot);
    UnlinkUndoesStore(r, s, got, slot);
    StoreLinks(r, s, got, slot);
    var q1 := r.(warm := q.warm, lent := q.lent, vncHandles := q.vncHandles,
                 nextExpiry := q.nextExpiry, excluded := {});
    DisplayUndone(q1, s.id, r.vncHandles, slot);
    var q2 := DiscardVnc(q1.(vncHandles := r.vncHandles), slot);
    DiscardsDisplayOnly(q1.(vncHandles := r.vncHandles), r, slot);
    DiscardsDisplayOnly(r, r, slot);
    assert q2.pool == r.pool && q2.browsers == r.browsers && q2.lent == q.lent;
    BrowserUndone(cfg, q2, s.id, r.warm, got, recycle);
  }

  lemma StoreLinks(r: Runner, s: Session, got: Acquisition, slot: Option<VncSlot>)
    requires !got.Refused?
    ensures var q := Store(r, s, got, slot);
            && s.id in q.handles && q.handles[s.id] == Handle(got)
            && q.warm == (if got.WarmBrowser? then r.warm[s.id := got.reservation.workstation] else r.warm)
            && q.lent == (if got.WarmBrowser? then r.lent - {got.reservation.workstation} else r.lent)
            && q.vncHandles == (if slot.Some? then r.vncHandles[s.id := slot.value] else r.vncHandles)
  {
  }

  lemma DiscardsDisplayOnly(r: Runner, base: Runner, slot: Option<VncSlot>)
    requires r.vnc == base.vnc
    ensures DiscardVnc(r, slot) == r.(vnc := DiscardVnc(base, slot).vnc)
  {
  }

  lemma DisplayUndone(q: Runner, id: SessionId, before: map<SessionId, VncSlot>, slot: Option<VncSlot>)
    requires id !in before && q.vncHandles == if slot.Some? then before[id := slot.value] else before
    ensures (if id in q.vncHandles then ReleaseVnc(q, id) else DiscardVnc(q, slot))
            == DiscardVnc(q.(vncHandles := before), slot)
  {
    assert q.vncHandles - {id} == before;
  }

  lemma BrowserUndone(
    cfg: Settings, q: Runner, id: SessionId, before: map<SessionId, WorkstationId>, got: Acquisition, recycle: Answers)
    requires !got.Refused? && id !in before
    requires q.warm == if got.WarmBrowser? then before[id := got.reservation.workstation] else before
    requires got.WarmBrowser? ==> q.pool.Some?
    ensures (if id in q.warm then ReleaseWarm(cfg, q, id, recycle).0
             else q.(browsers := Shut(q.browsers, Handle(got), ByManager)))
            == if got.WarmBrowser? then
                 var f := Release(cfg.Pool(), Fleet(q.pool.value, q.browsers), got.reservation.workstation, recycle).0;
                 q.(warm := before, pool := Some(f.pool), browsers := f.browsers)
               else GiveBack(q, got)
  {
    hide Release;
    assert q.warm - {id} == before;
  }

  lemma UnlinkUndoesStore(r: Runner, s: Session, got: Acquisition, slot: Option<VncSlot>)
    requires !got.Refused? && s.id !in r.sessions && s.id !in r.handles && r.active >= 0
    ensures var q := Store(r, s, got, slot);
            Unlinked(q, s) == r.(warm := q.warm, lent := q.lent, vncHandles := q.vncHandles,
                                 nextExpiry := q.nextExpiry, excluded := {})
  {
    var q := Store(r, s, got, slot);
    assert q.sessions - {s.id} == r.sessions;
    assert q.order[..|q.order| - 1] == r.order;
    assert q.handles - {s.id} == r.handles;
  }

  /** What the operator does to the pool; the session manager and its lock have no part in it. */
  function Operate(cfg: Settings, r: Runner, a: OperatorAction): Runner {
    if r.pool.None? then r
    else
      var f := Fleet(r.pool.value, r.browsers);
      var g := Operated(cfg.Pool(), f, a);
      r.(pool := Some(g.pool), browsers := g.browsers, lent := LentAfter(cfg.Pool(), f, a, r.lent))
  }

  function OperateAll(cfg: Settings, r: Runner, actions: seq<OperatorAction>): Runner {
    if actions == [] then r
    else Operate(cfg, OperateAll(cfg, r, actions[..|actions| - 1]), actions[|actions| - 1])
  }

  /** The slot is Busy from here on, and counts as lent until the session is stored. */
  function MarkTaken(r: Runner, got: Acquisition): (Runner, bool) {
    if got.WarmBrowser? && r.pool.Some? then
      var (p, error) := MarkBusy(r.pool.value, got.reservation.workstation);
      (r.(pool := Some(p)), error.None?)
    else
      (r, true)
  }

  /** Validation and mark-busy of what was acquired, with the operator's requests that land around them. */
  function Confirmed(cfg: Settings, r: Runner, got: Acquisition, slot: Option<VncSlot>, w: CreateWorld)
    : (Runner, Option<Failure>)
  {
    var waiting := OperateAll(cfg, r, w.between);
    if !w.valid then (DiscardVnc(GiveBack(waiting, got), slot), Some(Invalid)) else
    var (marked, taken) := MarkTaken(waiting, got);
    if !taken then (DiscardVnc(GiveBack(marked, got), slot), Some(NoCapacity)) else
    (OperateAll(cfg, marked, w.afterwards), None)
  }

  datatype Prepared = Prepared(details: Option<VncDetails>, slot: Option<VncSlot>, got: Acquisition)

  /** Everything a create acquires before it stores the session; on failure it is given back. */
  function Prepare(cfg: Settings, r0: Runner, payload: CreatePayload, w: CreateWorld)
    : (Runner, Result<Prepared, Failure>)
  {
    var (r1, grant) := ResolveVnc(cfg, r0, payload, w);
    if grant.VncRefused? then (r1, Err(NoVnc)) else
    var (r2, got) := AcquireBrowser(cfg, r1, payload, w);
    if got.Refused? then (DiscardVnc(r2, grant.slot), Err(NoCapacity)) else
    var (r5, failure) := Confirmed(cfg, r2, got, grant.slot, w);
    (r5, if failure.Some? then Err(failure.value) else Ok(Prepared(grant.details, grant.slot, got)))
  }

  function Create(cfg: Settings, r: Runner, payload: CreatePayload, w: CreateWorld)
    : (Runner, Result<Session, Failure>)
  {
    var (r5, prepared) := Prepare(cfg, r.(issued := r.issued + {w.id}), payload, w);
    if prepared.Err? then (r5, Err(prepared.error)) else
    if prepared.value.got.Refused? then (r5, Err(NoCapacity)) else
    var s := NewSession(cfg, r5.browsers, payload, w, prepared.value.details, prepared.value.got);
    var event := Event(Created, s, w.publishedAt, None);
    if event.Acceptable() && w.delivered then
      (Store(r5, s, prepared.value.got, prepared.value.slot).(events := r5.events + [event]), Ok(s))
    else
      (Unstored(cfg, r5, prepared.value.got, prepared.value.slot, w.recycle), Err(NotDelivered))
  }

  /** The runner when a create comes to mark its slot busy, with what it acquired. */
  function Waiting(cfg: Settings, r: Runner, payload: CreatePayload, w: CreateWorld): (Runner, Acquisition) {
    var (r2, got) := AcquireBrowser(cfg, ResolveVnc(cfg, r.(issued := r.issued + {w.id}), payload, w).0, payload, w);
    (OperateAll(cfg, r2, w.between), got)
  }

  /** The slot a create reserved can still be marked busy: nobody marked, cancelled or recycled it meanwhile. */
  predicate StillReserved(r: Runner, got: Acquisition) {
    got.WarmBrowser? && r.pool.Some? ==>
      var w := got.reservation.workstation;
      w in r.pool.value.slots && r.pool.value.slots[w].state == Reserved
  }

  /** The runner when a create comes to store its session, with what it acquired. */
  function Storing(cfg: Settings, r: Runner, payload: CreatePayload, w: CreateWorld): (Runner, Acquisition) {
    var (waiting, got) := Waiting(cfg, r, payload, w);
    (OperateAll(cfg, MarkTaken(waiting, got).0, w.afterwards), got)
  }

  /** The slot a create marked busy is Busy, and with the browser that went with the reservation. */
  predicate SameBrowser(r: Runner, got: Acquisition) {
    got.WarmBrowser? && r.pool.Some? ==>
      var w := got.reservation.workstation;
      && w in r.pool.value.slots && r.pool.value.slots[w].state == Busy
      && r.pool.value.slots[w].handle == Some(got.reservation.handle)
  }

  /** How far a create gets. */
  datatype Stage = VncFailed | BrowserFailed | ValidationFailed | ReservationLost | PublishFailed | Completed

  function Reached(cfg: Settings, r: Runner, payload: CreatePayload, w: CreateWorld): Stage {
    var (waiting, got) := Waiting(cfg, r, payload, w);
    if ResolveVnc(cfg, r.(issued := r.issued + {w.id}), payload, w).1.VncRefused? then VncFailed else
    if got.Refused? then BrowserFailed else
    if !w.valid then ValidationFailed else
    if !StillReserved(waiting, got) then ReservationLost else
    if payload.status !in {Init, Ready} || !w.delivered then PublishFailed else Completed
  }

  // ---------- update ----------

  function Chosen<T>(f: Field<T>, otherwise: T): T {
    if f.Set? then f.value else otherwise
  }

  function Patched(old_: Session, u: Update, w: UpdateWorld, releaseWarm: bool): Session {
    var ending := u.status == Set(Dead);
    var headless := Chosen(u.headless, old_.headless);
    var vnc := if u.vnc.Set? then Sanitized(u.vnc.value) else old_.vnc;
    old_.(
      status := Chosen(u.status, old_.status),
      lastSeenAt := Chosen(u.lastSeenAt, w.seenAt),
      endedAt := if ending && Chosen(u.endedAt, None).None? then Some(w.endedAt) else Chosen(u.endedAt, old_.endedAt),
      headless := headless,
      idleTtl := Chosen(u.idleTtl, old_.idleTtl),
      labels := if u.labels.Some? then old_.labels + u.labels.value else old_.labels,
      metadata := if u.metadata.Some? then old_.metadata + u.metadata.value else old_.metadata,
      wsEndpoint := if ending && u.wsEndpoint.Unset? then None else Chosen(u.wsEndpoint, old_.wsEndpoint),
      vnc := vnc,
      vncEnabled := if headless || vnc.None? then Some(false) else Chosen(u.vncEnabled, old_.vncEnabled),
      workstation := if releaseWarm then None else old_.workstation)
  }

  predicate ShouldCleanupBrowser(before: Session, after: Session) {
    && before.wsEndpoint.Some?
    && (!after.Live() || after.wsEndpoint != before.wsEndpoint)
  }

  predicate ShouldCleanupVnc(r: Runner, before: Session, after: Session) {
    && before.id in r.vncHandles
    && (!after.Live() || after.headless || after.vnc.None? || after.vncEnabled != Some(true))
  }

  /** Forget the stored handle; a cold browser is stopped, a warm one is left to the pool. */
  function ShutdownBrowser(r: Runner, id: SessionId): Runner {
    if id !in r.handles then r
    else if id in r.warm then r.(handles := r.handles - {id})
    else r.(handles := r.handles - {id}, browsers := Shut(r.browsers, r.handles[id], ByManager))
  }

  function ReleaseVnc(r: Runner, id: SessionId): Runner {
    if id !in r.vncHandles then r
    else DiscardVnc(r.(vncHandles := r.vncHandles - {id}), Some(r.vncHandles[id]))
  }

  function ReleaseWarm(cfg: Settings, r: Runner, id: SessionId, recycle: Answers): (Runner, bool) {
    if r.pool.None? || id !in r.warm then (r, true)
    else
      var (f, error) := Release(cfg.Pool(), Fleet(r.pool.value, r.browsers), r.warm[id], recycle);
      (r.(warm := r.warm - {id}, pool := Some(f.pool), browsers := f.browsers), error.None?)
  }

  /** Replace the stored session and refresh the cached aggregates; the change is not published yet. */
  function Replace(r: Runner, id: SessionId, s: Session): Runner
    requires id in r.sessions
  {
    var sessions := r.sessions[id := s];
    r.(sessions := sessions,
       active := Recount(r.active, r.sessions[id], s),
       nextExpiry := MinExpiry(r.order, sessions, {}),
       excluded := {},
       unpublished := r.unpublished + {id})
  }

  function Publish(r: Runner, event: Event, delivered: bool): (Runner, bool) {
    if event.Acceptable() && delivered then
      (r.(events := r.events + [event], unpublished := r.unpublished - {event.session.id}), true)
    else
      (r, false)
  }

  function UpdateSession(cfg: Settings, r: Runner, id: SessionId, u: Update, w: UpdateWorld)
    : (Runner, Result<Session, Failure>)
  {
    if id !in r.sessions then (r, Err(NotFound)) else
    var before := r.sessions[id];
    var releaseWarm := id in r.warm && before.Live() && u.status == Set(Dead);
    var s := Patched(before, u, w, releaseWarm);
    var r1 := Replace(r, id, s);
    var r2 := if ShouldCleanupBrowser(before, s) then ShutdownBrowser(r1, id) else r1;
    var r3 := if ShouldCleanupVnc(r2, before, s) then ReleaseVnc(r2, id) else r2;
    var (r4, recycled) := if releaseWarm then ReleaseWarm(cfg, r3, id, w.recycle) else (r3, true);
    if !recycled then (r4, Err(RecycleFailed)) else
    var event := Event(if s.Live() then Updated else Ended, s, w.publishedAt, u.reason);
    var (r5, published) := Publish(r4, event, w.delivered);
    (r5, if published then Ok(s) else Err(NotDelivered))
  }

  function EndUpdate(reason: Option<string>, endedAt: Option<Instant>): Update {
    Update(Set(Dead), Unset, Set(endedAt), Unset, Unset, None, None, Set(None), Set(None), Set(Some(false)), reason)
  }

  function TouchUpdate(now: Instant): Update {
    Update(Unset, Set(now), Unset, Unset, Unset, None, None, Unset, Unset, Unset, None)
  }

  // ---------- reaper, operator, stop ----------

  predicate Expired(s: Session, now: Instant) {
    s.Live() && s.Deadline() <= now
  }

  function ExpiredIds(order: seq<SessionId>, sessions: map<SessionId, Session>, now: Instant): seq<SessionId> {
    if order == [] then []
    else
      var id := order[|order| - 1];
      ExpiredIds(order[..|order| - 1], sessions, now)
      + if id in sessions && Expired(sessions[id], now) then [id] else []
  }

  function ElementSet(ids: seq<SessionId>): set<SessionId> {
    set id | id in ids
  }

  function Scan(r: Runner, now: Instant): (Runner, seq<SessionId>) {
    var expired := ExpiredIds(r.order, r.sessions, now);
    var skip := ElementSet(expired);
    (r.(nextExpiry := MinExpiry(r.order, r.sessions, skip), excluded := skip), expired)
  }

  const IDLE_TIMEOUT := "idle-timeout"

  /**
   The second half of a sweep: end the collected sessions one by one, the k-th in world
   `worlds(k)`. An unknown session is skipped, any other failure ends the sweep.
   */
  function EndAll(cfg: Settings, r: Runner, ids: seq<SessionId>, now: Instant, worlds: int -> UpdateWorld)
    : (Runner, Result<nat, Failure>)
  {
    if ids == [] then (r, Ok(0))
    else
      var n := |ids| - 1;
      var (q, counted) := EndAll(cfg, r, ids[..n], now, worlds);
      if counted.Err? then (q, counted)
      else
        var (p, result) := UpdateSession(cfg, q, ids[n], EndUpdate(Some(IDLE_TIMEOUT), Some(now)), worlds(n));
        match result
        case Ok(_) => (p, Ok(counted.value + 1))
        case Err(NotFound) => (p, counted)
        case Err(e) => (p, Err(e))
  }

  function Sweep(cfg: Settings, r: Runner, now: Instant, worlds: int -> UpdateWorld): (Runner, Result<nat, Failure>) {
    var (scanned, expired) := Scan(r, now);
    EndAll(cfg, scanned, expired, now, worlds)
  }

  function ColdHeld(handles: map<SessionId, BrowserId>, warm: map<SessionId, WorkstationId>): set<BrowserId> {
    set id | id in handles && id !in warm :: handles[id]
  }

  function ShutAll(bs: Browsers, ids: set<BrowserId>): Browsers {
    seq(|bs|, i requires 0 <= i < |bs| =>
      if i in ids then bs[i].(shutBy := bs[i].shutBy + [ByManager]) else bs[i])
  }

  /** The VNC slots held by the sessions of `order`, oldest session first. */
  function HeldSlots(order: seq<SessionId>, vncHandles: map<SessionId, VncSlot>): seq<VncSlot> {
    if order == [] then []
    else
      HeldSlots(order[..|order| - 1], vncHandles)
      + if order[|order| - 1] in vncHandles then [vncHandles[order[|order| - 1]]] else []
  }

  function ReleaseEach(p: VncPool, slots: seq<VncSlot>): VncPool {
    if slots == [] then p else Released(ReleaseEach(p, slots[..|slots| - 1]), slots[|slots| - 1])
  }

  /** Cold browsers are stopped, the pool drained, every VNC slot returned. The sessions stay listed. */
  function Stop(r: Runner): Runner {
    var bs := ShutAll(r.browsers, ColdHeld(r.handles, r.warm));
    var f := if r.pool.Some? then Drain(Fleet(r.pool.value, bs)) else Fleet(WarmPool(map[], [], false, []), bs);
    r.(handles := map[], warm := map[], vncHandles := map[],
       pool := if r.pool.Some? then Some(f.pool) else None,
       vnc := if r.vnc.Some? then Some(ReleaseEach(r.vnc.value, HeldSlots(r.order, r.vncHandles))) else None,
       browsers := f.browsers)
  }

  // ---------- runs ----------

  datatype Action =
    | DoCreate(payload: CreatePayload, creating: CreateWorld)
    | DoUpdate(id: SessionId, update: Update, world: UpdateWorld)
    | DoEnd(id: SessionId, reason: Option<string>, endedAt: Option<Instant>, world: UpdateWorld)
    | DoTouch(id: SessionId, now: Instant, world: UpdateWorld)
    | DoScan(now: Instant)
    | DoOperate(operation: OperatorAction)

  function Step(cfg: Settings, r: Runner, a: Action): (Runner, Option<Failure>) {
    match a
    case DoCreate(payload, w) =>
      var (q, result) := Create(cfg, r, payload, w);
      (q, if result.Err? then Some(result.error) else None)
    case DoUpdate(id, u, w) =>
      var (q, result) := UpdateSession(cfg, r, id, u, w);
      (q, if result.Err? then Some(result.error) else None)
    case DoEnd(id, reason, endedAt, w) =>
      var (q, result) := UpdateSession(cfg, r, id, EndUpdate(reason, endedAt), w);
      (q, if result.Err? then Some(result.error) else None)
    case DoTouch(id, now, w) =>
      var (q, result) := UpdateSession(cfg, r, id, TouchUpdate(now), w);
      (q, if result.Err? then Some(result.error) else None)
    case DoScan(now) => (Scan(r, now).0, None)
    case DoOperate(operation) => (Operate(cfg, r, operation), None)
  }

  /** The operator takes back a workstation that a session sits on. */
  predicate Disrupts(r: Runner, a: OperatorAction) {
    a.OpRelease? && a.w in r.warm.Values
  }

  ghost predicate Undisturbed(r: Runner, actions: seq<OperatorAction>) {
    forall a | a in actions :: !Disrupts(r, a)
  }

  /** The operator disturbs no session while a create waits, as far as it gets. */
  ghost predicate Uninterrupted(cfg: Settings, r: Runner, payload: CreatePayload, w: CreateWorld) {
    var stage := Reached(cfg, r, payload, w);
    && (stage !in {VncFailed, BrowserFailed} ==> Undisturbed(r, w.between))
    && (stage in {PublishFailed, Completed} ==> Undisturbed(r, w.afterwards))
  }

  /**
   Identifiers are never reused. The operator does not pull a workstation from under a session,
   and does not swap or take away the browser of a workstation a create is about to store.
   */
  ghost predicate Permitted(cfg: Settings, r: Runner, a: Action) {
    match a
    case DoCreate(payload, w) =>
      && w.id !in r.issued
      && Uninterrupted(cfg, r, payload, w)
      && (Reached(cfg, r, payload, w) == Completed ==>
            var (storing, got) := Storing(cfg, r, payload, w);
            SameBrowser(storing, got))
    case DoOperate(operation) => !Disrupts(r, operation)
    case _ => true
  }

  function Run(cfg: Settings, r: Runner, actions: seq<Action>): Runner
    decreases |actions|
  {
    if actions == [] then r else Run(cfg, Step(cfg, r, actions[0]).0, actions[1..])
  }

  ghost predicate AllPermitted(cfg: Settings, r: Runner, actions: seq<Action>)
    decreases |actions|
  {
    actions == [] ||
    (Permitted(cfg, r, actions[0]) && AllPermitted(cfg, Step(cfg, r, actions[0]).0, actions[1..]))
  }

  /** No update, end or touch of the run meets a failing recycle or publication. */
  predicate NoneFails(cfg: Settings, r: Runner, actions: seq<Action>)
    decreases |actions|
  {
    actions == [] ||
    var (q, failure) := Step(cfg, r, actions[0]);
    && (!actions[0].DoCreate? ==> failure !in {Some(RecycleFailed), Some(NotDelivered)})
    && NoneFails(cfg, q, actions[1..])
  }

  /** A runner that has just started, with or without a warm pool and a VNC controller. */
  function Booted(
    cfg: Settings, workstations: Option<seq<WorkstationId>>, answers: WorkstationId -> Answers, hasVnc: bool): Runner
  {
    var f := StartPool(cfg.Pool(), Fleet(WarmPool(map[], [], false, []), []),
                       if workstations.Some? then workstations.value else [], answers);
    Runner(map[], [], map[], map[], map[], 0, None,
           if workstations.Some? then Some(f.pool) else None,
           if hasVnc then Some(Fresh(cfg.ranges)) else None,
           if workstations.Some? then f.browsers else [],
           [], {}, {}, {}, {})
  }
}
