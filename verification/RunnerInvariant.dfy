/** What holds of the runner whenever the session manager's lock is free. */
module RunnerInvariants {
  import opened Domain
  import opened VncPools
  import opened WarmPools
  import opened Runners

  /** The session table in insertion order; a session names the workstation it sits on, and no VNC token. */
  ghost predicate SessionsInv(
    sessions: map<SessionId, Session>, order: seq<SessionId>, warm: map<SessionId, WorkstationId>,
    issued: set<SessionId>)
  {
    && Distinct(order)
    && (forall id :: id in order <==> id in sessions)
    && sessions.Keys <= issued
    && (forall id | id in sessions ::
          && sessions[id].id == id
          && sessions[id].vnc == Sanitized(sessions[id].vnc)
          && sessions[id].workstation == if id in warm then Some(warm[id]) else None)
  }

  /**
   The side tables name only live stored sessions, and a stored handle is of a browser with the
   session's endpoint and flags.
   */
  ghost predicate LinksInv(
    sessions: map<SessionId, Session>, handles: map<SessionId, BrowserId>,
    warm: map<SessionId, WorkstationId>, vncHandles: map<SessionId, VncSlot>, browsers: Browsers)
  {
    && handles.Keys <= LiveIds(sessions)
    && warm.Keys <= LiveIds(sessions)
    && vncHandles.Keys <= LiveIds(sessions)
    && (forall id | id in handles ::
          && handles[id] < |browsers|
          && sessions[id].wsEndpoint == Some(browsers[handles[id]].endpoint)
          && sessions[id].flags == browsers[handles[id]].flags)
  }

  /** Each session on a warm slot has its own Busy slot; the other taken slots were lent to an operator. */
  ghost predicate SlotsInv(p: WarmPool, warm: map<SessionId, WorkstationId>, lent: set<WorkstationId>) {
    && Injective(warm)
    && (forall id | id in warm :: warm[id] in p.slots && p.slots[warm[id]].state == Busy)
    && lent !! warm.Values
    && (forall w | w in p.slots :: p.slots[w].state in {Reserved, Busy} <==> w in warm.Values || w in lent)
  }

  /** Everything browsers are held by: the pool, the session tables, and the processes themselves. */
  datatype Holdings = Holdings(
    pool: Option<WarmPool>, browsers: Browsers, handles: map<SessionId, BrowserId>,
    warm: map<SessionId, WorkstationId>, lent: set<WorkstationId>)

  function HoldingsOf(r: Runner): Holdings {
    Holdings(r.pool, r.browsers, r.handles, r.warm, r.lent)
  }

  ghost predicate PoolSide(cfg: PoolConfig, h: Holdings) {
    if h.pool.Some? then PoolInv(cfg, Fleet(h.pool.value, h.browsers)) && SlotsInv(h.pool.value, h.warm, h.lent)
    else h.warm == map[] && forall b | 0 <= b < |h.browsers| :: h.browsers[b].owner == ByManager
  }

  /** A warm session's handle is its slot's. */
  ghost predicate WarmSide(h: Holdings) {
    forall id | id in h.handles && id in h.warm ::
      && h.pool.Some? && h.warm[id] in h.pool.value.slots
      && h.pool.value.slots[h.warm[id]].handle == Some(h.handles[id])
  }

  /**
   Each cold browser ever launched is held by exactly one session and running, or was asked
   to stop exactly once, by the manager.
   */
  ghost predicate ColdSide(bs: Browsers, handles: map<SessionId, BrowserId>, warm: map<SessionId, WorkstationId>) {
    && (forall id | id in handles && id !in warm :: handles[id] < |bs| && bs[handles[id]].owner == ByManager)
    && (forall a, b | a in handles && b in handles && a !in warm && b !in warm && handles[a] == handles[b] :: a == b)
    && (forall b | 0 <= b < |bs| && bs[b].owner == ByManager ::
          bs[b].shutBy == if b in ColdHeld(handles, warm) then [] else [ByManager])
  }

  ghost predicate CustodyInv(cfg: PoolConfig, h: Holdings) {
    PoolSide(cfg, h) && WarmSide(h) && ColdSide(h.browsers, h.handles, h.warm)
  }

  /** Active VNC slots correspond one to one to the stored VNC handles. */
  ghost predicate DisplaysInv(ranges: Ranges, vnc: Option<VncPool>, vncHandles: map<SessionId, VncSlot>) {
    && Injective(vncHandles)
    && if vnc.Some? then VncInv(ranges, vnc.value) && vnc.value.active == vncHandles.Values else vncHandles == map[]
  }

  /** The cached aggregates agree with recomputation. */
  ghost predicate CachesInv(
    active: int, nextExpiry: Option<Instant>, sessions: map<SessionId, Session>, order: seq<SessionId>,
    excluded: set<SessionId>)
  {
    active == |LiveIds(sessions)| && nextExpiry == MinExpiry(order, sessions, excluded)
  }

  /** The sessions as a consumer of the event log rebuilds them. */
  function Replay(events: seq<Event>): map<SessionId, Session> {
    if events == [] then map[]
    else
      var last := events[|events| - 1];
      Replay(events[..|events| - 1])[last.session.id := last.session]
  }

  /** A session's first event, and only that one, is CREATED; an event is ENDED exactly when its snapshot is DEAD. */
  predicate WellFormedLog(events: seq<Event>) {
    events == [] ||
    var last := events[|events| - 1];
    && WellFormedLog(events[..|events| - 1])
    && last.Acceptable()
    && (last.kind == Created <==> last.session.id !in Replay(events[..|events| - 1]))
    && (last.kind == Ended <==> last.session.status == Dead)
  }

  /** The log rebuilds the session table, except for sessions whose latest change went unpublished. */
  ghost predicate LogInv(events: seq<Event>, sessions: map<SessionId, Session>, unpublished: set<SessionId>) {
    && WellFormedLog(events)
    && Replay(events).Keys == sessions.Keys
    && unpublished <= sessions.Keys
    && (forall id | id in sessions && id !in unpublished :: Replay(events)[id] == sessions[id])
  }

  /** The sourcing policy: where browsers may come from in each mode. */
  ghost predicate PolicyInv(mode: Mode, handles: map<SessionId, BrowserId>, warm: map<SessionId, WorkstationId>) {
    && (mode == WarmOnly ==> handles.Keys <= warm.Keys)
    && (mode == ColdOnly ==> warm == map[])
  }

  ghost predicate RunnerInv(cfg: Settings, r: Runner) {
    && SessionsInv(r.sessions, r.order, r.warm, r.issued)
    && LinksInv(r.sessions, r.handles, r.warm, r.vncHandles, r.browsers)
    && CustodyInv(cfg.Pool(), HoldingsOf(r))
    && DisplaysInv(cfg.ranges, r.vnc, r.vncHandles)
    && CachesInv(r.active, r.nextExpiry, r.sessions, r.order, r.excluded)
    && LogInv(r.events, r.sessions, r.unpublished)
    && PolicyInv(cfg.mode, r.handles, r.warm)
  }
}
