/** Updating, ending and touching a session keep the runner's invariant, whatever fails on the way. */
module UpdateProofs {
  import opened Domain
  import opened VncPools
  import opened WarmPools
  import opened Runners
  import opened RunnerInvariants
  import opened CustodyProofs
  import opened TableProofs

  /** The session an update stores. */
  function AfterUpdate(r: Runner, id: SessionId, u: Update, w: UpdateWorld): Session
    requires id in r.sessions
  {
    Patched(r.sessions[id], u, w, Releasing(r, id, u))
  }

  predicate Releasing(r: Runner, id: SessionId, u: Update)
    requires id in r.sessions
  {
    id in r.warm && r.sessions[id].Live() && u.status == Set(Dead)
  }

  /** The state just before an update publishes, and whether the recycle it may have needed worked. */
  function Settle(cfg: Settings, r: Runner, id: SessionId, u: Update, w: UpdateWorld): (Runner, bool)
    requires id in r.sessions
  {
    var before := r.sessions[id];
    var s := AfterUpdate(r, id, u, w);
    var trimmed := Trimmed(Replace(r, id, s), id, before, s);
    if Releasing(r, id, u) then ReleaseWarm(cfg, trimmed, id, w.recycle) else (trimmed, true)
  }

  /** The browser and the display go, as far as session `id` needs them no more. */
  function Trimmed(r: Runner, id: SessionId, before: Session, s: Session): Runner {
    var q := if ShouldCleanupBrowser(before, s) then ShutdownBrowser(r, id) else r;
    if ShouldCleanupVnc(q, before, s) then ReleaseVnc(q, id) else q
  }

  lemma DisplayReturned(ranges: Ranges, vnc: Option<VncPool>, vncHandles: map<SessionId, VncSlot>, id: SessionId)
    requires DisplaysInv(ranges, vnc, vncHandles) && id in vncHandles
    ensures vnc.Some?
    ensures DisplaysInv(ranges, Some(Released(vnc.value, vncHandles[id])), vncHandles - {id})
  {
    ReleaseCorrect(ranges, vnc.value, vncHandles[id]);
    hide VncInv;
    var fewer := vncHandles - {id};
    assert fewer.Values == vncHandles.Values - {vncHandles[id]} by {
      forall x | x in vncHandles.Values - {vncHandles[id]} ensures x in fewer.Values {
        var k :| k in vncHandles && vncHandles[k] == x;
        assert k in fewer && fewer[k] == x;
      }
    }
  }

  /** The browser step: a live session with an unchanged endpoint keeps its handle, any other loses it. */
  lemma BrowserSettled(
    cfg: Settings, r: Runner, sessions: map<SessionId, Session>, before: Session, s: Session)
    requires CustodyInv(cfg.Pool(), HoldingsOf(r))
    requires LinksInv(sessions, r.handles, r.warm, r.vncHandles, r.browsers)
    requires before.id in sessions && sessions[before.id] == before
    ensures var q := if ShouldCleanupBrowser(before, s) then ShutdownBrowser(r, before.id) else r;
            && q == r.(handles := q.handles, browsers := q.browsers)
            && CustodyInv(cfg.Pool(), HoldingsOf(q))
            && LinksInv(sessions, r.handles, r.warm, r.vncHandles, q.browsers)
            && q.handles == (if s.Live() && (before.id in r.handles ==> s.wsEndpoint == before.wsEndpoint)
                             then r.handles else r.handles - {before.id})
  {
    assert before.id in r.handles ==> before.wsEndpoint.Some?;
    assert before.id !in r.handles ==> r.handles - {before.id} == r.handles;
    hide CustodyInv;
    hide LinksInv;
    hide OnlyActed;
    if ShouldCleanupBrowser(before, s) && before.id in r.handles {
      DropHandle(cfg.Pool(), HoldingsOf(r), before.id);
      LinksKept(
        sessions, r.handles, r.warm, r.vncHandles, r.browsers, ShutdownBrowser(r, before.id).browsers, ByManager);
    }
  }

  /** A live session with a visible, enabled VNC view. */
  predicate ShowsDisplay(s: Session) {
    s.Live() && !s.headless && s.vnc.Some? && s.vncEnabled == Some(true)
  }

  lemma VncSettled(cfg: Settings, r: Runner, before: Session, s: Session)
    requires DisplaysInv(cfg.ranges, r.vnc, r.vncHandles)
    ensures var q := if ShouldCleanupVnc(r, before, s) then ReleaseVnc(r, before.id) else r;
            && q == r.(vnc := q.vnc, vncHandles := q.vncHandles)
            && DisplaysInv(cfg.ranges, q.vnc, q.vncHandles)
            && q.vncHandles == (if ShowsDisplay(s) then r.vncHandles else r.vncHandles - {before.id})
  {
    hide DisplaysInv;
    assert before.id !in r.vncHandles ==> r.vncHandles - {before.id} == r.vncHandles;
    if ShouldCleanupVnc(r, before, s) {
      DisplayReturned(cfg.ranges, r.vnc, r.vncHandles, before.id);
    }
  }

  lemma TrimmedKeepsCustody(
    cfg: Settings, r: Runner, sessions: map<SessionId, Session>, before: Session, s: Session)
    requires CustodyInv(cfg.Pool(), HoldingsOf(r)) && DisplaysInv(cfg.ranges, r.vnc, r.vncHandles)
    requires LinksInv(sessions, r.handles, r.warm, r.vncHandles, r.browsers)
    requires before.id in sessions && sessions[before.id] == before
    ensures var q := Trimmed(r, before.id, before, s);
            && q == r.(handles := q.handles, browsers := q.browsers, vnc := q.vnc, vncHandles := q.vncHandles)
            && CustodyInv(cfg.Pool(), HoldingsOf(q)) && DisplaysInv(cfg.ranges, q.vnc, q.vncHandles)
            && LinksInv(sessions, r.handles, r.warm, r.vncHandles, q.browsers)
            && q.handles == (if s.Live() && (before.id in r.handles ==> s.wsEndpoint == before.wsEndpoint)
                             then r.handles else r.handles - {before.id})
            && q.vncHandles == (if ShowsDisplay(s) then r.vncHandles else r.vncHandles - {before.id})
  {
    hide CustodyInv;
    hide DisplaysInv;
    hide LinksInv;
    hide ShutdownBrowser;
    hide ReleaseVnc;
    hide ShouldCleanupBrowser;
    hide ShouldCleanupVnc;
    hide ShowsDisplay;
    BrowserSettled(cfg, r, sessions, before, s);
    VncSettled(cfg, if ShouldCleanupBrowser(before, s) then ShutdownBrowser(r, before.id) else r, before, s);
  }

  lemma WarmSettled(cfg: Settings, r: Runner, sessions: map<SessionId, Session>, links: map<SessionId, BrowserId>,
                    vncHandles: map<SessionId, VncSlot>, id: SessionId, recycle: Answers)
    requires CustodyInv(cfg.Pool(), HoldingsOf(r)) && id in r.warm && id !in r.handles
    requires LinksInv(sessions, links, r.warm, vncHandles, r.browsers)
    ensures var q := ReleaseWarm(cfg, r, id, recycle).0;
            && q == r.(warm := r.warm - {id}, pool := q.pool, browsers := q.browsers)
            && CustodyInv(cfg.Pool(), HoldingsOf(q))
            && LinksInv(sessions, links, r.warm, vncHandles, q.browsers)
  {
    hide CustodyInv;
    hide LinksInv;
    hide OnlyActed;
    GiveSlotBack(cfg.Pool(), HoldingsOf(r), id, recycle);
    LinksKept(sessions, links, r.warm, vncHandles, r.browsers, ReleaseWarm(cfg, r, id, recycle).0.browsers, ByPool);
  }

  lemma PatchedKeepsId(r: Runner, id: SessionId, u: Update, w: UpdateWorld)
    requires id in r.sessions
    ensures var s := AfterUpdate(r, id, u, w);
            s.id == r.sessions[id].id && s.flags == r.sessions[id].flags && (Releasing(r, id, u) ==> !s.Live())
            && (r.sessions[id].Live() && !s.Live() ==> u.status == Set(Dead))
  {
  }

  lemma ReplaceKeepsHoldings(r: Runner, id: SessionId, s: Session)
    requires id in r.sessions
    ensures var q := Replace(r, id, s);
            && HoldingsOf(q) == HoldingsOf(r) && q.vnc == r.vnc && q.vncHandles == r.vncHandles
  {
  }

  /** Which table entries survive an update, and that everything stays in custody. */
  lemma SettleKeepsCustody(cfg: Settings, r: Runner, id: SessionId, u: Update, w: UpdateWorld)
    requires CustodyInv(cfg.Pool(), HoldingsOf(r)) && DisplaysInv(cfg.ranges, r.vnc, r.vncHandles)
    requires LinksInv(r.sessions, r.handles, r.warm, r.vncHandles, r.browsers)
    requires id in r.sessions && r.sessions[id].id == id
    ensures var s := AfterUpdate(r, id, u, w);
            var q := Settle(cfg, r, id, u, w).0;
            && q == Replace(r, id, s).(handles := q.handles, warm := q.warm, vncHandles := q.vncHandles,
                                       pool := q.pool, vnc := q.vnc, browsers := q.browsers)
            && CustodyInv(cfg.Pool(), HoldingsOf(q)) && DisplaysInv(cfg.ranges, q.vnc, q.vncHandles)
            && q.handles == (if s.Live() && (id in r.handles ==> s.wsEndpoint == r.sessions[id].wsEndpoint)
                             then r.handles else r.handles - {id})
            && q.warm == (if s.Live() then r.warm else r.warm - {id})
            && q.vncHandles == (if ShowsDisplay(s) then r.vncHandles else r.vncHandles - {id})
            && LinksInv(r.sessions, r.handles, r.warm, r.vncHandles, q.browsers)
  {
    assert id in r.warm ==> r.sessions[id].Live();
    assert id !in r.warm ==> r.warm - {id} == r.warm;
    hide CustodyInv;
    hide DisplaysInv;
    hide LinksInv;
    hide ReleaseWarm;
    hide Trimmed;
    hide ShowsDisplay;
    hide Patched;
    hide Replace;
    ReplaceKeepsHoldings(r, id, AfterUpdate(r, id, u, w));
    var before := r.sessions[id];
    var s := AfterUpdate(r, id, u, w);
    PatchedKeepsId(r, id, u, w);
    var r1 := Replace(r, id, s);
    TrimmedKeepsCustody(cfg, r1, r.sessions, before, s);
    if Releasing(r, id, u) {
      WarmSettled(cfg, Trimmed(r1, id, before, s), r.sessions, r.handles, r.vncHandles, id, w.recycle);
    }
  }

  /** The patched session: same identity, no VNC token, and its workstation only while it keeps one. */
  lemma PatchedIsProper(r: Runner, id: SessionId, u: Update, w: UpdateWorld)
    requires SessionsInv(r.sessions, r.order, r.warm, r.issued) && r.warm.Keys <= LiveIds(r.sessions)
    requires id in r.sessions
    ensures var s := AfterUpdate(r, id, u, w);
            var fewer := if s.Live() then r.warm else r.warm - {id};
            && s.id == id && r.sessions[id].id == id
            && s.vnc == Sanitized(s.vnc)
            && s.workstation == (if id in fewer then Some(fewer[id]) else None)
            && (Releasing(r, id, u) <==> id in r.warm && !s.Live())
  {
    assert id in r.warm ==> r.sessions[id].Live();
  }

  /** Everything but the publication: the session is replaced, what it no longer needs is released. */
  lemma SettleKeepsInv(cfg: Settings, r: Runner, id: SessionId, u: Update, w: UpdateWorld)
    requires RunnerInv(cfg, r) && id in r.sessions
    ensures var s := AfterUpdate(r, id, u, w);
            var q := Settle(cfg, r, id, u, w).0;
            && RunnerInv(cfg, q)
            && s.id == id && q.sessions == r.sessions[id := s] && q.order == r.order
            && q.excluded == {} && q.events == r.events && q.unpublished == r.unpublished + {id}
            && LogInv(r.events, r.sessions, r.unpublished)
  {
    hide CustodyInv;
    hide DisplaysInv;
    hide SessionsInv;
    hide LogInv;
    assert r.warm.Keys <= LiveIds(r.sessions);
    hide LinksInv;
    PatchedIsProper(r, id, u, w);
    SettleKeepsCustody(cfg, r, id, u, w);
    var s := AfterUpdate(r, id, u, w);
    var q := Settle(cfg, r, id, u, w).0;
    hide Settle;
    SessionsReplaced(r.sessions, r.order, r.warm, r.issued, s, q.warm);
    LinksReplaced(r.sessions, r.handles, r.warm, r.vncHandles, q.browsers, s, q.handles, q.warm, q.vncHandles);
    ActiveReplaced(r.sessions, s);
    LogSkipped(r.events, r.sessions, r.unpublished, s);
  }

  function UpdateEvent(s: Session, u: Update, w: UpdateWorld): Event {
    Event(if s.Live() then EventKind.Updated else Ended, s, w.publishedAt, u.reason)
  }

  /** An update is: settle, then publish unless the recycle failed. */
  lemma UpdateByParts(cfg: Settings, r: Runner, id: SessionId, u: Update, w: UpdateWorld)
    requires id in r.sessions
    ensures var s := AfterUpdate(r, id, u, w);
            var (q, recycled) := Settle(cfg, r, id, u, w);
            UpdateSession(cfg, r, id, u, w) ==
              if !recycled then (q, Err(RecycleFailed))
              else
                var (p, published) := Publish(q, UpdateEvent(s, u, w), w.delivered);
                (p, if published then Ok(s) else Err(NotDelivered))
  {
    hide Patched;
    hide ShutdownBrowser;
    hide ReleaseVnc;
    hide ReleaseWarm;
    hide Replace;
    hide ShouldCleanupBrowser;
    hide ShouldCleanupVnc;
  }

  lemma PublishKeepsInv(
    cfg: Settings, q: Runner, events: seq<Event>, sessions: map<SessionId, Session>, unpublished: set<SessionId>,
    event: Event)
    requires RunnerInv(cfg, q) && LogInv(events, sessions, unpublished)
    requires event.session.id in sessions && q.events == events
    requires q.sessions == sessions[event.session.id := event.session]
    requires q.unpublished == unpublished + {event.session.id}
    requires event.kind == if event.session.Live() then EventKind.Updated else Ended
    ensures event.Acceptable()
    ensures var p := Publish(q, event, true).0;
            RunnerInv(cfg, p) && p.unpublished == unpublished - {event.session.id}
  {
    hide CustodyInv;
    hide DisplaysInv;
    hide SessionsInv;
    hide LogInv;
    hide LinksInv;
    hide CachesInv;
    hide PolicyInv;
    LogAppended(events, sessions, unpublished, event);
    assert (unpublished + {event.session.id}) - {event.session.id} == unpublished - {event.session.id};
  }

  /**
   An update keeps the invariant on every path, also when the recycle or the publication
   fails. It replaces the one session and nothing else in the table; the event it builds is
   always acceptable; without a failure no session is left unpublished by it.
   */
  lemma UpdateKeepsInv(cfg: Settings, r: Runner, id: SessionId, u: Update, w: UpdateWorld)
    requires RunnerInv(cfg, r)
    ensures var (q, result) := UpdateSession(cfg, r, id, u, w);
            && RunnerInv(cfg, q)
            && (result == Err(NotFound) <==> id !in r.sessions)
            && (id !in r.sessions ==> q == r)
            && (id in r.sessions ==>
                  var s := AfterUpdate(r, id, u, w);
                  && q.sessions == r.sessions[id := s] && q.order == r.order && q.excluded == {}
                  && (result == Err(NotDelivered) ==> !w.delivered)
                  && (result == Err(RecycleFailed) <==> !Settle(cfg, r, id, u, w).1)
                  && (result.Ok? ==>
                        && result.value == s && q.unpublished == r.unpublished - {id}
                        && q.events == r.events + [UpdateEvent(s, u, w)])
                  && (result.Err? ==>
                        && result.error in {RecycleFailed, NotDelivered}
                        && q.events == r.events && q.unpublished == r.unpublished + {id}))
  {
    hide RunnerInv;
    hide LogInv;
    hide Settle;
    hide UpdateSession;
    if id in r.sessions {
      SettleKeepsInv(cfg, r, id, u, w);
      UpdateByParts(cfg, r, id, u, w);
      var q := Settle(cfg, r, id, u, w).0;
      PublishKeepsInv(cfg, q, r.events, r.sessions, r.unpublished, UpdateEvent(AfterUpdate(r, id, u, w), u, w));
    } else {
      UnknownIsNotFound(cfg, r, id, u, w);
    }
  }

  /**
   What an update lets go of, and what it keeps, on every path: the browser stays exactly with a
   live session whose endpoint is unchanged, the display with one that still shows it, the
   warm slot with a live one; no other session's entries move.
   */
  lemma UpdateKeepsResourcesIff(cfg: Settings, r: Runner, id: SessionId, u: Update, w: UpdateWorld)
    requires RunnerInv(cfg, r) && id in r.sessions
    ensures var q := UpdateSession(cfg, r, id, u, w).0; var s := AfterUpdate(r, id, u, w);
            && q.handles == (if s.Live() && (id in r.handles ==> s.wsEndpoint == r.sessions[id].wsEndpoint)
                             then r.handles else r.handles - {id})
            && q.vncHandles == (if ShowsDisplay(s) then r.vncHandles else r.vncHandles - {id})
            && q.warm == (if s.Live() then r.warm else r.warm - {id})
  {
    hide RunnerInv;
    hide Settle;
    hide AfterUpdate;
    hide UpdateSession;
    hide ShowsDisplay;
    hide CustodyInv;
    hide DisplaysInv;
    hide LinksInv;
    hide Replace;
    hide UpdateEvent;
    ReplaceKeepsLinks(r, id, AfterUpdate(r, id, u, w));
    ReadyToSettle(cfg, r, id);
    SettleKeepsCustody(cfg, r, id, u, w);
    UpdateByParts(cfg, r, id, u, w);
  }

  lemma ReplaceKeepsLinks(r: Runner, id: SessionId, s: Session)
    requires id in r.sessions
    ensures var q := Replace(r, id, s); q.handles == r.handles && q.warm == r.warm && q.vncHandles == r.vncHandles
  {
  }

  lemma ReadyToSettle(cfg: Settings, r: Runner, id: SessionId)
    requires RunnerInv(cfg, r) && id in r.sessions
    ensures CustodyInv(cfg.Pool(), HoldingsOf(r)) && DisplaysInv(cfg.ranges, r.vnc, r.vncHandles)
    ensures LinksInv(r.sessions, r.handles, r.warm, r.vncHandles, r.browsers)
    ensures r.sessions[id].id == id
  {
    hide CustodyInv;
    hide DisplaysInv;
    hide LinksInv;
    hide LogInv;
  }

  ghost predicate Applied<T>(f: Field<T>, before: T, after: T) {
    after == if f.Set? then f.value else before
  }

  /** The added entries win, the others stay. */
  ghost predicate MergedInto(
    before: map<string, string>, added: Option<map<string, string>>, after: map<string, string>)
  {
    && (forall k :: k in after <==> k in before || (added.Some? && k in added.value))
    && (forall k | k in after :: after[k] == if added.Some? && k in added.value then added.value[k] else before[k])
  }

  /**
   What an update does to the stored session, failure or not: fields it sets take their value
   and the others stay, labels and metadata are merged, identity and flags never change, a
   session set DEAD has an end time and no endpoint unless one was given, VNC tokens are not
   stored, and the view is off where there is nothing to view, else as asked or as before.
   */
  lemma UpdateAppliesFields(cfg: Settings, r: Runner, id: SessionId, u: Update, w: UpdateWorld)
    requires RunnerInv(cfg, r) && id in r.sessions
    ensures var q := UpdateSession(cfg, r, id, u, w).0;
            && q.sessions.Keys == r.sessions.Keys
            && (forall other | other in r.sessions && other != id :: q.sessions[other] == r.sessions[other])
            && FieldsApplied(r.sessions[id], q.sessions[id], u, w)
  {
    hide RunnerInv;
    hide UpdateSession;
    hide Settle;
    hide FieldsApplied;
    PatchAppliesFields(r.sessions[id], u, w, Releasing(r, id, u));
    hide Patched;
    UpdateKeepsInv(cfg, r, id, u, w);
  }

  ghost predicate FieldsApplied(before: Session, after: Session, u: Update, w: UpdateWorld) {
    && after.id == before.id && after.createdAt == before.createdAt && after.flags == before.flags
    && Applied(u.status, before.status, after.status)
    && Applied(u.headless, before.headless, after.headless)
    && Applied(u.idleTtl, before.idleTtl, after.idleTtl)
    && Applied(u.lastSeenAt, w.seenAt, after.lastSeenAt)
    && MergedInto(before.labels, u.labels, after.labels)
    && MergedInto(before.metadata, u.metadata, after.metadata)
    && (u.vnc.Unset? ==> after.vnc == before.vnc)
    && (u.vnc.Set? ==>
          && (after.vnc.None? <==> u.vnc.value.None?)
          && (after.vnc.Some? ==> after.vnc.value == VncDetails(u.vnc.value.value.url, None, None)))
    && (u.status != Set(Dead) ==>
          && Applied(u.endedAt, before.endedAt, after.endedAt)
          && Applied(u.wsEndpoint, before.wsEndpoint, after.wsEndpoint))
    && (u.status == Set(Dead) ==>
          && after.endedAt == (if u.endedAt.Set? && u.endedAt.value.Some? then u.endedAt.value else Some(w.endedAt))
          && Applied(u.wsEndpoint, None, after.wsEndpoint))
    && (if after.headless || after.vnc.None? then after.vncEnabled == Some(false)
        else Applied(u.vncEnabled, before.vncEnabled, after.vncEnabled))
  }

  lemma PatchAppliesFields(before: Session, u: Update, w: UpdateWorld, releaseWarm: bool)
    ensures FieldsApplied(before, Patched(before, u, w, releaseWarm), u, w)
  {
  }

  /**
   Touching a live session moves its deadline to `now` plus its time to live and changes
   nothing else of it, except that the view flag is cleared where there is nothing to view.
   It keeps its browser and its warm slot, but a display whose view is not enabled is returned.
   */
  lemma TouchOnlyMovesDeadline(cfg: Settings, r: Runner, id: SessionId, now: Instant, w: UpdateWorld)
    requires RunnerInv(cfg, r) && id in r.sessions && r.sessions[id].Live()
    ensures var q := UpdateSession(cfg, r, id, TouchUpdate(now), w).0; var before := r.sessions[id];
            && id in q.sessions && q.sessions[id].Deadline() == now + before.idleTtl
            && q.sessions[id] == before.(lastSeenAt := now, vncEnabled := q.sessions[id].vncEnabled)
            && q.sessions[id].vncEnabled
               == (if before.headless || before.vnc.None? then Some(false) else before.vncEnabled)
            && q.handles == r.handles && q.warm == r.warm
            && q.vncHandles == if ShowsDisplay(before) then r.vncHandles else r.vncHandles - {id}
  {
    hide RunnerInv;
    hide UpdateSession;
    hide Settle;
    TouchedSession(r, id, now, w);
    hide AfterUpdate;
    UpdateKeepsInv(cfg, r, id, TouchUpdate(now), w);
    UpdateKeepsResourcesIff(cfg, r, id, TouchUpdate(now), w);
  }

  lemma TouchedSession(r: Runner, id: SessionId, now: Instant, w: UpdateWorld)
    requires id in r.sessions && r.sessions[id].Live()
    ensures var before := r.sessions[id]; var s := AfterUpdate(r, id, TouchUpdate(now), w);
            && s.Live() && s.Deadline() == now + before.idleTtl
            && s == before.(lastSeenAt := now, vncEnabled := s.vncEnabled)
            && s.vncEnabled == (if before.headless || before.vnc.None? then Some(false) else before.vncEnabled)
            && (ShowsDisplay(s) <==> ShowsDisplay(before))
  {
  }

  lemma UnknownIsNotFound(cfg: Settings, r: Runner, id: SessionId, u: Update, w: UpdateWorld)
    requires id !in r.sessions
    ensures UpdateSession(cfg, r, id, u, w) == (r, Err(NotFound))
  {
  }

  /** A session that is not live is in no side table: whatever ended it, nothing is held for it. */
  lemma DeadHoldsNothing(cfg: Settings, r: Runner, id: SessionId)
    requires RunnerInv(cfg, r) && id in r.sessions && !r.sessions[id].Live()
    ensures id !in r.handles && id !in r.warm && id !in r.vncHandles && r.sessions[id].workstation.None?
  {
    hide CustodyInv;
    hide DisplaysInv;
    hide LogInv;
    hide CachesInv;
    assert id !in LiveIds(r.sessions);
  }

  lemma EndedSession(r: Runner, id: SessionId, reason: Option<string>, endedAt: Option<Instant>, w: UpdateWorld)
    requires id in r.sessions
    ensures var s := AfterUpdate(r, id, EndUpdate(reason, endedAt), w);
            && s.status == Dead && s.lastSeenAt == w.seenAt
            && s.endedAt == Some(if endedAt.Some? then endedAt.value else w.endedAt)
            && s.wsEndpoint.None? && s.vnc.None? && s.vncEnabled == Some(false)
            && s == r.sessions[id].(status := Dead, lastSeenAt := w.seenAt, endedAt := s.endedAt, wsEndpoint := None,
                                    vnc := None, vncEnabled := Some(false), workstation := s.workstation)
  {
  }

  /** Ending a known session makes it DEAD with an end time and releases all it held, even if a failure is reported. */
  lemma EndReleasesEverything(
    cfg: Settings, r: Runner, id: SessionId, reason: Option<string>, endedAt: Option<Instant>, w: UpdateWorld)
    requires RunnerInv(cfg, r) && id in r.sessions
    ensures var q := UpdateSession(cfg, r, id, EndUpdate(reason, endedAt), w).0;
            && RunnerInv(cfg, q)
            && id in q.sessions && q.sessions[id].status == Dead
            && q.sessions[id].endedAt == Some(if endedAt.Some? then endedAt.value else w.endedAt)
            && q.sessions[id] == r.sessions[id].(
                                   status := Dead, lastSeenAt := w.seenAt, endedAt := q.sessions[id].endedAt,
                                   wsEndpoint := None, vnc := None, vncEnabled := Some(false), workstation := None)
            && id !in q.handles && id !in q.warm && id !in q.vncHandles
  {
    hide RunnerInv;
    hide UpdateSession;
    hide Settle;
    hide AfterUpdate;
    hide EndUpdate;
    EndedSession(r, id, reason, endedAt, w);
    UpdateKeepsInv(cfg, r, id, EndUpdate(reason, endedAt), w);
    DeadHoldsNothing(cfg, UpdateSession(cfg, r, id, EndUpdate(reason, endedAt), w).0, id);
  }
}
