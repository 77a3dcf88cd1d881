/** The session table, its caches and the event log under the three ways a session changes. */
module TableProofs {
  import opened Domain
  import opened VncPools
  import opened Runners
  import opened RunnerInvariants

  // ---------- the session table and the links into it ----------

  lemma SessionsStored(
    sessions: map<SessionId, Session>, order: seq<SessionId>, warm: map<SessionId, WorkstationId>,
    issued: set<SessionId>, s: Session)
    requires SessionsInv(sessions, order, warm, issued)
    requires s.id !in issued && s.id !in warm && s.vnc == Sanitized(s.vnc)
    ensures SessionsInv(
              sessions[s.id := s], order + [s.id],
              if s.workstation.Some? then warm[s.id := s.workstation.value] else warm, issued + {s.id})
  {
  }

  lemma SessionsReplaced(
    sessions: map<SessionId, Session>, order: seq<SessionId>, warm: map<SessionId, WorkstationId>,
    issued: set<SessionId>, s: Session, fewer: map<SessionId, WorkstationId>)
    requires SessionsInv(sessions, order, warm, issued)
    requires s.id in sessions && s.vnc == Sanitized(s.vnc)
    requires fewer == warm || fewer == warm - {s.id}
    requires s.workstation == if s.id in fewer then Some(fewer[s.id]) else None
    ensures SessionsInv(sessions[s.id := s], order, fewer, issued)
  {
  }

  lemma LinksStored(
    sessions: map<SessionId, Session>, handles: map<SessionId, BrowserId>, warm: map<SessionId, WorkstationId>,
    vncHandles: map<SessionId, VncSlot>, browsers: Browsers, later: Browsers, party: Party,
    s: Session, handle: BrowserId, slot: Option<VncSlot>)
    requires LinksInv(sessions, handles, warm, vncHandles, browsers) && OnlyActed(browsers, later, party)
    requires s.id !in sessions && s.Live()
    requires handle < |later| && s.wsEndpoint == Some(later[handle].endpoint) && s.flags == later[handle].flags
    ensures LinksInv(
              sessions[s.id := s], handles[s.id := handle],
              if s.workstation.Some? then warm[s.id := s.workstation.value] else warm,
              if slot.Some? then vncHandles[s.id := slot.value] else vncHandles, later)
  {
    assert LiveIds(sessions[s.id := s]) == LiveIds(sessions) + {s.id};
  }

  lemma LinksKept(
    sessions: map<SessionId, Session>, handles: map<SessionId, BrowserId>, warm: map<SessionId, WorkstationId>,
    vncHandles: map<SessionId, VncSlot>, browsers: Browsers, later: Browsers, party: Party)
    requires LinksInv(sessions, handles, warm, vncHandles, browsers) && OnlyActed(browsers, later, party)
    ensures LinksInv(sessions, handles, warm, vncHandles, later)
  {
  }

  /** After an update the links that remain are to a live session with an unchanged endpoint and flags. */
  lemma LinksReplaced(
    sessions: map<SessionId, Session>, handles: map<SessionId, BrowserId>, warm: map<SessionId, WorkstationId>,
    vncHandles: map<SessionId, VncSlot>, browsers: Browsers, s: Session,
    handles2: map<SessionId, BrowserId>, warm2: map<SessionId, WorkstationId>, vncHandles2: map<SessionId, VncSlot>)
    requires LinksInv(sessions, handles, warm, vncHandles, browsers) && s.id in sessions
    requires handles2 == handles || handles2 == handles - {s.id}
    requires warm2 == warm || warm2 == warm - {s.id}
    requires vncHandles2 == vncHandles || vncHandles2 == vncHandles - {s.id}
    requires s.id in handles2 ==>
               s.Live() && s.wsEndpoint == sessions[s.id].wsEndpoint && s.flags == sessions[s.id].flags
    requires s.id in warm2 ==> s.Live()
    requires s.id in vncHandles2 ==> s.Live()
    ensures LinksInv(sessions[s.id := s], handles2, warm2, vncHandles2, browsers)
  {
  }

  // ---------- the caches ----------

  lemma ActiveStored(sessions: map<SessionId, Session>, s: Session)
    requires s.id !in sessions
    ensures |LiveIds(sessions[s.id := s])| == |LiveIds(sessions)| + if s.Live() then 1 else 0
  {
    assert LiveIds(sessions[s.id := s]) == LiveIds(sessions) + if s.Live() then {s.id} else {};
  }

  /** The counter stays exact, and its clamp at zero never takes effect. */
  lemma ActiveReplaced(sessions: map<SessionId, Session>, s: Session)
    requires s.id in sessions
    ensures Recount(|LiveIds(sessions)|, sessions[s.id], s) == |LiveIds(sessions[s.id := s])|
    ensures sessions[s.id].Live() ==> |LiveIds(sessions)| - 1 >= 0
  {
    var before := LiveIds(sessions);
    var after := LiveIds(sessions[s.id := s]);
    if sessions[s.id].Live() {
      assert s.id in before;
      if s.Live() { assert after == before; } else { assert after == before - {s.id}; }
    } else {
      if s.Live() { assert after == before + {s.id}; } else { assert after == before; }
    }
  }

  /** The cached expiry is the least deadline of the live sessions considered, and absent only if there is none. */
  lemma {:induction false} MinExpiryIsLeast(
    order: seq<SessionId>, sessions: map<SessionId, Session>, skip: set<SessionId>)
    ensures var m := MinExpiry(order, sessions, skip);
            && (m.None? <==> forall id | id in order && id in sessions :: id in skip || !sessions[id].Live())
            && (m.Some? ==> exists id :: id in order && id in sessions && id !in skip
                              && sessions[id].Live() && sessions[id].Deadline() == m.value)
            && (m.Some? ==> forall id | id in order && id in sessions && id !in skip && sessions[id].Live() ::
                              m.value <= sessions[id].Deadline())
  {
    if order != [] {
      var last := order[|order| - 1];
      var init := order[..|order| - 1];
      MinExpiryIsLeast(init, sessions, skip);
      assert forall id :: id in order <==> id in init || id == last;
    }
  }

  // ---------- the event log ----------

  lemma LogAppended(
    events: seq<Event>, sessions: map<SessionId, Session>, unpublished: set<SessionId>, event: Event)
    requires LogInv(events, sessions, unpublished)
    requires event.Acceptable()
    requires event.kind == Created <==> event.session.id !in sessions
    requires event.kind == Ended <==> event.session.status == Dead
    ensures LogInv(events + [event], sessions[event.session.id := event.session], unpublished - {event.session.id})
  {
    var more := events + [event];
    assert more[..|more| - 1] == events;
  }

  lemma LogSkipped(events: seq<Event>, sessions: map<SessionId, Session>, unpublished: set<SessionId>, s: Session)
    requires LogInv(events, sessions, unpublished) && s.id in sessions
    ensures LogInv(events, sessions[s.id := s], unpublished + {s.id})
  {
  }

  lemma {:induction false} ReplayKnows(events: seq<Event>, id: SessionId)
    ensures id in Replay(events) <==> exists j :: 0 <= j < |events| && events[j].session.id == id
  {
    if events != [] {
      var n := |events| - 1;
      ReplayKnows(events[..n], id);
      assert forall j | 0 <= j < n :: events[..n][j] == events[j];
    }
  }

  /** The shape of a well-formed log by position: CREATED comes first and once, ENDED goes with DEAD. */
  lemma {:induction false} LogByPosition(events: seq<Event>, i: nat)
    requires WellFormedLog(events) && i < |events|
    ensures events[i].kind == Created <==> !exists j :: 0 <= j < i && events[j].session.id == events[i].session.id
    ensures events[i].kind == Ended <==> events[i].session.status == Dead
    ensures events[i].Acceptable()
  {
    var n := |events| - 1;
    if i < n {
      LogByPosition(events[..n], i);
      assert forall j | 0 <= j <= i :: events[..n][j] == events[j];
    } else {
      ReplayKnows(events[..n], events[n].session.id);
      assert forall j | 0 <= j < n :: events[..n][j] == events[j];
    }
  }
}
