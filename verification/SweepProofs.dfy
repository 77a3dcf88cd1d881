/** The idle reaper: what its scan collects and what an uninterrupted sweep does. */
module SweepProofs {
  import opened Domain
  import opened Runners
  import opened RunnerInvariants
  import opened TableProofs
  import opened UpdateProofs

  /** The scan collects each expired session once, in table order. */
  lemma {:induction false} ExpiredIdsExact(order: seq<SessionId>, sessions: map<SessionId, Session>, now: Instant)
    requires Distinct(order)
    ensures var ids := ExpiredIds(order, sessions, now);
            && Distinct(ids)
            && (forall id :: id in ids <==> id in order && id in sessions && Expired(sessions[id], now))
  {
    if order != [] {
      var n := |order| - 1;
      ExpiredIdsExact(order[..n], sessions, now);
      assert order == order[..n] + [order[n]];
      assert order[n] !in order[..n];
    }
  }

  /** A scan keeps the invariant; the expiry it caches is absent or later than `now`. */
  lemma ScanKeepsInv(cfg: Settings, r: Runner, now: Instant)
    requires RunnerInv(cfg, r)
    ensures var (q, ids) := Scan(r, now);
            && RunnerInv(cfg, q)
            && Distinct(ids)
            && (forall id :: id in ids <==> id in r.sessions && Expired(r.sessions[id], now))
            && (q.nextExpiry.Some? ==> q.nextExpiry.value > now)
            && q == r.(nextExpiry := q.nextExpiry, excluded := q.excluded)
  {
    hide CustodyInv;
    hide DisplaysInv;
    hide LinksInv;
    hide LogInv;
    hide PolicyInv;
    ExpiredIdsExact(r.order, r.sessions, now);
    var (q, ids) := Scan(r, now);
    MinExpiryIsLeast(r.order, r.sessions, q.excluded);
  }

  /** The sessions in `ids` became DEAD, ended at `now`; the others are as they were. */
  ghost predicate EndedExactly(
    before: map<SessionId, Session>, after: map<SessionId, Session>, ids: seq<SessionId>, now: Instant)
  {
    && after.Keys == before.Keys
    && (forall id | id in before && id !in ids :: after[id] == before[id])
    && (forall id | id in before && id in ids :: after[id].status == Dead && after[id].endedAt == Some(now))
  }

  lemma OneMoreEnded(
    before: map<SessionId, Session>, middle: map<SessionId, Session>, ids: seq<SessionId>, now: Instant, s: Session)
    requires ids != [] && Distinct(ids) && s.id == ids[|ids| - 1] && s.id in before
    requires EndedExactly(before, middle, ids[..|ids| - 1], now)
    requires s.status == Dead && s.endedAt == Some(now)
    ensures EndedExactly(before, middle[s.id := s], ids, now)
  {
    assert ids == ids[..|ids| - 1] + [s.id];
  }

  /** Ending the collected sessions one after the other; a failure stops after the sessions ended so far. */
  lemma {:induction false} EndAllExact(
    cfg: Settings, r: Runner, ids: seq<SessionId>, now: Instant, worlds: int -> UpdateWorld)
    requires RunnerInv(cfg, r) && Distinct(ids)
    requires forall id | id in ids :: id in r.sessions
    ensures var (q, result) := EndAll(cfg, r, ids, now, worlds);
            && (ids == [] ==> q == r)
            && (ids != [] ==> q.excluded == {})
            && (if result.Ok? then result.value == |ids| && EndedExactly(r.sessions, q.sessions, ids, now)
                else exists n :: 0 <= n <= |ids| && EndedExactly(r.sessions, q.sessions, ids[..n], now))
    ensures RunnerInv(cfg, EndAll(cfg, r, ids, now, worlds).0)
    decreases |ids|
  {
    hide RunnerInv;
    hide UpdateSession;
    hide AfterUpdate;
    hide EndUpdate;
    hide Settle;
    if ids != [] {
      hide EndedExactly;
      var n := |ids| - 1;
      var id := ids[n];
      EndAllExact(cfg, r, ids[..n], now, worlds);
      var (q, counted) := EndAll(cfg, r, ids[..n], now, worlds);
      if counted.Ok? {
        assert id in q.sessions by { EndedKeys(r.sessions, q.sessions, ids[..n], now); }
        var u := EndUpdate(Some(IDLE_TIMEOUT), Some(now));
        UpdateKeepsInv(cfg, q, id, u, worlds(n));
        EndedSession(q, id, Some(IDLE_TIMEOUT), Some(now), worlds(n));
        KeepsId(cfg, q, id, u, worlds(n));
        OneMoreEnded(r.sessions, q.sessions, ids, now, AfterUpdate(q, id, u, worlds(n)));
        assert ids[..|ids|] == ids;
      } else {
        var m :| 0 <= m <= |ids[..n]| && EndedExactly(r.sessions, q.sessions, ids[..n][..m], now);
        assert ids[..n][..m] == ids[..m];
      }
    }
  }

  lemma EndedKeys(before: map<SessionId, Session>, after: map<SessionId, Session>, ids: seq<SessionId>, now: Instant)
    requires EndedExactly(before, after, ids, now)
    ensures after.Keys == before.Keys
  {
  }

  lemma KeepsId(cfg: Settings, r: Runner, id: SessionId, u: Update, w: UpdateWorld)
    requires RunnerInv(cfg, r) && id in r.sessions
    ensures AfterUpdate(r, id, u, w).id == id
  {
    hide CustodyInv;
    hide DisplaysInv;
    hide LinksInv;
    hide LogInv;
  }

  ghost function NewlyDead(before: map<SessionId, Session>, after: map<SessionId, Session>): set<SessionId> {
    set id | id in before && id in after && before[id].Live() && !after[id].Live()
  }

  /** A session that is not DEAD and was last seen longer ago than its time to live. */
  predicate Overdue(s: Session, now: Instant) {
    s.status != Dead && s.lastSeenAt + s.idleTtl <= now
  }

  /**
   An uninterrupted sweep at `now` that meets no failure is exact: a live session becomes DEAD,
   ended at `now`, if and only if its deadline had passed; every other session is unchanged;
   the count is the number of transitions; the cached expiry is absent or later than `now`.
   */
  lemma SweepIsExact(cfg: Settings, r: Runner, now: Instant, worlds: int -> UpdateWorld)
    requires RunnerInv(cfg, r)
    ensures var (q, result) := Sweep(cfg, r, now, worlds);
            && q.sessions.Keys == r.sessions.Keys
            && (forall id | id in r.sessions && !Overdue(r.sessions[id], now) :: q.sessions[id] == r.sessions[id])
            && (result.Ok? ==>
                  && (forall id | id in r.sessions && Overdue(r.sessions[id], now) ::
                        q.sessions[id].status == Dead && q.sessions[id].endedAt == Some(now))
                  && result.value == |NewlyDead(r.sessions, q.sessions)|
                  && (q.nextExpiry.Some? ==> q.nextExpiry.value > now))
    ensures RunnerInv(cfg, Sweep(cfg, r, now, worlds).0)
  {
    hide RunnerInv;
    var (scanned, ids) := Scan(r, now);
    ScanKeepsInv(cfg, r, now);
    EndAllExact(cfg, scanned, ids, now, worlds);
    hide EndAll;
    var (q, result) := Sweep(cfg, r, now, worlds);
    if result.Ok? {
      SweptExpiry(cfg, q, now);
      assert NewlyDead(r.sessions, q.sessions) == ElementSet(ids);
      DistinctSize(ids);
    }
  }

  lemma SweptExpiry(cfg: Settings, q: Runner, now: Instant)
    requires RunnerInv(cfg, q)
    requires forall id | id in q.sessions :: !Expired(q.sessions[id], now)
    ensures q.nextExpiry.Some? ==> q.nextExpiry.value > now
  {
    hide CustodyInv;
    hide DisplaysInv;
    hide LinksInv;
    hide LogInv;
    hide PolicyInv;
    MinExpiryIsLeast(q.order, q.sessions, q.excluded);
  }
}
