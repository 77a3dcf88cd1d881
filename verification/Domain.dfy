/**
 Values shared by the runner's modules: sessions, their lifecycle events and the
 browsers the runner launches. An instant is an integer, an identifier produced by
 a random generator is a number that has not been used before.
 */
module Domain {
  datatype Option<+T> = None | Some(value: T)
  datatype Result<+T, +E> = Ok(value: T) | Err(error: E)

  type Instant = int
  type SessionId = nat
  type WorkstationId = string
  type BrowserId = nat
  type Flags = map<string, string>

  datatype Status = Init | Ready | Terminating | Dead

  datatype VncDetails = VncDetails(url: string, token: Option<string>, tokenTtl: Option<int>)

  datatype Session = Session(
    id: SessionId,
    status: Status,
    createdAt: Instant,
    lastSeenAt: Instant,
    endedAt: Option<Instant>,
    headless: bool,
    idleTtl: int,
    labels: map<string, string>,
    metadata: map<string, string>,
    flags: Flags,
    wsEndpoint: Option<string>,
    vnc: Option<VncDetails>,
    vncEnabled: Option<bool>,
    workstation: Option<WorkstationId>)
  {
    predicate Live() {
      status != Dead
    }

    /** The instant at which the idle reaper may end this session. */
    function Deadline(): Instant {
      lastSeenAt + idleTtl
    }
  }

  datatype EventKind = Created | Updated | Ended

  datatype Event = Event(kind: EventKind, session: Session, occurredAt: Instant, reason: Option<string>)
  {
    /** What the event model's validator accepts. */
    predicate Acceptable() {
      && (kind == Created ==> session.status in {Init, Ready})
      && (kind == Ended ==> session.status == Dead)
    }
  }

  /** Who launched a browser, and who asked it to shut down. */
  datatype Party = ByManager | ByPool

  /** One browser process: `shutBy` lists every shutdown request it received, in order. */
  datatype Browser = Browser(endpoint: string, flags: Flags, owner: Party, shutBy: seq<Party>)

  type Browsers = seq<Browser>

  predicate Running(bs: Browsers, id: BrowserId) {
    id < |bs| && bs[id].shutBy == []
  }

  /** No process is asked twice to stop, and only its owner ever asks. */
  ghost predicate ShutAtMostOnceByOwner(bs: Browsers) {
    forall id | 0 <= id < |bs| :: bs[id].shutBy == [] || bs[id].shutBy == [bs[id].owner]
  }

  /** Record a shutdown request; a number no process has is ignored. */
  function Shut(bs: Browsers, id: BrowserId, party: Party): (r: Browsers)
    ensures |r| == |bs|
    ensures forall other | 0 <= other < |bs| && other != id :: r[other] == bs[other]
  {
    if id < |bs| then bs[id := bs[id].(shutBy := bs[id].shutBy + [party])] else bs
  }

  /** `later` is `earlier` after work that only `party` did: nothing of the other party moved. */
  ghost predicate OnlyActed(earlier: Browsers, later: Browsers, party: Party) {
    && |earlier| <= |later|
    && (forall id | 0 <= id < |earlier| ::
          && later[id].endpoint == earlier[id].endpoint
          && later[id].flags == earlier[id].flags
          && later[id].owner == earlier[id].owner
          && (earlier[id].owner != party ==> later[id] == earlier[id]))
    && (forall id | |earlier| <= id < |later| :: later[id].owner == party)
  }

  lemma NothingActed(bs: Browsers, party: Party)
    ensures OnlyActed(bs, bs, party)
  {
  }

  lemma OnlyActedTwice(bs: Browsers, mid: Browsers, later: Browsers, party: Party)
    requires OnlyActed(bs, mid, party) && OnlyActed(mid, later, party)
    ensures OnlyActed(bs, later, party)
  {
  }

  ghost predicate Injective<K, V>(m: map<K, V>) {
    forall k, l | k in m && l in m && m[k] == m[l] :: k == l
  }

  ghost predicate Distinct<T>(s: seq<T>) {
    forall i, j | 0 <= i < j < |s| :: s[i] != s[j]
  }

  lemma {:induction false} DistinctSize<T>(s: seq<T>)
    requires Distinct(s)
    ensures |(set x | x in s)| == |s|
  {
    if s != [] {
      var n := |s| - 1;
      DistinctSize(s[..n]);
      assert (set x | x in s) == (set x | x in s[..n]) + {s[n]};
      assert s[n] !in s[..n];
    }
  }
}
