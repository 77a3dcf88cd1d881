/**
 The worker's job queue: an in-memory backend, the idempotency registry and the consumer that
 polls them, one message at a time. The values come first, the objects last.
 */
module JobQueues {
  import opened Domain

  /**
   A queued job. `serial` tells which enqueue call it came from and `first` the attempt number
   it was enqueued with; both are history. The job itself plays no part here.
   */
  datatype Message = Message(serial: nat, first: int, key: Option<string>, ttl: int, maxAttempts: int)
  {
    /** An empty key counts as none. */
    function Key(): Option<string> {
      if key == Some("") then None else key
    }

    /** What the message model's validator guarantees. */
    predicate Valid() {
      maxAttempts >= 1 && ttl >= 1
    }

    /** How often the message can be executed before it is rejected. */
    function Allowance(): int {
      (if first < maxAttempts then maxAttempts - first else 0) + 1
    }
  }

  datatype Envelope = Envelope(tag: nat, message: Message, attempt: int)

  /** What a producer hands to `enqueue`. */
  datatype Offer = Offer(key: Option<string>, ttl: int, maxAttempts: int, attempt: int)

  datatype Entry =
    | Started(message: Message, at: Instant)
    | Succeeded(message: Message, at: Instant)
    | Failed(message: Message)

  /** `at` is when a message was acknowledged. */
  datatype Fate = Acked(message: Message, at: Instant) | Rejected(message: Message)

  /**
   Backend, registry and metrics; `running` is the envelope the consumer is executing. The last
   four fields are history: enqueue calls so far, what became of each message, the executions,
   and the latest reading of the monotone clock.
   */
  datatype JobQueue = JobQueue(
    queue: seq<Envelope>, inflight: map<nat, Envelope>, running: Option<Envelope>, records: map<string, Instant>,
    executions: nat, successes: nat, retries: nat, drops: nat,
    issued: nat, fates: map<nat, Fate>, log: seq<Entry>, clock: Instant)

  function Empty(clock: Instant): JobQueue {
    JobQueue([], map[], None, map[], 0, 0, 0, 0, 0, map[], [], clock)
  }

  // ---------- the steps ----------

  function Enqueued(q: JobQueue, o: Offer): JobQueue {
    var message := Message(q.issued, o.attempt, o.key, o.ttl, o.maxAttempts);
    q.(queue := q.queue + [Envelope(|q.queue| + |q.inflight| + 1, message, o.attempt)], issued := q.issued + 1)
  }

  function EnqueuedAll(q: JobQueue, offers: seq<Offer>): JobQueue {
    if offers == [] then q else Enqueued(EnqueuedAll(q, offers[..|offers| - 1]), offers[|offers| - 1])
  }

  function Purged(records: map<string, Instant>, now: Instant): map<string, Instant> {
    map k | k in records && records[k] > now :: records[k]
  }

  /** Receive a message; skip it if its key has completed, else start executing it. */
  function Begun(q: JobQueue, now: Instant): JobQueue {
    if q.queue == [] then q.(clock := now)
    else
      var e := q.queue[0];
      var key := e.message.Key();
      var records := if key.Some? then Purged(q.records, now) else q.records;
      if key.Some? && key.value in records then
        q.(queue := q.queue[1..], inflight := q.inflight - {e.tag}, records := records, clock := now,
           fates := q.fates[e.message.serial := Acked(e.message, now)])
      else
        q.(queue := q.queue[1..], inflight := q.inflight[e.tag := e], running := Some(e),
           records := records, clock := now, log := q.log + [Started(e.message, now)])
  }

  /**
   The execution ends: acknowledge and mark, or put back for another attempt, or drop. Marking
   reads the clock twice, to purge at `now` and to compute the new expiry at `later`.
   */
  function Finished(q: JobQueue, ok: bool, now: Instant, later: Instant): JobQueue {
    if q.running.None? then q
    else
      var e := q.running.value;
      var m := e.message;
      var done := q.(running := None, inflight := q.inflight - {e.tag}, executions := q.executions + 1, clock := later);
      if ok then
        done.(successes := q.successes + 1, fates := q.fates[m.serial := Acked(m, later)],
              log := q.log + [Succeeded(m, later)], records := Marked(q.records, m, now, later))
      else if e.attempt >= m.maxAttempts then
        done.(drops := q.drops + 1, fates := q.fates[m.serial := Rejected(m)], log := q.log + [Failed(m)])
      else
        done.(retries := q.retries + 1, queue := q.queue + [Envelope(e.tag, m, e.attempt + 1)],
              log := q.log + [Failed(m)])
  }

  function Marked(records: map<string, Instant>, m: Message, now: Instant, later: Instant): map<string, Instant> {
    if m.Key().Some? then Purged(records, now)[m.Key().value := later + m.ttl] else records
  }

  /** One `poll_once`: what producers enqueue while the job runs, how it ends, and the clock. */
  datatype PollWorld = PollWorld(
    beganAt: Instant, arrivals: seq<Offer>, ok: bool, endedAt: Instant, markedAt: Instant)

  function Polled(q: JobQueue, w: PollWorld): JobQueue {
    var b := Begun(q, w.beganAt);
    if b.running.None? then b else Finished(EnqueuedAll(b, w.arrivals), w.ok, w.endedAt, w.markedAt)
  }

  // ---------- reading the history ----------

  function Runs(log: seq<Entry>, serial: nat): nat {
    if log == [] then 0
    else
      var last := log[|log| - 1];
      Runs(log[..|log| - 1], serial) + if last.Started? && last.message.serial == serial then 1 else 0
  }

  function Failures(log: seq<Entry>, serial: nat): nat {
    if log == [] then 0
    else
      var last := log[|log| - 1];
      Failures(log[..|log| - 1], serial) + if last.Failed? && last.message.serial == serial then 1 else 0
  }

  /** When the latest mark of `key` expires. */
  function LatestMark(log: seq<Entry>, key: string): Option<Instant> {
    if log == [] then None
    else
      var last := log[|log| - 1];
      if last.Succeeded? && last.message.Key() == Some(key) then Some(last.at + last.message.ttl)
      else LatestMark(log[..|log| - 1], key)
  }

  // ---------- what always holds ----------

  function SerialsOf(queue: seq<Envelope>): seq<nat> {
    seq(|queue|, i requires 0 <= i < |queue| => queue[i].message.serial)
  }

  /** The messages not disposed of: queued ones and the one being executed. */
  ghost function Pending(q: JobQueue): multiset<nat> {
    multiset(SerialsOf(q.queue)) + if q.running.Some? then multiset{q.running.value.message.serial} else multiset{}
  }

  ghost function AllSerials(issued: nat): (serials: set<nat>)
    ensures forall n: nat :: n in serials <==> n < issued
  {
    if issued == 0 then {} else AllSerials(issued - 1) + {issued - 1}
  }

  /** Conservation: each message ever enqueued is queued, in flight, acknowledged or rejected, exactly once. */
  ghost predicate Accounted(pending: multiset<nat>, decided: set<nat>, issued: nat) {
    pending + multiset(decided) == multiset(AllSerials(issued))
  }

  /** A pending message: its attempt number counts its failures, and it never ran more often than allowed. */
  ghost predicate PendingCounts(e: Envelope, log: seq<Entry>, isRunning: bool) {
    var m := e.message;
    && m.Valid()
    && e.attempt == m.first + Failures(log, m.serial)
    && Runs(log, m.serial) == Failures(log, m.serial) + (if isRunning then 1 else 0)
    && (e.attempt > m.first ==> e.attempt <= m.maxAttempts)
  }

  /** A rejected message failed exactly as often as it may run; an acknowledged one did not run more often. */
  ghost predicate FateCounts(f: Fate, log: seq<Entry>) {
    var m := f.message;
    && m.Valid()
    && Runs(log, m.serial) <= m.Allowance()
    && (f.Rejected? ==> Failures(log, m.serial) == m.Allowance() == Runs(log, m.serial))
    && (f.Acked? ==> Failures(log, m.serial) < m.Allowance())
  }

  ghost predicate CountsInv(q: JobQueue) {
    && (forall e | e in q.queue :: PendingCounts(e, q.log, false))
    && (q.running.Some? ==> PendingCounts(q.running.value, q.log, true))
    && (forall n | n in q.fates :: q.fates[n].message.serial == n && FateCounts(q.fates[n], q.log))
    && (forall i | 0 <= i < |q.log| :: q.log[i].message.serial < q.issued)
  }

  /** Nothing is in flight but the envelope being executed. */
  ghost predicate SingleConsumer(q: JobQueue) {
    q.inflight == if q.running.Some? then map[q.running.value.tag := q.running.value] else map[]
  }

  /** What the registry remembers is the latest mark of each key, except for expired ones. */
  ghost predicate RecordsInv(records: map<string, Instant>, log: seq<Entry>, clock: Instant) {
    && (forall k | k in records :: LatestMark(log, k) == Some(records[k]))
    && (forall k | k !in records && LatestMark(log, k).Some? :: LatestMark(log, k).value <= clock)
  }

  /** No execution starts before an earlier mark of its key has expired. */
  ghost predicate Spaced(log: seq<Entry>) {
    forall i, j | 0 <= i < j < |log| && log[i].Succeeded? && log[j].Started?
                  && log[i].message.Key().Some? && log[j].message.Key() == log[i].message.Key() ::
      log[j].at >= log[i].at + log[i].message.ttl
  }

  /** Later marks of a key expire no earlier. */
  ghost predicate MarksGrow(log: seq<Entry>) {
    forall i | 0 <= i < |log| && log[i].Succeeded? && log[i].message.Key().Some? ::
      LatestMark(log, log[i].message.Key().value).Some?
      && LatestMark(log, log[i].message.Key().value).value >= log[i].at + log[i].message.ttl
  }

  /** The key being executed, if any, has no mark that has not expired. */
  ghost predicate RunningUnmarked(q: JobQueue) {
    q.running.Some? && q.running.value.message.Key().Some? ==>
      var mark := LatestMark(q.log, q.running.value.message.Key().value);
      mark.Some? ==> mark.value <= q.clock
  }

  ghost predicate MarksInv(q: JobQueue) {
    RecordsInv(q.records, q.log, q.clock) && Spaced(q.log) && MarksGrow(q.log) && RunningUnmarked(q)
  }

  ghost predicate QueueInv(q: JobQueue) {
    && SingleConsumer(q)
    && Accounted(Pending(q), q.fates.Keys, q.issued)
    && CountsInv(q)
    && MarksInv(q)
    && q.executions == q.successes + q.retries + q.drops
  }

  // ---------- one step keeps it ----------

  lemma {:induction false} UnknownSerial(log: seq<Entry>, serial: nat)
    requires forall i | 0 <= i < |log| :: log[i].message.serial < serial
    ensures Runs(log, serial) == 0 && Failures(log, serial) == 0
  {
    if log != [] {
      UnknownSerial(log[..|log| - 1], serial);
    }
  }

  lemma SerialsAppended(queue: seq<Envelope>, e: Envelope)
    ensures multiset(SerialsOf(queue + [e])) == multiset(SerialsOf(queue)) + multiset{e.message.serial}
  {
    assert SerialsOf(queue + [e]) == SerialsOf(queue) + [e.message.serial];
  }

  lemma SerialsTaken(queue: seq<Envelope>)
    requires queue != []
    ensures multiset(SerialsOf(queue)) == multiset(SerialsOf(queue[1..])) + multiset{queue[0].message.serial}
  {
    assert SerialsOf(queue) == [queue[0].message.serial] + SerialsOf(queue[1..]);
  }

  lemma AccountedOneMore(pending: multiset<nat>, decided: set<nat>, issued: nat)
    requires Accounted(pending, decided, issued)
    ensures Accounted(pending + multiset{issued}, decided, issued + 1)
  {
    assert AllSerials(issued + 1) == AllSerials(issued) + {issued};
    assert multiset(AllSerials(issued + 1)) == multiset(AllSerials(issued)) + multiset{issued};
  }

  lemma Decide(pending: multiset<nat>, decided: set<nat>, issued: nat, serial: nat)
    requires Accounted(pending + multiset{serial}, decided, issued)
    ensures serial !in decided && serial !in pending && serial < issued
    ensures Accounted(pending, decided + {serial}, issued)
  {
    assert (pending + multiset{serial} + multiset(decided))[serial] == multiset(AllSerials(issued))[serial] <= 1;
  }

  lemma EnqueueKeepsInv(q: JobQueue, o: Offer)
    requires QueueInv(q) && o.maxAttempts >= 1 && o.ttl >= 1
    ensures QueueInv(Enqueued(q, o))
  {
    hide MarksInv;
    hide Accounted;
    hide SerialsOf;
    hide PendingCounts;
    hide FateCounts;
    hide AllSerials;
    var p := Enqueued(q, o);
    var e := p.queue[|q.queue|];
    SerialsAppended(q.queue, e);
    AccountedOneMore(Pending(q), q.fates.Keys, q.issued);
    assert Pending(p) == Pending(q) + multiset{e.message.serial};
    NewCounts(q, e);
    assert CountsInv(p);
    assert SingleConsumer(p);
    assert MarksInv(p) by { SameMarks(q, p); }
  }

  lemma SameMarks(q: JobQueue, p: JobQueue)
    requires MarksInv(q) && p.records == q.records && p.log == q.log && p.clock == q.clock && p.running == q.running
    ensures MarksInv(p)
  {
  }

  lemma NewCounts(q: JobQueue, e: Envelope)
    requires CountsInv(q) && e.message.serial == q.issued && e.message.Valid() && e.attempt == e.message.first
    ensures PendingCounts(e, q.log, false)
  {
    UnknownSerial(q.log, q.issued);
  }

  lemma LogAppended(log: seq<Entry>, x: Entry)
    ensures forall n :: Runs(log + [x], n) == Runs(log, n) + if x.Started? && x.message.serial == n then 1 else 0
    ensures forall n :: Failures(log + [x], n) == Failures(log, n) + if x.Failed? && x.message.serial == n then 1 else 0
    ensures forall k :: LatestMark(log + [x], k) ==
                        if x.Succeeded? && x.message.Key() == Some(k) then Some(x.at + x.message.ttl)
                        else LatestMark(log, k)
  {
    assert (log + [x])[..|log|] == log;
  }

  /** What happens to one message leaves the counts of the others alone. */
  lemma OthersKept(q: JobQueue, x: Entry, rest: seq<Envelope>)
    requires CountsInv(q) && x.message.serial < q.issued && x.message.serial !in q.fates
    requires forall e | e in rest :: e in q.queue && e.message.serial != x.message.serial
    ensures forall e | e in rest :: PendingCounts(e, q.log + [x], false)
    ensures forall n | n in q.fates :: q.fates[n].message.serial == n && FateCounts(q.fates[n], q.log + [x])
    ensures forall i | 0 <= i < |q.log + [x]| :: (q.log + [x])[i].message.serial < q.issued
  {
    LogAppended(q.log, x);
  }

  /** The serial of a pending message is nowhere else. */
  lemma SerialIsUnique(queue: seq<Envelope>, decided: set<nat>, issued: nat, serial: nat)
    requires Accounted(multiset(SerialsOf(queue)) + multiset{serial}, decided, issued)
    ensures serial < issued && serial !in decided
    ensures forall e | e in queue :: e.message.serial != serial
  {
    Decide(multiset(SerialsOf(queue)), decided, issued, serial);
    forall e | e in queue ensures e.message.serial != serial {
      var i :| 0 <= i < |queue| && queue[i] == e;
      assert SerialsOf(queue)[i] == e.message.serial && SerialsOf(queue)[i] in multiset(SerialsOf(queue));
    }
  }

  lemma AttemptsLeft(e: Envelope, log: seq<Entry>, isRunning: bool)
    requires PendingCounts(e, log, isRunning)
    ensures var m := e.message;
            && Failures(log, m.serial) < m.Allowance()
            && (e.attempt >= m.maxAttempts <==> Failures(log, m.serial) == m.Allowance() - 1)
  {
  }

  lemma RecordsPurged(records: map<string, Instant>, log: seq<Entry>, clock: Instant, now: Instant)
    requires RecordsInv(records, log, clock) && clock <= now
    ensures RecordsInv(Purged(records, now), log, now) && RecordsInv(records, log, now)
    ensures forall k :: k in Purged(records, now) <==> LatestMark(log, k).Some? && LatestMark(log, k).value > now
  {
  }

  lemma StartKeepsMarks(q: JobQueue, m: Message, now: Instant, records: map<string, Instant>)
    requires MarksInv(q) && q.clock <= now && RecordsInv(records, q.log, now)
    requires m.Key().Some? && LatestMark(q.log, m.Key().value).Some? ==> LatestMark(q.log, m.Key().value).value <= now
    ensures RecordsInv(records, q.log + [Started(m, now)], now)
    ensures Spaced(q.log + [Started(m, now)]) && MarksGrow(q.log + [Started(m, now)])
  {
    LogAppended(q.log, Started(m, now));
  }

  lemma FailureKeepsMarks(q: JobQueue, m: Message, now: Instant)
    requires MarksInv(q) && q.clock <= now
    ensures var log := q.log + [Failed(m)]; RecordsInv(q.records, log, now) && Spaced(log) && MarksGrow(log)
  {
    LogAppended(q.log, Failed(m));
  }

  lemma SuccessKeepsMarks(q: JobQueue, now: Instant, later: Instant)
    requires MarksInv(q) && q.clock <= now <= later && q.running.Some? && q.running.value.message.Valid()
    ensures var m := q.running.value.message; var log := q.log + [Succeeded(m, later)];
            Spaced(log) && MarksGrow(log) && RecordsInv(Marked(q.records, m, now, later), log, later)
  {
    var m := q.running.value.message;
    LogAppended(q.log, Succeeded(m, later));
    RecordsPurged(q.records, q.log, q.clock, now);
  }

  lemma SkipKeepsInv(q: JobQueue, now: Instant)
    requires QueueInv(q) && q.running.None? && q.clock <= now && q.queue != []
    requires q.queue[0].message.Key().Some? && q.queue[0].message.Key().value in Purged(q.records, now)
    ensures QueueInv(Begun(q, now))
  {
    hide Accounted;
    hide SerialsOf;
    hide Purged;
    hide RecordsInv;
    hide Spaced;
    hide MarksGrow;
    var e := q.queue[0];
    SerialsTaken(q.queue);
    assert Pending(q) == multiset(SerialsOf(q.queue[1..])) + multiset{e.message.serial};
    Decide(multiset(SerialsOf(q.queue[1..])), q.fates.Keys, q.issued, e.message.serial);
    RecordsPurged(q.records, q.log, q.clock, now);
    AttemptsLeft(e, q.log, false);
    var p := Begun(q, now);
    assert p.fates.Keys == q.fates.Keys + {e.message.serial};
    assert Pending(p) == multiset(SerialsOf(q.queue[1..]));
    assert p.inflight == map[];
  }

  lemma StartKeepsInv(q: JobQueue, now: Instant)
    requires QueueInv(q) && q.running.None? && q.clock <= now && q.queue != []
    requires q.queue[0].message.Key().Some? ==> q.queue[0].message.Key().value !in Purged(q.records, now)
    ensures QueueInv(Begun(q, now))
  {
    hide Accounted;
    hide SerialsOf;
    hide Purged;
    hide RecordsInv;
    hide Spaced;
    hide MarksGrow;
    hide FateCounts;
    var e := q.queue[0];
    var m := e.message;
    SerialsTaken(q.queue);
    assert Pending(q) == multiset(SerialsOf(q.queue[1..])) + multiset{m.serial};
    SerialIsUnique(q.queue[1..], q.fates.Keys, q.issued, m.serial);
    RecordsPurged(q.records, q.log, q.clock, now);
    var p := Begun(q, now);
    StartKeepsMarks(q, m, now, p.records);
    OthersKept(q, Started(m, now), q.queue[1..]);
    LogAppended(q.log, Started(m, now));
    assert p.inflight == map[e.tag := e];
    assert e in q.queue && PendingCounts(e, q.log, false);
  }

  lemma BegunKeepsInv(q: JobQueue, now: Instant)
    requires QueueInv(q) && q.running.None? && q.clock <= now
    ensures QueueInv(Begun(q, now))
  {
    if q.queue == [] {
      hide Accounted;
      hide CountsInv;
      RecordsPurged(q.records, q.log, q.clock, now);
    } else if q.queue[0].message.Key().Some? && q.queue[0].message.Key().value in Purged(q.records, now) {
      SkipKeepsInv(q, now);
    } else {
      StartKeepsInv(q, now);
    }
  }

  lemma FinishedKeepsInv(q: JobQueue, ok: bool, now: Instant, later: Instant)
    requires QueueInv(q) && q.running.Some? && q.clock <= now <= later
    ensures QueueInv(Finished(q, ok, now, later))
  {
    hide Accounted;
    hide SerialsOf;
    hide Marked;
    hide RecordsInv;
    hide Spaced;
    hide MarksGrow;
    var e := q.running.value;
    var m := e.message;
    SerialIsUnique(q.queue, q.fates.Keys, q.issued, m.serial);
    Decide(multiset(SerialsOf(q.queue)), q.fates.Keys, q.issued, m.serial);
    var p := Finished(q, ok, now, later);
    assert p.inflight == map[];
    FinishedCounts(q, ok, now, later);
    assert MarksInv(p) by {
      SuccessKeepsMarks(q, now, later);
      FailureKeepsMarks(q, m, later);
    }
    hide CountsInv;
    hide MarksInv;
    if !ok && e.attempt < m.maxAttempts {
      SerialsAppended(q.queue, Envelope(e.tag, m, e.attempt + 1));
      assert Pending(p) == Pending(q);
    } else {
      assert p.fates.Keys == q.fates.Keys + {m.serial};
      assert Pending(p) == multiset(SerialsOf(q.queue));
    }
  }

  lemma FinishedCounts(q: JobQueue, ok: bool, now: Instant, later: Instant)
    requires CountsInv(q) && q.running.Some?
    requires q.running.value.message.serial < q.issued && q.running.value.message.serial !in q.fates
    requires forall e | e in q.queue :: e.message.serial != q.running.value.message.serial
    ensures CountsInv(Finished(q, ok, now, later))
  {
    hide Marked;
    hide PendingCounts;
    hide FateCounts;
    var e := q.running.value;
    var m := e.message;
    OthersKept(q, if ok then Succeeded(m, later) else Failed(m), q.queue);
    FinishedCount(e, q.log, later);
  }

  /** What the end of its execution makes of a message's counts, in each of the three cases. */
  lemma FinishedCount(e: Envelope, log: seq<Entry>, now: Instant)
    requires PendingCounts(e, log, true)
    ensures var m := e.message;
            && FateCounts(Acked(m, now), log + [Succeeded(m, now)])
            && (e.attempt >= m.maxAttempts ==> FateCounts(Rejected(m), log + [Failed(m)]))
            && (e.attempt < m.maxAttempts ==>
                  PendingCounts(Envelope(e.tag, m, e.attempt + 1), log + [Failed(m)], false))
  {
    AttemptsLeft(e, log, true);
    LogAppended(log, Succeeded(e.message, now));
    LogAppended(log, Failed(e.message));
  }

  // ---------- termination ----------

  /** How many polls an envelope can still cost. */
  function Weight(e: Envelope): nat {
    (if e.attempt < e.message.maxAttempts then e.message.maxAttempts - e.attempt else 0) + 1
  }

  function Work(queue: seq<Envelope>): nat {
    if queue == [] then 0 else Work(queue[..|queue| - 1]) + Weight(queue[|queue| - 1])
  }

  function OfferedWork(offers: seq<Offer>): nat {
    if offers == [] then 0
    else
      var o := offers[|offers| - 1];
      OfferedWork(offers[..|offers| - 1])
      + Weight(Envelope(0, Message(0, o.attempt, o.key, o.ttl, o.maxAttempts), o.attempt))
  }

  lemma {:induction false} WorkTaken(queue: seq<Envelope>)
    requires queue != []
    ensures Work(queue) == Weight(queue[0]) + Work(queue[1..])
  {
    var n := |queue| - 1;
    if n > 0 {
      WorkTaken(queue[..n]);
      assert queue[1..][..n - 1] == queue[..n][1..];
    }
  }

  lemma WorkAdded(queue: seq<Envelope>, e: Envelope)
    ensures Work(queue + [e]) == Work(queue) + Weight(e)
  {
    assert (queue + [e])[..|queue|] == queue;
  }

  lemma {:induction false} EnqueuedAllWork(q: JobQueue, offers: seq<Offer>)
    ensures var p := EnqueuedAll(q, offers);
            && Work(p.queue) == Work(q.queue) + OfferedWork(offers)
            && p.running == q.running
            && p == q.(queue := p.queue, issued := p.issued)
  {
    if offers != [] {
      EnqueuedAllWork(q, offers[..|offers| - 1]);
      var p := EnqueuedAll(q, offers[..|offers| - 1]);
      WorkAdded(p.queue, Enqueued(p, offers[|offers| - 1]).queue[|p.queue|]);
    }
  }

  /** Every poll that finds a message uses up work: what is left is less than what there was and what came in. */
  lemma PollUsesWork(q: JobQueue, w: PollWorld)
    requires q.running.None? && q.queue != []
    ensures var p := Polled(q, w);
            && p.running.None?
            && Work(p.queue) < Work(q.queue) + OfferedWork(w.arrivals)
  {
    WorkTaken(q.queue);
    var b := Begun(q, w.beganAt);
    if b.running.Some? {
      EnqueuedAllWork(b, w.arrivals);
      var e, r := b.running.value, EnqueuedAll(b, w.arrivals);
      WorkAdded(r.queue, Envelope(e.tag, e.message, e.attempt + 1));
    }
  }

  /** `n` polls with no arrivals, the i-th ending as `worlds(i)` says. */
  function PolledTimes(q: JobQueue, worlds: nat -> PollWorld, n: nat): JobQueue {
    if n == 0 then q else Polled(PolledTimes(q, worlds, n - 1), worlds(n - 1).(arrivals := []))
  }

  /** Without arrivals, as many polls as there is work empty the queue, whatever the executor does. */
  lemma {:induction false} PollingDrains(q: JobQueue, worlds: nat -> PollWorld, n: nat)
    requires q.running.None?
    ensures var p := PolledTimes(q, worlds, n);
            p.running.None? && (p.queue == [] || Work(p.queue) + n <= Work(q.queue))
    ensures n >= Work(q.queue) ==> PolledTimes(q, worlds, n).queue == []
  {
    hide Polled;
    hide Work;
    if n > 0 {
      PollingDrains(q, worlds, n - 1);
      var p := PolledTimes(q, worlds, n - 1);
      if p.queue != [] {
        PollUsesWork(p, worlds(n - 1).(arrivals := []));
      } else {
        IdlePoll(p, worlds(n - 1).(arrivals := []));
      }
    }
    WorkIsPositive(PolledTimes(q, worlds, n).queue);
  }

  lemma IdlePoll(q: JobQueue, w: PollWorld)
    requires q.running.None? && q.queue == []
    ensures Polled(q, w).running.None? && Polled(q, w).queue == []
  {
  }

  lemma WorkIsPositive(queue: seq<Envelope>)
    ensures queue != [] ==> Work(queue) > 0
  {
  }

  // ---------- runs ----------

  datatype QueueAction =
    | DoEnqueue(offer: Offer)
    | DoBegin(began: Instant)
    | DoEnd(ok: bool, ended: Instant, marked: Instant)

  function QueueStep(q: JobQueue, a: QueueAction): JobQueue {
    match a
    case DoEnqueue(offer) => Enqueued(q, offer)
    case DoBegin(now) => Begun(q, now)
    case DoEnd(ok, now, later) => Finished(q, ok, now, later)
  }

  /** Valid messages, a monotone clock, and one consumer that finishes a message before it takes the next. */
  predicate QueueAllows(q: JobQueue, a: QueueAction) {
    match a
    case DoEnqueue(offer) => offer.maxAttempts >= 1 && offer.ttl >= 1
    case DoBegin(now) => q.running.None? && q.clock <= now
    case DoEnd(_, now, later) => q.running.Some? && q.clock <= now <= later
  }

  function QueueRun(q: JobQueue, actions: seq<QueueAction>): JobQueue
    decreases |actions|
  {
    if actions == [] then q else QueueRun(QueueStep(q, actions[0]), actions[1..])
  }

  predicate QueueAllowsAll(q: JobQueue, actions: seq<QueueAction>)
    decreases |actions|
  {
    actions == [] || (QueueAllows(q, actions[0]) && QueueAllowsAll(QueueStep(q, actions[0]), actions[1..]))
  }

  lemma QueueStepKeepsInv(q: JobQueue, a: QueueAction)
    requires QueueInv(q) && QueueAllows(q, a)
    ensures QueueInv(QueueStep(q, a))
  {
    hide QueueInv;
    match a
    case DoEnqueue(offer) => EnqueueKeepsInv(q, offer);
    case DoBegin(now) => BegunKeepsInv(q, now);
    case DoEnd(ok, now, later) => FinishedKeepsInv(q, ok, now, later);
  }

  lemma {:induction false} QueueRunKeepsInv(q: JobQueue, actions: seq<QueueAction>)
    requires QueueInv(q) && QueueAllowsAll(q, actions)
    ensures QueueInv(QueueRun(q, actions))
    decreases |actions|
  {
    hide QueueInv;
    hide QueueStep;
    if actions != [] {
      QueueStepKeepsInv(q, actions[0]);
      QueueRunKeepsInv(QueueStep(q, actions[0]), actions[1..]);
    }
  }

  lemma EmptyQueueInv(clock: Instant)
    ensures QueueInv(Empty(clock))
  {
    assert AllSerials(0) == {};
  }

  /**
   The life of a message, over every run from an empty queue: it is queued, in flight,
   acknowledged or rejected, exactly once; it runs at most as often as its allowance, which is
   `max_attempts` when it was enqueued at attempt 1; it is rejected only after failing exactly
   that often; and executions are successes, retries and drops.
   */
  lemma MessageLife(clock: Instant, actions: seq<QueueAction>, serial: nat)
    requires QueueAllowsAll(Empty(clock), actions)
    ensures var q := QueueRun(Empty(clock), actions);
            && (Pending(q)[serial] + (if serial in q.fates then 1 else 0)) == (if serial < q.issued then 1 else 0)
            && (serial in q.fates ==>
                  var m := q.fates[serial].message;
                  && m.serial == serial
                  && (m.first == 1 ==> m.Allowance() == m.maxAttempts)
                  && Runs(q.log, serial) <= m.Allowance()
                  && (q.fates[serial].Rejected? ==> Failures(q.log, serial) == m.Allowance()))
            && (forall e | e in q.queue && e.message.serial == serial :: Runs(q.log, serial) < e.message.Allowance())
            && (q.running.Some? && q.running.value.message.serial == serial ==>
                  1 <= Runs(q.log, serial) <= q.running.value.message.Allowance())
            && q.executions == q.successes + q.retries + q.drops
  {
    EmptyQueueInv(clock);
    QueueRunKeepsInv(Empty(clock), actions);
    var q := QueueRun(Empty(clock), actions);
    assert (Pending(q) + multiset(q.fates.Keys))[serial] == multiset(AllSerials(q.issued))[serial];
    forall e | e in q.queue ensures Runs(q.log, e.message.serial) < e.message.Allowance() {
      AttemptsLeft(e, q.log, false);
    }
    if q.running.Some? {
      AttemptsLeft(q.running.value, q.log, true);
    }
  }

  /**
   Idempotency: over every run, the registry's answer at any later time is that of the latest
   mark, and no execution with a key starts before an earlier success with that key has expired.
   */
  lemma IdempotencyWindow(clock: Instant, actions: seq<QueueAction>, key: string, now: Instant)
    requires QueueAllowsAll(Empty(clock), actions) && now >= QueueRun(Empty(clock), actions).clock
    ensures var q := QueueRun(Empty(clock), actions);
            && (key in Purged(q.records, now) <==> LatestMark(q.log, key).Some? && LatestMark(q.log, key).value > now)
            && Spaced(q.log)
  {
    EmptyQueueInv(clock);
    QueueRunKeepsInv(Empty(clock), actions);
    var q := QueueRun(Empty(clock), actions);
    RecordsPurged(q.records, q.log, q.clock, now);
  }

  // ---------- what each step is for ----------

  /** A key the consumer looks up: an empty one counts as none. */
  predicate Keyed(m: Message) {
    m.key.Some? && m.key.value != ""
  }

  /** The key of `m` was marked by a success, and the mark had not expired at `now`. */
  ghost predicate Covered(log: seq<Entry>, m: Message, now: Instant) {
    Keyed(m) && exists i :: MarkedBy(log, i, m) && log[i].at <= now < log[i].at + log[i].message.ttl
  }

  ghost predicate MarkedBy(log: seq<Entry>, i: int, m: Message) {
    0 <= i < |log| && log[i].Succeeded? && log[i].message.key == m.key
  }

  /** The log's instants do not lie ahead of the clock. */
  ghost predicate InThePast(log: seq<Entry>, clock: Instant) {
    forall i | 0 <= i < |log| && !log[i].Failed? :: log[i].at <= clock
  }

  lemma {:induction false} LatestMarkIsReal(log: seq<Entry>, m: Message) returns (i: int)
    requires Keyed(m) && LatestMark(log, m.key.value).Some?
    ensures MarkedBy(log, i, m) && LatestMark(log, m.key.value) == Some(log[i].at + log[i].message.ttl)
  {
    i := |log| - 1;
    if !MarkedBy(log, i, m) {
      i := LatestMarkIsReal(log[..i], m);
    }
  }

  lemma CoveredIff(q: JobQueue, m: Message, now: Instant)
    requires QueueInv(q) && InThePast(q.log, q.clock) && q.clock <= now && Keyed(m)
    ensures m.key.value in Purged(q.records, now) <==> Covered(q.log, m, now)
  {
    RecordsPurged(q.records, q.log, q.clock, now);
    if m.key.value in Purged(q.records, now) {
      var i := LatestMarkIsReal(q.log, m);
    }
    forall i | MarkedBy(q.log, i, m) && now < q.log[i].at + q.log[i].message.ttl
      ensures m.key.value in Purged(q.records, now)
    {
      assert q.log[i].message.Key() == Some(m.key.value);
    }
  }

  /**
   What a poll begins with: the message that waited longest. It is acknowledged without being run
   exactly when its key is covered by a mark that has not expired; otherwise its execution starts.
   */
  lemma BeginsWithOldest(q: JobQueue, now: Instant)
    requires QueueInv(q) && InThePast(q.log, q.clock) && q.running.None? && q.clock <= now && q.queue != []
    ensures var p := Begun(q, now); var e := q.queue[0];
            && p.queue == q.queue[1..] && p.issued == q.issued
            && (Covered(q.log, e.message, now) ==>
                  p.running.None? && p.log == q.log && p.fates == q.fates[e.message.serial := Acked(e.message, now)])
            && (!Covered(q.log, e.message, now) ==>
                  p.running == Some(e) && p.log == q.log + [Started(e.message, now)] && p.fates == q.fates)
  {
    var m := q.queue[0].message;
    if Keyed(m) {
      CoveredIff(q, m, now);
    }
    hide QueueInv;
    hide Purged;
  }

  /**
   What an execution ends with: a success is acknowledged and, with a key, covers it until its time
   to live is over; a failure is dropped at the last attempt, and otherwise goes behind all that wait.
   */
  lemma EndsAsRun(q: JobQueue, ok: bool, now: Instant, later: Instant)
    requires QueueInv(q) && InThePast(q.log, q.clock) && q.running.Some? && q.clock <= now <= later
    ensures var p := Finished(q, ok, now, later); var e := q.running.value; var m := e.message;
            && p.running.None? && p.issued == q.issued
            && (ok ==>
                  && p.queue == q.queue && p.fates == q.fates[m.serial := Acked(m, later)]
                  && p.log == q.log + [Succeeded(m, later)]
                  && (Keyed(m) ==> Covered(p.log, m, later) && m.key.value in p.records))
            && (!ok ==> p.log == q.log + [Failed(m)])
            && (!ok && e.attempt >= m.maxAttempts ==>
                  p.queue == q.queue && p.fates == q.fates[m.serial := Rejected(m)])
            && (!ok && e.attempt < m.maxAttempts ==>
                  p.queue == q.queue + [Envelope(e.tag, m, e.attempt + 1)] && p.fates == q.fates)
  {
    var m := q.running.value.message;
    if ok {
      assert MarkedBy(Finished(q, ok, now, later).log, |q.log|, m);
    }
  }

  // ---------- nothing is acknowledged without a reason ----------

  /** The message succeeded, or its key was covered when it was acknowledged. */
  ghost predicate Justified(log: seq<Entry>, f: Fate) {
    f.Acked? ==>
      || (exists i :: 0 <= i < |log| && log[i].Succeeded? && log[i].message == f.message)
      || Covered(log, f.message, f.at)
  }

  ghost predicate AcksJustified(q: JobQueue) {
    InThePast(q.log, q.clock) && forall n | n in q.fates :: Justified(q.log, q.fates[n])
  }

  lemma JustifiedLater(log: seq<Entry>, x: Entry, f: Fate)
    requires Justified(log, f)
    ensures Justified(log + [x], f)
  {
    var more := log + [x];
    assert forall i | 0 <= i < |log| :: more[i] == log[i];
    assert forall i | MarkedBy(log, i, f.message) :: MarkedBy(more, i, f.message);
  }

  lemma QueueStepKeepsAcks(q: JobQueue, a: QueueAction)
    requires QueueInv(q) && QueueAllows(q, a) && AcksJustified(q)
    ensures AcksJustified(QueueStep(q, a))
  {
    hide Justified;
    match a {
      case DoEnqueue(offer) =>
      case DoBegin(now) =>
        if q.queue != [] {
          BeginsWithOldest(q, now);
          var m := q.queue[0].message;
          assert Covered(q.log, m, now) ==> Justified(q.log, Acked(m, now)) by { CoveredIsJustified(q.log, m, now); }
          forall n | n in q.fates ensures Justified(q.log + [Started(m, now)], q.fates[n]) {
            JustifiedLater(q.log, Started(m, now), q.fates[n]);
          }
        }
      case DoEnd(ok, now, later) =>
        EndsAsRun(q, ok, now, later);
        var m := q.running.value.message;
        var x := if ok then Succeeded(m, later) else Failed(m);
        SuccessIsJustified(q.log, m, later);
        RejectionIsJustified(q.log + [x], m);
        forall n | n in q.fates ensures Justified(q.log + [x], q.fates[n]) {
          JustifiedLater(q.log, x, q.fates[n]);
        }
    }
  }

  lemma CoveredIsJustified(log: seq<Entry>, m: Message, now: Instant)
    ensures Covered(log, m, now) ==> Justified(log, Acked(m, now))
  {
  }

  lemma SuccessIsJustified(log: seq<Entry>, m: Message, at: Instant)
    ensures Justified(log + [Succeeded(m, at)], Acked(m, at))
  {
    assert (log + [Succeeded(m, at)])[|log|].message == m;
  }

  lemma RejectionIsJustified(log: seq<Entry>, m: Message)
    ensures Justified(log, Rejected(m))
  {
  }

  lemma {:induction false} QueueRunKeepsAcks(q: JobQueue, actions: seq<QueueAction>)
    requires QueueInv(q) && QueueAllowsAll(q, actions) && AcksJustified(q)
    ensures AcksJustified(QueueRun(q, actions))
    decreases |actions|
  {
    hide QueueInv;
    hide AcksJustified;
    if actions != [] {
      QueueStepKeepsInv(q, actions[0]);
      QueueStepKeepsAcks(q, actions[0]);
      QueueRunKeepsAcks(QueueStep(q, actions[0]), actions[1..]);
    }
  }

  /**
   No job is lost by an acknowledgement: over every run, a message that was acknowledged succeeded,
   or another message with its key had succeeded and the mark was alive when it was acknowledged.
   */
  lemma AckedForAReason(clock: Instant, actions: seq<QueueAction>, serial: nat)
    requires QueueAllowsAll(Empty(clock), actions)
    requires serial in QueueRun(Empty(clock), actions).fates && QueueRun(Empty(clock), actions).fates[serial].Acked?
    ensures var q := QueueRun(Empty(clock), actions); var f := q.fates[serial];
            || (exists i :: 0 <= i < |q.log| && q.log[i].Succeeded? && q.log[i].message == f.message)
            || Covered(q.log, f.message, f.at)
  {
    EmptyQueueInv(clock);
    QueueRunKeepsAcks(Empty(clock), actions);
  }

  // ---------- first come, first served ----------

  /** Waiting for its first run. */
  predicate Waits(e: Envelope) {
    e.attempt == e.message.first
  }

  /** Nothing that has begun, been decided or stands before it was offered later than `e`. */
  ghost predicate NotOvertaken(q: JobQueue, i: int)
    requires 0 <= i < |q.queue|
  {
    var serial := q.queue[i].message.serial;
    && (forall j | 0 <= j < |q.queue| && (j < i || !Waits(q.queue[j])) && j != i :: q.queue[j].message.serial < serial)
    && (q.running.Some? ==> q.running.value.message.serial < serial)
    && (forall k | 0 <= k < |q.log| :: q.log[k].message.serial < serial)
    && (forall n | n in q.fates :: n < serial)
  }

  /** Every serial was issued, and no attempt number is below the one the message came with. */
  ghost predicate Numbered(q: JobQueue) {
    && (forall e | e in q.queue :: e.message.serial < q.issued && e.attempt >= e.message.first)
    && (q.running.Some? ==>
          q.running.value.message.serial < q.issued && q.running.value.attempt >= q.running.value.message.first)
    && (forall k | 0 <= k < |q.log| :: q.log[k].message.serial < q.issued)
    && (forall n | n in q.fates :: n < q.issued)
  }

  ghost predicate Fair(q: JobQueue) {
    Numbered(q) && forall i | 0 <= i < |q.queue| && Waits(q.queue[i]) :: NotOvertaken(q, i)
  }

  lemma EnqueueKeepsFair(q: JobQueue, o: Offer)
    requires Fair(q)
    ensures Fair(Enqueued(q, o))
  {
    var p := Enqueued(q, o);
    forall i | 0 <= i < |p.queue| && Waits(p.queue[i]) ensures NotOvertaken(p, i) {
      assert forall j | 0 <= j < |q.queue| :: p.queue[j] == q.queue[j] && q.queue[j] in q.queue;
      if i < |q.queue| {
        assert NotOvertaken(q, i);
      }
    }
  }

  lemma BeginKeepsFair(q: JobQueue, now: Instant)
    requires Fair(q) && q.running.None?
    ensures Fair(Begun(q, now))
  {
    hide Purged;
    var p := Begun(q, now);
    if q.queue != [] {
      assert forall i | 0 <= i < |p.queue| :: p.queue[i] == q.queue[i + 1];
      assert q.queue[0] in q.queue;
      forall i | 0 <= i < |p.queue| && Waits(p.queue[i]) ensures NotOvertaken(p, i) {
        assert NotOvertaken(q, i + 1);
      }
    }
  }

  lemma EndKeepsFair(q: JobQueue, ok: bool, now: Instant, later: Instant)
    requires Fair(q)
    ensures Fair(Finished(q, ok, now, later))
  {
    hide Marked;
    hide Fair;
    if q.running.Some? {
      var p := Finished(q, ok, now, later);
      DecidedKeepsFair(q, p, p.log[|q.log|]);
    }
  }

  /** The running message is over, for good or until its next attempt. */
  lemma DecidedKeepsFair(q: JobQueue, p: JobQueue, x: Entry)
    requires Fair(q) && q.running.Some? && p.running.None? && p.issued == q.issued
    requires var e := q.running.value;
             && (p.queue == q.queue || p.queue == q.queue + [Envelope(e.tag, e.message, e.attempt + 1)])
             && p.log == q.log + [x] && x.message == e.message
             && p.fates.Keys <= q.fates.Keys + {e.message.serial}
    ensures Fair(p)
  {
    forall i | 0 <= i < |p.queue| && Waits(p.queue[i]) ensures NotOvertaken(p, i) {
      assert i < |q.queue| && p.queue[i] == q.queue[i];
      assert NotOvertaken(q, i);
    }
  }

  lemma QueueStepKeepsFair(q: JobQueue, a: QueueAction)
    requires Fair(q) && (a.DoBegin? ==> q.running.None?)
    ensures Fair(QueueStep(q, a))
  {
    hide Fair;
    match a
    case DoEnqueue(offer) => EnqueueKeepsFair(q, offer);
    case DoBegin(now) => BeginKeepsFair(q, now);
    case DoEnd(ok, now, later) => EndKeepsFair(q, ok, now, later);
  }

  lemma {:induction false} QueueRunKeepsFair(q: JobQueue, actions: seq<QueueAction>)
    requires Fair(q) && QueueAllowsAll(q, actions)
    ensures Fair(QueueRun(q, actions))
    decreases |actions|
  {
    hide Fair;
    hide QueueStep;
    if actions != [] {
      QueueStepKeepsFair(q, actions[0]);
      QueueRunKeepsFair(QueueStep(q, actions[0]), actions[1..]);
    }
  }

  /**
   Messages get their first run in the order they were offered: over every run, whatever has begun,
   been decided or stands before it was offered before a message that still waits for its first run.
   */
  lemma FirstComeFirstServed(clock: Instant, actions: seq<QueueAction>, i: int)
    requires QueueAllowsAll(Empty(clock), actions)
    requires 0 <= i < |QueueRun(Empty(clock), actions).queue| && Waits(QueueRun(Empty(clock), actions).queue[i])
    ensures NotOvertaken(QueueRun(Empty(clock), actions), i)
  {
    QueueRunKeepsFair(Empty(clock), actions);
  }

  // ---------- messages are what was offered ----------

  function Offered(actions: seq<QueueAction>): seq<Offer>
    decreases |actions|
  {
    if actions == [] then []
    else (if actions[0].DoEnqueue? then [actions[0].offer] else []) + Offered(actions[1..])
  }

  /** The message carries what the call numbered by its serial offered. */
  predicate Carries(m: Message, offers: seq<Offer>) {
    && m.serial < |offers|
    && var o := offers[m.serial];
       m.key == o.key && m.ttl == o.ttl && m.maxAttempts == o.maxAttempts && m.first == o.attempt
  }

  ghost predicate Genuine(q: JobQueue, offers: seq<Offer>) {
    && q.issued == |offers|
    && (forall e | e in q.queue :: Carries(e.message, offers))
    && (q.running.Some? ==> Carries(q.running.value.message, offers))
    && (forall n | n in q.fates :: Carries(q.fates[n].message, offers))
    && (forall i | 0 <= i < |q.log| :: Carries(q.log[i].message, offers))
  }

  lemma CarriesMore(m: Message, offers: seq<Offer>, more: seq<Offer>)
    requires Carries(m, offers)
    ensures Carries(m, offers + more)
  {
  }

  lemma QueueStepKeepsGenuine(q: JobQueue, a: QueueAction, offers: seq<Offer>)
    requires Genuine(q, offers)
    ensures Genuine(QueueStep(q, a), offers + if a.DoEnqueue? then [a.offer] else [])
  {
    var more := offers + if a.DoEnqueue? then [a.offer] else [];
    forall m: Message | Carries(m, offers) ensures Carries(m, more) {
      CarriesMore(m, offers, if a.DoEnqueue? then [a.offer] else []);
    }
    if a.DoEnqueue? {
      assert Carries(Message(q.issued, a.offer.attempt, a.offer.key, a.offer.ttl, a.offer.maxAttempts), more);
    }
    hide Carries;
    hide Purged;
  }

  /**
   Over every run each message, wherever it is, carries the key, time to live, attempt number and
   allowance of one enqueue call, each call its own; and as many were issued as calls were made.
   */
  lemma {:induction false} MessagesAreOffers(q: JobQueue, actions: seq<QueueAction>, offers: seq<Offer>)
    requires Genuine(q, offers)
    ensures Genuine(QueueRun(q, actions), offers + Offered(actions))
    decreases |actions|
  {
    hide Genuine;
    hide QueueStep;
    hide Offered;
    if actions == [] {
      NothingOffered();
      assert offers + [] == offers;
    } else {
      var one := if actions[0].DoEnqueue? then [actions[0].offer] else [];
      QueueStepKeepsGenuine(q, actions[0], offers);
      MessagesAreOffers(QueueStep(q, actions[0]), actions[1..], offers + one);
      OfferedFirst(actions);
      assert offers + one + Offered(actions[1..]) == offers + (one + Offered(actions[1..]));
    }
  }

  lemma NothingOffered()
    ensures Offered([]) == []
  {
  }

  lemma OfferedFirst(actions: seq<QueueAction>)
    requires actions != []
    ensures Offered(actions)
            == (if actions[0].DoEnqueue? then [actions[0].offer] else []) + Offered(actions[1..])
  {
  }

  /** From an empty queue, the offers are exactly those of the run. */
  lemma EveryMessageWasOffered(clock: Instant, actions: seq<QueueAction>)
    ensures Genuine(QueueRun(Empty(clock), actions), Offered(actions))
  {
    assert Genuine(Empty(clock), []);
    MessagesAreOffers(Empty(clock), actions, []);
    assert [] + Offered(actions) == Offered(actions);
  }

  // ---------- the objects ----------

  /** `issued` is history: it numbers the enqueue calls. */
  class InMemoryQueueBackend {
    var queue: seq<Envelope>
    var inflight: map<nat, Envelope>
    var issued: nat

    constructor ()
      ensures queue == [] && inflight == map[] && issued == 0
    {
      queue, inflight, issued := [], map[], 0;
    }

    method Enqueue(offer: Offer) returns (e: Envelope)
      modifies this
      ensures e == Envelope(|old(queue)| + |old(inflight)| + 1,
                            Message(old(issued), offer.attempt, offer.key, offer.ttl, offer.maxAttempts), offer.attempt)
      ensures queue == old(queue) + [e] && inflight == old(inflight) && issued == old(issued) + 1
    {
      e := Envelope(|queue| + |inflight| + 1,
                    Message(issued, offer.attempt, offer.key, offer.ttl, offer.maxAttempts), offer.attempt);
      queue := queue + [e];
      issued := issued + 1;
    }

    method Receive() returns (e: Option<Envelope>)
      modifies `queue, `inflight
      ensures old(queue) == [] ==> e.None? && queue == [] && inflight == old(inflight)
      ensures old(queue) != [] ==>
                && e == Some(old(queue)[0]) && queue == old(queue)[1..]
                && inflight == old(inflight)[old(queue)[0].tag := old(queue)[0]]
    {
      if queue == [] {
        return None;
      }
      var head := queue[0];
      queue := queue[1..];
      inflight := inflight[head.tag := head];
      e := Some(head);
    }

    /** Acknowledge and reject do the same to the backend; they differ in what is reported. */
    method Settle(e: Envelope)
      modifies `inflight
      ensures inflight == old(inflight) - {e.tag}
    {
      inflight := inflight - {e.tag};
    }

    method Requeue(e: Envelope)
      modifies `queue, `inflight
      ensures inflight == old(inflight) - {e.tag} && queue == old(queue) + [Envelope(e.tag, e.message, e.attempt + 1)]
    {
      inflight := inflight - {e.tag};
      queue := queue + [Envelope(e.tag, e.message, e.attempt + 1)];
    }
  }

  class IdempotencyRegistry {
    var records: map<string, Instant>

    constructor ()
      ensures records == map[]
    {
      records := map[];
    }

    method Purge(now: Instant)
      modifies this
      ensures records == Purged(old(records), now)
    {
      var expired := set k | k in records && records[k] <= now;
      records := records - expired;
    }

    method IsCompleted(key: string, now: Instant) returns (completed: bool)
      modifies this
      ensures records == Purged(old(records), now) && (completed <==> key in records)
    {
      Purge(now);
      completed := key in records;
    }

    /** The clock is read at `now` for the purge and at `later` for the expiry. */
    method MarkCompleted(key: string, ttl: int, now: Instant, later: Instant)
      modifies this
      ensures records == Purged(old(records), now)[key := later + ttl]
    {
      Purge(now);
      records := records[key := later + ttl];
    }
  }

  class JobQueueConsumer {
    const backend: InMemoryQueueBackend
    const registry: IdempotencyRegistry
    var executions: nat
    var successes: nat
    var retries: nat
    var drops: nat
    ghost var running: Option<Envelope>
    ghost var fates: map<nat, Fate>
    ghost var log: seq<Entry>
    ghost var clock: Instant

    ghost function State(): JobQueue
      reads this, backend, registry
    {
      JobQueue(backend.queue, backend.inflight, running, registry.records, executions, successes, retries, drops,
               backend.issued, fates, log, clock)
    }

    constructor (backend: InMemoryQueueBackend, registry: IdempotencyRegistry, now: Instant)
      ensures this.backend == backend && this.registry == registry
      ensures State() == JobQueue(backend.queue, backend.inflight, None, registry.records, 0, 0, 0, 0,
                                  backend.issued, map[], [], now)
    {
      this.backend, this.registry := backend, registry;
      executions, successes, retries, drops := 0, 0, 0, 0;
      running, fates, log, clock := None, map[], [], now;
    }

    /** `poll_once`. */
    method PollOnce(w: PollWorld) returns (processed: bool)
      requires running.None?
      modifies this, backend, registry
      ensures State() == Polled(old(State()), w) && (processed <==> old(backend.queue) != [])
    {
      hide Begun;
      hide EnqueuedAll;
      hide Finished;
      var received := BeginPoll(w.beganAt);
      if received.None? {
        return false;
      }
      processed := true;
      if received.value.1 {
        Accept(w.arrivals);
        EndPoll(received.value.0, w.ok, w.endedAt, w.markedAt);
      }
    }

    /** Receive; the flag tells whether the message is to be executed. */
    method BeginPoll(now: Instant) returns (received: Option<(Envelope, bool)>)
      requires running.None?
      modifies this, backend, registry
      ensures State() == Begun(old(State()), now) == QueueStep(old(State()), DoBegin(now))
      ensures (received.None? <==> old(backend.queue) == [])
      ensures running == if received.Some? && received.value.1 then Some(received.value.0) else None
    {
      clock := now;
      var e := backend.Receive();
      if e.None? {
        return None;
      }
      var key := e.value.message.Key();
      if key.Some? {
        var completed := registry.IsCompleted(key.value, now);
        if completed {
          SkipMessage(e.value, now);
          return Some((e.value, false));
        }
      }
      running := e;
      log := log + [Started(e.value.message, now)];
      received := Some((e.value, true));
    }

    method SkipMessage(e: Envelope, ghost now: Instant)
      modifies `fates, backend`inflight
      ensures State() == old(State()).(inflight := old(backend.inflight) - {e.tag},
                                       fates := old(fates)[e.message.serial := Acked(e.message, now)])
    {
      backend.Settle(e);
      fates := fates[e.message.serial := Acked(e.message, now)];
    }

    /** Producers enqueue while the consumer awaits its executor. */
    method Accept(offers: seq<Offer>)
      modifies backend
      ensures State() == EnqueuedAll(old(State()), offers)
    {
      for i := 0 to |offers|
        invariant State() == EnqueuedAll(old(State()), offers[..i])
      {
        assert offers[..i + 1][..i] == offers[..i];
        var added := backend.Enqueue(offers[i]);
      }
      assert offers[..|offers|] == offers;
    }

    method EndPoll(e: Envelope, ok: bool, now: Instant, later: Instant)
      requires running == Some(e)
      modifies this, backend, registry
      ensures State() == Finished(old(State()), ok, now, later) == QueueStep(old(State()), DoEnd(ok, now, later))
      ensures running.None?
    {
      running := None;
      executions := executions + 1;
      clock := later;
      if ok {
        HandleSuccess(e, now, later);
      } else {
        HandleFailure(e);
      }
    }

    method HandleSuccess(e: Envelope, now: Instant, later: Instant)
      modifies `successes, `fates, `log, backend`inflight, registry
      ensures State() == old(State()).(
                inflight := old(backend.inflight) - {e.tag}, successes := old(successes) + 1,
                fates := old(fates)[e.message.serial := Acked(e.message, later)],
                log := old(log) + [Succeeded(e.message, later)],
                records := Marked(old(registry.records), e.message, now, later))
    {
      backend.Settle(e);
      var key := e.message.Key();
      if key.Some? {
        registry.MarkCompleted(key.value, e.message.ttl, now, later);
      }
      successes := successes + 1;
      fates := fates[e.message.serial := Acked(e.message, later)];
      log := log + [Succeeded(e.message, later)];
    }

    method HandleFailure(e: Envelope)
      modifies `retries, `drops, `fates, `log, backend`queue, backend`inflight
      ensures var q := old(State()).(
                         inflight := old(backend.inflight) - {e.tag}, log := old(log) + [Failed(e.message)]);
              State() == if e.attempt >= e.message.maxAttempts
                then q.(drops := q.drops + 1, fates := q.fates[e.message.serial := Rejected(e.message)])
                else q.(retries := q.retries + 1, queue := q.queue + [Envelope(e.tag, e.message, e.attempt + 1)])
    {
      log := log + [Failed(e.message)];
      if e.attempt >= e.message.maxAttempts {
        backend.Settle(e);
        drops := drops + 1;
        fates := fates[e.message.serial := Rejected(e.message)];
        return;
      }
      retries := retries + 1;
      backend.Requeue(e);
    }
  }
}
