/**
 The in-memory fan-out of session events to WebSocket subscribers: one queue per subscriber
 and a one-event cache for those that reconnect.
 */
module EventBridges {
  import opened Domain

  type Subscriber = nat

  /**
   The bridge and its history: every event published, what each subscriber has received, and
   the stretch of the log it is entitled to (`stop` for those that have left).
   */
  datatype Bridge<E> = Bridge(
    subscribers: set<Subscriber>, queues: map<Subscriber, seq<E>>, latest: Option<E>, next: Subscriber,
    log: seq<E>, delivered: map<Subscriber, seq<E>>, start: map<Subscriber, nat>, stop: map<Subscriber, nat>)

  function Quiet<E>(): Bridge<E> {
    Bridge({}, map[], None, 0, [], map[], map[], map[])
  }

  function PutAll<E>(queues: map<Subscriber, seq<E>>, to: set<Subscriber>, e: E): map<Subscriber, seq<E>> {
    map s | s in queues :: if s in to then queues[s] + [e] else queues[s]
  }

  function Published<E>(b: Bridge<E>, e: E): Bridge<E> {
    b.(queues := PutAll(b.queues, b.subscribers, e), latest := Some(e), log := b.log + [e])
  }

  function Subscribed<E>(b: Bridge<E>, replayLatest: bool): Bridge<E> {
    var replay := if replayLatest && b.latest.Some? then [b.latest.value] else [];
    b.(subscribers := b.subscribers + {b.next}, queues := b.queues[b.next := replay], next := b.next + 1,
       delivered := b.delivered[b.next := []],
       start := b.start[b.next := if |replay| <= |b.log| then |b.log| - |replay| else 0])
  }

  /** The subscriber takes its oldest event; one whose queue is empty waits. */
  function Received<E>(b: Bridge<E>, s: Subscriber): Bridge<E> {
    if s in b.subscribers && s in b.queues && s in b.delivered && b.queues[s] != [] then
      b.(queues := b.queues[s := b.queues[s][1..]], delivered := b.delivered[s := b.delivered[s] + [b.queues[s][0]]])
    else b
  }

  function Unsubscribed<E>(b: Bridge<E>, s: Subscriber): Bridge<E> {
    if s in b.subscribers then b.(subscribers := b.subscribers - {s}, stop := b.stop[s := |b.log|]) else b
  }

  /** Up to where in the log a subscriber is served. */
  function Stop<E>(b: Bridge<E>, s: Subscriber): nat {
    if s in b.stop then b.stop[s] else |b.log|
  }

  /** What a subscriber got and still has queued is one stretch of the log: no gap, no duplicate, no reordering. */
  ghost predicate Exact<E>(b: Bridge<E>, s: Subscriber) {
    && s in b.start && s in b.delivered && s in b.queues
    && b.start[s] <= Stop(b, s) <= |b.log|
    && b.delivered[s] + b.queues[s] == b.log[b.start[s]..Stop(b, s)]
  }

  /** The subscribers numbered below `next`. */
  ghost function Joined(next: Subscriber): (joined: set<Subscriber>)
    ensures forall s | s in joined :: s < next
  {
    if next == 0 then {} else Joined(next - 1) + {next - 1}
  }

  ghost predicate BridgeInv<E>(b: Bridge<E>) {
    && b.latest == (if b.log == [] then None else Some(b.log[|b.log| - 1]))
    && b.queues.Keys == Joined(b.next) && b.start.Keys == b.queues.Keys && b.delivered.Keys == b.queues.Keys
    && b.subscribers == b.queues.Keys - b.stop.Keys && b.stop.Keys <= b.queues.Keys
    && (forall s | s in b.queues :: Exact(b, s))
  }

  lemma JoinedOneMore(next: Subscriber)
    ensures Joined(next + 1) == Joined(next) + {next} && next !in Joined(next)
  {
  }

  lemma PublishKeepsInv<E>(b: Bridge<E>, e: E)
    requires BridgeInv(b)
    ensures BridgeInv(Published(b, e))
  {
    hide Joined;
    hide Exact;
    var q := Published(b, e);
    assert q.queues.Keys == b.queues.Keys;
    forall s | s in b.queues ensures Exact(q, s) {
      PublishedExact(b, e, s);
    }
  }

  lemma PublishedExact<E>(b: Bridge<E>, e: E, s: Subscriber)
    requires Exact(b, s) && (s in b.subscribers <==> s !in b.stop)
    ensures Exact(Published(b, e), s)
  {
    if s in b.subscribers {
      assert b.delivered[s] + (b.queues[s] + [e]) == (b.delivered[s] + b.queues[s]) + [e];
    }
  }

  /** A subscriber starts at the end of the log, or at its last event when it asks for the replay. */
  lemma SubscribeKeepsInv<E>(b: Bridge<E>, replayLatest: bool)
    requires BridgeInv(b)
    ensures var q := Subscribed(b, replayLatest);
            && BridgeInv(q)
            && b.next !in b.queues
            && q.start == b.start[b.next := |b.log| - (if replayLatest && b.log != [] then 1 else 0)]
  {
    hide Joined;
    hide Exact;
    JoinedOneMore(b.next);
    SubscribeKeepsKeys(b, replayLatest);
    var q := Subscribed(b, replayLatest);
    forall s | s in b.queues ensures Exact(q, s) {
      OthersUnaffected(b, replayLatest, s);
    }
    NewSubscriberExact(b, replayLatest);
  }

  lemma SubscribeKeepsKeys<E>(b: Bridge<E>, replayLatest: bool)
    requires BridgeInv(b) && b.next !in b.queues
    ensures var q := Subscribed(b, replayLatest);
            && q.queues.Keys == b.queues.Keys + {b.next}
            && q.start.Keys == q.queues.Keys && q.delivered.Keys == q.queues.Keys
            && q.subscribers == q.queues.Keys - q.stop.Keys && q.stop.Keys <= q.queues.Keys
  {
    hide Joined;
    hide Exact;
  }

  lemma OthersUnaffected<E>(b: Bridge<E>, replayLatest: bool, s: Subscriber)
    requires Exact(b, s) && s != b.next
    ensures Exact(Subscribed(b, replayLatest), s)
  {
  }

  lemma NewSubscriberExact<E>(b: Bridge<E>, replayLatest: bool)
    requires b.latest == (if b.log == [] then None else Some(b.log[|b.log| - 1])) && b.next !in b.stop
    ensures Exact(Subscribed(b, replayLatest), b.next)
    ensures var from := |b.log| - (if replayLatest && b.log != [] then 1 else 0);
            Subscribed(b, replayLatest).start == b.start[b.next := from]
  {
  }

  lemma ReceiveKeepsInv<E>(b: Bridge<E>, s: Subscriber)
    requires BridgeInv(b)
    ensures BridgeInv(Received(b, s))
  {
    hide Joined;
    hide Exact;
    var q := Received(b, s);
    assert q.queues.Keys == b.queues.Keys && q.delivered.Keys == b.delivered.Keys;
    forall t | t in b.queues ensures Exact(q, t) {
      ReceivedExact(b, s, t);
    }
  }

  lemma ReceivedExact<E>(b: Bridge<E>, s: Subscriber, t: Subscriber)
    requires Exact(b, t)
    ensures Exact(Received(b, s), t)
  {
    if t == s && Received(b, s) != b {
      assert b.delivered[s] + b.queues[s] == (b.delivered[s] + [b.queues[s][0]]) + b.queues[s][1..];
    }
  }

  lemma UnsubscribeKeepsInv<E>(b: Bridge<E>, s: Subscriber)
    requires BridgeInv(b)
    ensures BridgeInv(Unsubscribed(b, s))
  {
    hide Joined;
    hide Exact;
    var q := Unsubscribed(b, s);
    forall t | t in b.queues ensures Exact(q, t) {
      UnsubscribedExact(b, s, t);
    }
  }

  lemma UnsubscribedExact<E>(b: Bridge<E>, s: Subscriber, t: Subscriber)
    requires Exact(b, t) && (s in b.subscribers ==> s !in b.stop)
    ensures Exact(Unsubscribed(b, s), t)
  {
  }

  datatype BridgeAction<E> =
    | DoPublish(event: E)
    | DoSubscribe(replayLatest: bool)
    | DoReceive(taker: Subscriber)
    | DoUnsubscribe(leaver: Subscriber)

  function BridgeStep<E>(b: Bridge<E>, a: BridgeAction<E>): Bridge<E> {
    match a
    case DoPublish(e) => Published(b, e)
    case DoSubscribe(replayLatest) => Subscribed(b, replayLatest)
    case DoReceive(s) => Received(b, s)
    case DoUnsubscribe(s) => Unsubscribed(b, s)
  }

  function BridgeRun<E>(b: Bridge<E>, actions: seq<BridgeAction<E>>): Bridge<E>
    decreases |actions|
  {
    if actions == [] then b else BridgeRun(BridgeStep(b, actions[0]), actions[1..])
  }

  /** The log only grows, and where a subscriber starts or stops is settled once. */
  ghost predicate Continues<E>(b: Bridge<E>, q: Bridge<E>) {
    && b.log <= q.log
    && b.next <= q.next
    && (forall s | s in b.start :: s in q.start && q.start[s] == b.start[s])
    && (forall s | s in b.stop :: s in q.stop && q.stop[s] == b.stop[s])
  }

  lemma BridgeStepKeepsInv<E>(b: Bridge<E>, a: BridgeAction<E>)
    requires BridgeInv(b)
    ensures BridgeInv(BridgeStep(b, a)) && Continues(b, BridgeStep(b, a))
  {
    hide BridgeInv;
    KnownSubscribers(b);
    match a
    case DoPublish(e) => PublishKeepsInv(b, e);
    case DoSubscribe(replayLatest) => SubscribeKeepsInv(b, replayLatest);
    case DoReceive(s) => ReceiveKeepsInv(b, s);
    case DoUnsubscribe(s) => UnsubscribeKeepsInv(b, s);
  }

  lemma {:induction false} BridgeRunKeepsInv<E>(b: Bridge<E>, actions: seq<BridgeAction<E>>)
    requires BridgeInv(b)
    ensures BridgeInv(BridgeRun(b, actions)) && Continues(b, BridgeRun(b, actions))
    decreases |actions|
  {
    hide BridgeInv;
    if actions != [] {
      BridgeStepKeepsInv(b, actions[0]);
      BridgeRunKeepsInv(BridgeStep(b, actions[0]), actions[1..]);
    }
  }

  /**
   For every run before and after it subscribes, a subscriber has received a contiguous
   stretch of the log that begins where it joined (one earlier with replay); while it stays,
   the rest of that stretch up to the newest event is in its queue. Positions in the log are
   the same for all subscribers, so all see the same order.
   */
  lemma SubscriberSeesSuffix<E>(
    before: seq<BridgeAction<E>>, replayLatest: bool, after: seq<BridgeAction<E>>)
    ensures var joined := BridgeRun(Quiet<E>(), before); var s := joined.next;
            var q := BridgeRun(Subscribed(joined, replayLatest), after);
            var from := |joined.log| - (if replayLatest && joined.log != [] then 1 else 0);
            && joined.log <= q.log
            && s in q.delivered && s in q.queues
            && from + |q.delivered[s]| <= |q.log|
            && q.delivered[s] == q.log[from..from + |q.delivered[s]|]
            && (s in q.subscribers ==> q.queues[s] == q.log[from + |q.delivered[s]|..])
  {
    hide BridgeInv;
    hide Exact;
    hide Subscribed;
    hide BridgeRun;
    var joined := BridgeRun(Quiet<E>(), before);
    QuietInv<E>();
    BridgeRunKeepsInv(Quiet<E>(), before);
    SubscribeKeepsInv(joined, replayLatest);
    BridgeRunKeepsInv(Subscribed(joined, replayLatest), after);
    ServedStretch(BridgeRun(Subscribed(joined, replayLatest), after), joined.next);
    SubscribedLog(joined, replayLatest);
  }

  lemma QuietInv<E>()
    ensures BridgeInv(Quiet<E>())
  {
  }

  lemma SubscribedLog<E>(b: Bridge<E>, replayLatest: bool)
    ensures Subscribed(b, replayLatest).log == b.log
  {
  }

  lemma ServedStretch<E>(b: Bridge<E>, s: Subscriber)
    requires BridgeInv(b) && s in b.start
    ensures s in b.delivered && s in b.queues && b.start[s] + |b.delivered[s]| <= |b.log|
    ensures b.delivered[s] == b.log[b.start[s]..b.start[s] + |b.delivered[s]|]
    ensures s in b.subscribers ==> b.queues[s] == b.log[b.start[s] + |b.delivered[s]|..]
  {
    hide Joined;
    assert s in b.queues && Exact(b, s);
    var from, to, n := b.start[s], Stop(b, s), |b.delivered[s]|;
    var both := b.log[from..to];
    assert b.delivered[s] == both[..n] == b.log[from..from + n];
    assert b.queues[s] == both[n..] == b.log[from + n..to];
  }

  /** A publication is logged, and reaches the end of every subscriber's queue and no other queue. */
  lemma PublicationReachesAll<E>(b: Bridge<E>, e: E)
    requires BridgeInv(b)
    ensures var q := Published(b, e);
            && q.log == b.log + [e] && q.subscribers == b.subscribers && q.queues.Keys == b.queues.Keys
            && forall k | k in b.queues :: q.queues[k] == b.queues[k] + if k in b.subscribers then [e] else []
  {
    hide BridgeInv;
  }

  /** A new subscriber is one from then on; its queue holds the latest event if it asks for it and there is one. */
  lemma SubscriptionAdds<E>(b: Bridge<E>, replayLatest: bool)
    requires BridgeInv(b)
    ensures var q := Subscribed(b, replayLatest);
            && b.next !in b.subscribers && q.subscribers == b.subscribers + {b.next} && q.log == b.log
            && q.queues == b.queues[b.next :=
                             if replayLatest && b.log != [] then [b.log[|b.log| - 1]] else []]
  {
    KnownSubscribers(b);
    SubscribeKeepsInv(b, replayLatest);
    LatestIsLast(b);
    hide BridgeInv;
  }

  lemma LatestIsLast<E>(b: Bridge<E>)
    requires BridgeInv(b)
    ensures b.latest == if b.log == [] then None else Some(b.log[|b.log| - 1])
  {
    hide Exact;
  }

  /** One that leaves is no subscriber any more; the queues stay as they are. */
  lemma LeavingRemoves<E>(b: Bridge<E>, s: Subscriber)
    ensures var q := Unsubscribed(b, s); q.subscribers == b.subscribers - {s} && q.queues == b.queues && q.log == b.log
  {
  }

  /** Receiving takes the oldest event of the subscriber's queue, if there is one, and touches no other queue. */
  lemma ReceivingTakesOldest<E>(b: Bridge<E>, s: Subscriber)
    requires BridgeInv(b) && s in b.subscribers
    ensures s in b.queues && s in b.delivered
    ensures var q := Received(b, s);
            if b.queues[s] == [] then q == b
            else
              && q.queues == b.queues[s := b.queues[s][1..]]
              && q.delivered == b.delivered[s := b.delivered[s] + [b.queues[s][0]]]
              && q.subscribers == b.subscribers && q.log == b.log
  {
    KnownSubscribers(b);
    hide BridgeInv;
  }

  function ReceivedTimes<E>(b: Bridge<E>, s: Subscriber, n: nat): Bridge<E> {
    if n == 0 then b else Received(ReceivedTimes(b, s, n - 1), s)
  }

  /** A subscriber that keeps receiving catches up: after as many steps as events are queued it has them all. */
  lemma {:induction false} ReceivingCatchesUp<E>(b: Bridge<E>, s: Subscriber, n: nat)
    requires BridgeInv(b) && s in b.subscribers && s in b.queues && s in b.delivered && n <= |b.queues[s]|
    ensures var q := ReceivedTimes(b, s, n);
            && BridgeInv(q) && q.subscribers == b.subscribers && q.log == b.log
            && s in q.queues && q.queues[s] == b.queues[s][n..]
            && s in q.delivered && q.delivered[s] == b.delivered[s] + b.queues[s][..n]
  {
    hide BridgeInv;
    if n > 0 {
      ReceivingCatchesUp(b, s, n - 1);
      ReceiveKeepsInv(ReceivedTimes(b, s, n - 1), s);
      assert b.queues[s][..n] == b.queues[s][..n - 1] + [b.queues[s][n - 1]];
    }
  }

  lemma KnownSubscribers<E>(b: Bridge<E>)
    requires BridgeInv(b)
    ensures b.subscribers <= b.queues.Keys && b.start.Keys == b.queues.Keys && b.delivered.Keys == b.queues.Keys
    ensures b.subscribers !! b.stop.Keys
  {
  }

  /** `InMemorySessionEventBridge`; subscribers are numbered in the order they come. */
  class EventBridge<E> {
    var subscribers: set<Subscriber>
    var queues: map<Subscriber, seq<E>>
    var latest: Option<E>
    var next: Subscriber
    ghost var log: seq<E>
    ghost var delivered: map<Subscriber, seq<E>>
    ghost var start: map<Subscriber, nat>
    ghost var stop: map<Subscriber, nat>

    ghost function State(): Bridge<E>
      reads this
    {
      Bridge(subscribers, queues, latest, next, log, delivered, start, stop)
    }

    ghost predicate Valid()
      reads this
    {
      BridgeInv(State())
    }

    constructor ()
      ensures Valid() && State() == Quiet()
    {
      subscribers, queues, latest, next := {}, map[], None, 0;
      log, delivered, start, stop := [], map[], map[], map[];
    }

    method Publish(e: E)
      requires Valid()
      modifies this
      ensures Valid() && State() == Published(old(State()), e) == BridgeStep(old(State()), DoPublish(e))
    {
      PublishKeepsInv(State(), e);
      KnownSubscribers(State());
      hide BridgeInv;
      latest := Some(e);
      FanOut(e);
      log := log + [e];
    }

    /** `put` on the queue of every subscriber. */
    method FanOut(e: E)
      requires subscribers <= queues.Keys
      modifies `queues
      ensures queues == PutAll(old(queues), subscribers, e)
    {
      var rest := subscribers;
      assert queues == PutAll(queues, {}, e) && subscribers - rest == {};
      while rest != {}
        invariant rest <= subscribers && queues == PutAll(old(queues), subscribers - rest, e)
      {
        var s :| s in rest;
        assert subscribers - (rest - {s}) == subscribers - rest + {s};
        queues := queues[s := queues[s] + [e]];
        rest := rest - {s};
      }
      assert subscribers - rest == subscribers;
    }

    method Subscribe(replayLatest: bool) returns (s: Subscriber)
      requires Valid()
      modifies this
      ensures Valid() && s == old(next)
      ensures State() == Subscribed(old(State()), replayLatest) == BridgeStep(old(State()), DoSubscribe(replayLatest))
    {
      hide BridgeInv;
      SubscribeKeepsInv(State(), replayLatest);
      s := next;
      next := next + 1;
      subscribers := subscribers + {s};
      var queue := [];
      if replayLatest && latest.Some? {
        queue := [latest.value];
      }
      queues := queues[s := queue];
      delivered := delivered[s := []];
      start := start[s := if |queues[s]| <= |log| then |log| - |queues[s]| else 0];
    }

    /** One step of the iterator, if an event is waiting. */
    method Receive(s: Subscriber) returns (e: Option<E>)
      requires Valid() && s in subscribers
      modifies this
      ensures Valid() && State() == Received(old(State()), s) == BridgeStep(old(State()), DoReceive(s))
      ensures e == if old(queues)[s] == [] then None else Some(old(queues)[s][0])
    {
      KnownSubscribers(State());
      hide BridgeInv;
      ReceiveKeepsInv(State(), s);
      if queues[s] == [] {
        return None;
      }
      var first := Dequeue(s);
      e := Some(first);
    }

    /** `get` on a queue that is not empty. */
    method Dequeue(s: Subscriber) returns (e: E)
      requires s in queues && queues[s] != [] && s in delivered
      modifies `queues, `delivered
      ensures e == old(queues)[s][0] && queues == old(queues)[s := old(queues)[s][1..]]
      ensures delivered == old(delivered)[s := old(delivered)[s] + [e]]
    {
      e := queues[s][0];
      queues := queues[s := queues[s][1..]];
      delivered := delivered[s := delivered[s] + [e]];
    }

    /** The `finally` clause of the iterator. */
    method Unsubscribe(s: Subscriber)
      requires Valid()
      modifies this
      ensures Valid() && State() == Unsubscribed(old(State()), s) == BridgeStep(old(State()), DoUnsubscribe(s))
    {
      UnsubscribeKeepsInv(State(), s);
      if s in subscribers {
        subscribers := subscribers - {s};
        stop := stop[s := |log|];
      }
    }
  }
}
