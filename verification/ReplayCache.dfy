/**
 The VNC gateway's token validator, from decoded claims on: expiry checks and the bounded
 per-session cache that rejects replayed tokens.
 */
module ReplayCaches {
  import opened Domain

  /** Claims are in whole seconds, the clock in microseconds. */
  const SECOND := 1000000

  /** A missing claim, or one of the wrong type, is absent; the nonce is its text. */
  datatype Claims = Claims(sid: Option<string>, exp: Option<int>, iat: Option<int>, nonce: Option<string>)

  datatype TokenError = WrongSession | NoExpiry | NoIssuedAt | FromFuture | Expired | Replayed

  datatype Entry = Entry(key: string, iat: int, expiry: Instant)

  datatype Validator = Validator(limit: nat, skew: int, caches: map<string, seq<Entry>>)

  // ---------- cache keys ----------

  function Digit(d: nat): char
    requires d < 10
  {
    "0123456789"[d]
  }

  function Natural(n: nat): (s: string)
    ensures s != [] && (|s| == 1 <==> n < 10)
  {
    if n < 10 then [Digit(n)] else Natural(n / 10) + [Digit(n % 10)]
  }

  function Decimal(n: int): string {
    if n < 0 then "-" + Natural(-n) else Natural(n)
  }

  function CacheKey(nonce: string, iat: int): string {
    nonce + ":" + Decimal(iat)
  }

  ghost predicate AllDigits(s: string) {
    forall i | 0 <= i < |s| :: '0' <= s[i] <= '9'
  }

  lemma {:induction false} NaturalIsDigits(n: nat)
    ensures AllDigits(Natural(n))
  {
    if n >= 10 {
      NaturalIsDigits(n / 10);
    }
  }

  lemma {:induction false} NaturalInjective(m: nat, n: nat)
    requires Natural(m) == Natural(n)
    ensures m == n
  {
    var s, t := Natural(m), Natural(n);
    assert s[|s| - 1] == t[|t| - 1];
    if m >= 10 {
      assert s[..|s| - 1] == Natural(m / 10) && t[..|t| - 1] == Natural(n / 10);
      NaturalInjective(m / 10, n / 10);
    }
  }

  lemma DecimalSign(n: int)
    ensures Decimal(n) != [] && (Decimal(n)[0] == '-' <==> n < 0)
  {
    NaturalIsDigits(if n < 0 then -n else n);
  }

  lemma DecimalInjective(m: int, n: int)
    requires Decimal(m) == Decimal(n)
    ensures m == n
  {
    DecimalSign(m);
    DecimalSign(n);
    if m < 0 {
      assert Decimal(m)[1..] == Natural(-m) && Decimal(n)[1..] == Natural(-n);
      NaturalInjective(-m, -n);
    } else {
      NaturalInjective(m, n);
    }
  }

  lemma DecimalHasNoColon(n: int)
    ensures ':' !in Decimal(n)
  {
    NaturalIsDigits(if n < 0 then -n else n);
  }

  /** A cache key determines the nonce and the issue time it was made from, whatever the nonce contains. */
  lemma CacheKeyInjective(nonce: string, iat: int, nonce2: string, iat2: int)
    ensures CacheKey(nonce, iat) == CacheKey(nonce2, iat2) <==> nonce == nonce2 && iat == iat2
  {
    var k := CacheKey(nonce, iat);
    LastColon(nonce, iat);
    LastColon(nonce2, iat2);
    if k == CacheKey(nonce2, iat2) {
      assert nonce == k[..|nonce|] && nonce2 == k[..|nonce2|];
      assert k[|nonce| + 1..] == Decimal(iat) && k[|nonce2| + 1..] == Decimal(iat2);
      DecimalInjective(iat, iat2);
    }
  }

  /** The last colon of a key is where its nonce ends. */
  lemma LastColon(nonce: string, iat: int)
    ensures var k := CacheKey(nonce, iat);
            k[|nonce|] == ':' && forall i | |nonce| < i < |k| :: k[i] != ':'
  {
    DecimalHasNoColon(iat);
    var k := CacheKey(nonce, iat);
    forall i | |nonce| < i < |k| ensures k[i] != ':' {
      assert k[i] == Decimal(iat)[i - |nonce| - 1];
    }
  }

  // ---------- validation ----------

  function CacheOf(v: Validator, session: string): seq<Entry> {
    if session in v.caches then v.caches[session] else []
  }

  function Evicted(cache: seq<Entry>, now: Instant): seq<Entry> {
    if cache == [] then []
    else
      var rest := Evicted(cache[..|cache| - 1], now);
      var last := cache[|cache| - 1];
      if last.expiry <= now then rest else rest + [last]
  }

  function Dropped(cache: seq<Entry>, key: string): seq<Entry> {
    if cache == [] then []
    else
      var rest := Dropped(cache[..|cache| - 1], key);
      var last := cache[|cache| - 1];
      if last.key == key then rest else rest + [last]
  }

  function Trimmed(cache: seq<Entry>, limit: nat): seq<Entry> {
    if |cache| > limit then cache[|cache| - limit..] else cache
  }

  predicate Seen(cache: seq<Entry>, key: string, iat: int) {
    exists i | 0 <= i < |cache| :: cache[i].key == key && cache[i].iat == iat
  }

  /** `_register_nonce`, at clock reading `now`. */
  function Registered(
    v: Validator, session: string, key: Option<string>, iat: int, expiry: Instant, now: Instant)
    : (Validator, Option<TokenError>)
  {
    var cache := Evicted(CacheOf(v, session), now);
    var evicted := v.(caches := v.caches[session := cache]);
    if key.None? then (evicted, None)
    else if Seen(cache, key.value, iat) then (evicted, Some(Replayed))
    else
      (v.(caches := v.caches[
            session := Trimmed(Dropped(cache, key.value) + [Entry(key.value, iat, expiry)], v.limit)]), None)
  }

  /** The checks before the cache is consulted, at clock reading `now`. */
  function ClaimsError(skew: int, session: string, c: Claims, now: Instant): Option<TokenError> {
    if c.sid != Some(session) then Some(WrongSession)
    else if c.exp.None? then Some(NoExpiry)
    else if c.iat.None? then Some(NoIssuedAt)
    else if c.iat.value * SECOND - now > skew * SECOND then Some(FromFuture)
    else if now >= c.exp.value * SECOND then Some(Expired)
    else None
  }

  function KeyOf(c: Claims): Option<string> {
    if c.nonce.None? || c.iat.None? then None else Some(CacheKey(c.nonce.value, c.iat.value))
  }

  /** One validation; it reads the clock twice, for the claims and for the cache. */
  datatype Call = Call(session: string, claims: Claims, now: Instant, later: Instant)

  function Validated(v: Validator, call: Call): (Validator, Option<TokenError>) {
    var c := call.claims;
    var error := ClaimsError(v.skew, call.session, c, call.now);
    if error.Some? then (v, error)
    else if c.iat.None? || c.exp.None? then (v, Some(NoExpiry))
    else Registered(v, call.session, KeyOf(c), c.iat.value, c.exp.value * SECOND, call.later)
  }

  /** The session's cache holds an unexpired entry for this nonce and issue time. */
  ghost predicate Remembers(v: Validator, session: string, nonce: string, iat: int, now: Instant) {
    && session in v.caches
    && exists e :: e in v.caches[session] && e.key == CacheKey(nonce, iat) && e.iat == iat && now < e.expiry
  }

  lemma SeenIffRemembered(v: Validator, session: string, nonce: string, iat: int, now: Instant)
    ensures Seen(Evicted(CacheOf(v, session), now), CacheKey(nonce, iat), iat)
            <==> Remembers(v, session, nonce, iat, now)
  {
    hide CacheKey;
    var kept := Evicted(CacheOf(v, session), now);
    EvictedExact(CacheOf(v, session), now);
    assert forall i | 0 <= i < |kept| :: kept[i] in kept;
  }

  /**
   What a token must be like to be accepted: issued for this session, with an expiry and an issue
   time, not from the future beyond the allowed skew, unexpired at the first clock reading, and, if
   it has a nonce, not remembered at the second. Each condition that fails first has its own error.
   */
  lemma AcceptedIff(v: Validator, call: Call)
    ensures var c := call.claims; var error := Validated(v, call).1;
            && (error == Some(WrongSession) <==> c.sid != Some(call.session))
            && (error == Some(NoExpiry) <==> c.sid == Some(call.session) && c.exp.None?)
            && (error == Some(NoIssuedAt) <==> c.sid == Some(call.session) && c.exp.Some? && c.iat.None?)
            && (error == Some(FromFuture) <==>
                  && c.sid == Some(call.session) && c.exp.Some? && c.iat.Some?
                  && c.iat.value * SECOND > call.now + v.skew * SECOND)
            && (error == Some(Expired) <==>
                  && c.sid == Some(call.session) && c.exp.Some? && c.iat.Some?
                  && c.iat.value * SECOND <= call.now + v.skew * SECOND
                  && c.exp.value * SECOND <= call.now)
            && (error == Some(Replayed) <==>
                  && c.sid == Some(call.session) && c.exp.Some? && c.iat.Some?
                  && c.iat.value * SECOND <= call.now + v.skew * SECOND
                  && call.now < c.exp.value * SECOND
                  && c.nonce.Some? && Remembers(v, call.session, c.nonce.value, c.iat.value, call.later))
            && (error.None? <==>
                  && c.sid == Some(call.session) && c.exp.Some? && c.iat.Some?
                  && c.iat.value * SECOND <= call.now + v.skew * SECOND
                  && call.now < c.exp.value * SECOND
                  && (c.nonce.Some? ==> !Remembers(v, call.session, c.nonce.value, c.iat.value, call.later)))
  {
    hide CacheKey;
    hide Evicted;
    hide Seen;
    hide Remembers;
    var c := call.claims;
    if c.nonce.Some? && c.iat.Some? {
      SeenIffRemembered(v, call.session, c.nonce.value, c.iat.value, call.later);
    }
  }

  /** A validation forgets nothing of other sessions, nor, when it fails, anything but expired entries. */
  lemma ValidationForgets(v: Validator, call: Call)
    ensures var (q, error) := Validated(v, call);
            && (forall s | s != call.session :: s in q.caches <==> s in v.caches)
            && (forall s | s != call.session && s in v.caches :: q.caches[s] == v.caches[s])
            && (error.Some? || call.claims.nonce.None? ==>
                  forall e | e in CacheOf(v, call.session) && e.expiry > call.later :: e in CacheOf(q, call.session))
  {
    hide CacheKey;
    hide Seen;
    EvictedExact(CacheOf(v, call.session), call.later);
    hide Evicted;
  }

  // ---------- the cache is bounded ----------

  ghost predicate KeysDistinct(cache: seq<Entry>) {
    forall i, j | 0 <= i < j < |cache| :: cache[i].key != cache[j].key
  }

  ghost predicate CachesBounded(v: Validator) {
    forall s | s in v.caches :: |v.caches[s]| <= v.limit && KeysDistinct(v.caches[s])
  }

  lemma {:induction false} EvictedExact(cache: seq<Entry>, now: Instant)
    ensures |Evicted(cache, now)| <= |cache|
    ensures forall e :: e in Evicted(cache, now) <==> e in cache && e.expiry > now
  {
    if cache != [] {
      var n := |cache| - 1;
      EvictedExact(cache[..n], now);
      assert cache == cache[..n] + [cache[n]];
    }
  }

  lemma {:induction false} DroppedExact(cache: seq<Entry>, key: string)
    ensures |Dropped(cache, key)| <= |cache|
    ensures forall e :: e in Dropped(cache, key) <==> e in cache && e.key != key
  {
    if cache != [] {
      var n := |cache| - 1;
      DroppedExact(cache[..n], key);
      assert cache == cache[..n] + [cache[n]];
    }
  }

  lemma {:induction false} EvictedKeysDistinct(cache: seq<Entry>, now: Instant)
    requires KeysDistinct(cache)
    ensures KeysDistinct(Evicted(cache, now))
  {
    if cache != [] {
      var n := |cache| - 1;
      EvictedKeysDistinct(cache[..n], now);
      EvictedExact(cache[..n], now);
      AppendedKeysDistinct(cache, Evicted(cache[..n], now));
    }
  }

  lemma {:induction false} DroppedKeysDistinct(cache: seq<Entry>, key: string)
    requires KeysDistinct(cache)
    ensures KeysDistinct(Dropped(cache, key))
  {
    if cache != [] {
      var n := |cache| - 1;
      DroppedKeysDistinct(cache[..n], key);
      DroppedExact(cache[..n], key);
      AppendedKeysDistinct(cache, Dropped(cache[..n], key));
    }
  }

  /** Entries kept from before the last one can be followed by it. */
  lemma AppendedKeysDistinct(cache: seq<Entry>, rest: seq<Entry>)
    requires cache != [] && KeysDistinct(cache) && KeysDistinct(rest)
    requires forall e | e in rest :: e in cache[..|cache| - 1]
    ensures KeysDistinct(rest + [cache[|cache| - 1]])
  {
    forall i | 0 <= i < |rest| ensures rest[i].key != cache[|cache| - 1].key {
      assert rest[i] in rest;
      NotBefore(cache, rest[i]);
    }
  }

  lemma NotBefore(cache: seq<Entry>, e: Entry)
    requires cache != [] && KeysDistinct(cache) && e in cache[..|cache| - 1]
    ensures e.key != cache[|cache| - 1].key
  {
    var k :| 0 <= k < |cache| - 1 && cache[..|cache| - 1][k] == e;
    assert cache[k] == e;
  }

  /** Every validation keeps each session's cache within the limit, with one entry per key. */
  lemma ValidateKeepsBound(v: Validator, call: Call)
    requires CachesBounded(v)
    ensures CachesBounded(Validated(v, call).0)
  {
    hide KeysDistinct;
    hide Evicted;
    hide Dropped;
    hide Seen;
    hide CacheKey;
    var c, cache := call.claims, Evicted(CacheOf(v, call.session), call.later);
    EvictedExact(CacheOf(v, call.session), call.later);
    CacheDistinct(v, call.session);
    EvictedKeysDistinct(CacheOf(v, call.session), call.later);
    if KeyOf(c).Some? && c.exp.Some? {
      InsertKeepsBound(cache, Entry(KeyOf(c).value, c.iat.value, c.exp.value * SECOND), v.limit);
    }
  }

  lemma InsertKeepsBound(cache: seq<Entry>, e: Entry, limit: nat)
    requires KeysDistinct(cache)
    ensures var longer := Trimmed(Dropped(cache, e.key) + [e], limit);
            |longer| <= limit && KeysDistinct(longer)
  {
    DroppedExact(cache, e.key);
    DroppedKeysDistinct(cache, e.key);
    var rest := Dropped(cache, e.key);
    assert forall i | 0 <= i < |rest| :: rest[i] in rest;
    hide Dropped;
  }

  // ---------- replays ----------

  function After(v: Validator, calls: seq<Call>): Validator {
    if calls == [] then v else Validated(After(v, calls[..|calls| - 1]), calls[|calls| - 1]).0
  }

  /** How many of the calls were accepted for `session` with a nonce. */
  function Accepted(v: Validator, calls: seq<Call>, session: string): nat {
    if calls == [] then 0
    else
      var last := calls[|calls| - 1];
      var earlier := calls[..|calls| - 1];
      Accepted(v, earlier, session)
      + if last.session == session && KeyOf(last.claims).Some? && Validated(After(v, earlier), last).1.None?
        then 1 else 0
  }

  function LastReading(calls: seq<Call>, start: Instant): Instant {
    if calls == [] then start else calls[|calls| - 1].later
  }

  /** The clock readings never go back. */
  predicate Monotone(calls: seq<Call>, start: Instant) {
    calls == [] ||
    var last := calls[|calls| - 1];
    && Monotone(calls[..|calls| - 1], start)
    && LastReading(calls[..|calls| - 1], start) <= last.now <= last.later
  }

  /** The token's entry is in the cache with at most `others` entries behind it. */
  ghost predicate Held(cache: seq<Entry>, e: Entry, others: int) {
    exists i :: 0 <= i < |cache| && cache[i] == e && |cache| - 1 - i <= others
  }

  lemma {:induction false} EvictionKeepsHeld(cache: seq<Entry>, now: Instant, e: Entry, others: int)
    requires Held(cache, e, others) && e.expiry > now
    ensures Held(Evicted(cache, now), e, others)
  {
    var i :| 0 <= i < |cache| && cache[i] == e && |cache| - 1 - i <= others;
    var n := |cache| - 1;
    var rest := Evicted(cache[..n], now);
    if i == n {
      assert Evicted(cache, now)[|rest|] == e;
    } else {
      assert cache[..n][i] == e;
      assert Held(cache[..n], e, others - 1);
      EvictionKeepsHeld(cache[..n], now, e, others - 1);
      var j :| 0 <= j < |rest| && rest[j] == e && |rest| - 1 - j <= others - 1;
      assert Evicted(cache, now)[j] == e;
    }
  }

  lemma {:induction false} DropKeepsHeld(cache: seq<Entry>, key: string, e: Entry, others: int)
    requires Held(cache, e, others) && e.key != key
    ensures Held(Dropped(cache, key), e, others)
  {
    var i :| 0 <= i < |cache| && cache[i] == e && |cache| - 1 - i <= others;
    var n := |cache| - 1;
    var rest := Dropped(cache[..n], key);
    if i == n {
      assert Dropped(cache, key)[|rest|] == e;
    } else {
      assert cache[..n][i] == e;
      assert Held(cache[..n], e, others - 1);
      DropKeepsHeld(cache[..n], key, e, others - 1);
      var j :| 0 <= j < |rest| && rest[j] == e && |rest| - 1 - j <= others - 1;
      assert Dropped(cache, key)[j] == e;
    }
  }

  lemma InsertKeepsHeld(cache: seq<Entry>, x: Entry, e: Entry, others: int, limit: nat)
    requires Held(cache, e, others) && others + 1 < limit
    ensures Held(Trimmed(cache + [x], limit), e, others + 1)
  {
    var i :| 0 <= i < |cache| && cache[i] == e && |cache| - 1 - i <= others;
    var more := cache + [x];
    var cut := if |more| > limit then |more| - limit else 0;
    assert Trimmed(more, limit) == more[cut..];
    assert more[cut..][i - cut] == e;
  }

  /** The entry an accepted token leaves. */
  function EntryOf(c: Claims): Entry
    requires c.nonce.Some? && c.iat.Some? && c.exp.Some?
  {
    Entry(CacheKey(c.nonce.value, c.iat.value), c.iat.value, c.exp.value * SECOND)
  }

  /** Keys tell tokens apart: a token with this entry's key has its issue time. */
  lemma SameKeySameIssue(c: Claims, d: Claims)
    requires c.nonce.Some? && c.iat.Some? && c.exp.Some? && KeyOf(d) == Some(EntryOf(c).key)
    ensures d.iat == c.iat && d.nonce == c.nonce
  {
    CacheKeyInjective(c.nonce.value, c.iat.value, d.nonce.value, d.iat.value);
  }

  /** One more call: the token is still remembered, or the clock has passed its expiry. */
  lemma CallKeepsHeld(v: Validator, call: Call, session: string, c: Claims, others: nat, clock: Instant)
    requires c.nonce.Some? && c.iat.Some? && c.exp.Some? && clock <= call.now <= call.later
    requires clock >= EntryOf(c).expiry || Held(CacheOf(v, session), EntryOf(c), others)
    ensures var (q, error) := Validated(v, call); var e := EntryOf(c);
            var more := others + if call.session == session && KeyOf(call.claims).Some? && error.None? then 1 else 0;
            more < v.limit ==> call.later >= e.expiry || Held(CacheOf(q, session), e, more)
  {
    var (q, error) := Validated(v, call);
    var e, key := EntryOf(c), KeyOf(call.claims);
    if call.session == session && q != v && call.later < e.expiry {
      var cache := CacheOf(v, session);
      EvictionKeepsHeld(cache, call.later, e, others);
      var kept := Evicted(cache, call.later);
      if key == Some(e.key) {
        SameKeySameIssue(c, call.claims);
        var i :| 0 <= i < |kept| && kept[i] == e;
        assert Seen(kept, key.value, call.claims.iat.value);
      } else if key.Some? && error.None? && others + 1 < v.limit {
        DropKeepsHeld(kept, key.value, e, others);
        InsertKeepsHeld(Dropped(kept, key.value), EntryOf(call.claims), e, others, v.limit);
      }
    }
  }

  lemma ValidateKeepsSettings(v: Validator, call: Call)
    ensures Validated(v, call).0.limit == v.limit && Validated(v, call).0.skew == v.skew
  {
  }

  lemma {:induction false} AfterKeepsBound(v: Validator, calls: seq<Call>)
    requires CachesBounded(v)
    ensures var q := After(v, calls); CachesBounded(q) && q.limit == v.limit && q.skew == v.skew
  {
    if calls != [] {
      AfterKeepsBound(v, calls[..|calls| - 1]);
      ValidateKeepsBound(After(v, calls[..|calls| - 1]), calls[|calls| - 1]);
      ValidateKeepsSettings(After(v, calls[..|calls| - 1]), calls[|calls| - 1]);
    }
  }

  lemma {:induction false} RememberedAfter(v: Validator, calls: seq<Call>, session: string, c: Claims, start: Instant)
    requires CachesBounded(v) && c.nonce.Some? && c.iat.Some? && c.exp.Some?
    requires Held(CacheOf(v, session), EntryOf(c), 0) && Monotone(calls, start)
    requires Accepted(v, calls, session) < v.limit
    ensures LastReading(calls, start) >= EntryOf(c).expiry
            || Held(CacheOf(After(v, calls), session), EntryOf(c), Accepted(v, calls, session))
  {
    hide Validated;
    hide Held;
    if calls != [] {
      var earlier, last := calls[..|calls| - 1], calls[|calls| - 1];
      RememberedAfter(v, earlier, session, c, start);
      AfterKeepsBound(v, earlier);
      CallKeepsHeld(After(v, earlier), last, session, c, Accepted(v, earlier, session), LastReading(earlier, start));
    }
  }

  /** An accepted token with a nonce is the newest entry of its session's cache. */
  lemma AcceptedIsHeld(v: Validator, call: Call)
    requires v.limit > 0 && Validated(v, call).1.None? && call.claims.nonce.Some?
    ensures call.claims.exp.Some? && call.claims.iat.Some?
    ensures Held(CacheOf(Validated(v, call).0, call.session), EntryOf(call.claims), 0)
  {
    var c := call.claims;
    var rest := Dropped(Evicted(CacheOf(v, call.session), call.later), KeyOf(c).value);
    var cache := Trimmed(rest + [EntryOf(c)], v.limit);
    assert cache[|cache| - 1] == EntryOf(c);
    assert CacheOf(Validated(v, call).0, call.session) == cache;
  }

  /** Asking for a remembered token: the cache still has it exactly until it expires. */
  lemma SeenIffUnexpired(cache: seq<Entry>, e: Entry, others: int, now: Instant)
    requires KeysDistinct(cache) && Held(cache, e, others)
    ensures Seen(Evicted(cache, now), e.key, e.iat) <==> now < e.expiry
  {
    EvictedExact(cache, now);
    var kept := Evicted(cache, now);
    if now < e.expiry {
      EvictionKeepsHeld(cache, now, e, others);
    } else {
      forall i | 0 <= i < |kept| ensures kept[i].key != e.key {
        assert kept[i] in kept;
        KeysDiffer(cache, kept[i], e);
      }
    }
  }

  lemma KeysDiffer(cache: seq<Entry>, a: Entry, b: Entry)
    requires KeysDistinct(cache) && a in cache && b in cache && a != b
    ensures a.key != b.key
  {
    var i :| 0 <= i < |cache| && cache[i] == a;
    var j :| 0 <= j < |cache| && cache[j] == b;
    assert i < j || j < i;
  }

  /**
   Replay protection, exactly. While fewer than `limit` other tokens have been accepted for
   the session, a token accepted before is accepted again if and only if the validation
   straddles its expiry: it is unexpired at the first clock reading and expired at the second.
   */
  lemma ReplayAcceptedIff(v: Validator, first: Call, calls: seq<Call>, again: Call)
    requires CachesBounded(v)
    requires first.claims.nonce.Some? && first.now <= first.later && Validated(v, first).1.None?
    requires Monotone(calls, first.later) && Accepted(Validated(v, first).0, calls, first.session) < v.limit
    requires again.session == first.session && again.claims == first.claims
    requires LastReading(calls, first.later) <= again.now <= again.later
    ensures first.claims.exp.Some?
    ensures var expiry := first.claims.exp.value * SECOND;
            var q := After(Validated(v, first).0, calls);
            Validated(q, again).1.None? <==> again.now < expiry <= again.later
  {
    hide After;
    hide Accepted;
    hide Held;
    hide Seen;
    hide KeysDistinct;
    var v1 := Validated(v, first).0;
    var c, e := first.claims, EntryOf(first.claims);
    AcceptedIsHeld(v, first);
    ValidateKeepsBound(v, first);
    ValidateKeepsSettings(v, first);
    AfterKeepsBound(v1, calls);
    RememberedAfter(v1, calls, first.session, c, first.later);
    MonotoneReadings(calls, first.later);
    var q := After(v1, calls);
    assert KeyOf(c) == Some(e.key);
    if again.now < e.expiry {
      assert KeysDistinct(CacheOf(q, first.session)) by { CacheDistinct(q, first.session); }
      SeenIffUnexpired(CacheOf(q, first.session), e, Accepted(v1, calls, first.session), again.later);
    }
  }

  lemma CacheDistinct(v: Validator, session: string)
    requires CachesBounded(v)
    ensures KeysDistinct(CacheOf(v, session))
  {
  }

  lemma {:induction false} MonotoneReadings(calls: seq<Call>, start: Instant)
    requires Monotone(calls, start)
    ensures start <= LastReading(calls, start)
  {
    if calls != [] {
      MonotoneReadings(calls[..|calls| - 1], start);
    }
  }

  /** The straddle is real: the same token passes twice when the second validation spans its expiry. */
  lemma StraddleAcceptsTwice()
    ensures var v := Validator(8, 30, map[]);
            var c := Claims(Some("s"), Some(10), Some(0), Some("n"));
            var first := Call("s", c, 5 * SECOND, 5 * SECOND);
            var again := Call("s", c, 10 * SECOND - 1, 10 * SECOND);
            Validated(v, first).1.None? && Validated(Validated(v, first).0, again).1.None?
  {
    var v := Validator(8, 30, map[]);
    var c := Claims(Some("s"), Some(10), Some(0), Some("n"));
    var first := Call("s", c, 5 * SECOND, 5 * SECOND);
    var again := Call("s", c, 10 * SECOND - 1, 10 * SECOND);
    ReplayAcceptedIff(v, first, [], again);
  }

  // ---------- the object ----------

  class TokenValidator {
    const limit: nat
    const skew: int
    var caches: map<string, seq<Entry>>

    ghost function State(): Validator
      reads this
    {
      Validator(limit, skew, caches)
    }

    ghost predicate Valid()
      reads this
    {
      CachesBounded(State())
    }

    constructor (limit: nat, skew: int)
      ensures Valid() && State() == Validator(limit, skew, map[])
    {
      this.limit, this.skew, caches := limit, skew, map[];
    }

    method Validate(call: Call) returns (error: Option<TokenError>)
      requires Valid()
      modifies this
      ensures Valid() && (State(), error) == Validated(old(State()), call)
    {
      ValidateKeepsBound(State(), call);
      var c := call.claims;
      if c.sid != Some(call.session) {
        return Some(WrongSession);
      }
      if c.exp.None? {
        return Some(NoExpiry);
      }
      if c.iat.None? {
        return Some(NoIssuedAt);
      }
      if c.iat.value * SECOND - call.now > skew * SECOND {
        return Some(FromFuture);
      }
      var expiresAt := c.exp.value * SECOND;
      if call.now >= expiresAt {
        return Some(Expired);
      }
      var key := if c.nonce.None? then None else Some(CacheKey(c.nonce.value, c.iat.value));
      error := RegisterNonce(call.session, key, c.iat.value, expiresAt, call.later);
    }

    method RegisterNonce(session: string, key: Option<string>, iat: int, expiry: Instant, now: Instant)
      returns (error: Option<TokenError>)
      modifies this
      ensures (State(), error) == Registered(old(State()), session, key, iat, expiry, now)
    {
      var cache := if session in caches then caches[session] else [];
      cache := EvictExpired(cache, now);
      caches := caches[session := cache];
      if key.None? {
        return None;
      }
      if Seen(cache, key.value, iat) {
        return Some(Replayed);
      }
      cache := Dropped(cache, key.value) + [Entry(key.value, iat, expiry)];
      ghost var full := cache;
      while |cache| > limit
        invariant cache == Trimmed(full, |cache|) && (|cache| >= limit || cache == full)
      {
        cache := cache[1..];
      }
      assert cache == Trimmed(full, limit);
      assert caches[session := cache] == old(caches)[session := cache];
      caches := caches[session := cache];
      error := None;
    }

    method EvictExpired(cache: seq<Entry>, now: Instant) returns (rest: seq<Entry>)
      ensures rest == Evicted(cache, now)
    {
      rest := [];
      for i := 0 to |cache|
        invariant rest == Evicted(cache[..i], now)
      {
        assert cache[..i + 1][..i] == cache[..i];
        if cache[i].expiry > now {
          rest := rest + [cache[i]];
        }
      }
      assert cache[..|cache|] == cache;
    }
  }
}
