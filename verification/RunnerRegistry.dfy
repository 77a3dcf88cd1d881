/**
 The gateway's catalogue of runners: registration, WebSocket bindings, health reports and the
 round-robin selection of the next runner for a session.
 */
module RunnerRegistries {
  import opened Domain

  type RunnerId = string

  datatype RunnerState = Starting | Idle | Busy | Degraded | Offline

  datatype Worker = Worker(
    id: RunnerId, healthy: bool, supportsVnc: bool, totalSlots: int, availableSlots: Option<int>, state: RunnerState)

  datatype Binding = Binding(runner: RunnerId, target: string)

  datatype Catalog = Catalog(
    runners: map<RunnerId, Worker>, order: seq<RunnerId>, cursor: nat, bindings: map<SessionId, Binding>)

  datatype Filter = Filter(requiresVnc: bool, requireHealthy: bool)

  predicate Eligible(w: Worker, f: Filter) {
    && (f.requireHealthy ==> w.healthy)
    && (f.requiresVnc ==> w.supportsVnc)
    && w.availableSlots != Some(0)
    && w.state !in {Busy, Degraded, Offline}
  }

  /** The rotation lists each registered runner once and the cursor points into it. */
  ghost predicate CatalogInv(c: Catalog) {
    && Distinct(c.order)
    && (forall id :: id in c.order <==> id in c.runners)
    && (forall id | id in c.runners :: c.runners[id].id == id)
    && (c.cursor < |c.order| || c.cursor == 0)
  }

  // ---------- registration ----------

  function Wrapped(cursor: nat, total: nat): nat {
    cursor % if total == 0 then 1 else total
  }

  function Seeded(seed: seq<Worker>): Catalog {
    if seed == [] then Catalog(map[], [], 0, map[])
    else
      var w := seed[|seed| - 1];
      var c := Seeded(seed[..|seed| - 1]);
      c.(runners := c.runners[w.id := w], order := c.order + [w.id])
  }

  function Upserted(c: Catalog, w: Worker): Catalog {
    var order := if w.id in c.runners then c.order else c.order + [w.id];
    c.(runners := c.runners[w.id := w], order := order, cursor := Wrapped(c.cursor, |order|))
  }

  function RemoveFirst(order: seq<RunnerId>, id: RunnerId): seq<RunnerId> {
    if order == [] then []
    else if order[0] == id then order[1..]
    else [order[0]] + RemoveFirst(order[1..], id)
  }

  function Unbound(bindings: map<SessionId, Binding>, id: RunnerId): map<SessionId, Binding> {
    map s | s in bindings && bindings[s].runner != id :: bindings[s]
  }

  function Removed(c: Catalog, id: RunnerId): Catalog {
    if id !in c.runners then c
    else
      var order := RemoveFirst(c.order, id);
      Catalog(c.runners - {id}, order, Wrapped(c.cursor, |order|), Unbound(c.bindings, id))
  }

  function Bound(c: Catalog, session: SessionId, runner: RunnerId, target: Option<string>): Catalog {
    if target.None? || target.value == "" then c.(bindings := c.bindings - {session})
    else c.(bindings := c.bindings[session := Binding(runner, target.value)])
  }

  lemma {:induction false} RemoveFirstIsRemoval(order: seq<RunnerId>, id: RunnerId)
    requires Distinct(order)
    ensures var rest := RemoveFirst(order, id);
            && Distinct(rest)
            && (forall x :: x in rest <==> x in order && x != id)
            && |rest| == if id in order then |order| - 1 else |order|
  {
    if order != [] {
      var rest := RemoveFirst(order[1..], id);
      RemoveFirstIsRemoval(order[1..], id);
      assert order == [order[0]] + order[1..];
      assert order[0] !in order[1..];
      assert forall i | 0 <= i < |rest| :: rest[i] in rest;
    }
  }

  lemma UpsertKeepsInv(c: Catalog, w: Worker)
    requires CatalogInv(c)
    ensures var q := Upserted(c, w);
            && CatalogInv(q) && q.cursor == c.cursor && q.bindings == c.bindings
            && q.runners == c.runners[w.id := w]
            && q.order == if w.id in c.order then c.order else c.order + [w.id]
  {
    if c.order != [] { WrappedInside(c.cursor, |c.order|); }
    var q := Upserted(c, w);
    WrappedInside(c.cursor, |q.order|);
  }

  lemma WrappedInside(cursor: nat, total: nat)
    requires cursor < total
    ensures Wrapped(cursor, total) == cursor
  {
  }

  /** Removal takes the runner out of the rotation and drops every binding that names it, and nothing else. */
  lemma RemoveKeepsInv(c: Catalog, id: RunnerId)
    requires CatalogInv(c)
    ensures var q := Removed(c, id);
            && CatalogInv(q)
            && q.runners == c.runners - {id}
            && q.cursor == (if c.cursor < |q.order| then c.cursor else 0)
            && (id in c.runners ==> forall s :: s in q.bindings <==> s in c.bindings && c.bindings[s].runner != id)
            && (forall s | s in q.bindings :: s in c.bindings && q.bindings[s] == c.bindings[s])
  {
    RemoveFirstIsRemoval(c.order, id);
    RemovedCursor(c, id);
    hide RemoveFirst;
    hide Wrapped;
  }

  lemma RemovedCursor(c: Catalog, id: RunnerId)
    requires CatalogInv(c)
    ensures var q := Removed(c, id); q.cursor == if c.cursor < |q.order| then c.cursor else 0
  {
    RemoveFirstIsRemoval(c.order, id);
    hide RemoveFirst;
    hide Wrapped;
    if id in c.runners {
      var total := |Removed(c, id).order|;
      if c.cursor < total {
        WrappedInside(c.cursor, total);
      } else {
        WrappedRound(total);
      }
    }
  }

  lemma WrappedRound(total: nat)
    ensures Wrapped(total, total) == 0
  {
  }

  /** A registry seeded with a list is sound exactly when the list names no runner twice. */
  lemma SeededIsSoundIff(seed: seq<Worker>)
    ensures CatalogInv(Seeded(seed)) <==> Distinct(Ids(seed))
  {
    SeededOrder(seed);
  }

  function Ids(workers: seq<Worker>): (ids: seq<RunnerId>)
    ensures |ids| == |workers| && forall i | 0 <= i < |ids| :: ids[i] == workers[i].id
  {
    seq(|workers|, i requires 0 <= i < |workers| => workers[i].id)
  }

  lemma {:induction false} SeededOrder(seed: seq<Worker>)
    ensures var c := Seeded(seed);
            && c.order == Ids(seed) && c.cursor == 0
            && (forall id :: id in c.order <==> id in c.runners)
            && (forall id | id in c.runners :: c.runners[id].id == id)
  {
    if seed != [] {
      SeededOrder(seed[..|seed| - 1]);
      assert Ids(seed) == Ids(seed[..|seed| - 1]) + [seed[|seed| - 1].id];
    }
  }

  /** A seeded registry knows the runners as configured, and no binding. */
  lemma {:induction false} SeededExact(seed: seq<Worker>)
    requires Distinct(Ids(seed))
    ensures var c := Seeded(seed);
            && c.bindings == map[]
            && (forall w | w in seed :: w.id in c.runners && c.runners[w.id] == w)
  {
    if seed != [] {
      var n := |seed| - 1;
      assert Ids(seed[..n]) == Ids(seed)[..n];
      SeededExact(seed[..n]);
      assert seed == seed[..n] + [seed[n]];
      forall w | w in seed[..n] ensures w.id != seed[n].id {
        var i :| 0 <= i < n && seed[..n][i] == w;
        assert Ids(seed)[i] == w.id && Ids(seed)[n] == seed[n].id;
      }
    }
  }

  /** A session is bound to the runner and the target last registered for it, and to none after an empty target. */
  lemma BoundExact(c: Catalog, session: SessionId, runner: RunnerId, target: Option<string>)
    ensures var q := Bound(c, session, runner, target);
            && q == c.(bindings := q.bindings)
            && (session in q.bindings <==> target.Some? && target.value != "")
            && (session in q.bindings ==>
                  q.bindings[session].runner == runner && Some(q.bindings[session].target) == target)
            && (forall s | s != session :: s in q.bindings <==> s in c.bindings)
            && (forall s | s != session && s in q.bindings :: q.bindings[s] == c.bindings[s])
  {
  }

  // ---------- selection ----------

  /** Which positions of the rotation hold an eligible runner. */
  function Marks(c: Catalog, f: Filter): (marks: seq<bool>)
    ensures |marks| == |c.order|
  {
    seq(|c.order|, i requires 0 <= i < |c.order| => c.order[i] in c.runners && Eligible(c.runners[c.order[i]], f))
  }

  /** A position that may lie one round too far, brought back. */
  function Wrap(i: nat, total: nat): nat {
    if i < total then i else i - total
  }

  function Modulo(i: nat, total: nat): (index: nat)
    requires i < 2 * total
    ensures index == Wrap(i, total)
  {
    i % total
  }

  /** The first marked position at or after `offset` steps from the cursor, going round once. */
  function Search(marks: seq<bool>, cursor: nat, offset: nat): (index: Option<nat>)
    ensures index.Some? ==> index.value < |marks| && marks[index.value]
    decreases |marks| - offset
  {
    if offset >= |marks| then None
    else
      var index := Wrap(cursor + offset, |marks|);
      if index < |marks| && marks[index] then Some(index) else Search(marks, cursor, offset + 1)
  }

  lemma SearchOnce(marks: seq<bool>, cursor: nat, offset: nat)
    requires cursor < |marks| && offset < |marks|
    ensures var index := Wrap(cursor + offset, |marks|);
            Search(marks, cursor, offset) == if marks[index] then Some(index) else Search(marks, cursor, offset + 1)
  {
  }

  lemma SearchOver(marks: seq<bool>, cursor: nat)
    ensures Search(marks, cursor, |marks|) == None
  {
  }

  function SelectedNext(c: Catalog, f: Filter): (Catalog, Option<Worker>) {
    match Search(Marks(c, f), c.cursor, 0)
    case None => (c, None)
    case Some(index) => (c.(cursor := Wrap(index + 1, |c.order|)), Some(c.runners[c.order[index]]))
  }

  /** The marked positions from `lo` up to `hi`, ascending. */
  ghost function Marked(marks: seq<bool>, lo: nat, hi: nat): seq<nat>
    requires lo <= hi <= |marks|
    decreases hi - lo
  {
    if lo == hi then []
    else if marks[lo] then [lo] + Marked(marks, lo + 1, hi)
    else Marked(marks, lo + 1, hi)
  }

  /** The marked positions in the order the rotation visits them. */
  ghost function Rotation(marks: seq<bool>, cursor: nat): seq<nat>
    requires cursor <= |marks|
  {
    Marked(marks, cursor, |marks|) + Marked(marks, 0, cursor)
  }

  /** How many steps past the cursor a position lies. */
  function Steps(total: nat, cursor: nat, index: nat): int {
    if index >= cursor then index - cursor else index + total - cursor
  }

  lemma {:induction false} MarkedMembers(marks: seq<bool>, lo: nat, hi: nat)
    requires lo <= hi <= |marks|
    ensures forall i :: i in Marked(marks, lo, hi) <==> lo <= i < hi && marks[i]
    decreases hi - lo
  {
    if lo < hi {
      MarkedMembers(marks, lo + 1, hi);
    }
  }

  ghost predicate Ascending(s: seq<nat>) {
    forall i, j | 0 <= i < j < |s| :: s[i] < s[j]
  }

  lemma AscendingFrom(first: nat, rest: seq<nat>)
    requires Ascending(rest) && forall i | i in rest :: first < i
    ensures Ascending([first] + rest)
  {
    var s := [first] + rest;
    forall i, j | 0 <= i < j < |s| ensures s[i] < s[j] {
      assert s[j] == rest[j - 1] && rest[j - 1] in rest;
      assert i > 0 ==> s[i] == rest[i - 1];
    }
  }

  lemma {:induction false} MarkedAscends(marks: seq<bool>, lo: nat, hi: nat)
    requires lo <= hi <= |marks|
    ensures Ascending(Marked(marks, lo, hi))
    decreases hi - lo
  {
    hide Ascending;
    if lo == hi {
      assert Ascending([]) by { NothingAscends(); }
    } else {
      MarkedMembers(marks, lo + 1, hi);
      MarkedAscends(marks, lo + 1, hi);
      AscendingFrom(lo, Marked(marks, lo + 1, hi));
    }
  }

  lemma NothingAscends()
    ensures Ascending([])
  {
  }

  lemma MarkedExact(marks: seq<bool>, lo: nat, hi: nat)
    requires lo <= hi <= |marks|
    ensures var s := Marked(marks, lo, hi);
            && (forall i :: i in s <==> lo <= i < hi && marks[i])
            && (forall i, j | 0 <= i < j < |s| :: s[i] < s[j])
  {
    MarkedMembers(marks, lo, hi);
    MarkedAscends(marks, lo, hi);
    hide Marked;
  }

  /** The rotation is exactly the eligible positions, each once, nearest to the cursor first. */
  lemma RotationExact(marks: seq<bool>, cursor: nat)
    requires cursor <= |marks|
    ensures var s := Rotation(marks, cursor);
            && (forall i: nat :: i in s <==> i < |marks| && marks[i])
            && (forall i, j | 0 <= i < j < |s| :: Steps(|marks|, cursor, s[i]) < Steps(|marks|, cursor, s[j]))
  {
    MarkedExact(marks, cursor, |marks|);
    MarkedExact(marks, 0, cursor);
    var a, b := Marked(marks, cursor, |marks|), Marked(marks, 0, cursor);
    assert forall i | 0 <= i < |a| :: a[i] in a;
    assert forall i | 0 <= i < |b| :: b[i] in b;
    hide Marked;
  }

  lemma {:induction false} MarkedSplit(marks: seq<bool>, lo: nat, mid: nat, hi: nat)
    requires lo <= mid <= hi <= |marks|
    ensures Marked(marks, lo, hi) == Marked(marks, lo, mid) + Marked(marks, mid, hi)
    decreases mid - lo
  {
    if lo < mid {
      MarkedSplit(marks, lo + 1, mid, hi);
    }
  }

  /** The earliest marked position splits a range. */
  lemma {:induction false} MarkedFirst(marks: seq<bool>, lo: nat, hi: nat)
    requires lo <= hi <= |marks| && Marked(marks, lo, hi) != []
    ensures var e := Marked(marks, lo, hi)[0];
            && lo <= e < hi
            && Marked(marks, lo, hi) == [e] + Marked(marks, e + 1, hi)
            && Marked(marks, lo, e + 1) == [e]
    decreases hi - lo
  {
    if marks[lo] {
      assert Marked(marks, lo + 1, lo + 1) == [];
    } else {
      MarkedFirst(marks, lo + 1, hi);
    }
  }

  lemma {:induction false} SearchWrapped(marks: seq<bool>, cursor: nat, offset: nat)
    requires cursor < |marks| && |marks| - cursor <= offset <= |marks|
    ensures var s := Marked(marks, cursor + offset - |marks|, cursor);
            Search(marks, cursor, offset) == if s == [] then None else Some(s[0])
    decreases |marks| - offset
  {
    if offset < |marks| {
      SearchWrapped(marks, cursor, offset + 1);
    }
  }

  lemma {:induction false} SearchFindsFirst(marks: seq<bool>, cursor: nat, offset: nat)
    requires cursor < |marks| && offset <= |marks| - cursor
    ensures var s := Marked(marks, cursor + offset, |marks|) + Marked(marks, 0, cursor);
            Search(marks, cursor, offset) == if s == [] then None else Some(s[0])
    decreases |marks| - offset
  {
    if offset == |marks| - cursor {
      SearchWrapped(marks, cursor, offset);
      assert Marked(marks, |marks|, |marks|) + Marked(marks, 0, cursor) == Marked(marks, 0, cursor);
    } else {
      SearchFindsFirst(marks, cursor, offset + 1);
    }
  }

  /** One selection takes the head of the rotation and moves it to the end. */
  lemma SearchRotates(marks: seq<bool>, cursor: nat)
    requires cursor < |marks|
    ensures var found := Search(marks, cursor, 0); var s := Rotation(marks, cursor);
            && (found.None? <==> s == [])
            && (found.Some? ==> found.value == s[0] && Rotation(marks, Wrap(s[0] + 1, |marks|)) == s[1..] + [s[0]])
  {
    SearchFindsFirst(marks, cursor, 0);
    var n, s := |marks|, Rotation(marks, cursor);
    if Marked(marks, cursor, n) != [] {
      MarkedFirst(marks, cursor, n);
      var e := s[0];
      MarkedSplit(marks, 0, cursor, e + 1);
    } else if s != [] {
      MarkedFirst(marks, 0, cursor);
      var e := s[0];
      MarkedSplit(marks, e + 1, cursor, n);
    }
  }

  /** A selection fails exactly when no runner is eligible, and then the cursor stays. */
  lemma SelectsIffEligible(c: Catalog, f: Filter)
    requires CatalogInv(c)
    ensures var (q, got) := SelectedNext(c, f);
            && CatalogInv(q) && q == c.(cursor := q.cursor)
            && (got.None? <==> forall id | id in c.runners :: !Eligible(c.runners[id], f))
            && (got.None? ==> q == c)
            && (got.Some? ==>
                  got.value.id in c.runners && got.value == c.runners[got.value.id] && Eligible(got.value, f))
  {
    var marks := Marks(c, f);
    if c.order != [] {
      SearchRotates(marks, c.cursor);
      RotationExact(marks, c.cursor);
      if Search(marks, c.cursor, 0).None? {
        forall id | id in c.runners ensures !Eligible(c.runners[id], f) {
          var i :| 0 <= i < |c.order| && c.order[i] == id;
          assert i !in Rotation(marks, c.cursor) && !marks[i];
        }
      }
    }
  }

  /** `n` selections in a row with the same filter. */
  function Picks(c: Catalog, f: Filter, n: nat): (Catalog, seq<Worker>) {
    if n == 0 then (c, [])
    else
      var (q, picked) := Picks(c, f, n - 1);
      var (p, got) := SelectedNext(q, f);
      (p, if got.Some? then picked + [got.value] else picked)
  }

  lemma PickTakesHead(c: Catalog, f: Filter)
    requires CatalogInv(c) && c.order != [] && Rotation(Marks(c, f), c.cursor) != []
    ensures var s := Rotation(Marks(c, f), c.cursor); var (q, got) := SelectedNext(c, f);
            && s[0] < |c.order| && c.order[s[0]] in c.runners && got == Some(c.runners[c.order[s[0]]])
            && CatalogInv(q) && q == c.(cursor := q.cursor) && q.cursor < |c.order| && Marks(q, f) == Marks(c, f)
            && Rotation(Marks(c, f), q.cursor) == s[1..] + [s[0]]
  {
    SearchRotates(Marks(c, f), c.cursor);
    hide Rotation;
    hide Search;
  }

  /** Positions `s` hold exactly the workers `picked`. */
  ghost predicate PickedAt(c: Catalog, s: seq<nat>, picked: seq<Worker>) {
    && |picked| == |s|
    && forall i | 0 <= i < |s| ::
         s[i] < |c.order| && c.order[s[i]] in c.runners && picked[i] == c.runners[c.order[s[i]]]
  }

  lemma {:induction false} PicksFollowRotation(c: Catalog, f: Filter, n: nat)
    requires CatalogInv(c) && c.order != []
    requires n <= |Rotation(Marks(c, f), c.cursor)|
    ensures var (q, picked) := Picks(c, f, n); var s := Rotation(Marks(c, f), c.cursor);
            && CatalogInv(q) && q == c.(cursor := q.cursor) && q.cursor < |c.order| && Marks(q, f) == Marks(c, f)
            && Rotation(Marks(c, f), q.cursor) == s[n..] + s[..n]
            && PickedAt(c, s[..n], picked)
  {
    hide Rotation;
    hide Marks;
    hide SelectedNext;
    var s := Rotation(Marks(c, f), c.cursor);
    if n == 0 {
      assert s[0..] + s[..0] == s;
    } else {
      PicksFollowRotation(c, f, n - 1);
      var q := Picks(c, f, n - 1).0;
      PickTakesHead(q, f);
      var r := s[n - 1..] + s[..n - 1];
      assert r[0] == s[n - 1] && r[1..] + [r[0]] == s[n..] + s[..n];
      assert s[..n] == s[..n - 1] + [s[n - 1]];
    }
  }

  ghost function EligibleIds(c: Catalog, f: Filter): set<RunnerId> {
    set id | id in c.runners && Eligible(c.runners[id], f)
  }

  /**
   Round-robin fairness: with k eligible runners, k selections in a row, from any cursor,
   return each of them exactly once, nearest to the cursor first; afterwards the rotation is
   where it was, so the next k selections return them in the same order again.
   */
  lemma RoundRobinIsFair(c: Catalog, f: Filter)
    requires CatalogInv(c) && c.order != []
    ensures var s := Rotation(Marks(c, f), c.cursor); var (q, picked) := Picks(c, f, |s|);
            && |picked| == |s| == |EligibleIds(c, f)|
            && Distinct(Ids(picked))
            && (set id | id in Ids(picked)) == EligibleIds(c, f)
            && (forall i | 0 <= i < |s| :: s[i] < |c.order| && picked[i].id == c.order[s[i]])
            && (forall i, j | 0 <= i < j < |s| :: Steps(|c.order|, c.cursor, s[i]) < Steps(|c.order|, c.cursor, s[j]))
            && q == c.(cursor := q.cursor) && q.cursor < |c.order| && Rotation(Marks(q, f), q.cursor) == s
  {
    hide Rotation;
    hide Picks;
    hide CatalogInv;
    hide Marks;
    CursorInside(c);
    var s := Rotation(Marks(c, f), c.cursor);
    RotationExact(Marks(c, f), c.cursor);
    PicksFollowRotation(c, f, |s|);
    assert s[|s|..] + s[..|s|] == s && s[..|s|] == s;
    EveryEligibleOnce(c, f, s, Picks(c, f, |s|).1);
  }

  lemma CursorInside(c: Catalog)
    requires CatalogInv(c)
    ensures c.cursor <= |c.order|
  {
  }

  lemma EveryEligibleOnce(c: Catalog, f: Filter, s: seq<nat>, picked: seq<Worker>)
    requires CatalogInv(c) && PickedAt(c, s, picked) && Distinct(s)
    requires forall i: nat :: i in s <==> i < |c.order| && Marks(c, f)[i]
    ensures Distinct(Ids(picked)) && |picked| == |EligibleIds(c, f)|
    ensures (set id | id in Ids(picked)) == EligibleIds(c, f)
    ensures forall i | 0 <= i < |s| :: picked[i].id == c.order[s[i]]
  {
    var ids := Ids(picked);
    assert forall i | 0 <= i < |s| :: s[i] in s && ids[i] == c.order[s[i]];
    forall id | id in EligibleIds(c, f) ensures id in ids {
      var i :| 0 <= i < |c.order| && c.order[i] == id;
      assert Marks(c, f)[i] && i in s;
      var j :| 0 <= j < |s| && s[j] == i;
      assert ids[j] == id;
    }
    assert (set id | id in ids) == EligibleIds(c, f);
    DistinctSize(ids);
  }

  /** A runner that can serve: healthy and with VNC where required, starting or idle, not known to be full. */
  predicate Serves(w: Worker, requiresVnc: bool, requireHealthy: bool) {
    && (requireHealthy ==> w.healthy) && (requiresVnc ==> w.supportsVnc)
    && (w.availableSlots.None? || w.availableSlots.value != 0)
    && (w.state == Starting || w.state == Idle)
  }

  /** A selected runner can serve the request, and none is selected exactly when none can. */
  lemma SelectedServes(c: Catalog, requiresVnc: bool, requireHealthy: bool)
    requires CatalogInv(c)
    ensures var got := SelectedNext(c, Filter(requiresVnc, requireHealthy)).1;
            && (got.Some? ==>
                  && got.value.id in c.runners && got.value == c.runners[got.value.id]
                  && Serves(got.value, requiresVnc, requireHealthy))
            && (got.None? ==> forall id | id in c.runners :: !Serves(c.runners[id], requiresVnc, requireHealthy))
  {
    var f := Filter(requiresVnc, requireHealthy);
    SelectsIffEligible(c, f);
    hide SelectedNext;
    forall id | id in c.runners && Serves(c.runners[id], requiresVnc, requireHealthy) ensures id in EligibleIds(c, f) {
    }
  }

  /** The router's choice for a new session: a healthy runner first, then any. */
  function Chosen(c: Catalog, requiresVnc: bool): (Catalog, Option<Worker>) {
    var (q, got) := SelectedNext(c, Filter(requiresVnc, true));
    if got.Some? then (q, got) else SelectedNext(q, Filter(requiresVnc, false))
  }

  lemma ChosenPrefersHealthy(c: Catalog, requiresVnc: bool)
    requires CatalogInv(c)
    ensures var (q, got) := Chosen(c, requiresVnc);
            && CatalogInv(q) && q == c.(cursor := q.cursor)
            && (got.Some? <==> EligibleIds(c, Filter(requiresVnc, false)) != {})
            && (got.Some? ==>
                  got.value.id in EligibleIds(c, Filter(requiresVnc, false)) && got.value == c.runners[got.value.id])
            && (got.Some? && EligibleIds(c, Filter(requiresVnc, true)) != {} ==> got.value.healthy)
            && (got.None? ==> q == c)
  {
    hide SelectedNext;
    var healthy, all := Filter(requiresVnc, true), Filter(requiresVnc, false);
    SelectsIffEligible(c, healthy);
    SelectsIffEligible(c, all);
    assert EligibleIds(c, healthy) <= EligibleIds(c, all);
    var (q, got) := SelectedNext(c, healthy);
    if got.None? {
      assert EligibleIds(c, healthy) == {};
      assert SelectedNext(q, all) == SelectedNext(c, all);
      var got2 := SelectedNext(c, all).1;
      assert if got2.None? then EligibleIds(c, all) == {} else got2.value.id in EligibleIds(c, all);
    } else {
      assert got.value.id in EligibleIds(c, healthy);
    }
  }

  /** The choice can serve the session; it is healthy if any runner that can is; none only if none can. */
  lemma ChosenServes(c: Catalog, requiresVnc: bool)
    requires CatalogInv(c)
    ensures var got := Chosen(c, requiresVnc).1;
            && (got.Some? ==>
                  && got.value.id in c.runners && got.value == c.runners[got.value.id]
                  && Serves(got.value, requiresVnc, false))
            && (got.Some? && !got.value.healthy ==>
                  forall id | id in c.runners :: !Serves(c.runners[id], requiresVnc, true))
            && (got.None? ==> forall id | id in c.runners :: !Serves(c.runners[id], requiresVnc, false))
  {
    SelectedServes(c, requiresVnc, true);
    SelectedServes(c, requiresVnc, false);
    SelectsIffEligible(c, Filter(requiresVnc, true));
    hide SelectedNext;
  }

  // ---------- health ----------

  datatype HealthReport = HealthReport(
    healthy: bool, totalSlots: Option<int>, availableSlots: Option<int>, supportsVnc: Option<bool>)

  function Min(a: int, b: int): int {
    if a <= b then a else b
  }

  function Max(a: int, b: int): int {
    if a >= b then a else b
  }

  function Reported(w: Worker, h: HealthReport): Worker {
    var total := Capacity(w, h);
    w.(healthy := h.healthy,
       totalSlots := total,
       availableSlots := if h.availableSlots.Some? then Some(Max(Min(h.availableSlots.value, total), 0))
                         else w.availableSlots,
       supportsVnc := if h.supportsVnc.Some? then h.supportsVnc.value else w.supportsVnc)
  }

  predicate SlotsInRange(w: Worker) {
    w.availableSlots.Some? ==> 0 <= w.availableSlots.value <= w.totalSlots
  }

  /** The capacity a report leaves: its own, or the one known before. */
  function Capacity(w: Worker, h: HealthReport): int {
    if h.totalSlots.Some? then h.totalSlots.value else w.totalSlots
  }

  /**
   Reports are not validated. One that mentions the free slots is tolerable when the capacity it
   leaves is not negative; one that does not, when that capacity covers the free slots known so far.
   */
  predicate Tolerable(w: Worker, h: HealthReport) {
    if h.availableSlots.Some? then Capacity(w, h) >= 0
    else w.availableSlots.None? || w.availableSlots.value <= Capacity(w, h)
  }

  /** A report keeps the free slots within the capacity exactly when it is tolerable. */
  lemma ReportKeepsRangeIff(w: Worker, h: HealthReport)
    requires SlotsInRange(w)
    ensures SlotsInRange(Reported(w, h)) <==> Tolerable(w, h)
  {
  }

  /** Both ways out of range: a capacity lowered below the free slots, and a negative capacity. */
  lemma ReportsThatBreakRange(w: Worker)
    requires w.totalSlots == 4 && w.availableSlots == Some(2)
    ensures SlotsInRange(w)
    ensures !SlotsInRange(Reported(w, HealthReport(true, Some(1), None, None)))
    ensures !SlotsInRange(Reported(w, HealthReport(true, Some(-1), Some(0), None)))
  {
    ReportKeepsRangeIff(w, HealthReport(true, Some(1), None, None));
    ReportKeepsRangeIff(w, HealthReport(true, Some(-1), Some(0), None));
  }

  function ReportedAll(w: Worker, reports: seq<HealthReport>): Worker {
    if reports == [] then w else Reported(ReportedAll(w, reports[..|reports| - 1]), reports[|reports| - 1])
  }

  /** In range at the start and after every report. */
  predicate AlwaysInRange(w: Worker, reports: seq<HealthReport>) {
    SlotsInRange(ReportedAll(w, reports)) && (reports != [] ==> AlwaysInRange(w, reports[..|reports| - 1]))
  }

  /** Each report is tolerable where it arrives. */
  predicate EachTolerable(w: Worker, reports: seq<HealthReport>) {
    reports != [] ==>
      var earlier := reports[..|reports| - 1];
      EachTolerable(w, earlier) && Tolerable(ReportedAll(w, earlier), reports[|reports| - 1])
  }

  /** Over a run of reports the range is never left exactly when each report is tolerable where it arrives. */
  lemma {:induction false} ReportsKeepRangeIff(w: Worker, reports: seq<HealthReport>)
    requires SlotsInRange(w)
    ensures AlwaysInRange(w, reports) <==> EachTolerable(w, reports)
  {
    if reports != [] {
      var earlier := reports[..|reports| - 1];
      ReportsKeepRangeIff(w, earlier);
      if AlwaysInRange(w, earlier) {
        ReportKeepsRangeIff(ReportedAll(w, earlier), reports[|reports| - 1]);
      }
    }
  }

  function HealthRecorded(c: Catalog, id: RunnerId, h: HealthReport): (Catalog, Option<Worker>) {
    if id !in c.runners then (c, None)
    else
      var w := Reported(c.runners[id], h);
      (c.(runners := c.runners[id := w]), Some(w))
  }

  /**
   What a report leaves: health and capacity as reported, VNC support as reported or as before, the
   free slots as reported but not below zero nor above a capacity that is not negative, or as before.
   */
  lemma ReportApplies(c: Catalog, id: RunnerId, h: HealthReport)
    requires id in c.runners
    ensures var (q, got) := HealthRecorded(c, id, h); var before := c.runners[id];
            && q == c.(runners := q.runners) && q.runners.Keys == c.runners.Keys
            && (forall other | other in c.runners && other != id :: q.runners[other] == c.runners[other])
            && got == Some(q.runners[id])
            && var after := q.runners[id];
               && after.id == before.id && after.state == before.state && after.healthy == h.healthy
               && (h.supportsVnc.None? ==> after.supportsVnc == before.supportsVnc)
               && (h.supportsVnc.Some? ==> after.supportsVnc == h.supportsVnc.value)
               && (h.totalSlots.None? ==> after.totalSlots == before.totalSlots)
               && (h.totalSlots.Some? ==> after.totalSlots == h.totalSlots.value)
               && (h.availableSlots.None? ==> after.availableSlots == before.availableSlots)
               && (h.availableSlots.Some? ==>
                     && after.availableSlots.Some?
                     && (0 <= h.availableSlots.value <= after.totalSlots ==> after.availableSlots == h.availableSlots)
                     && (h.availableSlots.value > after.totalSlots >= 0 ==>
                           after.availableSlots.value == after.totalSlots)
                     && (h.availableSlots.value < 0 || after.totalSlots < 0 ==> after.availableSlots.value == 0))
  {
  }

  /** Only a registered runner's report is recorded. */
  lemma UnknownReportIgnored(c: Catalog, id: RunnerId, h: HealthReport)
    ensures HealthRecorded(c, id, h).1.None? <==> id !in c.runners
    ensures id !in c.runners ==> HealthRecorded(c, id, h).0 == c
  {
  }

  lemma HealthKeepsInv(c: Catalog, id: RunnerId, h: HealthReport)
    requires CatalogInv(c)
    ensures var q := HealthRecorded(c, id, h).0;
            CatalogInv(q) && q.runners.Keys == c.runners.Keys && q.bindings == c.bindings
  {
  }

  // ---------- the object ----------

  class RunnerRegistry {
    var runners: map<RunnerId, Worker>
    var order: seq<RunnerId>
    var cursor: nat
    var bindings: map<SessionId, Binding>

    ghost function State(): Catalog
      reads this
    {
      Catalog(runners, order, cursor, bindings)
    }

    constructor (seed: seq<Worker>)
      ensures State() == Seeded(seed)
    {
      runners, order, cursor, bindings := map[], [], 0, map[];
      new;
      for i := 0 to |seed|
        invariant State() == Seeded(seed[..i])
      {
        assert seed[..i + 1][..i] == seed[..i];
        runners := runners[seed[i].id := seed[i]];
        order := order + [seed[i].id];
      }
      assert seed[..|seed|] == seed;
    }

    method Upsert(w: Worker)
      modifies this
      ensures State() == Upserted(old(State()), w)
    {
      var isNew := w.id !in runners;
      runners := runners[w.id := w];
      if isNew {
        order := order + [w.id];
      }
      cursor := cursor % (if |order| > 1 then |order| else 1);
    }

    method RegisterSessionWsEndpoint(session: SessionId, runner: RunnerId, target: Option<string>)
      returns (exposed: bool)
      modifies this
      ensures State() == Bound(old(State()), session, runner, target)
      ensures exposed <==> target.Some? && target.value != ""
    {
      if target.None? || target.value == "" {
        bindings := bindings - {session};
        return false;
      }
      bindings := bindings[session := Binding(runner, target.value)];
      exposed := true;
    }

    method DropSessionWsEndpoint(session: SessionId)
      modifies this
      ensures State() == old(State()).(bindings := old(bindings) - {session})
    {
      bindings := bindings - {session};
    }

    method Remove(id: RunnerId) returns (removed: Option<Worker>)
      modifies this
      ensures State() == Removed(old(State()), id)
      ensures removed == if id in old(runners) then Some(old(runners)[id]) else None
    {
      if id !in runners {
        return None;
      }
      removed := Some(runners[id]);
      runners := runners - {id};
      order := RemoveFirst(order, id);
      cursor := cursor % (if |order| > 1 then |order| else 1);
      bindings := Unbound(bindings, id);
    }

    method SelectNext(f: Filter) returns (got: Option<Worker>)
      requires CatalogInv(State())
      modifies `cursor
      ensures (State(), got) == SelectedNext(old(State()), f)
    {
      hide Modulo;
      hide Search;
      var total := |order|;
      ghost var marks := Marks(State(), f);
      if total == 0 {
        SearchOver(marks, cursor);
        return None;
      }
      var start := cursor;
      for offset := 0 to total
        invariant cursor == start
        invariant Search(marks, start, 0) == Search(marks, start, offset)
      {
        var index := Modulo(start + offset, total);
        var candidate := runners[order[index]];
        assert marks[index] <==> Eligible(candidate, f);
        SearchOnce(marks, start, offset);
        if f.requireHealthy && !candidate.healthy {
          continue;
        }
        if f.requiresVnc && !candidate.supportsVnc {
          continue;
        }
        if candidate.availableSlots.Some? && candidate.availableSlots.value == 0 {
          continue;
        }
        if candidate.state in {Busy, Degraded, Offline} {
          continue;
        }
        cursor := Modulo(index + 1, total);
        return Some(candidate);
      }
      SearchOver(marks, start);
      cursor := start;
      got := None;
    }

    /** The router's two passes over the registry for a session that names no runner. */
    method ChooseForCreate(requiresVnc: bool) returns (got: Option<Worker>)
      requires CatalogInv(State())
      modifies `cursor
      ensures (State(), got) == Chosen(old(State()), requiresVnc)
    {
      SelectsIffEligible(State(), Filter(requiresVnc, true));
      got := SelectNext(Filter(requiresVnc, true));
      if got.None? {
        got := SelectNext(Filter(requiresVnc, false));
      }
    }

    method RecordHealth(id: RunnerId, h: HealthReport) returns (updated: Option<Worker>)
      modifies this
      ensures (State(), updated) == HealthRecorded(old(State()), id, h)
    {
      if id !in runners {
        return None;
      }
      var w := runners[id].(healthy := h.healthy);
      if h.totalSlots.Some? {
        w := w.(totalSlots := h.totalSlots.value);
      }
      if h.availableSlots.Some? {
        w := w.(availableSlots := Some(Max(Min(h.availableSlots.value, w.totalSlots), 0)));
      }
      if h.supportsVnc.Some? {
        w := w.(supportsVnc := h.supportsVnc.value);
      }
      runners := runners[id := w];
      updated := Some(w);
    }
  }
}
