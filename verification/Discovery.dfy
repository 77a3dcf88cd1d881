/**
 Runner discovery: reconciling the catalogue with a snapshot of the runners that exist, and
 purging the sessions of the runners that do not.
 */
module Discoveries {
  import opened Domain
  import opened RunnerRegistries

  /** A session as the gateway stores it, reduced to where it runs. */
  datatype Hosted = Hosted(id: SessionId, runner: RunnerId)

  datatype Gateway = Gateway(catalog: Catalog, known: set<RunnerId>, sessions: seq<Hosted>)

  datatype SyncResult = SyncResult(added: set<RunnerId>, updated: set<RunnerId>, removed: set<RunnerId>)

  /** The catalogue is sound, discovery only knows registered runners, and no session is listed twice. */
  ghost predicate GatewayInv(g: Gateway) {
    && CatalogInv(g.catalog)
    && g.known <= g.catalog.runners.Keys
    && UniqueIds(g.sessions)
  }

  ghost predicate UniqueIds(sessions: seq<Hosted>) {
    forall i, j | 0 <= i < j < |sessions| :: sessions[i].id != sessions[j].id
  }

  // ---------- refresh and purge as functions ----------

  function Observed(snapshot: seq<Worker>): set<RunnerId> {
    set w | w in snapshot :: w.id
  }

  function UpsertAll(c: Catalog, snapshot: seq<Worker>): Catalog {
    if snapshot == [] then c else Upserted(UpsertAll(c, snapshot[..|snapshot| - 1]), snapshot[|snapshot| - 1])
  }

  function Without(order: seq<RunnerId>, ids: set<RunnerId>): seq<RunnerId> {
    if order == [] then []
    else
      var rest := Without(order[..|order| - 1], ids);
      var last := order[|order| - 1];
      if last in ids then rest else rest + [last]
  }

  /** The cursor after `gone` of `total` runners have been removed one by one. */
  function CursorAfter(cursor: nat, total: nat, gone: nat): nat
    requires gone <= total
  {
    if gone == 0 then cursor else Wrapped(CursorAfter(cursor, total, gone - 1), total - gone)
  }

  function UnboundAll(bindings: map<SessionId, Binding>, ids: set<RunnerId>): map<SessionId, Binding> {
    map s | s in bindings && bindings[s].runner !in ids :: bindings[s]
  }

  /** All of `ids` removed; the order of the removals makes no difference. */
  function WithoutRunners(c: Catalog, ids: set<RunnerId>): Catalog {
    Catalog(c.runners - ids, Without(c.order, ids),
            if |ids| <= |c.order| then CursorAfter(c.cursor, |c.order|, |ids|) else 0,
            UnboundAll(c.bindings, ids))
  }

  function HostedBy(sessions: seq<Hosted>, ids: set<RunnerId>): set<SessionId> {
    set h | h in sessions && h.runner in ids :: h.id
  }

  function Refreshed(g: Gateway, snapshot: seq<Worker>): (Gateway, SyncResult) {
    var observed := Observed(snapshot);
    var removed := g.known - observed;
    var c := UpsertAll(g.catalog, snapshot);
    var dropped := c.(bindings := c.bindings - HostedBy(g.sessions, removed));
    (Gateway(if removed == {} then c else WithoutRunners(dropped, removed), observed, g.sessions),
     SyncResult(observed - g.known, observed * g.known, removed))
  }

  function Elsewhere(sessions: seq<Hosted>, missing: set<RunnerId>): seq<Hosted> {
    if sessions == [] then []
    else
      var rest := Elsewhere(sessions[..|sessions| - 1], missing);
      var h := sessions[|sessions| - 1];
      if h.runner in missing then rest else rest + [h]
  }

  function Orphans(sessions: seq<Hosted>, missing: set<RunnerId>): seq<SessionId> {
    if sessions == [] then []
    else
      var rest := Orphans(sessions[..|sessions| - 1], missing);
      var h := sessions[|sessions| - 1];
      if h.runner in missing then rest + [h.id] else rest
  }

  function Purged(g: Gateway, missing: set<RunnerId>): (Gateway, seq<SessionId>) {
    (g.(sessions := Elsewhere(g.sessions, missing),
        catalog := g.catalog.(bindings := g.catalog.bindings - HostedBy(g.sessions, missing))),
     Orphans(g.sessions, missing))
  }

  // ---------- what they achieve ----------

  /** `a` stands before `b`. */
  ghost predicate Before(order: seq<RunnerId>, a: RunnerId, b: RunnerId) {
    exists i, j :: 0 <= i < j < |order| && order[i] == a && order[j] == b
  }

  lemma {:induction false} WithoutExact(order: seq<RunnerId>, ids: set<RunnerId>)
    requires Distinct(order)
    ensures var rest := Without(order, ids);
            && Distinct(rest)
            && (forall x :: x in rest <==> x in order && x !in ids)
  {
    if order != [] {
      var n := |order| - 1;
      WithoutExact(order[..n], ids);
      assert order == order[..n] + [order[n]];
      assert order[n] !in order[..n];
      var rest := Without(order[..n], ids);
      assert forall i | 0 <= i < |rest| :: rest[i] in rest;
    }
  }

  /** Those who stay keep their relative order. */
  lemma {:induction false} WithoutKeepsOrder(order: seq<RunnerId>, ids: set<RunnerId>, a: RunnerId, b: RunnerId)
    requires Distinct(order) && a !in ids && b !in ids && Before(order, a, b)
    ensures Before(Without(order, ids), a, b)
  {
    var n := |order| - 1;
    var i, j :| 0 <= i < j < |order| && order[i] == a && order[j] == b;
    var rest, init := Without(order, ids), Without(order[..n], ids);
    WithoutExact(order[..n], ids);
    assert order[..n][i] == a;
    if j < n {
      assert order[..n][j] == b;
      WithoutKeepsOrder(order[..n], ids, a, b);
      var k, l :| 0 <= k < l < |init| && init[k] == a && init[l] == b;
      assert rest[k] == a && rest[l] == b;
    } else {
      var k :| 0 <= k < |init| && init[k] == a;
      assert rest[k] == a && rest[|init|] == b;
    }
  }

  lemma {:induction false} WithoutNothing(order: seq<RunnerId>)
    ensures Without(order, {}) == order
  {
    if order != [] {
      WithoutNothing(order[..|order| - 1]);
    }
  }

  /** Removing one more of the missing runners is one step of the closed form. */
  lemma {:induction false} WithoutOneMore(order: seq<RunnerId>, ids: set<RunnerId>, id: RunnerId)
    requires Distinct(order)
    ensures Without(order, ids + {id}) == RemoveFirst(Without(order, ids), id)
  {
    if order != [] {
      var n := |order| - 1;
      WithoutOneMore(order[..n], ids, id);
      WithoutExact(order[..n], ids);
      assert order[n] !in order[..n];
      if order[n] !in ids {
        var rest := Without(order[..n], ids);
        RemoveFirstOfAppended(rest, order[n], id);
        if id !in rest { RemoveFirstAbsent(rest, id); }
      }
    }
  }

  lemma {:induction false} RemoveFirstAbsent(order: seq<RunnerId>, id: RunnerId)
    requires id !in order
    ensures RemoveFirst(order, id) == order
  {
    if order != [] {
      RemoveFirstAbsent(order[1..], id);
    }
  }

  lemma {:induction false} RemoveFirstOfAppended(order: seq<RunnerId>, last: RunnerId, id: RunnerId)
    ensures RemoveFirst(order + [last], id) ==
            if id in order then RemoveFirst(order, id) + [last]
            else if id == last then order
            else order + [last]
  {
    if order == [] {
      assert [last][1..] == [];
    } else {
      assert (order + [last])[1..] == order[1..] + [last];
      assert order == [order[0]] + order[1..];
      RemoveFirstOfAppended(order[1..], last, id);
    }
  }

  lemma {:induction false} WithoutSize(order: seq<RunnerId>, ids: set<RunnerId>)
    requires Distinct(order) && forall id | id in ids :: id in order
    ensures |Without(order, ids)| == |order| - |ids|
  {
    WithoutExact(order, ids);
    DistinctSize(order);
    DistinctSize(Without(order, ids));
    assert (set x | x in Without(order, ids)) == (set x | x in order) - ids;
    assert ids <= set x | x in order;
  }

  lemma RemovedOneMore(c: Catalog, ids: set<RunnerId>, id: RunnerId)
    requires CatalogInv(c) && ids <= c.runners.Keys && id in c.runners && id !in ids
    ensures Removed(WithoutRunners(c, ids), id) == WithoutRunners(c, ids + {id})
  {
    WithoutOneMore(c.order, ids, id);
    WithoutSize(c.order, ids);
    WithoutSize(c.order, ids + {id});
    assert c.runners - ids - {id} == c.runners - (ids + {id});
    assert Unbound(UnboundAll(c.bindings, ids), id) == UnboundAll(c.bindings, ids + {id});
  }

  lemma {:induction false} CursorStaysInside(cursor: nat, total: nat, gone: nat)
    requires gone <= total && (cursor < total || cursor == 0)
    ensures var k := CursorAfter(cursor, total, gone); k < total - gone || k == 0
  {
    if gone > 0 {
      CursorStaysInside(cursor, total, gone - 1);
    }
  }

  lemma WithoutRunnersKeepsInv(c: Catalog, ids: set<RunnerId>)
    requires CatalogInv(c) && ids <= c.runners.Keys
    ensures CatalogInv(WithoutRunners(c, ids))
  {
    WithoutExact(c.order, ids);
    WithoutSize(c.order, ids);
    CursorStaysInside(c.cursor, |c.order|, |ids|);
  }

  /** The first mention of each runner of the snapshot that is not registered yet. */
  function Newcomers(order: seq<RunnerId>, snapshot: seq<Worker>): seq<RunnerId> {
    if snapshot == [] then []
    else
      var earlier := Newcomers(order, snapshot[..|snapshot| - 1]);
      var id := snapshot[|snapshot| - 1].id;
      if id in order || id in earlier then earlier else earlier + [id]
  }

  lemma RotationListsRunners(c: Catalog)
    requires CatalogInv(c)
    ensures forall id :: id in c.order <==> id in c.runners
  {
  }

  lemma {:induction false} UpsertAllKeepsInv(c: Catalog, snapshot: seq<Worker>)
    requires CatalogInv(c)
    ensures var q := UpsertAll(c, snapshot);
            && CatalogInv(q)
            && q.cursor == c.cursor && q.bindings == c.bindings
            && q.runners.Keys == c.runners.Keys + Observed(snapshot)
            && q.order == c.order + Newcomers(c.order, snapshot)
  {
    hide CatalogInv;
    hide Upserted;
    hide Observed;
    if snapshot != [] {
      var q := UpsertAll(c, snapshot[..|snapshot| - 1]);
      UpsertAllKeepsInv(c, snapshot[..|snapshot| - 1]);
      RotationListsRunners(c);
      RotationListsRunners(q);
      UpsertKeepsInv(q, snapshot[|snapshot| - 1]);
      ObservedOneMore(snapshot);
    } else {
      ObservedNone();
    }
  }

  lemma {:induction false} UpsertAllLatest(c: Catalog, snapshot: seq<Worker>)
    ensures var q := UpsertAll(c, snapshot);
            && (forall id | id in c.runners && id !in Observed(snapshot) ::
                  id in q.runners && q.runners[id] == c.runners[id])
            && (forall id | id in Observed(snapshot) :: id in q.runners && q.runners[id] in snapshot)
  {
    hide Observed;
    if snapshot != [] {
      var n := |snapshot| - 1;
      UpsertAllLatest(c, snapshot[..n]);
      assert snapshot == snapshot[..n] + [snapshot[n]];
      ObservedOneMore(snapshot);
    } else {
      ObservedNone();
    }
  }

  /** A runner the snapshot lists more than once is registered as listed last. */
  lemma {:induction false} LastListedWins(c: Catalog, snapshot: seq<Worker>, i: int)
    requires 0 <= i < |snapshot| && forall j | i < j < |snapshot| :: snapshot[j].id != snapshot[i].id
    ensures var q := UpsertAll(c, snapshot); snapshot[i].id in q.runners && q.runners[snapshot[i].id] == snapshot[i]
  {
    var n := |snapshot| - 1;
    if i < n {
      assert forall j | 0 <= j < n :: snapshot[..n][j] == snapshot[j];
      LastListedWins(c, snapshot[..n], i);
    }
  }

  /** A snapshot's runners are registered with their latest description, the others keep theirs. */
  lemma UpsertAllExact(c: Catalog, snapshot: seq<Worker>)
    requires CatalogInv(c)
    ensures var q := UpsertAll(c, snapshot);
            && CatalogInv(q)
            && q.cursor == c.cursor && q.bindings == c.bindings
            && q.runners.Keys == c.runners.Keys + Observed(snapshot)
            && (forall id | id in c.runners && id !in Observed(snapshot) :: q.runners[id] == c.runners[id])
            && (forall id | id in Observed(snapshot) :: q.runners[id] in snapshot)
            && q.order == c.order + Newcomers(c.order, snapshot)
  {
    hide CatalogInv;
    hide UpsertAll;
    hide Newcomers;
    UpsertAllKeepsInv(c, snapshot);
    UpsertAllLatest(c, snapshot);
  }

  lemma ObservedNone()
    ensures Observed([]) == {}
  {
  }

  lemma ObservedOneMore(snapshot: seq<Worker>)
    requires snapshot != []
    ensures Observed(snapshot) == Observed(snapshot[..|snapshot| - 1]) + {snapshot[|snapshot| - 1].id}
  {
    assert snapshot == snapshot[..|snapshot| - 1] + [snapshot[|snapshot| - 1]];
  }

  lemma {:induction false} NewcomersExact(order: seq<RunnerId>, snapshot: seq<Worker>)
    ensures forall id :: id in Newcomers(order, snapshot) <==> id in Observed(snapshot) && id !in order
  {
    if snapshot != [] {
      var n := |snapshot| - 1;
      NewcomersExact(order, snapshot[..n]);
      assert snapshot == snapshot[..n] + [snapshot[n]];
      ObservedOneMore(snapshot);
    }
  }

  lemma {:induction false} WithoutAppended(order: seq<RunnerId>, more: seq<RunnerId>, ids: set<RunnerId>)
    requires forall id | id in more :: id !in ids
    ensures Without(order + more, ids) == Without(order, ids) + more
  {
    if more == [] {
      assert order + more == order;
    } else {
      var n := |more| - 1;
      WithoutAppended(order, more[..n], ids);
      assert (order + more)[..|order + more| - 1] == order + more[..n];
      assert more == more[..n] + [more[n]];
    }
  }

  /**
   A refresh reconciles: the runners discovery knows are those of the snapshot, with their
   latest description; a registered runner that no refresh ever saw stays; survivors keep
   their places in the rotation and newcomers follow in snapshot order; of the bindings only
   those of removed runners, and of sessions hosted there, are dropped.
   */
  lemma RefreshReconciles(g: Gateway, snapshot: seq<Worker>)
    requires GatewayInv(g)
    ensures var (q, result) := Refreshed(g, snapshot); var observed := Observed(snapshot);
            && GatewayInv(q) && q.known == observed && q.sessions == g.sessions
            && q.catalog.runners.Keys == observed + (g.catalog.runners.Keys - g.known)
            && (forall id | id in observed :: q.catalog.runners[id] in snapshot)
            && q.catalog.order == Without(g.catalog.order, result.removed) + Newcomers(g.catalog.order, snapshot)
            && (forall a, b | a in q.catalog.runners && b in q.catalog.runners && Before(g.catalog.order, a, b) ::
                  Before(q.catalog.order, a, b))
            && result.added !! result.updated && result.added + result.updated == observed
            && result.added !! g.known && result.removed == g.known - observed
            && (forall s :: s in q.catalog.bindings <==>
                  && s in g.catalog.bindings
                  && g.catalog.bindings[s].runner !in result.removed
                  && s !in HostedBy(g.sessions, result.removed))
            && (forall s | s in q.catalog.bindings :: q.catalog.bindings[s] == g.catalog.bindings[s])
  {
    hide CatalogInv;
    hide Before;
    hide UpsertAll;
    hide Without;
    hide Newcomers;
    hide CursorAfter;
    hide HostedBy;
    var observed := Observed(snapshot);
    var removed := g.known - observed;
    var c := UpsertAll(g.catalog, snapshot);
    var dropped := c.(bindings := c.bindings - HostedBy(g.sessions, removed));
    RefreshedRunners(g, snapshot);
    UpsertAllExact(g.catalog, snapshot);
    NewcomersExact(g.catalog.order, snapshot);
    WithoutAppended(g.catalog.order, Newcomers(g.catalog.order, snapshot), removed);
    if removed == {} {
      WithoutNothing(g.catalog.order);
      NobodyHosted(g.sessions);
    } else {
      BindingsDropped(c, HostedBy(g.sessions, removed));
      WithoutRunnersKeepsInv(dropped, removed);
    }
    forall a, b | a !in removed && b !in removed && Before(g.catalog.order, a, b)
      ensures Before(Without(g.catalog.order, removed) + Newcomers(g.catalog.order, snapshot), a, b)
    {
      DistinctCatalog(g.catalog);
      WithoutKeepsOrder(g.catalog.order, removed, a, b);
      BeforeAppended(Without(g.catalog.order, removed), Newcomers(g.catalog.order, snapshot), a, b);
    }
  }

  lemma RefreshedRunners(g: Gateway, snapshot: seq<Worker>)
    requires GatewayInv(g)
    ensures var q := Refreshed(g, snapshot).0; var observed := Observed(snapshot);
            && q.catalog.runners.Keys == observed + (g.catalog.runners.Keys - g.known)
            && (forall id | id in observed :: q.catalog.runners[id] in snapshot)
  {
    hide CatalogInv;
    hide UpsertAll;
    hide Newcomers;
    hide Observed;
    hide Refreshed;
    UpsertAllExact(g.catalog, snapshot);
    RefreshedTable(g, snapshot);
    var observed, runners := Observed(snapshot), Refreshed(g, snapshot).0.catalog.runners;
    assert runners.Keys == (g.catalog.runners.Keys + observed) - (g.known - observed);
    assert (g.catalog.runners.Keys + observed) - (g.known - observed) == observed + (g.catalog.runners.Keys - g.known);
  }

  lemma RefreshedTable(g: Gateway, snapshot: seq<Worker>)
    ensures Refreshed(g, snapshot).0.catalog.runners
            == UpsertAll(g.catalog, snapshot).runners - (g.known - Observed(snapshot))
  {
    hide UpsertAll;
    hide Without;
    hide CursorAfter;
    hide UnboundAll;
    hide HostedBy;
    hide Observed;
    var c := UpsertAll(g.catalog, snapshot);
    assert c.runners - {} == c.runners;
  }

  lemma DistinctCatalog(c: Catalog)
    requires CatalogInv(c)
    ensures Distinct(c.order)
  {
  }

  lemma NobodyHosted(sessions: seq<Hosted>)
    ensures HostedBy(sessions, {}) == {}
  {
  }

  lemma BeforeAppended(order: seq<RunnerId>, more: seq<RunnerId>, a: RunnerId, b: RunnerId)
    requires Before(order, a, b)
    ensures Before(order + more, a, b)
  {
    var i, j :| 0 <= i < j < |order| && order[i] == a && order[j] == b;
    assert (order + more)[i] == a && (order + more)[j] == b;
  }

  lemma {:induction false} ElsewhereExact(sessions: seq<Hosted>, missing: set<RunnerId>)
    ensures forall h :: h in Elsewhere(sessions, missing) <==> h in sessions && h.runner !in missing
    ensures forall s :: s in Orphans(sessions, missing) <==> s in HostedBy(sessions, missing)
  {
    if sessions != [] {
      var n := |sessions| - 1;
      ElsewhereExact(sessions[..n], missing);
      assert sessions == sessions[..n] + [sessions[n]];
      assert HostedBy(sessions, missing) ==
             HostedBy(sessions[..n], missing) + if sessions[n].runner in missing then {sessions[n].id} else {};
    }
  }

  /** `a` stands before `b`. */
  ghost predicate InOrder<T>(s: seq<T>, a: T, b: T) {
    exists k, l :: 0 <= k < l < |s| && s[k] == a && s[l] == b
  }

  lemma InOrderAppended<T>(s: seq<T>, x: T)
    ensures forall a, b | InOrder(s, a, b) :: InOrder(s + [x], a, b)
    ensures forall a | a in s :: InOrder(s + [x], a, x)
  {
    forall a, b | InOrder(s, a, b) ensures InOrder(s + [x], a, b) {
      var k, l :| 0 <= k < l < |s| && s[k] == a && s[l] == b;
      assert (s + [x])[k] == a && (s + [x])[l] == b;
    }
    forall a | a in s ensures InOrder(s + [x], a, x) {
      var k :| 0 <= k < |s| && s[k] == a;
      assert (s + [x])[k] == a && (s + [x])[|s|] == x;
    }
  }

  /** A purge keeps the order of the sessions that stay, and reports those that go in theirs, one entry each. */
  lemma {:induction false} PurgeKeepsOrder(sessions: seq<Hosted>, missing: set<RunnerId>, i: int, j: int)
    requires 0 <= i < j < |sessions|
    ensures var a, b := sessions[i], sessions[j];
            && (a.runner !in missing && b.runner !in missing ==> InOrder(Elsewhere(sessions, missing), a, b))
            && (a.runner in missing && b.runner in missing ==> InOrder(Orphans(sessions, missing), a.id, b.id))
  {
    var n := |sessions| - 1;
    InOrderAppended(Elsewhere(sessions[..n], missing), sessions[n]);
    InOrderAppended(Orphans(sessions[..n], missing), sessions[n].id);
    assert sessions[..n][i] == sessions[i];
    if j < n {
      PurgeKeepsOrder(sessions[..n], missing, i, j);
    } else {
      ElsewhereExact(sessions[..n], missing);
    }
    hide InOrder;
  }

  /** A purge drops exactly the bindings of the sessions it purges, and leaves the runners alone. */
  lemma PurgeDropsBindings(g: Gateway, missing: set<RunnerId>, session: SessionId)
    ensures var q := Purged(g, missing).0; var c := g.catalog;
            && q.catalog == c.(bindings := q.catalog.bindings) && q.known == g.known
            && (session in q.catalog.bindings <==>
                  && session in c.bindings
                  && forall h | h in g.sessions && h.id == session :: h.runner !in missing)
            && (session in q.catalog.bindings ==> q.catalog.bindings[session] == c.bindings[session])
  {
  }

  lemma {:induction false} ElsewhereKeepsDistinct(sessions: seq<Hosted>, missing: set<RunnerId>)
    requires UniqueIds(sessions)
    ensures UniqueIds(Elsewhere(sessions, missing))
  {
    if sessions != [] {
      var n := |sessions| - 1;
      ElsewhereKeepsDistinct(sessions[..n], missing);
      ElsewhereExact(sessions[..n], missing);
      var rest := Elsewhere(sessions[..n], missing);
      var whole := Elsewhere(sessions, missing);
      forall i, j | 0 <= i < j < |whole| ensures whole[i].id != whole[j].id {
        assert rest[i] in rest;
        if j == |rest| {
          var k :| 0 <= k < n && sessions[..n][k] == rest[i];
          assert sessions[k] == rest[i];
        } else {
          assert rest[i].id != rest[j].id;
        }
      }
    }
  }

  /**
   After a refresh and its purge no session and no binding is left of a removed runner, and
   sessions hosted elsewhere keep their place, and their binding unless it names a removed runner.
   */
  lemma PurgeLeavesNoTrace(g: Gateway, snapshot: seq<Worker>)
    requires GatewayInv(g)
    ensures var (r, result) := Refreshed(g, snapshot); var (q, purged) := Purged(r, result.removed);
            && GatewayInv(q) && q.known == r.known && q.catalog == r.catalog.(bindings := q.catalog.bindings)
            && (forall h | h in q.sessions :: h.runner !in result.removed)
            && (forall s | s in q.catalog.bindings :: q.catalog.bindings[s].runner !in result.removed)
            && q.sessions == Elsewhere(g.sessions, result.removed)
            && (forall h | h in g.sessions && h.runner !in result.removed ::
                  && h in q.sessions
                  && (h.id in g.catalog.bindings && g.catalog.bindings[h.id].runner !in result.removed ==>
                        h.id in q.catalog.bindings && q.catalog.bindings[h.id] == g.catalog.bindings[h.id]))
            && (forall s :: s in purged <==> s in HostedBy(g.sessions, result.removed))
  {
    hide CatalogInv;
    hide Refreshed;
    hide UniqueIds;
    hide Observed;
    hide Without;
    hide Newcomers;
    hide Before;
    RefreshReconciles(g, snapshot);
    var (r, result) := Refreshed(g, snapshot);
    ElsewhereExact(g.sessions, result.removed);
    ElsewhereKeepsDistinct(g.sessions, result.removed);
    BindingsDropped(r.catalog, HostedBy(g.sessions, result.removed));
    forall h | h in g.sessions && h.runner !in result.removed ensures h.id !in HostedBy(g.sessions, result.removed) {
      HostedElsewhere(g.sessions, result.removed, h);
    }
  }

  lemma HostedElsewhere(sessions: seq<Hosted>, missing: set<RunnerId>, h: Hosted)
    requires UniqueIds(sessions) && h in sessions && h.runner !in missing
    ensures h.id !in HostedBy(sessions, missing)
  {
    forall o | o in sessions && o.runner in missing ensures o.id != h.id {
      IdsDiffer(sessions, o, h);
    }
  }

  lemma IdsDiffer(sessions: seq<Hosted>, a: Hosted, b: Hosted)
    requires UniqueIds(sessions) && a in sessions && b in sessions && a != b
    ensures a.id != b.id
  {
    var i :| 0 <= i < |sessions| && sessions[i] == a;
    var j :| 0 <= j < |sessions| && sessions[j] == b;
    assert i < j || j < i;
  }

  lemma BindingsDropped(c: Catalog, gone: set<SessionId>)
    ensures CatalogInv(c) <==> CatalogInv(c.(bindings := c.bindings - gone))
  {
  }

  // ---------- runs ----------

  /** `upsert` of the session registry: an existing entry is replaced where it stands. */
  function Placed(sessions: seq<Hosted>, h: Hosted): seq<Hosted> {
    if sessions == [] then [h]
    else if sessions[0].id == h.id then [h] + sessions[1..]
    else [sessions[0]] + Placed(sessions[1..], h)
  }

  function Deleted(sessions: seq<Hosted>, id: SessionId): seq<Hosted> {
    if sessions == [] then []
    else
      var rest := Deleted(sessions[..|sessions| - 1], id);
      var h := sessions[|sessions| - 1];
      if h.id == id then rest else rest + [h]
  }

  /**
   The gateway under maintenance. `due` is what the latest refresh removed and no purge has
   handled yet: the loop holds it between the two, and loses it when it fails in between.
   */
  datatype Upkeep = Upkeep(gateway: Gateway, due: set<RunnerId>)

  datatype GatewayAction =
    | Reconcile(snapshot: seq<Worker>)
    | Purge
    | Choose(requiresVnc: bool)
    | Probe(runner: RunnerId, report: HealthReport)
    | Bind(session: SessionId, to: RunnerId, target: Option<string>)
    | Host(hosted: Hosted)
    | Forget(session: SessionId)

  function UpkeepStep(u: Upkeep, a: GatewayAction): Upkeep {
    var g := u.gateway;
    match a
    case Reconcile(snapshot) =>
      var (r, result) := Refreshed(g, snapshot);
      Upkeep(r, result.removed)
    case Purge => Upkeep(Purged(g, u.due).0, {})
    case Choose(requiresVnc) => u.(gateway := g.(catalog := Chosen(g.catalog, requiresVnc).0))
    case Probe(runner, report) => u.(gateway := g.(catalog := HealthRecorded(g.catalog, runner, report).0))
    case Bind(session, to, target) => u.(gateway := g.(catalog := Bound(g.catalog, session, to, target)))
    case Host(hosted) => u.(gateway := g.(sessions := Placed(g.sessions, hosted)))
    case Forget(session) => u.(gateway := g.(sessions := Deleted(g.sessions, session)))
  }

  function UpkeepRun(u: Upkeep, actions: seq<GatewayAction>): Upkeep {
    if actions == [] then u else UpkeepStep(UpkeepRun(u, actions[..|actions| - 1]), actions[|actions| - 1])
  }

  /** The identifiers of the latest snapshot of a run, `otherwise` if it has none. */
  function LastObserved(actions: seq<GatewayAction>, otherwise: set<RunnerId>): set<RunnerId> {
    if actions == [] then otherwise
    else
      var last := actions[|actions| - 1];
      if last.Reconcile? then Observed(last.snapshot) else LastObserved(actions[..|actions| - 1], otherwise)
  }

  function EverObserved(actions: seq<GatewayAction>): set<RunnerId> {
    if actions == [] then {}
    else
      var last := actions[|actions| - 1];
      EverObserved(actions[..|actions| - 1]) + if last.Reconcile? then Observed(last.snapshot) else {}
  }

  ghost predicate UpkeepInv(u: Upkeep) {
    GatewayInv(u.gateway) && u.due !! u.gateway.catalog.runners.Keys
  }

  lemma {:induction false} PlacedKeepsUnique(sessions: seq<Hosted>, h: Hosted)
    requires UniqueIds(sessions)
    ensures var placed := Placed(sessions, h);
            && UniqueIds(placed) && h in placed
            && forall x | x in placed :: x == h || (x in sessions && x.id != h.id)
  {
    if sessions != [] {
      assert sessions == [sessions[0]] + sessions[1..];
      assert forall i | 0 < i < |sessions| :: sessions[i] == sessions[1..][i - 1];
      if sessions[0].id != h.id {
        PlacedKeepsUnique(sessions[1..], h);
        var rest := Placed(sessions[1..], h);
        assert forall i | 0 <= i < |rest| :: rest[i] in rest;
      } else {
        forall x | x in sessions[1..] ensures x.id != h.id {
          var i :| 0 <= i < |sessions[1..]| && sessions[1..][i] == x;
          assert sessions[i + 1] == x;
        }
      }
    }
  }

  /** A stored session is replaced where it stands; a new one goes to the end. */
  lemma {:induction false} PlacedExact(sessions: seq<Hosted>, h: Hosted, at: int)
    requires UniqueIds(sessions)
    ensures 0 <= at < |sessions| && sessions[at].id == h.id ==> Placed(sessions, h) == sessions[at := h]
    ensures (forall x | x in sessions :: x.id != h.id) ==> Placed(sessions, h) == sessions + [h]
  {
    if sessions != [] {
      assert sessions == [sessions[0]] + sessions[1..];
      assert forall i | 0 < i < |sessions| :: sessions[i] == sessions[1..][i - 1];
      PlacedExact(sessions[1..], h, at - 1);
    }
  }

  lemma {:induction false} DeletedKeepsUnique(sessions: seq<Hosted>, id: SessionId)
    requires UniqueIds(sessions)
    ensures UniqueIds(Deleted(sessions, id))
    ensures forall h :: h in Deleted(sessions, id) <==> h in sessions && h.id != id
  {
    if sessions != [] {
      var n := |sessions| - 1;
      DeletedKeepsUnique(sessions[..n], id);
      var rest := Deleted(sessions[..n], id);
      assert sessions == sessions[..n] + [sessions[n]];
      forall i | 0 <= i < |rest| ensures rest[i].id != sessions[n].id {
        assert rest[i] in rest;
        var k :| 0 <= k < n && sessions[..n][k] == rest[i];
        assert sessions[k] == rest[i];
      }
    }
  }

  lemma UpkeepStepKeepsInv(u: Upkeep, a: GatewayAction)
    requires UpkeepInv(u)
    ensures var q := UpkeepStep(u, a); var before, after := u.gateway, q.gateway;
            && UpkeepInv(q)
            && after.known == (if a.Reconcile? then Observed(a.snapshot) else before.known)
            && after.catalog.runners.Keys ==
                 (if a.Reconcile? then Observed(a.snapshot) + (before.catalog.runners.Keys - before.known)
                  else before.catalog.runners.Keys)
            && q.due == (if a.Reconcile? then before.known - Observed(a.snapshot) else if a.Purge? then {} else u.due)
  {
    hide CatalogInv;
    hide UniqueIds;
    hide Refreshed;
    hide Chosen;
    hide HealthRecorded;
    var g := u.gateway;
    match a
    case Reconcile(snapshot) => RefreshReconciles(g, snapshot);
    case Purge => PurgeKeepsInv(g, u.due);
    case Choose(requiresVnc) => ChosenPrefersHealthy(g.catalog, requiresVnc);
    case Probe(runner, report) => HealthKeepsInv(g.catalog, runner, report);
    case Bind(session, to, target) => BoundKeepsInv(g.catalog, session, to, target);
    case Host(hosted) => PlacedKeepsUnique(g.sessions, hosted);
    case Forget(session) => DeletedKeepsUnique(g.sessions, session);
  }

  lemma PurgeKeepsInv(g: Gateway, missing: set<RunnerId>)
    requires GatewayInv(g)
    ensures GatewayInv(Purged(g, missing).0)
  {
    hide CatalogInv;
    hide UniqueIds;
    ElsewhereKeepsDistinct(g.sessions, missing);
    BindingsDropped(g.catalog, HostedBy(g.sessions, missing));
  }

  lemma BoundKeepsInv(c: Catalog, session: SessionId, runner: RunnerId, target: Option<string>)
    requires CatalogInv(c)
    ensures CatalogInv(Bound(c, session, runner, target)) && Bound(c, session, runner, target).runners == c.runners
  {
  }

  /**
   Over every run the catalogue stays sound, and the registered runners are exactly those of
   the latest snapshot together with the initially configured ones that no snapshot ever
   listed. From an empty registry they are the latest snapshot's.
   */
  lemma {:induction false} RunReconciles(u: Upkeep, actions: seq<GatewayAction>)
    requires UpkeepInv(u)
    ensures var g, q := u.gateway, UpkeepRun(u, actions).gateway;
            && UpkeepInv(UpkeepRun(u, actions))
            && q.known == LastObserved(actions, g.known)
            && q.known <= g.known + EverObserved(actions)
            && q.catalog.runners.Keys == q.known + (g.catalog.runners.Keys - g.known - EverObserved(actions))
  {
    hide UpkeepInv;
    hide UpkeepStep;
    hide Observed;
    if actions == [] {
      KnownAreRegistered(u);
    } else {
      RunReconciles(u, actions[..|actions| - 1]);
      UpkeepStepKeepsInv(UpkeepRun(u, actions[..|actions| - 1]), actions[|actions| - 1]);
    }
  }

  lemma KnownAreRegistered(u: Upkeep)
    requires UpkeepInv(u)
    ensures u.gateway.known <= u.gateway.catalog.runners.Keys
  {
  }

  /** The exception is real: a configured runner that discovery never lists stays, even after an empty snapshot. */
  lemma ConfiguredRunnerStays(w: Worker)
    ensures var start := Upkeep(Gateway(Seeded([w]), {}, []), {}); var actions := [Reconcile([]), Purge];
            && LastObserved(actions, {}) == {}
            && UpkeepRun(start, actions).gateway.catalog.runners.Keys == {w.id}
  {
    var start := Upkeep(Gateway(Seeded([w]), {}, []), {});
    var actions := [Reconcile([]), Purge];
    SeededOrder([w]);
    SeededIsSoundIff([w]);
    assert start.gateway.catalog.order == [w.id];
    assert start.gateway.catalog.runners.Keys == {w.id};
    assert actions[..1] == [Reconcile([])] && actions[..1][..0] == [];
    RunReconciles(start, actions);
  }

  // ---------- sessions left behind ----------

  /** Every stored session names a registered runner. */
  ghost predicate AllHosted(g: Gateway) {
    forall h | h in g.sessions :: h.runner in g.catalog.runners
  }

  /** Every stored session names a registered runner or one whose purge is due. */
  ghost predicate Covered(u: Upkeep) {
    forall h | h in u.gateway.sessions :: h.runner in u.gateway.catalog.runners || h.runner in u.due
  }

  /**
   What keeps sessions covered: a refresh while a purge is due loses no session whose runner is
   still gone, and a new session is hosted by a runner that is registered or due.
   */
  ghost predicate Careful(u: Upkeep, a: GatewayAction) {
    match a
    case Reconcile(snapshot) =>
      forall h | h in u.gateway.sessions && h.runner in u.due :: h.runner in Observed(snapshot)
    case Host(hosted) => hosted.runner in u.gateway.catalog.runners || hosted.runner in u.due
    case _ => true
  }

  /** A purge leaves only sessions of registered runners exactly when all were covered before it. */
  lemma PurgeHostsAllIff(u: Upkeep)
    requires UpkeepInv(u)
    ensures AllHosted(UpkeepStep(u, Purge).gateway) <==> Covered(u)
  {
    hide GatewayInv;
    ElsewhereExact(u.gateway.sessions, u.due);
  }

  /** One step keeps all sessions covered exactly when it is careful. */
  lemma CoveredStepIff(u: Upkeep, a: GatewayAction)
    requires UpkeepInv(u) && Covered(u)
    ensures Covered(UpkeepStep(u, a)) <==> Careful(u, a)
  {
    hide CatalogInv;
    hide Observed;
    hide Refreshed;
    hide Chosen;
    hide HealthRecorded;
    UpkeepStepKeepsInv(u, a);
    match a
    case Reconcile(snapshot) => RefreshReconciles(u.gateway, snapshot);
    case Purge => ElsewhereExact(u.gateway.sessions, u.due);
    case Host(hosted) => PlacedKeepsUnique(u.gateway.sessions, hosted);
    case Forget(session) => DeletedKeepsUnique(u.gateway.sessions, session);
    case Choose(_) =>
    case Probe(_, _) =>
    case Bind(_, _, _) =>
  }

  /** Covered at the start and after every step. */
  ghost predicate AlwaysCovered(u: Upkeep, actions: seq<GatewayAction>) {
    Covered(UpkeepRun(u, actions)) && (actions != [] ==> AlwaysCovered(u, actions[..|actions| - 1]))
  }

  /** Each action is careful where it happens. */
  ghost predicate EachCareful(u: Upkeep, actions: seq<GatewayAction>) {
    actions != [] ==>
      var earlier := actions[..|actions| - 1];
      EachCareful(u, earlier) && Careful(UpkeepRun(u, earlier), actions[|actions| - 1])
  }

  /**
   Over a run no session is ever left behind exactly when each action is careful: a purge that
   was skipped after its refresh must be made up before the next refresh, unless the runner
   is back by then or has no session left.
   */
  lemma {:induction false} NoneLeftBehindIff(u: Upkeep, actions: seq<GatewayAction>)
    requires UpkeepInv(u) && Covered(u)
    ensures AlwaysCovered(u, actions) <==> EachCareful(u, actions)
  {
    hide UpkeepInv;
    hide Covered;
    hide Careful;
    hide UpkeepStep;
    if actions != [] {
      var earlier := actions[..|actions| - 1];
      NoneLeftBehindIff(u, earlier);
      RunReconciles(u, earlier);
      if AlwaysCovered(u, earlier) {
        CoveredStepIff(UpkeepRun(u, earlier), actions[|actions| - 1]);
      }
    }
  }

  /** A session left behind stays until it is deleted or replaced itself, or its runner comes back. */
  lemma LeftBehindStays(u: Upkeep, a: GatewayAction, h: Hosted)
    requires UpkeepInv(u) && h in u.gateway.sessions
    requires h.runner !in u.gateway.catalog.runners && h.runner !in u.due
    requires a.Reconcile? ==> h.runner !in Observed(a.snapshot)
    requires a.Host? ==> a.hosted.id != h.id
    requires a.Forget? ==> a.session != h.id
    ensures var q := UpkeepStep(u, a);
            && h in q.gateway.sessions
            && h.runner !in q.gateway.catalog.runners && h.runner !in q.due
  {
    hide CatalogInv;
    hide Observed;
    hide Refreshed;
    hide Chosen;
    hide HealthRecorded;
    UpkeepStepKeepsInv(u, a);
    match a
    case Reconcile(snapshot) => RefreshReconciles(u.gateway, snapshot);
    case Purge => ElsewhereExact(u.gateway.sessions, u.due);
    case Host(hosted) => PlacedKeepsOthers(u.gateway.sessions, hosted, h);
    case Forget(session) => DeletedKeepsUnique(u.gateway.sessions, session);
    case Choose(_) =>
    case Probe(_, _) =>
    case Bind(_, _, _) =>
  }

  lemma {:induction false} PlacedKeepsOthers(sessions: seq<Hosted>, h: Hosted, other: Hosted)
    requires other in sessions && other.id != h.id
    ensures other in Placed(sessions, h)
  {
    assert sessions == [sessions[0]] + sessions[1..];
    if sessions[0].id != h.id && other != sessions[0] {
      PlacedKeepsOthers(sessions[1..], h, other);
    }
  }

  /** A purge skipped once is never made up: the next refresh forgets what was due. */
  lemma SkippedPurgeLeavesSession(w: Worker, session: SessionId)
    ensures var start := Upkeep(Gateway(Seeded([]), {}, []), {}); var h := Hosted(session, w.id);
            var q := UpkeepRun(start, [Reconcile([w]), Host(h), Reconcile([]), Reconcile([]), Purge]);
            h in q.gateway.sessions && !AllHosted(q.gateway)
  {
    hide CatalogInv;
    hide Without;
    hide Newcomers;
    hide Before;
    hide Refreshed;
    hide Purged;
    hide UpkeepRun;
    var start := Upkeep(Gateway(Seeded([]), {}, []), {});
    var h := Hosted(session, w.id);
    SeededIsSoundIff([]);
    var u1 := UpkeepStep(start, Reconcile([w]));
    var u2 := UpkeepStep(u1, Host(h));
    var u3 := UpkeepStep(u2, Reconcile([]));
    var u4 := UpkeepStep(u3, Reconcile([]));
    FiveSteps(start, Reconcile([w]), Host(h), Reconcile([]), Reconcile([]), Purge);
    ObservedNone();
    ObservedOneMore([w]);
    UpkeepStepKeepsInv(start, Reconcile([w]));
    UpkeepStepKeepsInv(u1, Host(h));
    UpkeepStepKeepsInv(u2, Reconcile([]));
    UpkeepStepKeepsInv(u3, Reconcile([]));
    RefreshReconciles(start.gateway, [w]);
    RefreshReconciles(u2.gateway, []);
    RefreshReconciles(u3.gateway, []);
    PlacedKeepsUnique(u1.gateway.sessions, h);
    LeftBehindStays(u4, Purge, h);
  }

  lemma OneStep(u: Upkeep, actions: seq<GatewayAction>, a: GatewayAction)
    ensures UpkeepRun(u, actions + [a]) == UpkeepStep(UpkeepRun(u, actions), a)
  {
    assert (actions + [a])[..|actions|] == actions;
  }

  lemma NoStep(u: Upkeep)
    ensures UpkeepRun(u, []) == u
  {
  }

  lemma FiveSteps(u: Upkeep, a: GatewayAction, b: GatewayAction, c: GatewayAction, d: GatewayAction, e: GatewayAction)
    ensures UpkeepRun(u, [a, b, c, d, e])
            == UpkeepStep(UpkeepStep(UpkeepStep(UpkeepStep(UpkeepStep(u, a), b), c), d), e)
  {
    hide UpkeepStep;
    hide UpkeepRun;
    NoStep(u);
    OneStep(u, [], a);
    OneStep(u, [a], b);
    OneStep(u, [a, b], c);
    OneStep(u, [a, b, c], d);
    OneStep(u, [a, b, c, d], e);
    assert [] + [a] == [a] && [a] + [b] == [a, b] && [a, b] + [c] == [a, b, c];
    assert [a, b, c] + [d] == [a, b, c, d] && [a, b, c, d] + [e] == [a, b, c, d, e];
  }

  // ---------- the objects ----------

  /** The gateway's session store, reduced to listing and deleting. */
  class SessionRegistry {
    var sessions: seq<Hosted>

    constructor ()
      ensures sessions == []
    {
      sessions := [];
    }

    method Upsert(h: Hosted)
      modifies this
      ensures sessions == Placed(old(sessions), h)
    {
      sessions := Placed(sessions, h);
    }

    method Delete(id: SessionId) returns (found: bool)
      modifies this
      ensures found <==> exists h :: h in old(sessions) && h.id == id
      ensures sessions == Deleted(old(sessions), id)
    {
      found := exists h :: h in sessions && h.id == id;
      sessions := Deleted(sessions, id);
    }
  }

  lemma {:induction false} DeletedOfAppended(a: seq<Hosted>, b: seq<Hosted>, id: SessionId)
    ensures Deleted(a + b, id) == Deleted(a, id) + Deleted(b, id)
  {
    if b == [] {
      assert a + b == a;
    } else {
      var n := |b| - 1;
      assert (a + b)[..|a + b| - 1] == a + b[..n];
      DeletedOfAppended(a, b[..n], id);
    }
  }

  lemma {:induction false} DeletedAbsent(sessions: seq<Hosted>, id: SessionId)
    requires forall h | h in sessions :: h.id != id
    ensures Deleted(sessions, id) == sessions
  {
    if sessions != [] {
      DeletedAbsent(sessions[..|sessions| - 1], id);
    }
  }

  /** Half-way through a purge: the processed part is filtered, the rest untouched. */
  lemma PurgedOneMore(listed: seq<Hosted>, i: nat, missing: set<RunnerId>)
    requires UniqueIds(listed) && i < |listed|
    ensures var now := Elsewhere(listed[..i], missing) + listed[i..];
            var next := Elsewhere(listed[..i + 1], missing) + listed[i + 1..];
            && listed[i] in now
            && (listed[i].runner !in missing ==> next == now)
            && (listed[i].runner in missing ==> next == Deleted(now, listed[i].id))
  {
    var a, b, h := Elsewhere(listed[..i], missing), listed[i + 1..], listed[i];
    assert listed[i..] == [h] + b && listed[..i + 1][..i] == listed[..i];
    assert a + listed[i..] == (a + [h]) + b && (a + [h])[|a|] == h;
    if h.runner in missing {
      ElsewhereExact(listed[..i], missing);
      NeighboursDiffer(listed, i);
      hide Elsewhere;
      DeletedFromMiddle(a, h, b);
    }
  }

  lemma NeighboursDiffer(listed: seq<Hosted>, i: nat)
    requires UniqueIds(listed) && i < |listed|
    ensures forall x | x in listed[..i] || x in listed[i + 1..] :: x.id != listed[i].id
  {
    forall x | x in listed[..i] ensures x.id != listed[i].id {
      var k :| 0 <= k < i && listed[..i][k] == x;
      assert listed[k] == x;
    }
    forall x | x in listed[i + 1..] ensures x.id != listed[i].id {
      var k :| 0 <= k < |listed[i + 1..]| && listed[i + 1..][k] == x;
      assert listed[i + 1 + k] == x;
    }
  }

  lemma DeletedFromMiddle(a: seq<Hosted>, h: Hosted, b: seq<Hosted>)
    requires forall x | x in a || x in b :: x.id != h.id
    ensures Deleted((a + [h]) + b, h.id) == a + b
  {
    DeletedOfAppended(a + [h], b, h.id);
    DeletedOfAppended(a, [h], h.id);
    DeletedAbsent(a, h.id);
    DeletedAbsent(b, h.id);
    assert Deleted([h], h.id) == [];
  }

  /** `purge_sessions_for_missing_runners`. */
  method PurgeSessionsForMissingRunners(sessions: SessionRegistry, registry: RunnerRegistry, missing: set<RunnerId>)
    returns (removed: seq<SessionId>)
    requires UniqueIds(sessions.sessions)
    modifies sessions, registry
    ensures var (q, purged) := Purged(Gateway(old(registry.State()), {}, old(sessions.sessions)), missing);
            sessions.sessions == q.sessions && registry.State() == q.catalog && removed == purged
  {
    hide Elsewhere;
    hide Orphans;
    hide Deleted;
    hide HostedBy;
    hide UniqueIds;
    hide Purged;
    PurgedParts(registry.State(), sessions.sessions, missing);
    if missing == {} {
      NothingPurged(sessions.sessions);
      return [];
    }
    var listed := sessions.sessions;
    ghost var bound := registry.bindings;
    removed := [];
    PurgeBegins(listed, missing);
    for i := 0 to |listed|
      invariant sessions.sessions == Elsewhere(listed[..i], missing) + listed[i..]
      invariant registry.State() == old(registry.State()).(bindings := bound - HostedBy(listed[..i], missing))
      invariant removed == Orphans(listed[..i], missing)
    {
      HostedOneMore(listed, i, missing);
      OrphansOneMore(listed, i, missing);
      PurgedOneMore(listed, i, missing);
      if listed[i].runner in missing {
        var found := sessions.Delete(listed[i].id);
        if found {
          removed := removed + [listed[i].id];
        }
        registry.DropSessionWsEndpoint(listed[i].id);
      }
    }
    assert listed[..|listed|] == listed;
  }

  lemma PurgedParts(c: Catalog, sessions: seq<Hosted>, missing: set<RunnerId>)
    ensures Purged(Gateway(c, {}, sessions), missing)
            == (Gateway(c.(bindings := c.bindings - HostedBy(sessions, missing)), {}, Elsewhere(sessions, missing)),
                Orphans(sessions, missing))
  {
  }

  lemma PurgeBegins(listed: seq<Hosted>, missing: set<RunnerId>)
    ensures Elsewhere(listed[..0], missing) + listed[0..] == listed
    ensures Orphans(listed[..0], missing) == [] && HostedBy(listed[..0], missing) == {}
  {
  }

  lemma OrphansOneMore(listed: seq<Hosted>, i: nat, missing: set<RunnerId>)
    requires i < |listed|
    ensures Orphans(listed[..i + 1], missing) ==
            if listed[i].runner in missing then Orphans(listed[..i], missing) + [listed[i].id]
            else Orphans(listed[..i], missing)
  {
    assert listed[..i + 1][..i] == listed[..i];
  }

  lemma HostedOneMore(listed: seq<Hosted>, i: nat, ids: set<RunnerId>)
    requires i < |listed|
    ensures HostedBy(listed[..i + 1], ids)
            == HostedBy(listed[..i], ids) + if listed[i].runner in ids then {listed[i].id} else {}
  {
    assert listed[..i + 1] == listed[..i] + [listed[i]];
  }

  lemma {:induction false} NothingPurged(sessions: seq<Hosted>)
    ensures Elsewhere(sessions, {}) == sessions && Orphans(sessions, {}) == [] && HostedBy(sessions, {}) == {}
  {
    if sessions != [] {
      NothingPurged(sessions[..|sessions| - 1]);
    }
  }

  class RunnerDiscoveryService {
    const registry: RunnerRegistry
    const sessions: SessionRegistry
    var known: set<RunnerId>

    ghost function State(): Gateway
      reads this, registry, sessions
    {
      Gateway(registry.State(), known, sessions.sessions)
    }

    constructor (registry: RunnerRegistry, sessions: SessionRegistry)
      ensures this.registry == registry && this.sessions == sessions && known == {}
    {
      this.registry, this.sessions, known := registry, sessions, {};
    }

    method Refresh(snapshot: seq<Worker>) returns (result: SyncResult)
      requires GatewayInv(State())
      modifies this, registry
      ensures GatewayInv(State()) && (State(), result) == Refreshed(old(State()), snapshot)
    {
      hide UpsertAll;
      hide WithoutRunners;
      hide CatalogInv;
      hide Observed;
      UpsertAllExact(registry.State(), snapshot);
      var observed, added, updated := UpsertSnapshot(snapshot);
      var removed := known - observed;
      known := observed;
      if removed != {} {
        HandleRemovedRunners(removed);
      }
      RefreshReconciles(old(State()), snapshot);
      result := SyncResult(added, updated, removed);
    }

    method UpsertSnapshot(snapshot: seq<Worker>)
      returns (observed: set<RunnerId>, added: set<RunnerId>, updated: set<RunnerId>)
      modifies registry
      ensures registry.State() == UpsertAll(old(registry.State()), snapshot)
      ensures observed == Observed(snapshot) && added == observed - known && updated == observed * known
    {
      hide Upserted;
      observed, added, updated := {}, {}, {};
      for i := 0 to |snapshot|
        invariant registry.State() == UpsertAll(old(registry.State()), snapshot[..i])
        invariant observed == Observed(snapshot[..i])
        invariant added == observed - known && updated == observed * known
      {
        assert snapshot[..i + 1] == snapshot[..i] + [snapshot[i]];
        var id := snapshot[i].id;
        observed := observed + {id};
        if id in known {
          updated := updated + {id};
        } else {
          added := added + {id};
        }
        registry.Upsert(snapshot[i]);
      }
      assert snapshot[..|snapshot|] == snapshot;
    }

    method HandleRemovedRunners(removed: set<RunnerId>)
      requires CatalogInv(registry.State()) && removed <= registry.runners.Keys
      modifies registry
      ensures var c := old(registry.State());
              registry.State() ==
                WithoutRunners(c.(bindings := c.bindings - HostedBy(sessions.sessions, removed)), removed)
    {
      DropBindings(sessions.sessions, removed);
      RemoveAll(removed);
    }

    method RemoveAll(removed: set<RunnerId>)
      requires CatalogInv(registry.State()) && removed <= registry.runners.Keys
      modifies registry
      ensures registry.State() == WithoutRunners(old(registry.State()), removed)
    {
      hide WithoutRunners;
      hide Removed;
      hide CatalogInv;
      ghost var c := registry.State();
      NothingRemoved(c);
      var rest := removed;
      assert removed - rest == {};
      while rest != {}
        invariant rest <= removed && registry.State() == WithoutRunners(c, removed - rest)
      {
        var id :| id in rest;
        RemovedOneMore(c, removed - rest, id);
        assert removed - rest + {id} == removed - (rest - {id});
        var gone := registry.Remove(id);
        rest := rest - {id};
      }
      assert removed - rest == removed;
    }

    /** Drop the bindings of the listed sessions that the given runners host. */
    method DropBindings(listed: seq<Hosted>, ids: set<RunnerId>)
      modifies registry
      ensures registry.State() == old(registry.State()).(bindings := old(registry.bindings) - HostedBy(listed, ids))
    {
      for i := 0 to |listed|
        invariant registry.State()
                  == old(registry.State()).(bindings := old(registry.bindings) - HostedBy(listed[..i], ids))
      {
        HostedOneMore(listed, i, ids);
        if listed[i].runner in ids {
          registry.DropSessionWsEndpoint(listed[i].id);
        }
      }
      assert listed[..|listed|] == listed;
    }
  }

  lemma NothingRemoved(c: Catalog)
    ensures WithoutRunners(c, {}) == c
  {
    WithoutNothing(c.order);
    assert c.runners - {} == c.runners;
    assert UnboundAll(c.bindings, {}) == c.bindings;
  }
}
