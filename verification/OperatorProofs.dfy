/** What the operator's requests on the warm pool mean for the sessions. */
module OperatorProofs {
  import opened Domain
  import opened WarmPools
  import opened WarmPoolProofs
  import opened Runners
  import opened RunnerInvariants
  import opened CustodyProofs
  import opened TableProofs

  // ---------- one request ----------

  /** An operation on one slot that no session holds, and what it means for the lent workstations. */
  lemma SlotsKept(
    f: Fleet, g: Fleet, warm: map<SessionId, WorkstationId>, lent: set<WorkstationId>, w: WorkstationId,
    lentAfter: set<WorkstationId>)
    requires SlotsInv(f.pool, warm, lent) && OnlySlot(f, g, w)
    requires w in f.pool.slots ==> w !in warm.Values || g.pool.slots[w] == f.pool.slots[w]
    requires lentAfter == (if w in f.pool.slots && g.pool.slots[w].state in {Reserved, Busy} && w !in warm.Values
                           then lent + {w} else lent - {w})
    ensures SlotsInv(g.pool, warm, lentAfter)
  {
  }

  lemma OperatorKeepsCustody(cfg: PoolConfig, h: Holdings, g: Fleet, w: WorkstationId, lentAfter: set<WorkstationId>)
    requires CustodyInv(cfg, h) && h.pool.Some?
    requires PoolInv(cfg, g) && OnlySlot(Fleet(h.pool.value, h.browsers), g, w)
    requires w in h.pool.value.slots ==> w !in h.warm.Values || g.pool.slots[w] == h.pool.value.slots[w]
    requires lentAfter == (if w in h.pool.value.slots && g.pool.slots[w].state in {Reserved, Busy}
                              && w !in h.warm.Values
                           then h.lent + {w} else h.lent - {w})
    ensures CustodyInv(cfg, h.(pool := Some(g.pool), browsers := g.browsers, lent := lentAfter))
  {
    hide PoolInv;
    hide WarmSide;
    hide ColdSide;
    var f := Fleet(h.pool.value, h.browsers);
    SlotsKept(f, g, h.warm, h.lent, w, lentAfter);
    assert forall id | id in h.warm ::
             h.warm[id] in f.pool.slots && g.pool.slots[h.warm[id]] == f.pool.slots[h.warm[id]] by {
      assert forall id | id in h.warm :: h.warm[id] in h.warm.Values;
    }
    hide SlotsInv;
    PoolActs(cfg, h, g, lentAfter);
  }

  /** Which slots are taken, seen from the tables. */
  lemma TakenMeans(cfg: PoolConfig, h: Holdings, w: WorkstationId)
    requires CustodyInv(cfg, h) && h.pool.Some? && w in h.pool.value.slots
    ensures PoolInv(cfg, Fleet(h.pool.value, h.browsers))
    ensures h.pool.value.slots[w].state in {Reserved, Busy} <==> w in h.warm.Values || w in h.lent
    ensures h.pool.value.slots[w].state == Reserved ==> w in h.lent
    ensures w in h.lent ==> w !in h.warm.Values
  {
    hide PoolInv;
    hide WarmSide;
    hide ColdSide;
    if w in h.warm.Values {
      var id :| id in h.warm && h.warm[id] == w;
    }
  }

  lemma RecycleByOperator(
    cfg: PoolConfig, h: Holdings, w: WorkstationId, answers: Answers, allowed: set<WarmState>)
    requires CustodyInv(cfg, h) && h.pool.Some?
    requires allowed in {{Busy, Reserved}, {Draining, Error}, {Idle, Error}}
    requires Busy in allowed ==> w !in h.warm.Values
    ensures var (g, error) := RecycledFrom(cfg, Fleet(h.pool.value, h.browsers), w, answers, allowed);
            var lent := if error == Some(StateError) then h.lent else h.lent - {w};
            && CustodyInv(cfg, h.(pool := Some(g.pool), browsers := g.browsers, lent := lent))
            && OnlyActed(h.browsers, g.browsers, ByPool)
            && (Busy !in allowed ==> lent == h.lent)
  {
    hide CustodyInv;
    hide PoolInv;
    var f := Fleet(h.pool.value, h.browsers);
    assert PoolInv(cfg, f) by { PoolInCustody(cfg, h); }
    RecycledFromKeepsInv(cfg, f, w, answers, allowed);
    var (g, error) := RecycledFrom(cfg, f, w, answers, allowed);
    if error != Some(StateError) {
      TakenMeans(cfg, h, w);
      OperatorKeepsCustody(cfg, h, g, w, h.lent - {w});
      assert Busy !in allowed ==> w !in h.lent;
      assert w !in h.lent ==> h.lent - {w} == h.lent;
    } else {
      assert g == f;
      assert h.(pool := Some(g.pool), browsers := g.browsers, lent := h.lent) == h;
    }
  }

  lemma PoolInCustody(cfg: PoolConfig, h: Holdings)
    requires CustodyInv(cfg, h) && h.pool.Some?
    ensures PoolInv(cfg, Fleet(h.pool.value, h.browsers))
  {
    hide PoolInv;
    hide WarmSide;
    hide ColdSide;
    hide SlotsInv;
  }

  lemma OperatorCustody(cfg: Settings, r: Runner, a: OperatorAction)
    requires CustodyInv(cfg.Pool(), HoldingsOf(r)) && !Disrupts(r, a)
    ensures var q := Operate(cfg, r, a);
            && CustodyInv(cfg.Pool(), HoldingsOf(q))
            && OnlyActed(r.browsers, q.browsers, ByPool)
            && q == r.(pool := q.pool, browsers := q.browsers, lent := q.lent)
  {
    hide CustodyInv;
    hide PoolInv;
    if r.pool.Some? {
      var h := HoldingsOf(r);
      var f := Fleet(r.pool.value, r.browsers);
      PoolInCustody(cfg.Pool(), h);
      match a
      case OpReserve(hint) =>
        ReserveCorrect(cfg.Pool(), f, hint);
        var (p, got) := Reserve(f.pool, hint);
        if got.Ok? {
          TakenMeans(cfg.Pool(), h, got.value.workstation);
          OperatorKeepsCustody(cfg.Pool(), h, f.(pool := p), got.value.workstation, h.lent + {got.value.workstation});
        } else {
          assert HoldingsOf(Operate(cfg, r, a)) == h;
        }
      case OpBusy(w) => LeaveByOperator(cfg.Pool(), h, w, Busy);
      case OpCancel(w) => LeaveByOperator(cfg.Pool(), h, w, Idle);
      case OpRelease(w, answers) => RecycleByOperator(cfg.Pool(), h, w, answers, {Busy, Reserved});
      case OpDrainSlot(w) => DrainByOperator(cfg.Pool(), h, w);
      case OpEnable(w, answers) => RecycleByOperator(cfg.Pool(), h, w, answers, {Draining, Error});
      case OpRestart(w, answers) => RecycleByOperator(cfg.Pool(), h, w, answers, {Idle, Error});
    } else {
      assert HoldingsOf(Operate(cfg, r, a)) == HoldingsOf(r);
    }
  }

  lemma LeaveByOperator(cfg: PoolConfig, h: Holdings, w: WorkstationId, to: WarmState)
    requires CustodyInv(cfg, h) && h.pool.Some? && to in {Busy, Idle}
    ensures var (p, error) := LeaveReserved(h.pool.value, w, to);
            CustodyInv(cfg, h.(pool := Some(p), lent := if error.None? && to == Idle then h.lent - {w} else h.lent))
  {
    hide CustodyInv;
    hide PoolInv;
    var f := Fleet(h.pool.value, h.browsers);
    PoolInCustody(cfg, h);
    LeaveReservedCorrect(cfg, f, w, to);
    var (p, error) := LeaveReserved(f.pool, w, to);
    if error.None? {
      TakenMeans(cfg, h, w);
      assert h.lent + {w} == h.lent;
      OperatorKeepsCustody(cfg, h, f.(pool := p), w, if to == Idle then h.lent - {w} else h.lent);
    } else {
      assert h.(pool := Some(p)) == h;
    }
  }

  lemma DrainByOperator(cfg: PoolConfig, h: Holdings, w: WorkstationId)
    requires CustodyInv(cfg, h) && h.pool.Some?
    ensures var g := DrainSlot(Fleet(h.pool.value, h.browsers), w).0;
            && CustodyInv(cfg, h.(pool := Some(g.pool), browsers := g.browsers))
            && OnlyActed(h.browsers, g.browsers, ByPool)
  {
    hide CustodyInv;
    hide PoolInv;
    var f := Fleet(h.pool.value, h.browsers);
    PoolInCustody(cfg, h);
    var (g, error) := DrainSlot(f, w);
    if error.None? {
      DrainedSlotKeepsInv(cfg, f, w);
      TakenMeans(cfg, h, w);
      assert h.lent - {w} == h.lent;
      OperatorKeepsCustody(cfg, h, g, w, h.lent);
    } else {
      assert h.(pool := Some(g.pool), browsers := g.browsers) == h;
    }
  }

  lemma OperatorKeepsInv(cfg: Settings, r: Runner, a: OperatorAction)
    requires RunnerInv(cfg, r) && !Disrupts(r, a)
    ensures RunnerInv(cfg, Operate(cfg, r, a))
  {
    hide CustodyInv;
    hide DisplaysInv;
    hide LinksInv;
    hide LogInv;
    hide SessionsInv;
    hide CachesInv;
    hide PolicyInv;
    hide Operate;
    hide OnlyActed;
    OperatorCustody(cfg, r, a);
    LinksKept(r.sessions, r.handles, r.warm, r.vncHandles, r.browsers, Operate(cfg, r, a).browsers, ByPool);
  }

  /** The one thing an operator must not do: the invariant survives exactly when the action does not disrupt. */
  lemma OperatorKeepsInvIff(cfg: Settings, r: Runner, a: OperatorAction)
    requires RunnerInv(cfg, r)
    ensures RunnerInv(cfg, Operate(cfg, r, a)) <==> !Disrupts(r, a)
  {
    if !Disrupts(r, a) {
      OperatorKeepsInv(cfg, r, a);
    } else {
      DisruptionBreaksCustody(cfg, r, a.w, a.answers);
    }
  }

  lemma DisruptionBreaksCustody(cfg: Settings, r: Runner, w: WorkstationId, answers: Answers)
    requires RunnerInv(cfg, r) && w in r.warm.Values
    ensures !RunnerInv(cfg, Operate(cfg, r, OpRelease(w, answers)))
  {
    hide LinksInv;
    hide LogInv;
    hide SessionsInv;
    hide CachesInv;
    hide PolicyInv;
    hide DisplaysInv;
    hide WarmSide;
    hide ColdSide;
    hide PoolInv;
    var id :| id in r.warm && r.warm[id] == w;
    RecycledFromKeepsInv(cfg.Pool(), Fleet(r.pool.value, r.browsers), w, answers, {Busy, Reserved});
    var q := Operate(cfg, r, OpRelease(w, answers));
    assert q.warm[id] == w && q.pool.value.slots[w].state != Busy;
  }

  // ---------- several requests ----------

  lemma OperateFrame(cfg: Settings, r: Runner, a: OperatorAction)
    ensures var q := Operate(cfg, r, a); q == r.(pool := q.pool, browsers := q.browsers, lent := q.lent)
    ensures Operate(cfg, r, a).pool.Some? <==> r.pool.Some?
  {
    hide Operated;
    hide LentAfter;
  }

  lemma {:induction false} OperateAllFrame(cfg: Settings, r: Runner, actions: seq<OperatorAction>)
    ensures var q := OperateAll(cfg, r, actions); q == r.(pool := q.pool, browsers := q.browsers, lent := q.lent)
    ensures OperateAll(cfg, r, actions).pool.Some? <==> r.pool.Some?
  {
    hide Operate;
    if actions != [] {
      var n := |actions| - 1;
      OperateAllFrame(cfg, r, actions[..n]);
      OperateFrame(cfg, OperateAll(cfg, r, actions[..n]), actions[n]);
    }
  }

  lemma OperatedKeepsSlots(cfg: PoolConfig, f: Fleet, a: OperatorAction)
    ensures f.pool.slots.Keys <= Operated(cfg, f, a).pool.slots.Keys
  {
    hide Launched;
  }

  lemma {:induction false} OperateAllKeepsSlots(cfg: Settings, r: Runner, actions: seq<OperatorAction>)
    requires r.pool.Some?
    ensures var q := OperateAll(cfg, r, actions);
            q.pool.Some? && r.pool.value.slots.Keys <= q.pool.value.slots.Keys
  {
    hide Operated;
    if actions != [] {
      var n := |actions| - 1;
      OperateAllKeepsSlots(cfg, r, actions[..n]);
      var mid := OperateAll(cfg, r, actions[..n]);
      OperatedKeepsSlots(cfg.Pool(), Fleet(mid.pool.value, mid.browsers), actions[n]);
    }
  }

  /** The operator's requests neither see nor change the sessions' browser handles. */
  lemma {:induction false} OperateIgnoresHandles(
    cfg: Settings, r: Runner, actions: seq<OperatorAction>, handles: map<SessionId, BrowserId>)
    ensures OperateAll(cfg, r.(handles := handles), actions) == OperateAll(cfg, r, actions).(handles := handles)
  {
    hide Operated;
    hide LentAfter;
    if actions != [] {
      OperateIgnoresHandles(cfg, r, actions[..|actions| - 1], handles);
    }
  }

  lemma {:induction false} OperateAllKeepsCustody(cfg: Settings, r: Runner, actions: seq<OperatorAction>)
    requires CustodyInv(cfg.Pool(), HoldingsOf(r)) && Undisturbed(r, actions)
    ensures var q := OperateAll(cfg, r, actions);
            && CustodyInv(cfg.Pool(), HoldingsOf(q))
            && OnlyActed(r.browsers, q.browsers, ByPool)
            && q == r.(pool := q.pool, browsers := q.browsers, lent := q.lent)
  {
    hide CustodyInv;
    hide OnlyActed;
    hide Operate;
    if actions == [] {
      assert OnlyActed(r.browsers, r.browsers, ByPool) by { NothingActed(r.browsers, ByPool); }
    } else {
      var n := |actions| - 1;
      OperateAllKeepsCustody(cfg, r, actions[..n]);
      var mid := OperateAll(cfg, r, actions[..n]);
      assert !Disrupts(mid, actions[n]) by { assert actions[n] in actions; }
      OperatorCustody(cfg, mid, actions[n]);
      OnlyActedTwice(r.browsers, mid.browsers, Operate(cfg, mid, actions[n]).browsers, ByPool);
    }
  }

  /** Restarting, draining and enabling slots leaves a taken one, and who it is taken for, alone. */
  lemma {:induction false} MaintenanceSparesAll(
    cfg: Settings, r: Runner, actions: seq<OperatorAction>, w: WorkstationId)
    requires CustodyInv(cfg.Pool(), HoldingsOf(r)) && forall a | a in actions :: a.Maintains()
    requires r.pool.Some? && w in r.pool.value.slots && r.pool.value.slots[w].state in {Reserved, Busy}
    ensures var q := OperateAll(cfg, r, actions);
            && q.pool.Some? && w in q.pool.value.slots && q.pool.value.slots[w] == r.pool.value.slots[w]
            && q.lent == r.lent
  {
    hide CustodyInv;
    hide Operated;
    hide PoolInv;
    if actions != [] {
      var n := |actions| - 1;
      MaintenanceSparesAll(cfg, r, actions[..n], w);
      OperateAllKeepsCustody(cfg, r, actions[..n]);
      var mid := OperateAll(cfg, r, actions[..n]);
      PoolInCustody(cfg.Pool(), HoldingsOf(mid));
      assert actions[n].Maintains();
      MaintenanceSparesTakenSlots(cfg.Pool(), Fleet(mid.pool.value, mid.browsers), actions[n], w);
    }
  }

  lemma {:induction false} MaintenanceLendsNone(cfg: Settings, r: Runner, actions: seq<OperatorAction>)
    requires forall a | a in actions :: a.Maintains()
    ensures OperateAll(cfg, r, actions).lent == r.lent && Undisturbed(r, actions)
  {
    hide Operated;
    if actions != [] {
      MaintenanceLendsNone(cfg, r, actions[..|actions| - 1]);
      assert actions[|actions| - 1].Maintains();
    }
  }
}
