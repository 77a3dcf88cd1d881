/** What the warm pool's operations answer, and what a recycle leaves in the slot. */
module WarmPoolLaws {
  import opened Domain
  import opened WarmPools
  import opened WarmPoolProofs

  // ---------- which states an operation accepts ----------

  predicate StateIs(p: WarmPool, w: WorkstationId, states: set<WarmState>) {
    w in p.slots && p.slots[w].state in states
  }

  /**
   A release is accepted exactly on a taken slot, an enable on a drained or failed one, a restart
   and a drain on an idle or failed one; mark-busy and cancel on a reserved one. Anything else is
   refused and changes nothing.
   */
  lemma OperationsAcceptIff(cfg: PoolConfig, f: Fleet, w: WorkstationId, answers: Answers)
    ensures Release(cfg, f, w, answers).1 != Some(StateError) <==> StateIs(f.pool, w, {Busy, Reserved})
    ensures Enable(cfg, f, w, answers).1 != Some(StateError) <==> StateIs(f.pool, w, {Draining, Error})
    ensures Restart(cfg, f, w, answers).1 != Some(StateError) <==> StateIs(f.pool, w, {Idle, Error})
    ensures DrainSlot(f, w).1 != Some(StateError) <==> StateIs(f.pool, w, {Idle, Error})
    ensures MarkBusy(f.pool, w).1 != Some(StateError) <==> StateIs(f.pool, w, {Reserved})
    ensures Cancel(f.pool, w).1 != Some(StateError) <==> StateIs(f.pool, w, {Reserved})
    ensures !StateIs(f.pool, w, {Busy, Reserved}) ==> Release(cfg, f, w, answers).0 == f
    ensures !StateIs(f.pool, w, {Draining, Error}) ==> Enable(cfg, f, w, answers).0 == f
    ensures !StateIs(f.pool, w, {Idle, Error}) ==> Restart(cfg, f, w, answers).0 == f && DrainSlot(f, w).0 == f
    ensures !StateIs(f.pool, w, {Reserved}) ==> MarkBusy(f.pool, w).0 == f.pool && Cancel(f.pool, w).0 == f.pool
  {
    hide Recycled;
    hide TornDown;
  }

  /** What mark-busy, cancel and drain-slot make of the slot they accept. */
  lemma OperationsLeadTo(f: Fleet, w: WorkstationId)
    ensures StateIs(f.pool, w, {Reserved}) ==>
              && MarkBusy(f.pool, w).0.slots == f.pool.slots[w := f.pool.slots[w].(state := Busy)]
              && Cancel(f.pool, w).0.slots == f.pool.slots[w := f.pool.slots[w].(state := Idle)]
    ensures StateIs(f.pool, w, {Idle, Error}) ==>
              var q := DrainSlot(f, w).0.pool;
              q.slots == f.pool.slots[w := Slot(Draining, None, None, f.pool.slots[w].failed)]
  {
  }

  // ---------- what a recycle does ----------

  /** Attempt `n` is the first one, from `attempt` on, that launches a browser which also prewarms. */
  ghost predicate FirstWarm(answers: Answers, attempt: int, n: int) {
    attempt <= n && answers(n).Warmed? && forall a | attempt <= a < n :: !answers(a).Warmed?
  }

  /** No attempt allowed does. */
  ghost predicate NeverWarm(cfg: PoolConfig, answers: Answers) {
    forall a | 1 <= a <= cfg.maxRetries :: !answers(a).Warmed?
  }

  /** The retries keep the browser of the first attempt that warms, and nothing exactly when none does. */
  lemma {:induction false} LaunchedExact(cfg: PoolConfig, bs: Browsers, answers: Answers, attempt: int)
    ensures var (later, kept) := Launched(cfg, bs, answers, attempt);
            && (kept.None? <==> forall a | attempt <= a <= cfg.maxRetries :: !answers(a).Warmed?)
            && (kept.Some? ==>
                  exists n :: FirstWarm(answers, attempt, n) && n <= cfg.maxRetries
                    && kept.value < |later| && later[kept.value].endpoint == answers(n).endpoint)
    decreases cfg.maxRetries - attempt
  {
    if attempt <= cfg.maxRetries {
      var more := match answers(attempt)
        case PrewarmFailed(endpoint) => bs + [Browser(endpoint, cfg.flags, ByPool, [ByPool])]
        case _ => bs;
      if answers(attempt).Warmed? {
        assert FirstWarm(answers, attempt, attempt);
      } else {
        LaunchedExact(cfg, more, answers, attempt + 1);
        var (later, kept) := Launched(cfg, more, answers, attempt + 1);
        if kept.Some? {
          var n :| FirstWarm(answers, attempt + 1, n) && n <= cfg.maxRetries
            && kept.value < |later| && later[kept.value].endpoint == answers(n).endpoint;
          assert FirstWarm(answers, attempt, n);
        }
      }
    }
  }

  /** The slot is Idle with a running browser launched since, with the pool's flags, by the first warm attempt. */
  ghost predicate FreshlyWarm(cfg: PoolConfig, before: Browsers, g: Fleet, w: WorkstationId, answers: Answers) {
    && w in g.pool.slots && g.pool.slots[w].state == Idle && !g.pool.slots[w].failed
    && g.pool.slots[w].handle.Some?
    && var b := g.pool.slots[w].handle.value;
       && |before| <= b < |g.browsers| && g.browsers[b].shutBy == [] && g.browsers[b].flags == cfg.flags
       && exists n :: FirstWarm(answers, 1, n) && g.browsers[b].endpoint == answers(n).endpoint
  }

  lemma ProvisionedExact(cfg: PoolConfig, f: Fleet, w: WorkstationId, answers: Answers)
    requires w in f.pool.slots
    ensures var g := Provisioned(cfg, f, w, answers);
            && f.browsers <= g.browsers
            && w in g.pool.slots && g.pool.slots[w].tempDir == f.pool.slots[w].tempDir && g.pool.dirs == f.pool.dirs
            && g.pool.order == f.pool.order
            && (NeverWarm(cfg, answers) ==> g.pool.slots[w].state == Error && g.pool.slots[w].failed)
            && (!NeverWarm(cfg, answers) ==> FreshlyWarm(cfg, f.browsers, g, w, answers))
  {
    LaunchedExact(cfg, f.browsers, answers, 1);
    LaunchedKeepsOne(cfg, f.browsers, answers, 1);
    var (later, kept) := Launched(cfg, f.browsers, answers, 1);
    hide Launched;
    if kept.Some? {
      var n :| FirstWarm(answers, 1, n) && n <= cfg.maxRetries
        && kept.value < |later| && later[kept.value].endpoint == answers(n).endpoint;
      assert !NeverWarm(cfg, answers);
      assert FreshlyWarm(cfg, f.browsers, Provisioned(cfg, f, w, answers), w, answers);
    } else {
      assert NeverWarm(cfg, answers);
    }
  }

  /** The slot has a new temporary directory, and what it held before is gone. */
  ghost predicate Replaced(f: Fleet, g: Fleet, w: WorkstationId)
    requires w in f.pool.slots
  {
    var s := f.pool.slots[w];
    && w in g.pool.slots && g.pool.slots[w].tempDir == Some(|f.pool.dirs|)
    && (s.tempDir.Some? ==> s.tempDir.value < |g.pool.dirs| && !g.pool.dirs[s.tempDir.value])
    && (s.handle.Some? ==> s.handle.value < |g.browsers| && g.browsers[s.handle.value].shutBy == [ByPool])
  }

  /**
   A recycle stops the slot's browser and removes its directory. The slot gets a new directory, and
   a new browser exactly when some attempt warms; otherwise it is in Error and marked as failed.
   */
  lemma RecycledExact(cfg: PoolConfig, f: Fleet, w: WorkstationId, answers: Answers)
    requires PoolInv(cfg, f) && w in f.pool.slots
    ensures var g := Recycled(cfg, f, w, answers);
            && Replaced(f, g, w)
            && (NeverWarm(cfg, answers) ==> g.pool.slots[w].state == Error && g.pool.slots[w].failed)
            && (!NeverWarm(cfg, answers) ==> FreshlyWarm(cfg, f.browsers, g, w, answers))
  {
    var marked := f.(pool := SetState(f.pool, w, Recycling));
    var empty := WithNewDir(TornDown(marked, w), w);
    SlotOwns(cfg, f, w);
    ProvisionedExact(cfg, empty, w, answers);
    hide PoolInv;
    hide NeverWarm;
    hide Provisioned;
  }

  lemma SlotOwns(cfg: PoolConfig, f: Fleet, w: WorkstationId)
    requires PoolInv(cfg, f) && w in f.pool.slots
    ensures var s := f.pool.slots[w];
            && (s.tempDir.Some? ==> s.tempDir.value < |f.pool.dirs|)
            && (s.handle.Some? ==> s.handle.value < |f.browsers| && f.browsers[s.handle.value].shutBy == [])
  {
    hide Unshared;
    assert f.pool.slots[w].handle.Some? ==> f.pool.slots[w].handle.value in Held(f.pool);
    assert f.pool.slots[w].tempDir.Some? ==> f.pool.slots[w].tempDir.value in OwnedDirs(f.pool);
  }

  /** Release, enable and restart, once accepted: no error exactly when some attempt warms. */
  lemma AcceptedRecycles(
    cfg: PoolConfig, f: Fleet, w: WorkstationId, answers: Answers, got: (Fleet, Option<PoolError>))
    requires PoolInv(cfg, f)
    requires got in {Release(cfg, f, w, answers), Enable(cfg, f, w, answers), Restart(cfg, f, w, answers)}
    requires got.1 != Some(StateError)
    ensures w in f.pool.slots && Replaced(f, got.0, w) && OnlySlot(f, got.0, w)
    ensures got.1.None? <==> !NeverWarm(cfg, answers)
    ensures got.1.None? ==> FreshlyWarm(cfg, f.browsers, got.0, w, answers)
    ensures got.1.Some? ==> got.0.pool.slots[w].state == Error && got.0.pool.slots[w].failed
  {
    assert w in f.pool.slots;
    RecycledExact(cfg, f, w, answers);
    assert OnlySlot(f, got.0, w) by { RecycledConserves(cfg, f, w, answers); }
    hide Recycled;
    hide PoolInv;
    hide NeverWarm;
    hide Replaced;
  }

  /** Each request of the operator's is the operation of its name. */
  lemma StateRequestsTakeEffect(cfg: PoolConfig, f: Fleet, w: WorkstationId)
    ensures StateIs(f.pool, w, {Reserved}) ==>
              && StateIs(Operated(cfg, f, OpBusy(w)).pool, w, {Busy})
              && StateIs(Operated(cfg, f, OpCancel(w)).pool, w, {Idle})
    ensures StateIs(f.pool, w, {Idle, Error}) ==> StateIs(Operated(cfg, f, OpDrainSlot(w)).pool, w, {Draining})
  {
  }

  /** A request to recycle, of a slot in a state for it. */
  predicate AsksRecycle(p: WarmPool, a: OperatorAction) {
    || (a.OpRestart? && StateIs(p, a.w, {Idle, Error}))
    || (a.OpEnable? && StateIs(p, a.w, {Draining, Error}))
    || (a.OpRelease? && StateIs(p, a.w, {Busy, Reserved}))
  }

  lemma RecycleRequestsTakeEffect(cfg: PoolConfig, f: Fleet, a: OperatorAction)
    requires PoolInv(cfg, f) && AsksRecycle(f.pool, a)
    ensures Replaced(f, Operated(cfg, f, a), a.w)
  {
    RecycledExact(cfg, f, a.w, a.answers);
    hide Recycled;
    hide PoolInv;
    hide Replaced;
    hide NeverWarm;
    hide FreshlyWarm;
  }

  /** A drained workstation comes back: after an enable whose first attempt warms it is Idle again. */
  lemma DrainedComesBack(cfg: PoolConfig, f: Fleet, w: WorkstationId, answers: Answers)
    requires PoolInv(cfg, f) && StateIs(f.pool, w, {Idle, Error})
    requires cfg.maxRetries >= 1 && answers(1).Warmed?
    ensures var (drained, refused) := DrainSlot(f, w); var (back, error) := Enable(cfg, drained, w, answers);
            && refused.None? && error.None?
            && FreshlyWarm(cfg, drained.browsers, back, w, answers)
  {
    hide PoolInv;
    DrainedSlotKeepsInv(cfg, f, w);
    OperationsAcceptIff(cfg, DrainSlot(f, w).0, w, answers);
    OperationsLeadTo(f, w);
    AcceptedRecycles(cfg, DrainSlot(f, w).0, w, answers, Enable(cfg, DrainSlot(f, w).0, w, answers));
    hide Enable;
  }

  // ---------- start ----------

  /** A started slot is Idle with a fresh browser exactly when some attempt warms. */
  lemma StartedExact(cfg: PoolConfig, f: Fleet, w: WorkstationId, answers: Answers)
    ensures var g := Started(cfg, f, w, answers);
            && g.pool.order == f.pool.order + [w] && w in g.pool.slots
            && (NeverWarm(cfg, answers) ==> g.pool.slots[w].state == Error && g.pool.slots[w].failed)
            && (!NeverWarm(cfg, answers) ==> FreshlyWarm(cfg, f.browsers, g, w, answers))
  {
    ProvisionedExact(cfg, WithNewDir(f.(pool := Built(f.pool, w)), w), w, answers);
    hide Provisioned;
    hide NeverWarm;
  }

  /** The pool lists its workstations as configured, and each came up exactly when some attempt warmed. */
  lemma {:induction false} StartPoolExact(
    cfg: PoolConfig, f: Fleet, workstations: seq<WorkstationId>, answers: WorkstationId -> Answers)
    requires PoolInv(cfg, f) && Distinct(workstations) && forall w | w in workstations :: w !in f.pool.slots
    ensures var g := StartPool(cfg, f, workstations, answers);
            && PoolInv(cfg, g)
            && g.pool.order == f.pool.order + workstations
            && g.pool.slots.Keys == f.pool.slots.Keys + (set w | w in workstations)
            && (forall w | w in workstations ::
                  g.pool.slots[w].state == if NeverWarm(cfg, answers(w)) then Error else Idle)
  {
    hide PoolInv;
    hide NeverWarm;
    hide Started;
    hide OnlyActed;
    if workstations != [] {
      var n := |workstations| - 1;
      var w := workstations[n];
      assert workstations == workstations[..n] + [w] && w !in workstations[..n];
      StartPoolExact(cfg, f, workstations[..n], answers);
      var g := StartPool(cfg, f, workstations[..n], answers);
      StartedExact(cfg, g, w, answers(w));
      StartedKeepsInv(cfg, g, w, answers(w));
    }
  }
}
