/** `WarmPoolManager`: the warm pool as a mutable object whose slots are updated in place. */
module WarmPoolManagers {
  import opened Domain
  import opened Backoffs
  import opened BrowserHosts
  import opened WarmPools
  import opened WarmPoolProofs

  class WarmSlot {
    var state: WarmState
    var handle: Option<BrowserId>
    var tempDir: Option<nat>
    var failed: bool

    constructor ()
      ensures View() == Slot(Recycling, None, None, false)
    {
      state, handle, tempDir, failed := Recycling, None, None, false;
    }

    function View(): Slot
      reads this
    {
      Slot(state, handle, tempDir, failed)
    }
  }

  class WarmPoolManager {
    const cfg: PoolConfig
    const baseDelay: real
    const host: BrowserHost
    var slots: map<WorkstationId, WarmSlot>
    var order: seq<WorkstationId>
    var draining: bool
    var dirs: seq<bool>
    /** The pool as a value, brought up to date at the end of every public method. */
    ghost var model: WarmPool

    /** Each workstation has its own slot object, listed in `order`. */
    ghost predicate Shape()
      reads this
    {
      && (forall v, w | v in slots && w in slots && slots[v] == slots[w] :: v == w)
      && (forall w | w in order :: w in slots)
    }

    ghost function State(): WarmPool
      reads this, slots.Values
    {
      WarmPool(map w | w in slots :: slots[w].View(), order, draining, dirs)
    }

    ghost predicate Valid()
      reads this, slots.Values
    {
      Shape() && model == State()
    }

    ghost function View(): Fleet
      reads this, host
    {
      Fleet(model, host.processes)
    }

    ghost function Whole(): Fleet
      reads this, slots.Values, host
    {
      Fleet(State(), host.processes)
    }

    twostate lemma OnlySlotChanged(w: WorkstationId)
      requires old(Shape()) && slots == old(slots) && order == old(order) && draining == old(draining)
      requires w in slots && forall v | v in slots && v != w :: unchanged(slots[v])
      ensures State() == WithSlot(old(State()), w, slots[w].View()).(dirs := dirs)
    {
      assert State().slots == WithSlot(old(State()), w, slots[w].View()).slots;
    }

    constructor (cfg: PoolConfig, baseDelay: real, host: BrowserHost)
      ensures Valid() && this.cfg == cfg && this.baseDelay == baseDelay && this.host == host
      ensures model == WarmPool(map[], [], false, [])
    {
      this.cfg, this.baseDelay, this.host := cfg, baseDelay, host;
      slots, order, draining, dirs := map[], [], false, [];
      model := WarmPool(map[], [], false, []);
    }

    /** One iteration of `start`, for a workstation the configuration names for the first time. */
    method StartSlot(w: WorkstationId, answers: Answers)
      requires Valid() && w !in slots
      modifies this, host
      ensures Valid() && View() == Started(cfg, old(View()), w, answers)
      ensures slots.Keys == old(slots.Keys) + {w} && fresh(slots[w]) && slots == old(slots)[w := slots[w]]
    {
      hide WithNewDir;
      hide Provisioned;
      BuildSlot(w);
      var error := ProvisionSlot(w, answers);
      model := State();
    }

    /** `start`, with a configuration that names each workstation once. */
    method Start(workstations: seq<WorkstationId>, answers: WorkstationId -> Answers)
      requires Valid() && Distinct(workstations) && slots == map[]
      modifies this, host
      ensures Valid() && View() == StartPool(cfg, old(View()), workstations, answers)
      ensures forall v | v in slots :: fresh(slots[v])
    {
      hide Started;
      hide FirstIdle;
      for i := 0 to |workstations|
        invariant Valid() && forall v | v in slots :: fresh(slots[v])
        invariant slots.Keys == set w | w in workstations[..i]
        invariant View() == StartPool(cfg, old(View()), workstations[..i], answers)
      {
        assert workstations[..i + 1][..i] == workstations[..i];
        assert workstations[..i + 1] == workstations[..i] + [workstations[i]];
        StartSlot(workstations[i], answers(workstations[i]));
      }
      assert workstations[..|workstations|] == workstations;
    }

    method BuildSlot(w: WorkstationId)
      requires Shape() && w !in slots
      modifies `slots, `order, `dirs
      ensures Shape() && w in slots && fresh(slots[w]) && slots == old(slots)[w := slots[w]]
      ensures Whole() == WithNewDir(old(Whole()).(pool := Built(old(State()), w)), w)
    {
      var slot := new WarmSlot();
      slots := slots[w := slot];
      order := order + [w];
      assert State().slots == old(State()).slots[w := Slot(Recycling, None, None, false)];
      NewTempDir(w);
    }

    method ReserveSlot(hint: Option<WorkstationId>) returns (r: Result<Reservation, PoolError>)
      requires Valid()
      modifies `model, slots.Values
      ensures Valid() && (model, r) == Reserve(old(model), hint)
      ensures r.Err? ==> model == old(model)
    {
      hide Selected;
      if draining {
        return Err(StateError);
      }
      var selected := SelectIdleSlot(hint);
      if selected.None? {
        return Err(StateError);
      }
      var handle := slots[selected.value].handle;
      if handle.None? {
        return Err(StateError);
      }
      WriteState(selected.value, Reserved);
      model := State();
      r := Ok(Reservation(selected.value, handle.value));
    }

    method WriteState(w: WorkstationId, state: WarmState)
      requires Shape() && w in slots
      modifies slots[w]
      ensures Shape() && State() == SetState(old(State()), w, state)
    {
      slots[w].state := state;
      OnlySlotChanged(w);
    }

    method SelectIdleSlot(hint: Option<WorkstationId>) returns (w: Option<WorkstationId>)
      requires Shape()
      ensures w == Selected(State(), hint)
      ensures w.Some? ==> w.value in slots && slots[w.value].state == Idle
    {
      if hint.Some? && hint.value != "" {
        return if hint.value in slots && slots[hint.value].state == Idle then hint else None;
      }
      var i := 0;
      while i < |order|
        invariant 0 <= i <= |order|
        invariant FirstIdle(State(), order) == FirstIdle(State(), order[i..])
      {
        if slots[order[i]].state == Idle {
          return Some(order[i]);
        }
        i := i + 1;
      }
      w := None;
    }

    method MarkBusy(w: WorkstationId) returns (error: Option<PoolError>)
      requires Valid()
      modifies `model, slots.Values
      ensures Valid() && (model, error) == LeaveReserved(old(model), w, Busy)
    {
      if w !in slots || slots[w].state != Reserved {
        return Some(StateError);
      }
      WriteState(w, Busy);
      model := State();
      error := None;
    }

    method CancelReservation(w: WorkstationId) returns (error: Option<PoolError>)
      requires Valid()
      modifies `model, slots.Values
      ensures Valid() && (model, error) == LeaveReserved(old(model), w, Idle)
    {
      if w !in slots || slots[w].state != Reserved {
        return Some(StateError);
      }
      WriteState(w, Idle);
      model := State();
      error := None;
    }

    method ReleaseSlot(w: WorkstationId, answers: Answers) returns (error: Option<PoolError>)
      requires Valid()
      modifies `model, `dirs, slots.Values, host
      ensures Valid() && (View(), error) == Release(cfg, old(View()), w, answers)
    {
      error := RecycleSlot(w, answers, {Busy, Reserved});
      model := State();
    }

    /** Any one request of the operator's. */
    method Perform(a: OperatorAction)
      requires Valid()
      modifies `model, `dirs, slots.Values, host
      ensures Valid() && View() == Operated(cfg, old(View()), a) == PoolStep(cfg, old(View()), Operator(a))
    {
      hide Shape;
      hide RecycledFrom;
      hide LeaveReserved;
      hide Reserve;
      hide DrainSlot;
      match a {
        case OpReserve(hint) =>
          var got := ReserveSlot(hint);
        case OpBusy(w) =>
          var error := MarkBusy(w);
        case OpCancel(w) =>
          var error := CancelReservation(w);
        case OpRelease(w, answers) =>
          var error := ReleaseSlot(w, answers);
        case OpDrainSlot(w) =>
          var error := DrainOneSlot(w);
        case OpEnable(w, answers) =>
          var error := EnableSlot(w, answers);
        case OpRestart(w, answers) =>
          var error := RestartSlot(w, answers);
      }
    }

    method EnableSlot(w: WorkstationId, answers: Answers) returns (error: Option<PoolError>)
      requires Valid()
      modifies `model, `dirs, slots.Values, host
      ensures Valid() && (View(), error) == Enable(cfg, old(View()), w, answers)
    {
      error := RecycleSlot(w, answers, {Draining, Error});
      model := State();
    }

    method RestartSlot(w: WorkstationId, answers: Answers) returns (error: Option<PoolError>)
      requires Valid()
      modifies `model, `dirs, slots.Values, host
      ensures Valid() && (View(), error) == Restart(cfg, old(View()), w, answers)
    {
      error := RecycleSlot(w, answers, {Idle, Error});
      model := State();
    }

    /** The shared body of release, enable and restart; they differ in the states they start from. */
    method RecycleSlot(w: WorkstationId, answers: Answers, allowed: set<WarmState>) returns (error: Option<PoolError>)
      requires Shape()
      modifies `dirs, slots.Values, host
      ensures Shape() && (Whole(), error) == RecycledFrom(cfg, old(Whole()), w, answers, allowed)
    {
      if w !in slots || slots[w].state !in allowed {
        return Some(StateError);
      }
      WriteState(w, Recycling);
      TeardownSlot(w);
      NewTempDir(w);
      error := ProvisionSlot(w, answers);
    }

    method DrainOneSlot(w: WorkstationId) returns (error: Option<PoolError>)
      requires Valid()
      modifies `model, `dirs, slots.Values, host
      ensures Valid() && (View(), error) == DrainSlot(old(View()), w)
    {
      if w !in slots || slots[w].state !in {Idle, Error} {
        return Some(StateError);
      }
      MarkDraining(w);
      model := State();
      error := None;
    }

    method MarkDraining(w: WorkstationId)
      requires Shape() && w in slots
      modifies `dirs, slots[w], host
      ensures Shape() && Whole() == TornDown(old(Whole()).(pool := SetState(old(State()), w, Draining)), w)
    {
      WriteState(w, Draining);
      TeardownSlot(w);
    }

    method DrainPool()
      requires Valid()
      modifies `model, `draining, `dirs, slots.Values, host
      ensures Valid() && View() == Drain(old(View())) == PoolStep(cfg, old(View()), DrainAll)
    {
      hide DrainFrom;
      draining := true;
      assert State().slots == old(State()).slots;
      DrainEverySlot();
      model := State();
    }

    method DrainEverySlot()
      requires Shape()
      modifies `dirs, slots.Values, host
      ensures Shape() && Whole() == DrainFrom(old(Whole()), order)
    {
      assert order[0..] == order;
      var i := 0;
      while i < |order|
        invariant 0 <= i <= |order| && Shape()
        invariant DrainFrom(Whole(), order[i..]) == DrainFrom(old(Whole()), order)
      {
        MarkDraining(order[i]);
        assert order[i..][1..] == order[i + 1..];
        i := i + 1;
      }
    }

    method TeardownSlot(w: WorkstationId)
      requires Shape() && w in slots
      modifies `dirs, slots[w], host
      ensures Shape() && Whole() == TornDown(old(Whole()), w)
    {
      var slot := slots[w];
      if slot.handle.Some? {
        host.Shutdown(slot.handle.value, ByPool);
      }
      slot.handle := None;
      if slot.tempDir.Some? {
        dirs := RemoveDir(dirs, slot.tempDir.value);
      }
      slot.tempDir := None;
      OnlySlotChanged(w);
    }

    method NewTempDir(w: WorkstationId)
      requires Shape() && w in slots
      modifies `dirs, slots[w]
      ensures Shape() && Whole() == WithNewDir(old(Whole()), w)
    {
      slots[w].tempDir := Some(|dirs|);
      dirs := dirs + [true];
      OnlySlotChanged(w);
    }

    method ProvisionSlot(w: WorkstationId, answers: Answers) returns (error: Option<PoolError>)
      requires Shape() && w in slots
      modifies slots[w], host
      ensures Shape() && Whole() == Provisioned(cfg, old(Whole()), w, answers)
      ensures error == if slots[w].state == Idle then None else Some(ProvisioningError)
    {
      var slot := slots[w];
      var kept, calls, waits := AttemptLaunch(answers);
      if kept.None? {
        slot.failed := true;
        slot.state := Error;
        error := Some(ProvisioningError);
      } else {
        slot.handle := kept;
        slot.state := Idle;
        slot.failed := false;
        error := None;
      }
      OnlySlotChanged(w);
    }

    method AttemptOnce(answer: Attempt) returns (kept: Option<BrowserId>)
      modifies host
      ensures match answer
              case SpawnFailed => kept.None? && host.processes == old(host.processes)
              case PrewarmFailed(endpoint) =>
                kept.None? && host.processes == old(host.processes) + [Browser(endpoint, cfg.flags, ByPool, [ByPool])]
              case Warmed(endpoint) =>
                && kept == Some(|old(host.processes)|)
                && host.processes == old(host.processes) + [Browser(endpoint, cfg.flags, ByPool, [])]
    {
      kept := None;
      assert [ByPool] == [] + [ByPool];
      match answer {
        case SpawnFailed =>
        case PrewarmFailed(endpoint) =>
          var id := host.Launch(endpoint, cfg.flags, ByPool);
          host.Shutdown(id, ByPool);
          assert host.processes == old(host.processes) + [Browser(endpoint, cfg.flags, ByPool, [ByPool])];
        case Warmed(endpoint) =>
          var id := host.Launch(endpoint, cfg.flags, ByPool);
          kept := Some(id);
      }
    }

    /**
     The retry loop. It stops at the first attempt that also prewarms, makes at most
     `maxRetries` attempts, and waits between two attempts only.
     */
    method AttemptLaunch(answers: Answers) returns (kept: Option<BrowserId>, calls: nat, waits: seq<real>)
      modifies host
      ensures (host.processes, kept) == Launched(cfg, old(host.processes), answers, 1)
      ensures calls <= if cfg.maxRetries < 0 then 0 else cfg.maxRetries
      ensures kept.None? ==> calls == (if cfg.maxRetries < 0 then 0 else cfg.maxRetries)
      ensures kept.None? ==> forall k | 1 <= k <= calls :: !answers(k).Warmed?
      ensures kept.Some? ==> calls >= 1 && answers(calls).Warmed? && forall k | 1 <= k < calls :: !answers(k).Warmed?
      ensures waits == Backoff(baseDelay, if calls == 0 then 0 else calls - 1)
    {
      var delay := baseDelay;
      waits := [];
      calls := 0;
      while calls < cfg.maxRetries
        invariant 0 <= calls && (calls == 0 || calls <= cfg.maxRetries)
        invariant Launched(cfg, old(host.processes), answers, 1) == Launched(cfg, host.processes, answers, calls + 1)
        invariant forall k | 1 <= k <= calls :: !answers(k).Warmed?
        invariant |waits| == if calls < cfg.maxRetries || calls == 0 then calls else calls - 1
        invariant waits == Backoff(baseDelay, |waits|)
        invariant calls < cfg.maxRetries ==> delay == Delay(baseDelay, calls)
      {
        calls := calls + 1;
        kept := AttemptOnce(answers(calls));
        if kept.Some? {
          return;
        }
        if calls < cfg.maxRetries {
          waits := waits + [delay];
          delay := delay * 2.0;
        }
      }
      kept := None;
    }
  }
}
