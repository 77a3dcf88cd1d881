/** How each step on the handle tables, the pool and the processes keeps browsers in custody. */
module CustodyProofs {
  import opened Domain
  import opened WarmPools
  import opened WarmPoolProofs
  import opened Runners
  import opened RunnerInvariants

  /** What the manager does to its own browsers is of no concern to the pool. */
  lemma PoolIgnoresManager(cfg: PoolConfig, p: WarmPool, bs: Browsers, later: Browsers)
    requires PoolInv(cfg, Fleet(p, bs)) && OnlyActed(bs, later, ByManager)
    ensures PoolInv(cfg, Fleet(p, later))
  {
  }

  lemma PoolSideIgnoresManager(cfg: PoolConfig, h: Holdings, later: Browsers, handles: map<SessionId, BrowserId>)
    requires PoolSide(cfg, h) && OnlyActed(h.browsers, later, ByManager)
    ensures PoolSide(cfg, h.(browsers := later, handles := handles))
  {
    if h.pool.Some? {
      PoolIgnoresManager(cfg, h.pool.value, h.browsers, later);
    }
  }

  lemma ColdIgnoresPool(
    bs: Browsers, later: Browsers, handles: map<SessionId, BrowserId>, warm: map<SessionId, WorkstationId>)
    requires ColdSide(bs, handles, warm) && OnlyActed(bs, later, ByPool)
    ensures ColdSide(later, handles, warm)
  {
  }

  // ---------- the cold side ----------

  lemma ColdAdopts(
    bs: Browsers, handles: map<SessionId, BrowserId>, warm: map<SessionId, WorkstationId>,
    id: SessionId, endpoint: string, flags: Flags)
    requires ColdSide(bs, handles, warm) && id !in handles && id !in warm
    ensures ColdSide(bs + [Browser(endpoint, flags, ByManager, [])], handles[id := |bs|], warm)
  {
    ColdHeldGrows(handles, warm, id, |bs|);
    ColdHandlesAreHeld(handles, warm);
    hide ColdHeld;
  }

  lemma ColdHandlesAreHeld(handles: map<SessionId, BrowserId>, warm: map<SessionId, WorkstationId>)
    ensures forall k | k in handles && k !in warm :: handles[k] in ColdHeld(handles, warm)
  {
  }

  lemma ColdHeldGrows(
    handles: map<SessionId, BrowserId>, warm: map<SessionId, WorkstationId>, id: SessionId, b: BrowserId)
    requires id !in handles && id !in warm
    ensures ColdHeld(handles[id := b], warm) == ColdHeld(handles, warm) + {b}
  {
    var more := handles[id := b];
    assert more[id] == b && forall k | k in handles :: more[k] == handles[k];
    forall x | x in ColdHeld(handles, warm) ensures x in ColdHeld(more, warm) {
      var k :| k in handles && k !in warm && handles[k] == x;
      assert more[k] == x;
    }
  }

  lemma ColdDrops(bs: Browsers, handles: map<SessionId, BrowserId>, warm: map<SessionId, WorkstationId>, id: SessionId)
    requires ColdSide(bs, handles, warm) && id in handles && id !in warm
    ensures ColdSide(Shut(bs, handles[id], ByManager), handles - {id}, warm)
  {
    var fewer := handles - {id};
    assert ColdHeld(fewer, warm) == ColdHeld(handles, warm) - {handles[id]} by {
      forall x | x in ColdHeld(handles, warm) - {handles[id]} ensures x in ColdHeld(fewer, warm) {
        var k :| k in handles && k !in warm && handles[k] == x;
        assert k in fewer && fewer[k] == x;
      }
    }
    assert handles[id] in ColdHeld(handles, warm);
  }

  /** Sessions that are, become or cease to be warm play no part in the cold side. */
  lemma ColdUnchanged(
    bs: Browsers, handles: map<SessionId, BrowserId>, warm: map<SessionId, WorkstationId>,
    handles2: map<SessionId, BrowserId>, warm2: map<SessionId, WorkstationId>)
    requires ColdSide(bs, handles, warm)
    requires forall k :: (k in handles && k !in warm) <==> (k in handles2 && k !in warm2)
    requires forall k | k in handles && k !in warm :: handles2[k] == handles[k]
    ensures ColdSide(bs, handles2, warm2)
  {
    assert ColdHeld(handles2, warm2) == ColdHeld(handles, warm) by {
      forall x | x in ColdHeld(handles, warm) ensures x in ColdHeld(handles2, warm2) {
        var k :| k in handles && k !in warm && handles[k] == x;
        assert k in handles2 && handles2[k] == x;
      }
      forall x | x in ColdHeld(handles2, warm2) ensures x in ColdHeld(handles, warm) {
        var k :| k in handles2 && k !in warm2 && handles2[k] == x;
        assert k in handles && handles[k] == x;
      }
    }
  }

  // ---------- the steps ----------

  lemma AdoptCold(cfg: PoolConfig, h: Holdings, id: SessionId, endpoint: string, flags: Flags)
    requires CustodyInv(cfg, h) && id !in h.handles && id !in h.warm
    ensures var later := h.browsers + [Browser(endpoint, flags, ByManager, [])];
            && CustodyInv(cfg, h.(browsers := later, handles := h.handles[id := |h.browsers|]))
            && OnlyActed(h.browsers, later, ByManager)
  {
    var later := h.browsers + [Browser(endpoint, flags, ByManager, [])];
    var handles := h.handles[id := |h.browsers|];
    assert OnlyActed(h.browsers, later, ByManager);
    hide PoolSide;
    hide ColdSide;
    PoolSideIgnoresManager(cfg, h, later, handles);
    ColdAdopts(h.browsers, h.handles, h.warm, id, endpoint, flags);
  }

  lemma HandleIsKnown(cfg: PoolConfig, p: WarmPool, bs: Browsers, w: WorkstationId)
    requires PoolInv(cfg, Fleet(p, bs)) && w in p.slots && p.slots[w].handle.Some?
    ensures p.slots[w].handle.value < |bs|
    ensures bs[p.slots[w].handle.value].owner == ByPool && bs[p.slots[w].handle.value].flags == cfg.flags
  {
    assert p.slots[w].handle.value in Held(p);
  }

  lemma SlotTaken(
    p: WarmPool, warm: map<SessionId, WorkstationId>, lent: set<WorkstationId>, id: SessionId, w: WorkstationId)
    requires SlotsInv(p, warm, lent) && id !in warm && w !in warm.Values
    requires w in p.slots && p.slots[w].state == Busy
    ensures SlotsInv(p, warm[id := w], lent - {w})
  {
    var more := warm[id := w];
    assert more.Values == warm.Values + {w} by {
      assert more[id] == w && forall k | k in warm :: more[k] == warm[k];
    }
  }

  /** A Busy slot that no session has becomes the session's, whatever browser it has by then. */
  lemma TakeSlot(cfg: PoolConfig, h: Holdings, id: SessionId, w: WorkstationId)
    requires CustodyInv(cfg, h) && id !in h.handles && id !in h.warm && w !in h.warm.Values
    requires h.pool.Some? && w in h.pool.value.slots && h.pool.value.slots[w].state == Busy
    ensures CustodyInv(cfg, h.(warm := h.warm[id := w], lent := h.lent - {w}))
  {
    hide PoolInv;
    hide ColdSide;
    hide SlotsInv;
    SlotTaken(h.pool.value, h.warm, h.lent, id, w);
    ColdUnchanged(h.browsers, h.handles, h.warm, h.handles, h.warm[id := w]);
  }

  lemma SessionSlotIsBusy(cfg: PoolConfig, h: Holdings, id: SessionId)
    requires id in h.warm
    ensures CustodyInv(cfg, h) ==>
              && h.pool.Some? && h.warm[id] in h.pool.value.slots && h.pool.value.slots[h.warm[id]].state == Busy
  {
    hide PoolInv;
    hide ColdSide;
    hide WarmSide;
  }

  /** The handle a session on a warm slot may store: its slot's, and no other. */
  lemma AdoptHandleIff(cfg: PoolConfig, h: Holdings, id: SessionId, handle: BrowserId)
    requires CustodyInv(cfg, h) && id !in h.handles && id in h.warm
    ensures h.pool.Some? && h.warm[id] in h.pool.value.slots
    ensures CustodyInv(cfg, h.(handles := h.handles[id := handle]))
            <==> h.pool.value.slots[h.warm[id]].handle == Some(handle)
  {
    var stored := h.(handles := h.handles[id := handle]);
    hide PoolInv;
    hide ColdSide;
    ColdUnchanged(h.browsers, h.handles, h.warm, stored.handles, h.warm);
    assert id in stored.handles && stored.handles[id] == handle;
    assert forall k | k in h.handles :: stored.handles[k] == h.handles[k];
  }

  lemma DropHandle(cfg: PoolConfig, h: Holdings, id: SessionId)
    requires CustodyInv(cfg, h) && id in h.handles
    ensures var later := if id in h.warm then h.browsers else Shut(h.browsers, h.handles[id], ByManager);
            && CustodyInv(cfg, h.(browsers := later, handles := h.handles - {id}))
            && OnlyActed(h.browsers, later, ByManager)
  {
    var later := if id in h.warm then h.browsers else Shut(h.browsers, h.handles[id], ByManager);
    assert OnlyActed(h.browsers, later, ByManager);
    hide PoolSide;
    hide ColdSide;
    PoolSideIgnoresManager(cfg, h, later, h.handles - {id});
    if id in h.warm {
      ColdUnchanged(h.browsers, h.handles, h.warm, h.handles - {id}, h.warm);
    } else {
      ColdDrops(h.browsers, h.handles, h.warm, id);
    }
  }

  /** Whatever the pool does by itself, as long as it leaves the sessions' slots alone. */
  lemma PoolActs(cfg: PoolConfig, h: Holdings, g: Fleet, lent: set<WorkstationId>)
    requires CustodyInv(cfg, h) && h.pool.Some?
    requires PoolInv(cfg, g) && OnlyActed(h.browsers, g.browsers, ByPool)
    requires SlotsInv(g.pool, h.warm, lent)
    requires forall id | id in h.warm ::
               && h.warm[id] in h.pool.value.slots
               && g.pool.slots[h.warm[id]] == h.pool.value.slots[h.warm[id]]
    ensures CustodyInv(cfg, h.(pool := Some(g.pool), browsers := g.browsers, lent := lent))
  {
    hide PoolInv;
    hide ColdSide;
    ColdIgnoresPool(h.browsers, g.browsers, h.handles, h.warm);
  }

  lemma SlotGivenBack(f: Fleet, g: Fleet, warm: map<SessionId, WorkstationId>, lent: set<WorkstationId>, id: SessionId)
    requires SlotsInv(f.pool, warm, lent) && id in warm && OnlySlot(f, g, warm[id])
    requires g.pool.slots[warm[id]].state in {Idle, Error}
    ensures SlotsInv(g.pool, warm - {id}, lent)
  {
    var fewer := warm - {id};
    assert fewer.Values == warm.Values - {warm[id]} by {
      forall x | x in warm.Values - {warm[id]} ensures x in fewer.Values {
        var k :| k in warm && warm[k] == x;
        assert k in fewer && fewer[k] == x;
      }
    }
  }

  /** Recycling a session's slot, once the session's browser handle is forgotten. */
  lemma GiveSlotBack(cfg: PoolConfig, h: Holdings, id: SessionId, answers: Answers)
    requires CustodyInv(cfg, h) && id in h.warm && id !in h.handles
    ensures h.pool.Some?
    ensures var (g, error) := Release(cfg, Fleet(h.pool.value, h.browsers), h.warm[id], answers);
            && CustodyInv(cfg, h.(pool := Some(g.pool), browsers := g.browsers, warm := h.warm - {id}))
            && OnlyActed(h.browsers, g.browsers, ByPool)
            && error != Some(StateError)
  {
    var f := Fleet(h.pool.value, h.browsers);
    var w := h.warm[id];
    assert w in f.pool.slots && f.pool.slots[w].state == Busy;
    hide PoolInv;
    hide ColdSide;
    var (g, error) := Release(cfg, f, w, answers);
    RecycledFromKeepsInv(cfg, f, w, answers, {Busy, Reserved});
    SlotGivenBack(f, g, h.warm, h.lent, id);
    ColdIgnoresPool(h.browsers, g.browsers, h.handles, h.warm);
    ColdUnchanged(g.browsers, h.handles, h.warm, h.handles, h.warm - {id});
    assert WarmSide(h.(pool := Some(g.pool), browsers := g.browsers, warm := h.warm - {id})) by {
      assert forall k | k in h.warm && k != id :: h.warm[k] != w;
    }
  }
}
