/**
 Allocation of (display, VNC port, WebSocket port) triples to visual sessions.
 `VncPool` is the pool's whole state; the class below is the mutable pool itself.
 */
module VncPools {
  import opened Domain

  datatype VncSlot = VncSlot(display: int, vncPort: int, wsPort: int)

  datatype VncPool = VncPool(displays: seq<int>, vncPorts: seq<int>, wsPorts: seq<int>, active: set<VncSlot>)

  /** The ranges a pool was built from. */
  datatype Ranges = Ranges(displays: seq<int>, vncPorts: seq<int>, wsPorts: seq<int>)

  function Fresh(ranges: Ranges): VncPool {
    VncPool(ranges.displays, ranges.vncPorts, ranges.wsPorts, {})
  }

  function Acquired(p: VncPool): (VncPool, Option<VncSlot>) {
    if p.displays == [] || p.vncPorts == [] || p.wsPorts == [] then
      (p, None)
    else
      var slot := VncSlot(p.displays[0], p.vncPorts[0], p.wsPorts[0]);
      (VncPool(p.displays[1..], p.vncPorts[1..], p.wsPorts[1..], p.active + {slot}), Some(slot))
  }

  function Released(p: VncPool, slot: VncSlot): VncPool {
    if slot !in p.active then
      p
    else
      VncPool(p.displays + [slot.display], p.vncPorts + [slot.vncPort], p.wsPorts + [slot.wsPort], p.active - {slot})
  }

  ghost function Displays(active: set<VncSlot>): set<int> {
    set a | a in active :: a.display
  }

  ghost function VncPorts(active: set<VncSlot>): set<int> {
    set a | a in active :: a.vncPort
  }

  ghost function WsPorts(active: set<VncSlot>): set<int> {
    set a | a in active :: a.wsPort
  }

  ghost function Elements(s: seq<int>): set<int> {
    set x | x in s
  }

  /**
   One resource kind is conserved: the free queue holds each value at most once, and the
   values of the range are split between the free queue and the `count` active slots.
   */
  ghost predicate VncConserved(range: seq<int>, free: seq<int>, used: set<int>, count: nat) {
    && Distinct(free)
    && Elements(free) !! used
    && Elements(free) + used == Elements(range)
    && |free| + count == |range|
  }

  /** No two active slots share a display or a port. */
  ghost predicate Exclusive(active: set<VncSlot>) {
    forall a, b | a in active && b in active && a != b ::
      a.display != b.display && a.vncPort != b.vncPort && a.wsPort != b.wsPort
  }

  ghost predicate VncInv(ranges: Ranges, p: VncPool) {
    && VncConserved(ranges.displays, p.displays, Displays(p.active), |p.active|)
    && VncConserved(ranges.vncPorts, p.vncPorts, VncPorts(p.active), |p.active|)
    && VncConserved(ranges.wsPorts, p.wsPorts, WsPorts(p.active), |p.active|)
    && Exclusive(p.active)
  }

  lemma TakeConserves(range: seq<int>, free: seq<int>, used: set<int>, count: nat)
    requires VncConserved(range, free, used, count)
    requires free != []
    ensures free[0] !in used
    ensures VncConserved(range, free[1..], used + {free[0]}, count + 1)
  {
    assert free == [free[0]] + free[1..];
    assert Elements(free) == {free[0]} + Elements(free[1..]);
  }

  lemma GiveBackConserves(range: seq<int>, free: seq<int>, used: set<int>, count: nat, x: int)
    requires VncConserved(range, free, used, count)
    requires x in used && count > 0
    ensures VncConserved(range, free + [x], used - {x}, count - 1)
  {
    assert Elements(free + [x]) == Elements(free) + {x};
  }

  /** The smallest of the three range sizes: how many slots can be active at once. */
  function Capacity(ranges: Ranges): nat {
    var two := if |ranges.displays| < |ranges.vncPorts| then |ranges.displays| else |ranges.vncPorts|;
    if two < |ranges.wsPorts| then two else |ranges.wsPorts|
  }

  lemma AcquireCorrect(ranges: Ranges, p: VncPool)
    requires VncInv(ranges, p)
    ensures var (q, got) := Acquired(p);
            && VncInv(ranges, q)
            && (got.Some? <==> |p.active| < Capacity(ranges))
            && (got.None? ==> q == p)
            && (got.Some? ==> got.value !in p.active && q.active == p.active + {got.value})
  {
    hide VncConserved;
    hide Displays;
    hide VncPorts;
    hide WsPorts;
    var (q, got) := Acquired(p);
    FreeCounts(ranges, p);
    if got.Some? {
      TakeConserves(ranges.displays, p.displays, Displays(p.active), |p.active|);
      TakeConserves(ranges.vncPorts, p.vncPorts, VncPorts(p.active), |p.active|);
      TakeConserves(ranges.wsPorts, p.wsPorts, WsPorts(p.active), |p.active|);
      UsedGrows(p.active, got.value);
    }
  }

  lemma FreeCounts(ranges: Ranges, p: VncPool)
    requires VncInv(ranges, p)
    ensures |p.displays| + |p.active| == |ranges.displays|
    ensures |p.vncPorts| + |p.active| == |ranges.vncPorts|
    ensures |p.wsPorts| + |p.active| == |ranges.wsPorts|
  {
  }

  lemma UsedGrows(active: set<VncSlot>, slot: VncSlot)
    ensures Displays(active + {slot}) == Displays(active) + {slot.display}
    ensures VncPorts(active + {slot}) == VncPorts(active) + {slot.vncPort}
    ensures WsPorts(active + {slot}) == WsPorts(active) + {slot.wsPort}
    ensures forall a | a in active ::
              a.display in Displays(active) && a.vncPort in VncPorts(active) && a.wsPort in WsPorts(active)
  {
  }

  lemma ReleaseCorrect(ranges: Ranges, p: VncPool, slot: VncSlot)
    requires VncInv(ranges, p)
    ensures VncInv(ranges, Released(p, slot))
    ensures Released(p, slot).active == p.active - {slot}
    ensures slot !in p.active ==> Released(p, slot) == p
  {
    if slot in p.active {
      var q := Released(p, slot);
      GiveBackConserves(ranges.displays, p.displays, Displays(p.active), |p.active|, slot.display);
      GiveBackConserves(ranges.vncPorts, p.vncPorts, VncPorts(p.active), |p.active|, slot.vncPort);
      GiveBackConserves(ranges.wsPorts, p.wsPorts, WsPorts(p.active), |p.active|, slot.wsPort);
      assert Displays(q.active) == Displays(p.active) - {slot.display};
      assert VncPorts(q.active) == VncPorts(p.active) - {slot.vncPort};
      assert WsPorts(q.active) == WsPorts(p.active) - {slot.wsPort};
    }
  }

  /** A released slot's resources are free again: an acquire undone by a release restores the free sets. */
  lemma ReleaseUndoesAcquire(ranges: Ranges, p: VncPool)
    requires VncInv(ranges, p)
    ensures var (q, got) := Acquired(p);
            got.Some? ==>
              var back := Released(q, got.value);
              && back.active == p.active
              && multiset(back.displays) == multiset(p.displays)
              && multiset(back.vncPorts) == multiset(p.vncPorts)
              && multiset(back.wsPorts) == multiset(p.wsPorts)
  {
    var (q, got) := Acquired(p);
    if got.Some? {
      AcquireCorrect(ranges, p);
      assert p.displays == [p.displays[0]] + p.displays[1..];
      assert p.vncPorts == [p.vncPorts[0]] + p.vncPorts[1..];
      assert p.wsPorts == [p.wsPorts[0]] + p.wsPorts[1..];
    }
  }

  /** After `n` acquisitions in a row. */
  function TakenTimes(p: VncPool, n: nat): VncPool {
    if n == 0 then p else Acquired(TakenTimes(p, n - 1)).0
  }

  lemma {:induction false} TakenFromTheFront(p: VncPool, n: nat)
    requires n <= |p.displays| && n <= |p.vncPorts| && n <= |p.wsPorts|
    ensures var q := TakenTimes(p, n);
            q.displays == p.displays[n..] && q.vncPorts == p.vncPorts[n..] && q.wsPorts == p.wsPorts[n..]
  {
    if n > 0 {
      TakenFromTheFront(p, n - 1);
    }
  }

  /** Displays and ports are handed out in turn; what was released last comes after all that was free before. */
  lemma SlotsInTurn(p: VncPool, slot: VncSlot, n: nat)
    requires slot in p.active && n <= |p.displays| && n <= |p.vncPorts| && n <= |p.wsPorts|
    ensures Acquired(TakenTimes(Released(p, slot), n)).1
            == Some(VncSlot(if n < |p.displays| then p.displays[n] else slot.display,
                            if n < |p.vncPorts| then p.vncPorts[n] else slot.vncPort,
                            if n < |p.wsPorts| then p.wsPorts[n] else slot.wsPort))
  {
    TakenFromTheFront(Released(p, slot), n);
  }

  datatype VncStep = TakeOne | ReturnOne(slot: VncSlot)

  function VncRun(p: VncPool, steps: seq<VncStep>): VncPool
    decreases |steps|
  {
    if steps == [] then p
    else
      var q := match steps[0] { case TakeOne => Acquired(p).0 case ReturnOne(slot) => Released(p, slot) };
      VncRun(q, steps[1..])
  }

  /** Over every run from distinct ranges, resources are neither lost nor handed out twice. */
  lemma {:induction false} VncRunConserves(ranges: Ranges, p: VncPool, steps: seq<VncStep>)
    requires VncInv(ranges, p)
    ensures VncInv(ranges, VncRun(p, steps))
    decreases |steps|
  {
    if steps != [] {
      match steps[0] {
        case TakeOne =>
          AcquireCorrect(ranges, p);
          VncRunConserves(ranges, Acquired(p).0, steps[1..]);
        case ReturnOne(slot) =>
          ReleaseCorrect(ranges, p, slot);
          VncRunConserves(ranges, Released(p, slot), steps[1..]);
      }
    }
  }

  lemma FreshConserves(ranges: Ranges)
    requires Distinct(ranges.displays) && Distinct(ranges.vncPorts) && Distinct(ranges.wsPorts)
    ensures VncInv(ranges, Fresh(ranges))
  {
  }

  /** `_VncResourcePool`: three queues taken from the front and refilled at the back. */
  class VncResourcePool {
    var displays: seq<int>
    var vncPorts: seq<int>
    var wsPorts: seq<int>
    var active: set<VncSlot>

    ghost function State(): VncPool
      reads this
    {
      VncPool(displays, vncPorts, wsPorts, active)
    }

    constructor (ranges: Ranges)
      ensures State() == Fresh(ranges)
    {
      displays, vncPorts, wsPorts, active := ranges.displays, ranges.vncPorts, ranges.wsPorts, {};
    }

    method AcquireSlot() returns (slot: Option<VncSlot>)
      modifies this
      ensures (State(), slot) == Acquired(old(State()))
    {
      if displays == [] || vncPorts == [] || wsPorts == [] {
        return None;
      }
      var taken := VncSlot(displays[0], vncPorts[0], wsPorts[0]);
      displays := displays[1..];
      vncPorts := vncPorts[1..];
      wsPorts := wsPorts[1..];
      active := active + {taken};
      slot := Some(taken);
    }

    method ReleaseSlot(slot: VncSlot)
      modifies this
      ensures State() == Released(old(State()), slot)
    {
      if slot !in active {
        return;
      }
      active := active - {slot};
      displays := displays + [slot.display];
      vncPorts := vncPorts + [slot.vncPort];
      wsPorts := wsPorts + [slot.wsPort];
    }
  }

  /** Whether the helper processes of one allocation all start. */
  datatype Startup = AllStarted | StartFailed

  function Allocated(p: VncPool, startup: Startup): (VncPool, Option<VncSlot>) {
    var (q, slot) := Acquired(p);
    if slot.Some? && startup.StartFailed? then (Released(q, slot.value), None) else (q, slot)
  }

  lemma AllocateCorrect(ranges: Ranges, p: VncPool, startup: Startup)
    requires VncInv(ranges, p)
    ensures var (q, slot) := Allocated(p, startup);
            && VncInv(ranges, q)
            && (slot.Some? <==> |p.active| < Capacity(ranges) && startup.AllStarted?)
            && (slot.None? ==> q.active == p.active)
            && (slot.Some? ==> slot.value !in p.active && q.active == p.active + {slot.value})
  {
    AcquireCorrect(ranges, p);
    var (q, slot) := Acquired(p);
    if slot.Some? && startup.StartFailed? {
      ReleaseCorrect(ranges, q, slot.value);
    }
  }

  /** `ProcessVncController`, with process start-up reduced to its outcome. */
  class VncController {
    const pool: VncResourcePool

    constructor (ranges: Ranges)
      ensures fresh(pool) && pool.State() == Fresh(ranges)
    {
      pool := new VncResourcePool(ranges);
    }

    method Allocate(startup: Startup) returns (slot: Option<VncSlot>)
      modifies pool
      ensures (pool.State(), slot) == Allocated(old(pool.State()), startup)
    {
      slot := pool.AcquireSlot();
      if slot.Some? && startup.StartFailed? {
        pool.ReleaseSlot(slot.value);
        slot := None;
      }
    }

    method Release(slot: VncSlot)
      modifies pool
      ensures pool.State() == Released(old(pool.State()), slot)
    {
      pool.ReleaseSlot(slot);
    }
  }
}
