/** hil_axi_event_fifo.v: the same ring; clear also resets the latches. */
module AxiEventFifo {
  import opened Words
  import opened EventRing

  datatype Fifo = Fifo(ring: Ring, overflow: bool, orderError: bool)

  datatype Inputs = Inputs(clear: bool, push: bool, event: Event, pop: bool)

  function FifoNext(depth: nat, f: Fifo, i: Inputs): Fifo
    requires Sane(depth, f.ring)
  {
    var full := f.ring.p.count >= depth;
    if i.clear then Fifo(Cleared(f.ring), false, false)
    else Fifo(RingNext(depth, f.ring, i.push, i.event, i.pop),
              f.overflow || (i.push && full), f.orderError || (i.push && !full && !OrderOk(f.ring.p, i.event)))
  }

  class EventFifo {
    const depth: nat
    var mem: array<Event>
    var p: Pointers
    var overflow: bool
    var orderError: bool

    function State(): Fifo
      reads this, mem
    {
      Fifo(Ring(mem[..], p), overflow, orderError)
    }

    constructor (depth: nat)
      requires depth >= 1
      ensures this.depth == depth && fresh(mem) && mem.Length == depth
      ensures State() == Fifo(Ring(mem[..], Pointers(0, 0, 0, 0)), false, false)
    {
      this.depth := depth;
      mem := new Event[depth](_ => NO_EVENT);
      p, overflow, orderError := Pointers(0, 0, 0, 0), false, false;
    }

    method Clock(i: Inputs)
      requires Sane(depth, State().ring)
      modifies this, mem
      ensures mem == old(mem) && State() == FifoNext(depth, old(State()), i)
    {
      var full := p.count >= depth;
      var pushOrderOk := p.count == 0 || i.event.timestamp >= p.last;
      var acceptPush := i.push && !full && pushOrderOk;
      var acceptPop := i.pop && p.count != 0;
      var n := p;
      if i.clear {
        n := Pointers(0, 0, 0, 0);
        overflow, orderError := false, false;
      } else {
        if i.push {
          if full {
            overflow := true;
          } else if !pushOrderOk {
            orderError := true;
          } else {
            mem[p.write] := i.event;
            n := n.(last := i.event.timestamp, write := if p.write == depth - 1 then 0 else p.write + 1);
          }
        }
        if acceptPop {
          n := n.(read := if p.read == depth - 1 then 0 else p.read + 1);
          if !acceptPush && p.count == 1 {
            n := n.(last := 0);
          }
        }
        n := n.(count := if acceptPush && !acceptPop then p.count + 1
                else if acceptPop && !acceptPush then p.count - 1 else p.count);
      }
      p := n;
    }
  }
}

/** dio_event_scheduler.v: one armed event. */
module DioEventScheduler {
  import opened Words
  import opened EventRing

  datatype Regs = Regs(dio: u32, armed: bool, done: bool, pending: Event)

  datatype Inputs = Inputs(now: nat, arm: bool, target: Event, safeValue: u32, forceSafe: bool)

  predicate Fires(r: Regs, i: Inputs) {
    !i.forceSafe && r.armed && i.now >= r.pending.timestamp
  }

  function Next(r: Regs, i: Inputs): Regs {
    Regs(
      if i.forceSafe then i.safeValue else if Fires(r, i) then Masked(r.dio, r.pending.mask, r.pending.value)
          else r.dio,
      !i.forceSafe && !Fires(r, i) && (r.armed || i.arm),
      Fires(r, i),
      if i.arm && !i.forceSafe then i.target else r.pending)
  }

  class Scheduler {
    var regs: Regs

    constructor ()
      ensures regs == Regs(0, false, false, NO_EVENT)
    {
      regs := Regs(0, false, false, NO_EVENT);
    }

    method Clock(i: Inputs)
      modifies this
      ensures regs == Next(old(regs), i)
    {
      var n := regs.(done := false);
      if i.forceSafe {
        n := n.(dio := i.safeValue, armed := false);
      } else {
        if i.arm {
          n := n.(pending := i.target, armed := true);
        }
        if regs.armed && i.now >= regs.pending.timestamp {
          n := n.(dio := Masked(regs.dio, regs.pending.mask, regs.pending.value), armed := false, done := true);
        }
      }
      regs := n;
    }
  }
}

/** hil_axi_control_plane.v: AXI4-Lite writes into the registers, the event
    staging registers and the dispatcher that feeds the scheduler. */
module AxiControlPlane {
  import opened Words
  import opened EventRing
  import opened AxiEventFifo

  const REG_CONTROL := 0x020
  const REG_EVT_TS_LO := 0x100
  const REG_EVT_TS_HI := 0x104
  const REG_EVT_MASK := 0x108
  const REG_EVT_VALUE := 0x10C
  const REG_EVT_ID := 0x110
  const REG_EVT_PUSH := 0x114

  /** The registers a bus write can change. */
  datatype Config = Config(
    hilEnable: bool, forceSafe: bool, abzEnable: bool, abzForward: bool,
    tsLo: u32, tsHi: u32, mask: u32, value: u32, id: u32)
  {
    function Staged(): Event {
      Event(tsHi * M32 + tsLo, mask, value, id)
    }
  }

  const CONFIG_RESET := Config(false, true, false, true, 0, 0, 0, 0, 0)

  /** One AXI4-Lite write, with its byte strobes. */
  datatype BusWrite = BusWrite(addr: nat, data: u32, strobe: seq<bool>)
  {
    predicate Valid() { |strobe| == 4 }
  }

  /** `apply_wstrb`. */
  function Merged(was: u32, w: BusWrite): u32
    requires w.Valid()
  {
    FromBits((k: nat) => if k < 32 && w.strobe[k / 8] then Bit(w.data, k) else Bit(was, k))
  }

  function ControlWord(c: Config): u32 {
    FromBits((k: nat) => (k == 0 && c.hilEnable) || (k == 1 && c.forceSafe) || (k == 3 && c.abzEnable) ||
             (k == 4 && c.abzForward))
  }

  /** The register effect of one committed write. */
  function Written(c: Config, w: BusWrite): Config
    requires w.Valid()
  {
    if w.addr == REG_CONTROL then
      var merged := Merged(ControlWord(c), w);
      c.(hilEnable := Bit(merged, 0), forceSafe := Bit(merged, 1), abzEnable := Bit(merged, 3),
         abzForward := Bit(merged, 4))
    else if w.addr == REG_EVT_TS_LO then c.(tsLo := Merged(c.tsLo, w))
    else if w.addr == REG_EVT_TS_HI then c.(tsHi := Merged(c.tsHi, w))
    else if w.addr == REG_EVT_MASK then c.(mask := Merged(c.mask, w) % 0x1_0000)
    else if w.addr == REG_EVT_VALUE then c.(value := Merged(c.value, w) % 0x1_0000)
    else if w.addr == REG_EVT_ID then c.(id := Merged(c.id, w) % 0x1_0000)
    else c
  }

  /** Whether a committed write raises `event_push_pulse`. */
  predicate Pushes(w: BusWrite)
    requires w.Valid()
  {
    w.addr == REG_EVT_PUSH && w.strobe[0] && Bit(w.data, 0)
  }

  datatype Bus = Bus(awValid: bool, wValid: bool, bReady: bool, write: BusWrite)

  /** The write channel: address and data held until both are there. */
  datatype Channel = Channel(awPending: bool, awHold: nat, wPending: bool, wHold: BusWrite, bValid: bool, push: bool,
                             config: Config)
  {
    predicate Valid() { wHold.Valid() }

    predicate Commits() { awPending && wPending && !bValid }

    function Held(): BusWrite { wHold.(addr := awHold) }
  }

  function ChannelNext(c: Channel, bus: Bus): (n: Channel)
    requires c.Valid() && bus.write.Valid()
    ensures n.Valid()
  {
    var w := c.Held();
    Channel(
      !c.Commits() && (c.awPending || bus.awValid),
      if !c.awPending && bus.awValid then bus.write.addr else c.awHold,
      !c.Commits() && (c.wPending || bus.wValid),
      if !c.wPending && bus.wValid then bus.write else c.wHold,
      c.Commits() || (c.bValid && !bus.bReady),
      c.Commits() && Pushes(w),
      if c.Commits() then Written(c.config, w) else c.config)
  }

  datatype Dispatch = Dispatch(arm: bool, event: Event, pop: bool, inflight: bool)

  const DISPATCH_RESET := Dispatch(false, NO_EVENT, false, false)

  predicate Dispatches(d: Dispatch, empty: bool, armed: bool, forceSafe: bool) {
    !forceSafe && !d.inflight && !armed && !empty
  }

  function DispatchNext(d: Dispatch, head: Event, empty: bool, armed: bool, done: bool, forceSafe: bool): Dispatch {
    var go := Dispatches(d, empty, armed, forceSafe);
    Dispatch(go, if go then head else d.event, go, !forceSafe && (go || (d.inflight && !armed && !done)))
  }

  class ControlPlane {
    const fifo: EventFifo
    var channel: Channel
    var dispatch: Dispatch

    ghost predicate Wired()
      reads this, fifo, fifo.mem
    {
      Sane(fifo.depth, fifo.State().ring) && channel.Valid()
    }

    constructor (depth: nat)
      requires depth >= 1
      ensures Wired() && fresh(fifo) && fresh(fifo.mem) && fifo.depth == depth
      ensures !fifo.overflow && !fifo.orderError
      ensures channel.config == CONFIG_RESET && dispatch == DISPATCH_RESET &&
              fifo.State().ring.p == Pointers(0, 0, 0, 0)
    {
      var f := new EventFifo(depth);
      fifo := f;
      channel := Channel(false, 0, false, BusWrite(0, 0, [false, false, false, false]), false, false, CONFIG_RESET);
      dispatch := DISPATCH_RESET;
    }

    method Clock(bus: Bus, externalForceSafe: bool, armed: bool, done: bool)
      requires Wired() && bus.write.Valid()
      modifies this, fifo, fifo.mem
      ensures Wired() && fifo.mem == old(fifo.mem)
      ensures channel == ChannelNext(old(channel), bus)
      ensures var force := old(channel).config.forceSafe || externalForceSafe;
              var was := old(fifo.State());
              && dispatch == DispatchNext(old(dispatch), Head(fifo.depth, was.ring), was.ring.p.count == 0, armed,
                                          done, force)
              && fifo.State() == FifoNext(fifo.depth, was,
                   AxiEventFifo.Inputs(force, old(channel).push, old(channel).config.Staged(), old(dispatch).pop))
    {
      var forceSafe := channel.config.forceSafe || externalForceSafe;
      var head, empty := Head(fifo.depth, fifo.State().ring), fifo.p.count == 0;
      SaneStep(fifo.depth, fifo.State().ring, channel.push, channel.config.Staged(), dispatch.pop);
      var d := dispatch.(arm := false, pop := false);
      if forceSafe {
        d := d.(inflight := false);
      } else {
        if dispatch.inflight && (armed || done) {
          d := d.(inflight := false);
        }
        if !dispatch.inflight && !armed && !empty {
          d := d.(event := head, arm := true, pop := true, inflight := true);
        }
      }
      fifo.Clock(AxiEventFifo.Inputs(forceSafe, channel.push, channel.config.Staged(), dispatch.pop));
      WriteChannel(bus);
      dispatch := d;
    }

    method WriteChannel(bus: Bus)
      requires channel.Valid() && bus.write.Valid()
      modifies this`channel
      ensures channel == ChannelNext(old(channel), bus)
    {
      var c := channel;
      var n := c.(push := false);
      if !c.awPending && bus.awValid {
        n := n.(awPending := true, awHold := bus.write.addr);
      }
      if !c.wPending && bus.wValid {
        n := n.(wPending := true, wHold := bus.write);
      }
      if c.awPending && c.wPending && !c.bValid {
        n := n.(config := Written(c.config, c.Held()), push := Pushes(c.Held()),
                awPending := false, wPending := false, bValid := true);
      } else if c.bValid && bus.bReady {
        n := n.(bValid := false);
      }
      channel := n;
    }
  }

}
