/** hil_axi_digital_core.v: the FIFO, the dispatcher and the scheduler wired
    together, and the whole path from the host's calls to the outputs. */
module AxiPipeline {
  import opened Words
  import opened EventFates
  import opened EventRing
  import opened AxiEventFifo
  import opened AxiControlPlane
  import opened Latches
  import opened OutputBits
  import S = DioEventScheduler

  datatype Core = Core(fifo: Fifo, dispatch: Dispatch, scheduler: S.Regs)

  /** What reaches the core on a clock: the push port, the enable and force-safe
      switches and the time. */
  datatype Drive = Drive(push: bool, event: Event, enable: bool, force: bool, now: nat)

  function Next(depth: nat, s: Core, i: Drive): Core
    requires Sane(depth, s.fifo.ring)
  {
    var empty := s.fifo.ring.p.count == 0;
    Core(
      FifoNext(depth, s.fifo, AxiEventFifo.Inputs(i.force, i.push, i.event, s.dispatch.pop)),
      DispatchNext(s.dispatch, Head(depth, s.fifo.ring), empty, s.scheduler.armed, s.scheduler.done, i.force),
      S.Next(s.scheduler, S.Inputs(i.now, s.dispatch.arm, s.dispatch.event, 0, !(i.enable && !i.force))))
  }

  /** hil_digital_core.v ties the control plane's dispatcher to the scheduler. */
  class DigitalCore {
    const plane: ControlPlane
    const scheduler: S.Scheduler

    ghost predicate Wired()
      reads this, plane, plane.fifo, plane.fifo.mem, scheduler
    {
      plane.Wired()
    }

    function State(): Core
      reads this, plane, plane.fifo, plane.fifo.mem, scheduler
    {
      Core(plane.fifo.State(), plane.dispatch, scheduler.regs)
    }

    constructor (depth: nat)
      requires depth >= 1
      ensures Wired() && fresh(plane) && fresh(plane.fifo) && fresh(plane.fifo.mem) && fresh(scheduler)
      ensures plane.fifo.depth == depth && Idle(depth, State()) && plane.channel.config == CONFIG_RESET
      ensures scheduler.regs.dio == 0 && !plane.fifo.overflow && !plane.fifo.orderError
    {
      plane := new ControlPlane(depth);
      scheduler := new S.Scheduler();
    }

    method Clock(bus: Bus, externalForceSafe: bool, now: nat)
      requires Wired() && bus.write.Valid()
      modifies plane, plane.fifo, plane.fifo.mem, scheduler
      ensures Wired() && plane.channel == ChannelNext(old(plane.channel), bus)
      ensures State() == Next(plane.fifo.depth, old(State()), Driven(old(plane.channel), externalForceSafe, now))
    {
      var cfgForceSafe := plane.channel.config.forceSafe || externalForceSafe;
      var hilActive := plane.channel.config.hilEnable && !cfgForceSafe;
      var d, armed, done := plane.dispatch, scheduler.regs.armed, scheduler.regs.done;
      plane.Clock(bus, externalForceSafe, armed, done);
      scheduler.Clock(S.Inputs(now, d.arm, d.event, 0, !hilActive));
    }
  }

  /** The wires from the register file to the core. */
  function Driven(c: Channel, externalForceSafe: bool, now: nat): Drive {
    Drive(c.push, c.config.Staged(), c.config.hilEnable, c.config.forceSafe || externalForceSafe, now)
  }

  predicate Idle(depth: nat, s: Core) {
    && depth >= 1 && |s.fifo.ring.mem| == depth && s.fifo.ring.p == Pointers(0, 0, 0, 0)
    && s.dispatch == DISPATCH_RESET && !s.scheduler.armed
  }

  // ---- one clock ----

  ghost function Stored(depth: nat, s: Core): seq<Event>
    requires Valid(depth, s.fifo.ring)
  {
    Contents(depth, s.fifo.ring)
  }

  /** The arm pulse goes together with the pop of the same event, finds the
      scheduler unarmed, and an inflight dispatch is always at the arm pulse or
      armed: the dispatcher neither arms twice nor waits for nothing. */
  ghost predicate Inv(depth: nat, s: Core) {
    && Valid(depth, s.fifo.ring)
    && s.dispatch.pop == s.dispatch.arm
    && (s.dispatch.arm ==> s.dispatch.inflight && !s.scheduler.armed && !s.scheduler.done)
    && (s.dispatch.arm ==> Stored(depth, s) != [] && Stored(depth, s)[0] == s.dispatch.event)
    && (s.dispatch.inflight ==> s.dispatch.arm || s.scheduler.armed)
  }

  /** Events accepted and not yet applied or flushed, next one first. */
  ghost function Waiting(depth: nat, s: Core): seq<Event>
    requires Valid(depth, s.fifo.ring)
  {
    (if s.scheduler.armed then [s.scheduler.pending] else []) + Stored(depth, s)
  }

  /** HIL is not switched off under an event that is armed or at its arm pulse. */
  predicate Enabled(s: Core, i: Drive) {
    i.enable || i.force || (!s.dispatch.arm && !s.scheduler.armed)
  }

  predicate Fires(s: Core, i: Drive) {
    !i.force && s.scheduler.armed && i.now >= s.scheduler.pending.timestamp
  }

  ghost function AcceptedAt(depth: nat, s: Core, i: Drive): seq<Event>
    requires Valid(depth, s.fifo.ring)
  {
    if !i.force && Takes(depth, Stored(depth, s), i.push, i.event) then [i.event] else []
  }

  lemma FifoStep(depth: nat, s: Core, i: Drive)
    requires Inv(depth, s)
    ensures Valid(depth, Next(depth, s, i).fifo.ring)
    ensures Stored(depth, Next(depth, s, i)) ==
            if i.force then [] else AfterClock(depth, Stored(depth, s), i.push, i.event, s.dispatch.arm)
    ensures Head(depth, s.fifo.ring) == if Stored(depth, s) == [] then NO_EVENT else Stored(depth, s)[0]
    ensures s.fifo.ring.p.count == 0 <==> Stored(depth, s) == []
  {
    Refines(depth, s.fifo.ring, i.push, i.event, s.dispatch.pop);
    ClearedValid(depth, s.fifo.ring);
  }

  lemma InvStep(depth: nat, s: Core, i: Drive)
    requires Inv(depth, s) && Enabled(s, i)
    ensures Inv(depth, Next(depth, s, i)) && Valid(depth, Next(depth, s, i).fifo.ring)
  {
    hide Sorted, FifoNext, Contents, Masked, Takes;
    FifoStep(depth, s, i);
  }

  /** What one clock does to the waiting events: flush all, apply the first, or
      nothing; then the accepted one joins at the end. */
  lemma WaitingStep(depth: nat, s: Core, i: Drive)
    requires Inv(depth, s) && Enabled(s, i)
    ensures Inv(depth, Next(depth, s, i)) && Valid(depth, Next(depth, s, i).fifo.ring)
    ensures Fires(s, i) ==> Waiting(depth, s) != [] && Waiting(depth, s)[0] == s.scheduler.pending
    ensures Waiting(depth, Next(depth, s, i)) ==
            if i.force then []
            else (if Fires(s, i) then Waiting(depth, s)[1..] else Waiting(depth, s)) + AcceptedAt(depth, s, i)
  {
    hide Next, Sorted, Contents, AcceptedAt, Stored, Takes;
    InvStep(depth, s, i);
    SchedulerStep(depth, s, i);
    if i.force {
      FifoStep(depth, s, i);
      assert Waiting(depth, Next(depth, s, i)) == [];
    } else {
      StoredStep(depth, s, i);
      Rejoin(s.scheduler.armed, s.scheduler.pending, s.dispatch.arm, s.dispatch.event, Fires(s, i),
             Stored(depth, s), Stored(depth, Next(depth, s, i)), AcceptedAt(depth, s, i));
    }
  }

  lemma SchedulerStep(depth: nat, s: Core, i: Drive)
    requires Inv(depth, s) && Enabled(s, i)
    ensures var n := Next(depth, s, i).scheduler;
            && n.armed == (!i.force && !Fires(s, i) && (s.scheduler.armed || s.dispatch.arm))
            && (n.armed ==> n.pending == if s.dispatch.arm then s.dispatch.event else s.scheduler.pending)
  {
    hide Masked, FifoNext, DispatchNext, Sorted, Contents;
  }

  /** Where the first event is changes; which events wait does not. */
  lemma Rejoin(armed: bool, pending: Event, arm: bool, event: Event, fires: bool, c: seq<Event>, after: seq<Event>,
               more: seq<Event>)
    requires (arm ==> !armed) && (fires ==> armed)
    requires if arm then [event] + after == c + more else after == c + more
    ensures var w := (if armed then [pending] else []) + c;
            (if !fires && (armed || arm) then [if arm then event else pending] else []) + after ==
                (if fires then w[1..] else w) + more
  {
    var w := (if armed then [pending] else []) + c;
    if arm {
      assert w == c;
    } else if armed {
      assert w[1..] == c;
      assert [pending] + (c + more) == ([pending] + c) + more;
      assert [] + after == after;
    } else {
      assert w == c && [] + after == after;
    }
  }

  lemma StoredStep(depth: nat, s: Core, i: Drive)
    requires Inv(depth, s) && !i.force
    ensures Valid(depth, Next(depth, s, i).fifo.ring)
    ensures var c, after := Stored(depth, s), Stored(depth, Next(depth, s, i));
            if s.dispatch.arm then [s.dispatch.event] + after == c + AcceptedAt(depth, s, i)
            else after == c + AcceptedAt(depth, s, i)
  {
    hide Sorted, FifoNext, Contents, Masked, Takes, DispatchNext;
    FifoStep(depth, s, i);
    var c := Stored(depth, s);
    if s.dispatch.arm {
      assert c == [c[0]] + c[1..];
    }
  }

  /** Where the first waiting event is: at the scheduler, at its arm pulse, or
      still to be dispatched. */
  function Stage(s: Core): nat {
    if s.scheduler.armed then 0 else if s.dispatch.arm then 1 else 2
  }

  /** Without force-safe the pipeline always moves on while something waits. */
  lemma StageStep(depth: nat, s: Core, i: Drive)
    requires Inv(depth, s) && Enabled(s, i) && !i.force && Waiting(depth, s) != []
    ensures Stage(Next(depth, s, i)) ==
            if Stage(s) > 0 then Stage(s) - 1 else if Fires(s, i) then 2 else 0
  {
    hide Sorted, FifoNext, Contents, Masked, Takes;
    FifoStep(depth, s, i);
  }

  // ---- switching HIL off under an event loses it ----

  /** The dispatcher waits for an event that no longer exists. */
  predicate Wedged(s: Core) {
    s.dispatch.inflight && !s.dispatch.arm && !s.dispatch.pop && !s.scheduler.armed && !s.scheduler.done
  }

  /** Without force-safe, a clock applies the first event or keeps all that wait
      if and only if HIL is enabled or no event is armed or at its arm pulse.
      Otherwise exactly that event is gone, not applied; and the dispatcher is
      wedged if and only if the event was still at its arm pulse. */
  lemma EnableDecides(depth: nat, s: Core, i: Drive)
    requires Inv(depth, s) && !i.force
    ensures var n, w, more := Next(depth, s, i), Waiting(depth, s), AcceptedAt(depth, s, i);
            && Valid(depth, n.fifo.ring)
            && (Waiting(depth, n) == (if Fires(s, i) && i.enable then w[1..] else w) + more <==> Enabled(s, i))
            && (!Enabled(s, i) ==> Waiting(depth, n) == w[1..] + more)
            && (n.scheduler.done <==> Fires(s, i) && i.enable)
            && (Wedged(n) <==> s.dispatch.arm && !i.enable)
  {
    hide Next, Sorted, Contents, AcceptedAt, Takes, Waiting, Stored, Wedged, Fires, Inv, Enabled, Valid;
    SchedulerOff(depth, s, i);
    EnabledFires(s, i);
    if Enabled(s, i) {
      WaitingStep(depth, s, i);
    } else {
      DisabledLoses(depth, s, i);
    }
  }

  lemma EnabledFires(s: Core, i: Drive)
    requires !i.force
    ensures Enabled(s, i) && Fires(s, i) ==> i.enable
    ensures !Enabled(s, i) ==> !i.enable
  {
  }

  lemma DisabledLoses(depth: nat, s: Core, i: Drive)
    requires Inv(depth, s) && !i.force && !Enabled(s, i)
    ensures var n, w, more := Next(depth, s, i), Waiting(depth, s), AcceptedAt(depth, s, i);
            && Valid(depth, n.fifo.ring) && w != []
            && Waiting(depth, n) == w[1..] + more && |Waiting(depth, n)| != |w + more|
  {
    hide Next, Sorted, Contents, AcceptedAt, Takes, Stored, Wedged, Fires;
    StoredStep(depth, s, i);
    SchedulerOff(depth, s, i);
    var c, after, more := Stored(depth, s), Stored(depth, Next(depth, s, i)), AcceptedAt(depth, s, i);
    assert Waiting(depth, Next(depth, s, i)) == [] + after == after;
    if s.dispatch.arm {
      assert Waiting(depth, s) == c == [s.dispatch.event] + c[1..];
      assert [s.dispatch.event] + after == [s.dispatch.event] + (c[1..] + more);
      SameTail(s.dispatch.event, after, c[1..] + more);
    } else {
      assert ([s.scheduler.pending] + c)[1..] == c;
    }
  }

  lemma SameTail(e: Event, a: seq<Event>, b: seq<Event>)
    requires [e] + a == [e] + b
    ensures a == b
  {
    assert ([e] + a)[1..] == a && ([e] + b)[1..] == b;
  }

  /** The scheduler's own registers with HIL on or off. */
  lemma SchedulerOff(depth: nat, s: Core, i: Drive)
    requires Inv(depth, s) && !i.force
    ensures var n := Next(depth, s, i);
            && n.scheduler.armed == (i.enable && !Fires(s, i) && (s.scheduler.armed || s.dispatch.arm))
            && (n.scheduler.done <==> Fires(s, i) && i.enable)
            && (Wedged(n) <==> s.dispatch.arm && !i.enable)
  {
    hide Masked, FifoNext, Sorted, Contents, Head;
  }

  /** Only force-safe frees a wedged dispatcher: without it nothing is ever
      dispatched again, enabled or not. */
  lemma WedgedStays(depth: nat, s: Core, i: Drive)
    requires Valid(depth, s.fifo.ring) && Wedged(s)
    ensures Wedged(Next(depth, s, i)) <==> !i.force
  {
    hide FifoNext, Masked, Head;
  }

  // ---- runs ----

  ghost predicate IsStep(depth: nat, s: Core, i: Drive, n: Core) {
    Sane(depth, s.fifo.ring) && n == Next(depth, s, i)
  }

  /** Clock `k` runs at time `t0 + k`, with HIL enabled whenever an event is armed
      or at its arm pulse and force-safe is off. */
  ghost predicate IsRun(depth: nat, t0: nat, states: seq<Core>, drives: seq<Drive>) {
    && |states| == |drives| + 1 && Idle(depth, states[0])
    && (forall k :: 0 <= k < |drives| ==> drives[k].now == t0 + k && Enabled(states[k], drives[k]))
    && forall k :: 0 <= k < |drives| ==> IsStep(depth, states[k], drives[k], states[k + 1])
  }

  lemma IdleInv(depth: nat, s: Core)
    requires Idle(depth, s)
    ensures Inv(depth, s) && Valid(depth, s.fifo.ring) && Waiting(depth, s) == []
  {
    ClearedValid(depth, s.fifo.ring);
  }

  lemma {:induction false} RunInv(depth: nat, t0: nat, states: seq<Core>, drives: seq<Drive>, n: nat)
    requires IsRun(depth, t0, states, drives) && n < |states|
    ensures Inv(depth, states[n]) && Valid(depth, states[n].fifo.ring)
  {
    hide Inv, Idle, Next, Valid;
    if n == 0 {
      IdleInv(depth, states[0]);
    } else {
      RunInv(depth, t0, states, drives, n - 1);
      assert IsStep(depth, states[n - 1], drives[n - 1], states[n]);
      InvStep(depth, states[n - 1], drives[n - 1]);
    }
  }

  ghost function FatesAt(depth: nat, s: Core, i: Drive): seq<Fate>
    requires Valid(depth, s.fifo.ring)
  {
    var w := Waiting(depth, s);
    if i.force then AllFlushed(w)
    else if Fires(s, i) then [Applied(s.scheduler.pending, i.now)]
    else []
  }

  ghost function Log(depth: nat, t0: nat, states: seq<Core>, drives: seq<Drive>, n: nat): seq<Fate>
    requires IsRun(depth, t0, states, drives) && n < |states|
  {
    if n == 0 then []
    else
      RunInv(depth, t0, states, drives, n - 1);
      Log(depth, t0, states, drives, n - 1) + FatesAt(depth, states[n - 1], drives[n - 1])
  }

  ghost function Accepted(depth: nat, t0: nat, states: seq<Core>, drives: seq<Drive>, n: nat): seq<Event>
    requires IsRun(depth, t0, states, drives) && n < |states|
  {
    if n == 0 then []
    else
      RunInv(depth, t0, states, drives, n - 1);
      Accepted(depth, t0, states, drives, n - 1) + AcceptedAt(depth, states[n - 1], drives[n - 1])
  }

  lemma NoneAccepted(depth: nat, s: Core, i: Drive)
    requires Valid(depth, s.fifo.ring) && i.force
    ensures AcceptedAt(depth, s, i) == []
  {
  }

  lemma FatesBalance(depth: nat, s: Core, i: Drive)
    requires Inv(depth, s) && Enabled(s, i)
    ensures Inv(depth, Next(depth, s, i)) && Valid(depth, Next(depth, s, i).fifo.ring)
    ensures Waiting(depth, s) + AcceptedAt(depth, s, i) == Events(FatesAt(depth, s, i)) +
            Waiting(depth, Next(depth, s, i))
    ensures NeverEarly(FatesAt(depth, s, i))
  {
    hide Next, Waiting, AcceptedAt, Sorted, Contents, Stored;
    WaitingStep(depth, s, i);
    hide Inv, Valid;
    var w, more := Waiting(depth, s), AcceptedAt(depth, s, i);
    if i.force {
      NoneAccepted(depth, s, i);
      assert Events(FatesAt(depth, s, i)) == w;
      assert w + [] == w && w == w + [];
    } else if Fires(s, i) {
      assert Events(FatesAt(depth, s, i)) == [w[0]];
      assert w == [w[0]] + w[1..];
      assert w + more == [w[0]] + (w[1..] + more);
    } else {
      assert Events(FatesAt(depth, s, i)) == [];
      assert [] + (w + more) == w + more;
    }
  }

  /** Exactly once, in order, never early: at every point of every run the
      accepted events are, in acceptance order, those applied or flushed so far
      followed by those waiting, and every applied one was applied at or after
      its timestamp. */
  lemma {:induction false} Conserved(depth: nat, t0: nat, states: seq<Core>, drives: seq<Drive>, n: nat)
    requires IsRun(depth, t0, states, drives) && n < |states|
    ensures Inv(depth, states[n]) && Valid(depth, states[n].fifo.ring)
    ensures Accepted(depth, t0, states, drives, n) == Events(Log(depth, t0, states, drives, n)) +
            Waiting(depth, states[n])
    ensures NeverEarly(Log(depth, t0, states, drives, n))
  {
    hide Inv, Idle, Next, Waiting, Events, FatesAt, AcceptedAt, Valid;
    RunInv(depth, t0, states, drives, n);
    if n == 0 {
      IdleInv(depth, states[0]);
      assert Events([]) == [];
    } else {
      RunInv(depth, t0, states, drives, n - 1);
      assert IsStep(depth, states[n - 1], drives[n - 1], states[n]);
      Conserved(depth, t0, states, drives, n - 1);
      FatesBalance(depth, states[n - 1], drives[n - 1]);
      Regroup(Accepted(depth, t0, states, drives, n - 1), AcceptedAt(depth, states[n - 1], drives[n - 1]),
              Log(depth, t0, states, drives, n - 1), FatesAt(depth, states[n - 1], drives[n - 1]),
              Waiting(depth, states[n - 1]), Waiting(depth, states[n]));
    }
  }

  /** Clock `j` applied `e` to the outputs. */
  ghost predicate AppliedBy(t0: nat, states: seq<Core>, j: nat, e: Event)
    requires j + 1 < |states|
  {
    var before, after := states[j].scheduler, states[j + 1].scheduler;
    t0 + j >= e.timestamp && after.done && !after.armed && Acts(before.dio, Write(e.mask, e.value), after.dio)
  }

  /** Deadline: if `due` is not before the timestamps of the first `i + 1`
      waiting events, the last of them is applied, unless flushed, no later than
      max(due, now) plus three clocks per event ahead and the clocks the first
      one still needs to reach the scheduler. */
  lemma {:induction false} AppliedInTime(depth: nat, t0: nat, states: seq<Core>, drives: seq<Drive>, n: nat, i: nat,
                                         due: nat)
    returns (j: nat)
    requires IsRun(depth, t0, states, drives) && n < |states| && Inv(depth, states[n]) &&
            Valid(depth, states[n].fifo.ring)
    requires i < |Waiting(depth, states[n])| && forall k :: 0 <= k <= i ==>
            Waiting(depth, states[n])[k].timestamp <= due
    requires var bound := Max(due, t0 + n) + 3 * i + Stage(states[n]);
             bound < t0 + |drives| && forall k :: n <= k <= bound - t0 ==> !drives[k].force
    ensures n <= j < |drives| && t0 + j <= Max(due, t0 + n) + 3 * i + Stage(states[n])
    ensures AppliedBy(t0, states, j, Waiting(depth, states[n])[i])
    decreases 3 * i + Stage(states[n]), Max(due, t0 + n) - (t0 + n)
  {
    hide Inv, Next, Waiting, AcceptedAt, AppliedBy, Stage, Valid, Fires;
    var s, d := states[n], drives[n];
    assert IsStep(depth, s, d, states[n + 1]);
    WaitingStep(depth, s, d);
    StageStep(depth, s, d);
    var w, after := Waiting(depth, s), Waiting(depth, states[n + 1]);
    if Fires(s, d) && i == 0 {
      Applies(t0, depth, states, drives, n);
      j := n;
    } else if Fires(s, d) {
      FiresAt(s, d);
      assert forall k :: 0 <= k < i ==> after[k] == w[k + 1];
      j := AppliedInTime(depth, t0, states, drives, n + 1, i - 1, due);
    } else {
      assert forall k :: 0 <= k <= i ==> after[k] == w[k];
      if Stage(s) == 0 {
        Holding(depth, s, d);
      }
      j := AppliedInTime(depth, t0, states, drives, n + 1, i, due);
    }
  }

  lemma FiresAt(s: Core, i: Drive)
    requires Fires(s, i)
    ensures Stage(s) == 0
  {
  }

  /** A scheduler that does not fire is waiting for its timestamp. */
  lemma Holding(depth: nat, s: Core, i: Drive)
    requires Inv(depth, s) && !i.force && !Fires(s, i) && Stage(s) == 0
    ensures Waiting(depth, s)[0].timestamp > i.now
  {
  }

  lemma Applies(t0: nat, depth: nat, states: seq<Core>, drives: seq<Drive>, n: nat)
    requires IsRun(depth, t0, states, drives) && n < |drives| && Inv(depth, states[n]) && Fires(states[n], drives[n])
    ensures Waiting(depth, states[n]) != [] && AppliedBy(t0, states, n, Waiting(depth, states[n])[0])
  {
    assert IsStep(depth, states[n], drives[n], states[n + 1]);
  }

  // ---- outputs and latches over a run ----

  /** What a clock does to the outputs: with force-safe on or HIL off they go to
      zero, the safe value wired into the core; otherwise an applied event writes
      its masked bits. */
  function ActionAt(s: Core, i: Drive): Action {
    if i.force || !i.enable then Force(0)
    else if Fires(s, i) then Write(s.scheduler.pending.mask, s.scheduler.pending.value)
    else Hold
  }

  function Actions(states: seq<Core>, drives: seq<Drive>): (r: seq<Action>)
    requires |states| >= |drives|
    ensures |r| == |drives|
  {
    seq(|drives|, k requires 0 <= k < |drives| => ActionAt(states[k], drives[k]))
  }

  function Outputs(states: seq<Core>): (r: seq<u32>)
    ensures |r| == |states|
  {
    seq(|states|, k requires 0 <= k < |states| => states[k].scheduler.dio)
  }

  /** Any run, with HIL enabled or not. */
  ghost predicate IsWalk(depth: nat, states: seq<Core>, drives: seq<Drive>) {
    |states| == |drives| + 1 && forall k :: 0 <= k < |drives| ==> IsStep(depth, states[k], drives[k], states[k + 1])
  }

  lemma OutputStep(depth: nat, s: Core, i: Drive)
    requires Sane(depth, s.fifo.ring)
    ensures Acts(s.scheduler.dio, ActionAt(s, i), Next(depth, s, i).scheduler.dio)
  {
    hide Masked, FifoNext, DispatchNext, Acts, Head;
    HoldActs(s.scheduler.dio);
    ForceActs(s.scheduler.dio, 0);
    MaskedActs(s.scheduler.dio, s.scheduler.pending.mask, s.scheduler.pending.value);
  }

  /** Every output bit, at every state of every run: the bit of the last event
      applied with that bit in its mask, or zero if a clock with force-safe on or
      HIL off came after; with neither it is what it was at the start. */
  lemma OutputBit(depth: nat, states: seq<Core>, drives: seq<Drive>, n: nat, k: nat) returns (j: int)
    requires IsWalk(depth, states, drives) && n < |states| && k < 32
    ensures -1 <= j < n && forall i :: j < i < n ==> !Decides(ActionAt(states[i], drives[i]), k)
    ensures j >= 0 ==>
              var a := ActionAt(states[j], drives[j]);
              Decides(a, k) && (Bit(states[n].scheduler.dio, k) <==> Given(a, k))
    ensures j < 0 ==> (Bit(states[n].scheduler.dio, k) <==> Bit(states[0].scheduler.dio, k))
  {
    hide Next, Acts, ActionAt, Decides, Given;
    var outs, actions := Outputs(states), Actions(states, drives);
    forall m | 0 <= m < |actions| ensures Acts(outs[m], actions[m], outs[m + 1]) {
      assert IsStep(depth, states[m], drives[m], states[m + 1]);
      OutputStep(depth, states[m], drives[m]);
    }
    j := LastDecides(outs, actions, n, k);
    assert forall i :: j < i < n ==> actions[i] == ActionAt(states[i], drives[i]);
  }

  /** An event refused because the FIFO was full, or because it was older than the
      newest one stored. */
  ghost predicate Refuses(depth: nat, s: Core, i: Drive, full: bool)
    requires Valid(depth, s.fifo.ring)
  {
    var c := Stored(depth, s);
    && i.push && !i.force
    && if full then |c| == depth else c != [] && |c| < depth && i.event.timestamp < c[|c| - 1].timestamp
  }

  function Flags(states: seq<Core>, full: bool): seq<bool> {
    seq(|states|, k requires 0 <= k < |states| => if full then states[k].fifo.overflow else states[k].fifo.orderError)
  }

  function Forces(drives: seq<Drive>): seq<bool> {
    seq(|drives|, k requires 0 <= k < |drives| => drives[k].force)
  }

  ghost function Refusals(depth: nat, states: seq<Core>, drives: seq<Drive>, full: bool): seq<bool>
    requires |states| > |drives| && forall k :: 0 <= k < |drives| ==> Valid(depth, states[k].fifo.ring)
  {
    seq(|drives|, k requires 0 <= k < |drives| => Refuses(depth, states[k], drives[k], full))
  }

  lemma FlagStep(depth: nat, s: Core, i: Drive)
    requires Valid(depth, s.fifo.ring)
    ensures var f, n := s.fifo, Next(depth, s, i).fifo;
            && n.overflow == (Refuses(depth, s, i, true) || (f.overflow && !i.force))
            && n.orderError == (Refuses(depth, s, i, false) || (f.orderError && !i.force))
  {
    hide RingNext, DispatchNext, Sorted;
  }

  /** Software force-safe, the external force-safe input and a cleared HIL enable each
      put all outputs to zero on the next clock and disarm the scheduler; the first
      two also empty the FIFO. */
  lemma AnySwitchMakesSafe(depth: nat, s: Core, c: Channel, external: bool, now: nat)
    requires Sane(depth, s.fifo.ring)
    ensures var n := Next(depth, s, Driven(c, external, now));
            && (c.config.forceSafe || external || !c.config.hilEnable ==>
                 n.scheduler.dio == 0 && !n.scheduler.armed && !n.scheduler.done)
            && (c.config.forceSafe || external ==> n.fifo.ring.p.count == 0 && !n.dispatch.arm && !n.dispatch.inflight)
  {
    hide Masked, RingNext, Head;
  }

  /** The FIFO stays ordered with HIL enabled or not. */
  lemma {:induction false} RingValid(depth: nat, states: seq<Core>, drives: seq<Drive>, n: nat)
    requires IsWalk(depth, states, drives) && n < |states| && Idle(depth, states[0])
    ensures Valid(depth, states[n].fifo.ring)
  {
    hide Valid, RingNext;
    if n == 0 {
      ClearedValid(depth, states[0].fifo.ring);
    } else {
      RingValid(depth, states, drives, n - 1);
      assert IsStep(depth, states[n - 1], drives[n - 1], states[n]);
      var s, i := states[n - 1], drives[n - 1];
      Refines(depth, s.fifo.ring, i.push, i.event, s.dispatch.pop);
      RingSized(depth, s.fifo.ring);
      ClearedValid(depth, s.fifo.ring);
    }
  }

  lemma RingSized(depth: nat, r: Ring)
    requires Valid(depth, r)
    ensures depth >= 1 && |r.mem| == depth
  {
  }

  /** The FIFO's latches are up exactly if such a refusal has happened since the
      last clock with force-safe on. */
  lemma LatchesTell(depth: nat, states: seq<Core>, drives: seq<Drive>, full: bool, n: nat)
    requires IsWalk(depth, states, drives) && n < |states| && Idle(depth, states[0])
    ensures forall k :: 0 <= k < |states| ==> Valid(depth, states[k].fifo.ring)
    ensures Flags(states, full)[n] <==>
            SetSince(Flags(states, full), Refusals(depth, states, drives, full), Forces(drives), n)
  {
    hide Next, Valid, Refuses, SetSince, Idle;
    forall k | 0 <= k < |states| ensures Valid(depth, states[k].fifo.ring) {
      RingValid(depth, states, drives, k);
    }
    forall m | 0 <= m < |drives|
      ensures Flags(states, full)[m + 1] ==
              (Refusals(depth, states, drives, full)[m] || (Flags(states, full)[m] && !Forces(drives)[m]))
    {
      assert IsStep(depth, states[m], drives[m], states[m + 1]);
      FlagStep(depth, states[m], drives[m]);
    }
    UpWhenSet(Flags(states, full), Refusals(depth, states, drives, full), Forces(drives), n);
  }

  // ---- time order ----

  /** The clock accepts nothing that is due before the armed event stays on with
      an empty FIFO behind it. */
  ghost predicate KeepsOrder(depth: nat, s: Core, i: Drive)
    requires Valid(depth, s.fifo.ring)
  {
    || i.force || AcceptedAt(depth, s, i) == [] || Stored(depth, s) != [] || !s.scheduler.armed || Fires(s, i)
    || i.event.timestamp >= s.scheduler.pending.timestamp
  }

  /** Joining at the end keeps a sequence sorted exactly when the newcomer is not
      due before the last. */
  lemma SortedJoin(c: seq<Event>, e: Event)
    requires Sorted(c)
    ensures Sorted(c + [e]) <==> c == [] || c[|c| - 1].timestamp <= e.timestamp
  {
    var j := c + [e];
    if c != [] {
      assert j[|c| - 1] == c[|c| - 1] && j[|c|] == e;
      if c[|c| - 1].timestamp <= e.timestamp {
        forall k | 0 <= k < |c| ensures c[k].timestamp <= e.timestamp {
          assert c[k].timestamp <= c[|c| - 1].timestamp;
        }
      }
    }
  }

  lemma SortedRest(c: seq<Event>)
    requires Sorted(c) && c != []
    ensures Sorted(c[1..])
  {
  }

  /** The last of the events that go on waiting. */
  lemma LastWaiting(depth: nat, s: Core, i: Drive)
    requires Inv(depth, s) && !i.force
    ensures var c, w := Stored(depth, s), if Fires(s, i) then Waiting(depth, s)[1..] else Waiting(depth, s);
            && (c != [] ==> w != [] && w[|w| - 1] == c[|c| - 1])
            && (c == [] ==> w == if s.scheduler.armed && !Fires(s, i) then [s.scheduler.pending] else [])
  {
    hide Sorted, Contents;
  }

  lemma TakenInOrder(depth: nat, s: Core, i: Drive)
    requires Valid(depth, s.fifo.ring)
    ensures var c, more := Stored(depth, s), AcceptedAt(depth, s, i);
            && (more != [] ==> more == [i.event] && (c == [] || c[|c| - 1].timestamp <= i.event.timestamp))
  {
    hide Sorted, Contents;
  }

  /** The order check looks at the FIFO only. A clock keeps the waiting events in
      time order if and only if it does not accept an event due before an armed
      one that stays on with the FIFO empty. */
  lemma OrderDecides(depth: nat, s: Core, i: Drive)
    requires Inv(depth, s) && Enabled(s, i) && Sorted(Waiting(depth, s))
    ensures Valid(depth, Next(depth, s, i).fifo.ring)
    ensures Sorted(Waiting(depth, Next(depth, s, i))) <==> KeepsOrder(depth, s, i)
  {
    hide Next, Contents, Takes, Enabled, Fires, Waiting, AcceptedAt, Stored, Valid, Sorted;
    WaitingStep(depth, s, i);
    if i.force {
      NothingSorted();
    } else {
      LastWaiting(depth, s, i);
      TakenInOrder(depth, s, i);
      if Fires(s, i) {
        SortedRest(Waiting(depth, s));
      }
      var w, more := if Fires(s, i) then Waiting(depth, s)[1..] else Waiting(depth, s), AcceptedAt(depth, s, i);
      if more == [] {
        assert w + more == w;
      } else {
        SortedJoin(w, i.event);
      }
    }
  }

  lemma NothingSorted()
    ensures Sorted([])
  {
  }

  /** Over a run: the waiting events have been in time order at every state up to
      `n` if and only if every clock so far kept it. */
  lemma {:induction false} OrderedExactly(depth: nat, t0: nat, states: seq<Core>, drives: seq<Drive>, n: nat)
    requires IsRun(depth, t0, states, drives) && n < |states| && forall k :: 0 <= k < |states| ==>
            Valid(depth, states[k].fifo.ring)
    ensures (forall k :: 0 <= k <= n ==> Sorted(Waiting(depth, states[k]))) <==> forall k :: 0 <= k < n ==>
            KeepsOrder(depth, states[k], drives[k])
  {
    hide Inv, Idle, Next, Waiting, Valid, KeepsOrder, Sorted, Enabled;
    if n == 0 {
      IdleInv(depth, states[0]);
      NothingSorted();
    } else {
      OrderedExactly(depth, t0, states, drives, n - 1);
      RunInv(depth, t0, states, drives, n - 1);
      assert IsStep(depth, states[n - 1], drives[n - 1], states[n]);
      if Sorted(Waiting(depth, states[n - 1])) {
        OrderDecides(depth, states[n - 1], drives[n - 1]);
      }
    }
  }

  /** While the waiting events are in time order, each of them, unless flushed, is
      applied no later than max(its own timestamp, now) plus three clocks per
      event ahead and the clocks the first one still needs to reach the
      scheduler. */
  lemma OwnDeadline(depth: nat, t0: nat, states: seq<Core>, drives: seq<Drive>, n: nat, i: nat) returns (j: nat)
    requires IsRun(depth, t0, states, drives) && n < |states| && Inv(depth, states[n]) &&
            Valid(depth, states[n].fifo.ring)
    requires i < |Waiting(depth, states[n])| && Sorted(Waiting(depth, states[n]))
    requires var bound := Max(Waiting(depth, states[n])[i].timestamp, t0 + n) + 3 * i + Stage(states[n]);
             bound < t0 + |drives| && forall k :: n <= k <= bound - t0 ==> !drives[k].force
    ensures n <= j < |drives| && t0 + j <= Max(Waiting(depth, states[n])[i].timestamp, t0 + n) + 3 * i +
            Stage(states[n])
    ensures AppliedBy(t0, states, j, Waiting(depth, states[n])[i])
  {
    hide Inv, Next, Waiting, AppliedBy, Stage, Valid, IsRun;
    j := AppliedInTime(depth, t0, states, drives, n, i, Waiting(depth, states[n])[i].timestamp);
  }

  /** Events accepted in time order also wait in time order. */
  lemma OrderedAcceptance(depth: nat, t0: nat, states: seq<Core>, drives: seq<Drive>, n: nat)
    requires IsRun(depth, t0, states, drives) && n < |states| && Sorted(Accepted(depth, t0, states, drives, n))
    ensures Valid(depth, states[n].fifo.ring) && Sorted(Waiting(depth, states[n]))
  {
    hide IsRun, Inv, Accepted, Log, Waiting, Valid, Events, NeverEarly, Sorted;
    Conserved(depth, t0, states, drives, n);
    assert Accepted(depth, t0, states, drives, n) == Events(Log(depth, t0, states, drives, n)) +
        Waiting(depth, states[n]);
    SortedTail(Events(Log(depth, t0, states, drives, n)), Waiting(depth, states[n]));
  }

  lemma SortedTail(a: seq<Event>, b: seq<Event>)
    requires Sorted(a + b)
    ensures Sorted(b)
  {
    forall i, j | 0 <= i < j < |b| ensures b[i].timestamp <= b[j].timestamp {
      assert (a + b)[|a| + i] == b[i] && (a + b)[|a| + j] == b[j];
    }
  }

  /** What breaks it: once the FIFO has drained into the scheduler, an event due
      before the armed one is accepted and waits behind it. */
  lemma OrderCheckForgetsArmedEvent(depth: nat, s: Core, i: Drive)
    requires Inv(depth, s) && s.scheduler.armed && Stored(depth, s) == [] && depth >= 1
    requires i.push && !i.force && i.enable && i.event.timestamp < s.scheduler.pending.timestamp &&
            i.now < s.scheduler.pending.timestamp
    ensures Inv(depth, Next(depth, s, i)) && !KeepsOrder(depth, s, i)
    ensures Waiting(depth, Next(depth, s, i)) == [s.scheduler.pending, i.event]
  {
    WaitingStep(depth, s, i);
  }
}

module AxiEndToEnd {
  import opened Words
  import opened EventFates
  import opened EventRing
  import opened Sublists
  import opened AxiControlPlane
  import opened UioTransport
  import H = AxiHost
  import P = AxiPipeline

  /** The core is driven by the channel the host writes through. */
  ghost predicate Connected(t0: nat, fronts: seq<H.Front>, external: seq<bool>, drives: seq<P.Drive>) {
    && |fronts| == |drives| + 1 && |external| == |drives|
    && forall k :: 0 <= k < |drives| ==> drives[k] == P.Driven(fronts[k].channel, external[k], t0 + k)
  }

  lemma {:induction false} SubsequenceOfPrefix(a: seq<Event>, b: seq<Event>, c: seq<Event>)
    requires Subsequence(a, b) && b <= c
    ensures Subsequence(a, c)
    decreases |c|
  {
    if |b| < |c| {
      SubsequenceOfPrefix(a, b, c[..|c| - 1]);
    } else {
      assert b == c;
    }
  }

  lemma {:induction false} AcceptedFromPulses(depth: nat, t0: nat, fronts: seq<H.Front>, external: seq<bool>,
                                             states: seq<P.Core>, drives: seq<P.Drive>, n: nat)
    requires Connected(t0, fronts, external, drives) && P.IsRun(depth, t0, states, drives) && n < |states|
    ensures Subsequence(P.Accepted(depth, t0, states, drives, n), H.Pulses(fronts, n))
  {
    if n == 0 {
      NoneAccepted(depth, t0, states, drives);
    } else {
      AcceptedFromPulses(depth, t0, fronts, external, states, drives, n - 1);
      hide *;
      PulseStep(depth, t0, fronts, external, states, drives, n);
    }
  }

  lemma PulseStep(depth: nat, t0: nat, fronts: seq<H.Front>, external: seq<bool>,
                  states: seq<P.Core>, drives: seq<P.Drive>, n: nat)
    requires Connected(t0, fronts, external, drives) && P.IsRun(depth, t0, states, drives) && 0 < n < |states|
    requires Subsequence(P.Accepted(depth, t0, states, drives, n - 1), H.Pulses(fronts, n - 1))
    ensures Subsequence(P.Accepted(depth, t0, states, drives, n), H.Pulses(fronts, n))
  {
    hide P.IsStep, P.Idle, P.Accepted, P.AcceptedAt, Subsequence, P.Driven, Valid, P.Enabled;
    AcceptedStep(depth, t0, states, drives, n);
    OneAccepted(depth, states[n - 1], fronts[n - 1].channel, external[n - 1], t0 + (n - 1));
    JoinOne(P.Accepted(depth, t0, states, drives, n - 1), H.Pulses(fronts, n - 1),
            P.AcceptedAt(depth, states[n - 1], drives[n - 1]), H.PulseAt(fronts[n - 1]));
  }

  lemma AcceptedStep(depth: nat, t0: nat, states: seq<P.Core>, drives: seq<P.Drive>, n: nat)
    requires P.IsRun(depth, t0, states, drives) && 0 < n < |states|
    ensures Valid(depth, states[n - 1].fifo.ring)
    ensures P.Accepted(depth, t0, states, drives, n) ==
            P.Accepted(depth, t0, states, drives, n - 1) + P.AcceptedAt(depth, states[n - 1], drives[n - 1])
  {
    hide P.IsStep, P.Idle, P.AcceptedAt, P.Inv;
    P.RunInv(depth, t0, states, drives, n - 1);
  }

  lemma NoneAccepted(depth: nat, t0: nat, states: seq<P.Core>, drives: seq<P.Drive>)
    requires P.IsRun(depth, t0, states, drives)
    ensures P.Accepted(depth, t0, states, drives, 0) == [] && Subsequence<Event>([], [])
  {
  }

  lemma OneAccepted(depth: nat, s: P.Core, c: Channel, external: bool, now: nat)
    requires Valid(depth, s.fifo.ring)
    ensures var accepted := P.AcceptedAt(depth, s, P.Driven(c, external, now));
            accepted == [] || (c.push && accepted == [c.config.Staged()])
  {
  }

  lemma JoinOne(a: seq<Event>, b: seq<Event>, x: seq<Event>, y: seq<Event>)
    requires Subsequence(a, b) && |y| <= 1 && (x == [] || x == y)
    ensures Subsequence(a + x, b + y)
  {
    if y != [] {
      assert y == [y[0]];
      SubsequenceGrows(a, b, y[0]);
    }
    assert x == [] ==> a + x == a;
    assert y == [] ==> b + y == b;
  }

  /** For every sequence of calls, every AXI stall pattern and every external
      force-safe input, as long as HIL is not switched off under an armed event:
      the accepted events are scheduled events in call order, rebuilt exactly,
      and each was applied once, in that order and never early, or flushed by
      force-safe, or is still waiting. */
  lemma Delivery(depth: nat, t0: nat, calls: seq<Call>, fronts: seq<H.Front>, stalls: seq<H.Stall>, external: seq<bool>,
                 states: seq<P.Core>, drives: seq<P.Drive>, n: nat)
    requires H.IsRun(Program(calls), fronts, stalls) && Connected(t0, fronts, external, drives)
    requires P.IsRun(depth, t0, states, drives) && n < |states|
    ensures Subsequence(P.Accepted(depth, t0, states, drives, n), Deliveries(calls))
    ensures Valid(depth, states[n].fifo.ring)
    ensures P.Accepted(depth, t0, states, drives, n) ==
            Events(P.Log(depth, t0, states, drives, n)) + P.Waiting(depth, states[n])
    ensures NeverEarly(P.Log(depth, t0, states, drives, n))
  {
    hide H.IsRun, Deliveries, P.IsStep, P.Idle, P.Inv, P.Accepted, P.Log, Events, P.Waiting, H.Pulses, Program;
    AcceptedFromPulses(depth, t0, fronts, external, states, drives, n);
    H.EventsInCallOrder(calls, fronts, stalls, n);
    SubsequenceOfPrefix(P.Accepted(depth, t0, states, drives, n), H.Pulses(fronts, n), Deliveries(calls));
    P.Conserved(depth, t0, states, drives, n);
  }

  lemma {:induction false} SubsequenceSorted(a: seq<Event>, b: seq<Event>)
    requires Subsequence(a, b) && Sorted(b)
    ensures Sorted(a) && (a != [] ==> b != [] && a[|a| - 1].timestamp <= b[|b| - 1].timestamp)
    decreases |b|
  {
    if b == [] || a == [] {
    } else {
      var rest := b[..|b| - 1];
      assert Sorted(rest);
      if Subsequence(a, rest) {
        SubsequenceSorted(a, rest);
      } else {
        SubsequenceSorted(a[..|a| - 1], rest);
        P.SortedJoin(a[..|a| - 1], a[|a| - 1]);
        assert a[..|a| - 1] + [a[|a| - 1]] == a;
      }
    }
  }

  /** A host that schedules in time order never meets the forgetful order check:
      under the conditions of Delivery everything waits in time order. */
  lemma OrderedCalls(depth: nat, t0: nat, calls: seq<Call>, fronts: seq<H.Front>, stalls: seq<H.Stall>,
                     external: seq<bool>,
                     states: seq<P.Core>, drives: seq<P.Drive>, n: nat)
    requires H.IsRun(Program(calls), fronts, stalls) && Connected(t0, fronts, external, drives)
    requires P.IsRun(depth, t0, states, drives) && n < |states| && Sorted(Deliveries(calls))
    ensures Valid(depth, states[n].fifo.ring) && Sorted(P.Waiting(depth, states[n]))
  {
    hide H.IsRun, Deliveries, P.IsRun, P.Accepted, P.Log, Events, P.Waiting, Program, Subsequence, Sorted, Connected;
    Delivery(depth, t0, calls, fronts, stalls, external, states, drives, n);
    SubsequenceSorted(P.Accepted(depth, t0, states, drives, n), Deliveries(calls));
    P.OrderedAcceptance(depth, t0, states, drives, n);
  }
}
