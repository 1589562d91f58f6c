/** dio_scenario_engine.v: timestamped masked writes to the digital outputs,
    executed in order from the event queue. */
module ScenarioEngine {
  import opened Words
  import opened EventFates
  import opened EventRing
  import opened EventQueue
  import opened Latches
  import opened OutputBits

  datatype Regs = Regs(
    dio: u32, applied: bool, appliedId: u32, requested: nat, actual: nat, late: nat, lateLatched: bool)

  datatype Engine = Engine(queue: Queue, regs: Regs)

  datatype Stimulus = Stimulus(
    enqueue: bool, event: Event, clearQueue: bool, clearStatus: bool, safeValue: u32, forceSafe: bool)

  predicate Flushes(i: Stimulus) {
    i.clearQueue || i.forceSafe
  }

  predicate Due(depth: nat, s: Engine, i: Stimulus, now: nat)
    requires Sane(depth, s.queue.ring)
  {
    s.queue.ring.p.count != 0 && !Flushes(i) && now >= Head(depth, s.queue.ring).timestamp
  }

  function QueueIn(depth: nat, s: Engine, i: Stimulus, now: nat): Inputs
    requires Sane(depth, s.queue.ring)
  {
    Inputs(Flushes(i), i.clearStatus, i.enqueue, i.event, Due(depth, s, i, now))
  }

  /** One clock at time `now`. */
  function Next(depth: nat, s: Engine, i: Stimulus, now: nat): Engine
    requires Sane(depth, s.queue.ring)
  {
    var due, head := Due(depth, s, i, now), Head(depth, s.queue.ring);
    var r := s.regs;
    Engine(QueueNext(depth, s.queue, QueueIn(depth, s, i, now)), Regs(
      if i.forceSafe then i.safeValue else if due then Masked(r.dio, head.mask, head.value) else r.dio,
      due,
      if due then head.id else r.appliedId,
      if due then head.timestamp else r.requested,
      if due then now else r.actual,
      if due then now - head.timestamp else r.late,
      (due && now > head.timestamp) || (r.lateLatched && !i.clearStatus)))
  }

  class DioScenarioEngine {
    const depth: nat
    const queue: HilEventQueue
    var regs: Regs

    ghost predicate Wired()
      reads this, queue, queue.mem
    {
      queue.depth == depth && Sane(depth, queue.State().ring)
    }

    function State(): Engine
      reads this, queue, queue.mem
    {
      Engine(queue.State(), regs)
    }

    constructor (depth: nat)
      requires depth >= 1
      ensures this.depth == depth && Wired() && fresh(queue) && fresh(queue.mem) && Reset(depth, State())
      ensures regs == Regs(0, false, 0, 0, 0, 0, false) && !queue.overflow && !queue.orderError
    {
      this.depth := depth;
      var q := new HilEventQueue(depth);
      queue := q;
      regs := Regs(0, false, 0, 0, 0, 0, false);
    }

    method Clock(i: Stimulus, now: nat)
      requires Wired()
      modifies this, queue, queue.mem
      ensures Wired() && queue.mem == old(queue.mem) && State() == Next(depth, old(State()), i, now)
    {
      SaneStep(depth, queue.State().ring, i.enqueue, i.event, Due(depth, State(), i, now));
      var head := Head(depth, queue.State().ring);
      var eventDue := queue.p.count != 0 && !i.clearQueue && !i.forceSafe && now >= head.timestamp;
      var n := regs.(applied := false);
      if i.clearStatus {
        n := n.(lateLatched := false);
      }
      if i.forceSafe {
        n := n.(dio := i.safeValue);
      } else if eventDue {
        n := n.(dio := Masked(regs.dio, head.mask, head.value), applied := true, appliedId := head.id,
                requested := head.timestamp, actual := now, late := now - head.timestamp);
        if now > head.timestamp {
          n := n.(lateLatched := true);
        }
      }
      queue.Clock(Inputs(i.clearQueue || i.forceSafe, i.clearStatus, i.enqueue, i.event, eventDue));
      regs := n;
    }
  }

  // ---- whole runs ----

  predicate Reset(depth: nat, s: Engine) {
    depth >= 1 && |s.queue.ring.mem| == depth && s.queue.ring.p == Pointers(0, 0, 0, 0) && !s.regs.lateLatched
  }

  /** Clock `k` of the run happens at time `t0 + k`. */
  ghost predicate IsRun(depth: nat, t0: nat, states: seq<Engine>, inputs: seq<Stimulus>) {
    && |states| == |inputs| + 1 && Reset(depth, states[0])
    && forall k :: 0 <= k < |inputs| ==> IsStep(depth, t0 + k, states[k], inputs[k], states[k + 1])
  }

  ghost predicate IsStep(depth: nat, now: nat, s: Engine, i: Stimulus, n: Engine) {
    Sane(depth, s.queue.ring) && n == Next(depth, s, i, now)
  }

  lemma ResetEmpty(depth: nat, s: Engine)
    requires Reset(depth, s)
    ensures Valid(depth, s.queue.ring) && Queued(depth, s) == []
  {
    ClearedValid(depth, s.queue.ring);
  }

  lemma {:induction false} QueueOrdered(depth: nat, t0: nat, states: seq<Engine>, inputs: seq<Stimulus>, n: nat)
    requires IsRun(depth, t0, states, inputs) && n < |states|
    ensures Valid(depth, states[n].queue.ring)
  {
    hide Next, Valid, Reset;
    if n == 0 {
      ResetEmpty(depth, states[0]);
    } else {
      assert IsStep(depth, t0 + (n - 1), states[n - 1], inputs[n - 1], states[n]);
      QueueOrdered(depth, t0, states, inputs, n - 1);
      EngineStep(depth, states[n - 1], inputs[n - 1], t0 + n - 1);
    }
  }

  ghost function Queued(depth: nat, s: Engine): seq<Event>
    requires Valid(depth, s.queue.ring)
  {
    Contents(depth, s.queue.ring)
  }

  /** What one clock does to the queued events. */
  lemma EngineStep(depth: nat, s: Engine, i: Stimulus, now: nat)
    requires Valid(depth, s.queue.ring)
    ensures var n := Next(depth, s, i, now);
            && Valid(depth, n.queue.ring)
            && Queued(depth, n) == if Flushes(i) then []
               else AfterClock(depth, Queued(depth, s), i.enqueue, i.event, Due(depth, s, i, now))
    ensures Due(depth, s, i, now) <==> Queued(depth, s) != [] && !Flushes(i) && now >= Queued(depth, s)[0].timestamp
    ensures Queued(depth, s) != [] ==> Head(depth, s.queue.ring) == Queued(depth, s)[0]
  {
    Refines(depth, s.queue.ring, i.enqueue, i.event, Due(depth, s, i, now));
    ClearedValid(depth, s.queue.ring);
  }

  /** The fates decided by one clock, and the events it accepts. */
  ghost function FatesAt(depth: nat, s: Engine, i: Stimulus, now: nat): seq<Fate>
    requires Valid(depth, s.queue.ring)
  {
    if Flushes(i) then AllFlushed(Queued(depth, s))
    else if Due(depth, s, i, now) then [Applied(Queued(depth, s)[0], now)]
    else []
  }

  ghost function AcceptedAt(depth: nat, s: Engine, i: Stimulus): seq<Event>
    requires Valid(depth, s.queue.ring)
  {
    if !Flushes(i) && Takes(depth, Queued(depth, s), i.enqueue, i.event) then [i.event] else []
  }

  ghost function Log(depth: nat, t0: nat, states: seq<Engine>, inputs: seq<Stimulus>, n: nat): seq<Fate>
    requires IsRun(depth, t0, states, inputs) && n < |states|
  {
    if n == 0 then []
    else
      QueueOrdered(depth, t0, states, inputs, n - 1);
      Log(depth, t0, states, inputs, n - 1) + FatesAt(depth, states[n - 1], inputs[n - 1], t0 + n - 1)
  }

  ghost function Accepted(depth: nat, t0: nat, states: seq<Engine>, inputs: seq<Stimulus>, n: nat): seq<Event>
    requires IsRun(depth, t0, states, inputs) && n < |states|
  {
    if n == 0 then []
    else
      QueueOrdered(depth, t0, states, inputs, n - 1);
      Accepted(depth, t0, states, inputs, n - 1) + AcceptedAt(depth, states[n - 1], inputs[n - 1])
  }

  lemma FatesBalance(depth: nat, s: Engine, i: Stimulus, now: nat)
    requires Valid(depth, s.queue.ring)
    ensures Valid(depth, Next(depth, s, i, now).queue.ring)
    ensures Queued(depth, s) + AcceptedAt(depth, s, i) ==
            Events(FatesAt(depth, s, i, now)) + Queued(depth, Next(depth, s, i, now))
    ensures NeverEarly(FatesAt(depth, s, i, now))
  {
    hide Next, Queued, Takes, Contents, Sorted;
    EngineStep(depth, s, i, now);
    var c := Queued(depth, s);
    if Flushes(i) {
      assert Events(AllFlushed(c)) == c;
    } else if Due(depth, s, i, now) {
      assert c == [c[0]] + c[1..];
      assert Events([Applied(c[0], now)]) == [c[0]];
    } else {
      assert Events([]) == [];
    }
  }

  /** Conservation: at every point of every run, the events accepted so far
      are, in order of acceptance, the ones applied or flushed so far followed
      by the ones still queued, and none was applied before its timestamp. */
  lemma {:induction false} Conserved(depth: nat, t0: nat, states: seq<Engine>, inputs: seq<Stimulus>, n: nat)
    requires IsRun(depth, t0, states, inputs) && n < |states|
    ensures Valid(depth, states[n].queue.ring)
    ensures Accepted(depth, t0, states, inputs, n) == Events(Log(depth, t0, states, inputs, n)) +
            Queued(depth, states[n])
    ensures NeverEarly(Log(depth, t0, states, inputs, n))
  {
    hide Next, Valid, Reset, Queued, FatesAt, AcceptedAt, Events;
    QueueOrdered(depth, t0, states, inputs, n);
    if n == 0 {
      ResetEmpty(depth, states[0]);
      assert Events([]) == [];
    } else {
      assert IsStep(depth, t0 + (n - 1), states[n - 1], inputs[n - 1], states[n]);
      Conserved(depth, t0, states, inputs, n - 1);
      FatesBalance(depth, states[n - 1], inputs[n - 1], t0 + n - 1);
      var log, more := Log(depth, t0, states, inputs, n - 1), FatesAt(depth, states[n - 1], inputs[n - 1], t0 + n - 1);
      Regroup(Accepted(depth, t0, states, inputs, n - 1), AcceptedAt(depth, states[n - 1], inputs[n - 1]), log, more,
              Queued(depth, states[n - 1]), Queued(depth, states[n]));
    }
  }

  /** Clock `j` applied `e`: not before its timestamp, and the evidence
      registers hold exactly when. */
  ghost predicate AppliedBy(t0: nat, states: seq<Engine>, j: nat, e: Event)
    requires j + 1 < |states|
  {
    var r := states[j + 1].regs;
    && t0 + j >= e.timestamp
    && Acts(states[j].regs.dio, Write(e.mask, e.value), r.dio)
    && r.applied && r.appliedId == e.id && r.requested == e.timestamp && r.actual == t0 + j
    && r.late == t0 + j - e.timestamp && (t0 + j > e.timestamp ==> r.lateLatched)
  }

  lemma HeadFirst(depth: nat, s: Engine, i: nat)
    requires Valid(depth, s.queue.ring) && i < |Queued(depth, s)|
    ensures Queued(depth, s)[0].timestamp <= Queued(depth, s)[i].timestamp
  {
  }

  lemma Applies(depth: nat, t0: nat, states: seq<Engine>, inputs: seq<Stimulus>, n: nat)
    requires IsRun(depth, t0, states, inputs) && n < |inputs| && Valid(depth, states[n].queue.ring)
    requires Due(depth, states[n], inputs[n], t0 + n)
    ensures Queued(depth, states[n]) != [] && AppliedBy(t0, states, n, Queued(depth, states[n])[0])
  {
    assert IsStep(depth, t0 + n, states[n], inputs[n], states[n + 1]);
    EngineStep(depth, states[n], inputs[n], t0 + n);
    var e := Queued(depth, states[n])[0];
    MaskedActs(states[n].regs.dio, e.mask, e.value);
    hide Masked, Acts;
  }

  /** Deadline: an event with `i` events ahead of it at clock `n`, that is not
      flushed, is applied at or after its timestamp and no later than
      max(timestamp, time of clock n) + i. */
  lemma {:induction false} AppliedInTime(depth: nat, t0: nat, states: seq<Engine>, inputs: seq<Stimulus>, n: nat,
                                         i: nat)
    returns (j: nat)
    requires IsRun(depth, t0, states, inputs) && n < |states|
    requires Valid(depth, states[n].queue.ring) && i < |Queued(depth, states[n])|
    requires var bound := Max(Queued(depth, states[n])[i].timestamp, t0 + n) + i;
             bound < t0 + |inputs| && forall k :: n <= k <= bound - t0 ==> !Flushes(inputs[k])
    ensures n <= j < |inputs| && t0 + j <= Max(Queued(depth, states[n])[i].timestamp, t0 + n) + i
    ensures AppliedBy(t0, states, j, Queued(depth, states[n])[i])
    decreases i, Max(Queued(depth, states[n])[i].timestamp, t0 + n) + i - (t0 + n)
  {
    hide Next, Valid, Queued, Due;
    var c := Queued(depth, states[n]);
    assert IsStep(depth, t0 + n, states[n], inputs[n], states[n + 1]);
    EngineStep(depth, states[n], inputs[n], t0 + n);
    var after := Queued(depth, states[n + 1]);
    HeadFirst(depth, states[n], i);
    if Due(depth, states[n], inputs[n], t0 + n) {
      if i == 0 {
        Applies(depth, t0, states, inputs, n);
        j := n;
      } else {
        assert after[i - 1] == c[i];
        j := AppliedInTime(depth, t0, states, inputs, n + 1, i - 1);
      }
    } else {
      assert after[i] == c[i];
      j := AppliedInTime(depth, t0, states, inputs, n + 1, i);
    }
  }

  /** Events ahead of one accepted on this clock, once it is visible. */
  ghost function Ahead(depth: nat, s: Engine, i: Stimulus, now: nat): nat
    requires Valid(depth, s.queue.ring)
  {
    |Queued(depth, s)| - if Queued(depth, s) != [] && Due(depth, s, i, now) then 1 else 0
  }

  /** The event a clock accepts becomes visible at the end of the queue, so its
      deadline is max(timestamp, enqueue time + 1) plus the events ahead. */
  lemma EnqueuedInTime(depth: nat, t0: nat, states: seq<Engine>, inputs: seq<Stimulus>, n: nat) returns (i: nat, j: nat)
    requires IsRun(depth, t0, states, inputs) && n < |inputs|
    requires Valid(depth, states[n].queue.ring) && AcceptedAt(depth, states[n], inputs[n]) != []
    requires var bound := Max(inputs[n].event.timestamp, t0 + n + 1) + Ahead(depth, states[n], inputs[n], t0 + n);
             bound < t0 + |inputs| && forall k :: n < k <= bound - t0 ==> !Flushes(inputs[k])
    ensures i == Ahead(depth, states[n], inputs[n], t0 + n)
    ensures n < j < |inputs| && t0 + j <= Max(inputs[n].event.timestamp, t0 + n + 1) + i
    ensures AppliedBy(t0, states, j, inputs[n].event)
  {
    hide Next, Valid, Due;
    assert IsStep(depth, t0 + n, states[n], inputs[n], states[n + 1]);
    EngineStep(depth, states[n], inputs[n], t0 + n);
    i := |Queued(depth, states[n + 1])| - 1;
    j := AppliedInTime(depth, t0, states, inputs, n + 1, i);
  }

  // ---- outputs and evidence over a run ----

  /** The event a clock applies, if any. */
  ghost function AppliedAt(depth: nat, s: Engine, i: Stimulus, now: nat): Option<Event>
    requires Valid(depth, s.queue.ring)
  {
    var fates := FatesAt(depth, s, i, now);
    if fates != [] && fates[0].Applied? then Some(fates[0].event) else None
  }

  ghost function ActionAt(depth: nat, s: Engine, i: Stimulus, now: nat): Action
    requires Valid(depth, s.queue.ring)
  {
    if i.forceSafe then Force(i.safeValue)
    else match AppliedAt(depth, s, i, now)
         case Some(e) => Write(e.mask, e.value)
         case None => Hold
  }

  ghost function Actions(depth: nat, t0: nat, states: seq<Engine>, inputs: seq<Stimulus>, n: nat): (r: seq<Action>)
    requires IsRun(depth, t0, states, inputs) && n < |states|
    ensures |r| == n
  {
    if n == 0 then []
    else
      QueueOrdered(depth, t0, states, inputs, n - 1);
      Actions(depth, t0, states, inputs, n - 1) + [ActionAt(depth, states[n - 1], inputs[n - 1], t0 + n - 1)]
  }

  function Outputs(states: seq<Engine>): (r: seq<u32>)
    ensures |r| == |states|
  {
    seq(|states|, k requires 0 <= k < |states| => states[k].regs.dio)
  }

  lemma OutputStep(depth: nat, s: Engine, i: Stimulus, now: nat)
    requires Valid(depth, s.queue.ring)
    ensures Acts(s.regs.dio, ActionAt(depth, s, i, now), Next(depth, s, i, now).regs.dio)
  {
    hide Masked, Contents, QueueNext, Acts;
    EngineStep(depth, s, i, now);
    HoldActs(s.regs.dio);
    ForceActs(s.regs.dio, i.safeValue);
    if Due(depth, s, i, now) {
      var e := Queued(depth, s)[0];
      MaskedActs(s.regs.dio, e.mask, e.value);
    }
  }

  lemma {:induction false} OutputsFollow(depth: nat, t0: nat, states: seq<Engine>, inputs: seq<Stimulus>, n: nat)
    requires IsRun(depth, t0, states, inputs) && n < |states|
    ensures Follows(Outputs(states[..n + 1]), Actions(depth, t0, states, inputs, n))
  {
    hide Next, Valid, Reset, ActionAt, Acts;
    if n == 0 {
    } else {
      OutputsFollow(depth, t0, states, inputs, n - 1);
      QueueOrdered(depth, t0, states, inputs, n - 1);
      assert IsStep(depth, t0 + (n - 1), states[n - 1], inputs[n - 1], states[n]);
      OutputStep(depth, states[n - 1], inputs[n - 1], t0 + n - 1);
      FollowsOneMore(Outputs(states[..n]), Actions(depth, t0, states, inputs, n - 1),
                     ActionAt(depth, states[n - 1], inputs[n - 1], t0 + n - 1), states[n].regs.dio);
      assert Outputs(states[..n + 1]) == Outputs(states[..n]) + [states[n].regs.dio];
    }
  }

  /** Every output bit, at every state of every run: it is the bit of the last
      event applied with that bit in its mask, or the safe value's bit if a
      force-safe clock came after; with neither it is what it was at the start. */
  lemma OutputBit(depth: nat, t0: nat, states: seq<Engine>, inputs: seq<Stimulus>, n: nat, k: nat) returns (j: int)
    requires IsRun(depth, t0, states, inputs) && n < |states| && k < 32
    ensures -1 <= j < n
    ensures forall i :: j < i < n ==> !Decides(Actions(depth, t0, states, inputs, n)[i], k)
    ensures j >= 0 ==>
              var a := Actions(depth, t0, states, inputs, n)[j];
              Decides(a, k) && (Bit(states[n].regs.dio, k) <==> Given(a, k))
    ensures j < 0 ==> (Bit(states[n].regs.dio, k) <==> Bit(states[0].regs.dio, k))
  {
    hide IsRun, Actions, Follows, Acts, Decides, Given;
    OutputsFollow(depth, t0, states, inputs, n);
    j := LastDecides(Outputs(states[..n + 1]), Actions(depth, t0, states, inputs, n), n, k);
  }

  /** The evidence registers belong to the last event applied, and the pulse is up
      exactly after the clock that applied it. */
  lemma {:induction false} EvidenceOfLast(depth: nat, t0: nat, states: seq<Engine>, inputs: seq<Stimulus>, n: nat)
    returns (j: int)
    requires IsRun(depth, t0, states, inputs) && n < |states|
    ensures forall i :: 0 <= i < |states| ==> Valid(depth, states[i].queue.ring)
    ensures -1 <= j < n && forall i :: j < i < n ==> AppliedAt(depth, states[i], inputs[i], t0 + i) == None
    ensures j >= 0 ==>
              var e, r := AppliedAt(depth, states[j], inputs[j], t0 + j), states[n].regs;
              && e.Some? && r.appliedId == e.value.id && r.requested == e.value.timestamp
              && r.actual == t0 + j && r.late == t0 + j - e.value.timestamp
    ensures n > 0 ==> (states[n].regs.applied <==> j == n - 1)
  {
    hide Valid, Reset, Next, AppliedAt;
    forall i | 0 <= i < |states| ensures Valid(depth, states[i].queue.ring) {
      QueueOrdered(depth, t0, states, inputs, i);
    }
    if n == 0 {
      j := -1;
    } else {
      assert IsStep(depth, t0 + (n - 1), states[n - 1], inputs[n - 1], states[n]);
      EvidenceStep(depth, states[n - 1], inputs[n - 1], t0 + n - 1);
      if AppliedAt(depth, states[n - 1], inputs[n - 1], t0 + n - 1) == None {
        j := EvidenceOfLast(depth, t0, states, inputs, n - 1);
      } else {
        j := n - 1;
      }
    }
  }

  lemma EvidenceStep(depth: nat, s: Engine, i: Stimulus, now: nat)
    requires Valid(depth, s.queue.ring)
    ensures var e, r, n := AppliedAt(depth, s, i, now), s.regs, Next(depth, s, i, now).regs;
            && n.applied == e.Some?
            && (e.None? ==>
                 n.appliedId == r.appliedId && n.requested == r.requested && n.actual == r.actual && n.late == r.late)
            && (e.Some? ==> n.appliedId == e.value.id && n.requested == e.value.timestamp && n.actual == now
                            && now >= e.value.timestamp && n.late == now - e.value.timestamp)
            && n.lateLatched == ((e.Some? && now > e.value.timestamp) || (r.lateLatched && !i.clearStatus))
  {
    hide Masked, QueueNext;
    EngineStep(depth, s, i, now);
    hide Contents, Valid;
  }

  // ---- the latches ----

  datatype Flag = Late | Full | Disordered

  predicate Up(s: Engine, f: Flag) {
    match f case Late => s.regs.lateLatched case Full => s.queue.overflow case Disordered => s.queue.orderError
  }

  /** What a flag records: an event applied late, refused because the queue was
      full, or because it was older than the newest one queued. */
  ghost predicate Happens(depth: nat, s: Engine, i: Stimulus, now: nat, f: Flag)
    requires Valid(depth, s.queue.ring)
  {
    var c, e := Queued(depth, s), AppliedAt(depth, s, i, now);
    match f
    case Late => e.Some? && now > e.value.timestamp
    case Full => i.enqueue && !Flushes(i) && |c| == depth
    case Disordered => i.enqueue && !Flushes(i) && c != [] && |c| < depth && i.event.timestamp < c[|c| - 1].timestamp
  }

  function Flags(states: seq<Engine>, f: Flag): seq<bool> {
    seq(|states|, k requires 0 <= k < |states| => Up(states[k], f))
  }

  function Clears(inputs: seq<Stimulus>): seq<bool> {
    seq(|inputs|, k requires 0 <= k < |inputs| => inputs[k].clearStatus)
  }

  ghost function Sets(depth: nat, t0: nat, states: seq<Engine>, inputs: seq<Stimulus>, f: Flag, n: nat): (r: seq<bool>)
    requires IsRun(depth, t0, states, inputs) && n < |states|
    ensures |r| == n
  {
    if n == 0 then []
    else
      QueueOrdered(depth, t0, states, inputs, n - 1);
      Sets(depth, t0, states, inputs, f, n - 1) + [Happens(depth, states[n - 1], inputs[n - 1], t0 + n - 1, f)]
  }

  lemma FlagStep(depth: nat, s: Engine, i: Stimulus, now: nat, f: Flag)
    requires Valid(depth, s.queue.ring)
    ensures Up(Next(depth, s, i, now), f) <==> Happens(depth, s, i, now, f) || (Up(s, f) && !i.clearStatus)
  {
    hide Masked, AppliedAt, RingNext, Sorted;
    EvidenceStep(depth, s, i, now);
  }

  lemma {:induction false} FlagsLatch(depth: nat, t0: nat, states: seq<Engine>, inputs: seq<Stimulus>, f: Flag, n: nat)
    requires IsRun(depth, t0, states, inputs) && n < |states|
    ensures Latched(Flags(states[..n + 1], f), Sets(depth, t0, states, inputs, f, n), Clears(inputs[..n]))
  {
    hide Next, Valid, Reset, Happens, Up;
    if n == 0 {
    } else {
      FlagsLatch(depth, t0, states, inputs, f, n - 1);
      QueueOrdered(depth, t0, states, inputs, n - 1);
      assert IsStep(depth, t0 + (n - 1), states[n - 1], inputs[n - 1], states[n]);
      FlagStep(depth, states[n - 1], inputs[n - 1], t0 + n - 1, f);
      LatchedOneMore(Flags(states[..n], f), Sets(depth, t0, states, inputs, f, n - 1), Clears(inputs[..n - 1]),
                     Happens(depth, states[n - 1], inputs[n - 1], t0 + n - 1, f), inputs[n - 1].clearStatus,
                         Up(states[n], f));
      assert Flags(states[..n + 1], f) == Flags(states[..n], f) + [Up(states[n], f)];
      assert Clears(inputs[..n]) == Clears(inputs[..n - 1]) + [inputs[n - 1].clearStatus];
    }
  }

  /** Each latch is up exactly if what it records has happened since the status was
      last cleared. */
  lemma LatchesTell(depth: nat, t0: nat, states: seq<Engine>, inputs: seq<Stimulus>, f: Flag, n: nat)
    requires IsRun(depth, t0, states, inputs) && n < |states|
    ensures Up(states[n], f) <==>
            SetSince(Flags(states[..n + 1], f), Sets(depth, t0, states, inputs, f, n), Clears(inputs[..n]), n)
  {
    hide Reset, IsStep, Sets, Latched, SetSince, Up;
    FlagsLatch(depth, t0, states, inputs, f, n);
    UpWhenSet(Flags(states[..n + 1], f), Sets(depth, t0, states, inputs, f, n), Clears(inputs[..n]), n);
  }
}
