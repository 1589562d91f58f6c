/** What holds of the stimulus scheduler over whole runs. */
module StimulusRuns {
  import opened Words
  import opened Stimulus

  /** The state after the first `n` passes of the main loop. */
  function StateAfter(k: Ticks, s: State, polls: seq<Poll>, n: nat): State
    requires n <= |polls|
  {
    if n == 0 then s else Step(k, StateAfter(k, s, polls, n - 1), polls[n - 1]).0
  }

  // ---- outputs and modes ----

  predicate PinsFollow(s: State) {
    if !s.running then s.pins == LOW
    else if s.active == Abz then s.pins == PhasePins(s.phase, IndexActive(s.indexPeriod, s.indexWidth, s.indexPhase))
    else s.pins == HallPins(s.hallStep)
  }

  predicate Bounded(s: State) {
    && GoodTicks(s.abz.ticks) && GoodTicks(s.hall.ticks) && s.abz.direction <= 1 && s.hall.direction <= 1
    && s.phase < 4 && s.initialPhase < 4 && s.hallStep < 6 && s.hallInitial < 6
    && (if s.indexPeriod == 0 then s.indexWidth == 0 && s.indexPhase == 0
        else s.indexWidth <= s.indexPeriod && s.indexPhase < s.indexPeriod)
    && (s.update.setsTicks ==> GoodTicks(s.update.ticks)) && (s.update.setsDirection ==> s.update.direction <= 1)
  }

  /** At most one of running, armed and start pending; outputs low unless
      running and otherwise a function of the mode's own state; every stored
      period within bounds. */
  predicate Shape(s: State) {
    && !(s.running && s.armed) && (s.startPending != NoMode ==> !s.running && !s.armed)
    && (s.running <==> s.active != NoMode)
    && Bounded(s) && PinsFollow(s)
  }

  lemma HandleShape(k: Ticks, s: State, now: int, r: Request)
    requires Shape(s) && s.startPending == NoMode
    ensures Shape(Handle(k, s, now, r).state)
  {
    hide Future, Named, HallPins, PhasePins;
  }

  lemma AfterReplyShape(k: Ticks, s: State, now: int)
    requires Shape(s)
    ensures Shape(AfterReply(k, s, now)) && AfterReply(k, s, now).startPending == NoMode
  {
    hide HallPins, PhasePins;
  }

  lemma {:induction false} ServeShape(k: Ticks, s: State, rs: seq<Received>)
    requires Shape(s) && s.startPending == NoMode
    ensures Shape(Serve(k, s, rs).0) && Serve(k, s, rs).0.startPending == NoMode
  {
    hide Handle, AfterReply, Shape;
    if rs == [] {
    } else {
      ServeShape(k, s, rs[..|rs| - 1]);
      var before, r := Serve(k, s, rs[..|rs| - 1]).0, rs[|rs| - 1];
      HandleShape(k, before, Tick(k, r.at), r.request);
      AfterReplyShape(k, Handle(k, before, Tick(k, r.at), r.request).state, Tick(k, r.sentAt));
    }
  }

  lemma TimedShape(k: Ticks, s: State, now: int)
    requires Shape(s) && s.startPending == NoMode
    ensures s.armed ==> Shape(ArmedStart(k, s, now))
    ensures s.running && s.active == Abz ==> Shape(AbzTransition(k, s, now)) && Shape(ApplyUpdate(k, s, now))
    ensures s.running && s.active == Hall ==> Shape(HallTransition(k, s, now))
  {
    hide HallPins, PhasePins;
  }

  lemma StepShape(k: Ticks, s: State, p: Poll)
    requires Shape(s) && s.startPending == NoMode
    ensures Shape(Step(k, s, p).0) && Step(k, s, p).0.startPending == NoMode
  {
    hide Shape, Serve;
    TimedShape(k, s, Tick(k, p.now));
    ServeShape(k, s, p.requests);
    Modes(s);
  }

  lemma Modes(s: State)
    requires Shape(s)
    ensures s.running ==> s.active == Abz || s.active == Hall
  {
  }

  /** Every state the firmware can reach, whatever commands arrive and however
      the polls are timed. */
  lemma {:induction false} ReachableShape(k: Ticks, polls: seq<Poll>, n: nat)
    requires n <= |polls|
    ensures Shape(StateAfter(k, RESET, polls, n)) && StateAfter(k, RESET, polls, n).startPending == NoMode
  {
    hide Step;
    if n == 0 {
    } else {
      ReachableShape(k, polls, n - 1);
      StepShape(k, StateAfter(k, RESET, polls, n - 1), polls[n - 1]);
    }
  }

  function Flips(a: Pins, b: Pins): nat {
    (if a.b0 != b.b0 then 1 else 0) + (if a.b1 != b.b1 then 1 else 0) + (if a.b2 != b.b2 then 1 else 0)
  }

  lemma PhaseFlip(phase: nat, y: bool, z: bool)
    requires phase < 4
    ensures var a, b, c := PhasePins(phase, y), PhasePins((phase + 1) % 4, z), PhasePins((phase + 3) % 4, z);
            (a.b0 != b.b0) != (a.b1 != b.b1) && (a.b0 != c.b0) != (a.b1 != c.b1)
    ensures ((phase + 1) % 4 + 3) % 4 == phase && ((phase + 3) % 4 + 1) % 4 == phase
  {
    assert phase == 0 || phase == 1 || phase == 2 || phase == 3;
  }

  lemma HallFlip(step: nat)
    requires step < 6
    ensures Flips(HallPins((step + 1) % 6), HallPins(step)) == 1 && Flips(HallPins((step + 5) % 6), HallPins(step)) == 1
    ensures HallPins(step) != LOW && HallPins(step) != Pins(true, true, true)
    ensures ((step + 1) % 6 + 5) % 6 == step && ((step + 5) % 6 + 1) % 6 == step
  {
    assert step == 0 || step == 1 || step == 2 || step == 3 || step == 4 || step == 5;
  }

  /** A transition flips exactly one of A and B and Z follows the index phase; a
      Hall transition flips exactly one of three lines and the code is never 000
      or 111; a transition the other way undoes either. */
  lemma OneLineFlips(k: Ticks, s: State, now: int)
    requires Shape(s) && s.running
    ensures s.active == Abz ==>
              var n := AbzTransition(k, s, now);
              && (n.pins.b0 != s.pins.b0) != (n.pins.b1 != s.pins.b1)
              && (n.pins.b2 <==> IndexActive(s.indexPeriod, s.indexWidth, n.indexPhase))
              && AbzTransition(k, n.(abz := n.abz.(direction := 1 - s.abz.direction)), now).phase == s.phase
    ensures s.active == Hall ==>
              var n := HallTransition(k, s, now);
              && Flips(n.pins, s.pins) == 1 && n.pins != LOW && n.pins != Pins(true, true, true)
              && HallTransition(k, n.(hall := n.hall.(direction := 1 - s.hall.direction)), now).hallStep == s.hallStep
  {
    if s.active == Abz {
      PhaseFlip(s.phase, IndexActive(s.indexPeriod, s.indexWidth, s.indexPhase),
                IndexActive(s.indexPeriod, s.indexWidth, AbzTransition(k, s, now).indexPhase));
      AbzWayBack(k, s, now);
    } else {
      HallFlip(s.hallStep);
      HallFlip(HallTransition(k, s, now).hallStep);
      HallWayBack(k, s, now);
    }
  }

  lemma AbzWayBack(k: Ticks, s: State, now: int)
    requires Shape(s) && s.active == Abz
    ensures var n := AbzTransition(k, s, now);
            AbzTransition(k, n.(abz := n.abz.(direction := 1 - s.abz.direction)), now).phase == s.phase
  {
    hide PinsFollow, PhasePins, NextIndex;
    PhaseFlip(s.phase, false, false);
  }

  lemma HallWayBack(k: Ticks, s: State, now: int)
    requires Shape(s) && s.active == Hall
    ensures var n := HallTransition(k, s, now);
            HallTransition(k, n.(hall := n.hall.(direction := 1 - s.hall.direction)), now).hallStep == s.hallStep
  {
    hide PinsFollow, HallPins;
    HallFlip(s.hallStep);
  }

  // ---- wrapping ticks refine unbounded time ----

  /** The 32-bit image of an unbounded state. */
  function Narrow(s: State): State {
    s.(armedAt := Wrap(s.armedAt), lastApply := Wrap(s.lastApply),
       abz := s.abz.(next := Wrap(s.abz.next)), hall := s.hall.(next := Wrap(s.hall.next)),
       update := s.update.(at := Wrap(s.update.at)))
  }

  const GAP: int := 0x4000_0000

  /** `p` is when the last pass began, `t` the latest time looked at since. */
  predicate Timed(s: State, p: int, t: int) {
    && p <= t
    && (s.armed ==> p < s.armedAt < t + HALF)
    && (s.updatePending ==> s.update.at < t + HALF)
    && (s.running && s.active == Abz ==> p < s.abz.next < t + HALF)
    && (s.running && s.active == Hall ==> p < s.hall.next < t + HALF)
  }

  /** The one comparison 32 bits can get wrong: an ABZ output meets an update
      that has been due for half the tick range or longer, and the wrapped age is
      taken either for a deadline still to come or for less than a period. */
  predicate Misjudged(s: State, now: int) {
    && s.running && s.active == Abz && s.updatePending && now - s.update.at >= HALF
    && (Wrap(now - s.update.at) >= HALF || Wrap(now - s.update.at) < UpdatedTicks(s))
  }

  function UpdatedTicks(s: State): u32 {
    if s.update.setsTicks then s.update.ticks else s.abz.ticks
  }

  lemma DueAgrees(now: int, deadline: int)
    requires -HALF <= now - deadline < HALF
    ensures Due(Wrapping, Wrap(now), Wrap(deadline)) <==> Due(Unbounded, now, deadline)
    ensures Due(Unbounded, now, deadline) ==>
            Lateness(Wrapping, Wrap(now), Wrap(deadline)) == Lateness(Unbounded, now, deadline)
  {
    WrapMinus(now, deadline);
  }

  lemma WrapMinus(a: int, b: int)
    ensures Minus(Wrap(a), Wrap(b)) == Wrap(a - b)
  {
    assert (Wrap(a) - Wrap(b) - (a - b)) % M32 == 0;
  }

  lemma FutureAgrees(now: int, deadline: int)
    requires -HALF <= deadline - now < M32
    ensures Future(Wrapping, Wrap(now), Wrap(deadline)) <==> Future(Unbounded, now, deadline)
  {
    WrapMinus(deadline, now);
  }

  lemma WrapIs(x: int, q: int, r: int)
    requires x == M32 * q + r && 0 <= r < M32
    ensures Wrap(x) == r
  {
  }

  lemma NamedAgrees(now: int, arg: u32)
    ensures Wrap(Named(Unbounded, now, arg)) == Named(Wrapping, Wrap(now), arg)
    ensures 0 <= Named(Unbounded, now, arg) - now < M32
    ensures Minus(arg, now) == Minus(arg, Wrap(now))
  {
    var a, b := now / M32, Wrap(now);
    var borrow := if arg >= b then 0 else 1;
    var d := arg - b + M32 * borrow;
    WrapIs(arg - now, -a - borrow, d);
    WrapIs(arg - b, -borrow, d);
    WrapIs(now + d, a + borrow, arg);
  }

  lemma ArmAgrees(u: State, p: int, t: int, now: int, at: u32)
    requires Shape(u) && Timed(u, p, t) && t <= now < p + GAP && u.startPending == NoMode
    ensures var a, b := Handle(Wrapping, Narrow(u), Wrap(now), AbzArm(at)), Handle(Unbounded, u, now, AbzArm(at));
            a == Reply(Narrow(b.state), b.status) && Timed(b.state, p, now)
  {
    var due := Named(Unbounded, now, at);
    NamedAgrees(now, at);
    FutureAgrees(now, due);
  }

  lemma ScheduleAgrees(u: State, p: int, t: int, now: int, r: Request)
    requires r.AbzSchedule?
    requires Shape(u) && Timed(u, p, t) && t <= now < p + GAP && u.startPending == NoMode
    ensures var a, b := Handle(Wrapping, Narrow(u), Wrap(now), r), Handle(Unbounded, u, now, r);
            a == Reply(Narrow(b.state), b.status) && Timed(b.state, p, now)
  {
    hide Bounded, PinsFollow;
    var due := Named(Unbounded, now, r.at);
    NamedAgrees(now, r.at);
    FutureAgrees(now, due);
    if u.armed && Future(Unbounded, now, due) {
      FutureAgrees(u.armedAt, due);
    }
  }

  lemma HandleAgrees(u: State, p: int, t: int, now: int, r: Request)
    requires Shape(u) && Timed(u, p, t) && t <= now < p + GAP && u.startPending == NoMode
    ensures var a, b := Handle(Wrapping, Narrow(u), Wrap(now), r), Handle(Unbounded, u, now, r);
            a == Reply(Narrow(b.state), b.status) && Timed(b.state, p, now)
  {
    if r.AbzArm? {
      ArmAgrees(u, p, t, now, r.at);
    } else if r.AbzSchedule? {
      ScheduleAgrees(u, p, t, now, r);
    } else {
      hide Bounded, PinsFollow, Wrap, Future, Named;
    }
  }

  lemma AfterReplyAgrees(u: State, p: int, t: int, now: int)
    requires Shape(u) && Timed(u, p, t) && t <= now
    ensures AfterReply(Wrapping, Narrow(u), Wrap(now)) == Narrow(AfterReply(Unbounded, u, now))
    ensures Timed(AfterReply(Unbounded, u, now), p, now)
  {
    hide PinsFollow, PhasePins, HallPins;
    PlusWrap(now, u.abz.ticks);
    PlusWrap(now, u.hall.ticks);
  }

  /** Times of one pass: requests in order, all less than 2^30 ticks after the
      loop head. */
  predicate InOrder(now: nat, rs: seq<Received>) {
    forall i :: 0 <= i < |rs| ==> OneInOrder(now, rs, i)
  }

  predicate OneInOrder(now: nat, rs: seq<Received>, i: nat)
    requires i < |rs|
  {
    (if i == 0 then now else rs[i - 1].sentAt) <= rs[i].at <= rs[i].sentAt < now + GAP
  }

  function EndOf(now: nat, rs: seq<Received>): nat {
    if rs == [] then now else rs[|rs| - 1].sentAt
  }

  lemma InOrderPrefix(now: nat, rs: seq<Received>)
    requires InOrder(now, rs) && rs != []
    ensures InOrder(now, rs[..|rs| - 1])
    ensures EndOf(now, rs[..|rs| - 1]) <= rs[|rs| - 1].at <= rs[|rs| - 1].sentAt < now + GAP
  {
    var rest := rs[..|rs| - 1];
    assert OneInOrder(now, rs, |rs| - 1);
    forall j | 0 <= j < |rest| ensures OneInOrder(now, rest, j) {
      assert OneInOrder(now, rs, j);
    }
  }

  lemma {:induction false} ServeAgrees(u: State, now: nat, rs: seq<Received>)
    requires Shape(u) && Timed(u, now, now) && u.startPending == NoMode && InOrder(now, rs)
    ensures Serve(Wrapping, Narrow(u), rs) == (Narrow(Serve(Unbounded, u, rs).0), Serve(Unbounded, u, rs).1)
    ensures now <= EndOf(now, rs) < now + GAP
    ensures Timed(Serve(Unbounded, u, rs).0, now, EndOf(now, rs))
  {
    hide Handle, AfterReply, Shape, Timed, Narrow;
    if rs == [] {
    } else {
      var rest, r := rs[..|rs| - 1], rs[|rs| - 1];
      InOrderPrefix(now, rs);
      ServeAgrees(u, now, rest);
      ServeShape(Unbounded, u, rest);
      var before := Serve(Unbounded, u, rest).0;
      HandleAgrees(before, now, EndOf(now, rest), r.at, r.request);
      HandleShape(Unbounded, before, r.at, r.request);
      AfterReplyAgrees(Handle(Unbounded, before, r.at, r.request).state, now, r.at, r.sentAt);
    }
  }

  lemma UpdateDueAgrees(now: int, deadline: int)
    requires -HALF <= now - deadline
    ensures (Due(Wrapping, Wrap(now), Wrap(deadline)) <==> Due(Unbounded, now, deadline)) <==>
            now < deadline || Wrap(now - deadline) < HALF
  {
    WrapMinus(now, deadline);
  }

  /** The next loop head decides the same with either clock if and only if it
      does not meet an update whose wrapped age reads as negative. */
  lemma DecideExactly(u: State, p: int, t: int, now: int)
    requires Shape(u) && Timed(u, p, t) && t <= now < p + GAP && u.startPending == NoMode
    ensures Decide(Wrapping, Narrow(u), Wrap(now)) == Decide(Unbounded, u, now) <==>
            !(u.running && u.active == Abz && u.updatePending && now >= u.update.at && Wrap(now - u.update.at) >= HALF)
  {
    hide Bounded, PinsFollow, Wrap, Due;
    if u.armed {
      DueAgrees(now, u.armedAt);
    }
    if u.updatePending {
      UpdateDueAgrees(now, u.update.at);
      DueIs(now, u.update.at);
    }
    if u.running && u.active == Abz {
      DueAgrees(now, u.abz.next);
    }
    if u.running && u.active == Hall {
      DueAgrees(now, u.hall.next);
    }
  }

  lemma DueIs(now: int, deadline: int)
    ensures Due(Unbounded, now, deadline) <==> now >= deadline
  {
  }

  lemma StartAgrees(u: State, p: int, t: int, now: int)
    requires Shape(u) && Timed(u, p, t) && t <= now < p + GAP && u.armed && now >= u.armedAt
    ensures ArmedStart(Wrapping, Narrow(u), Wrap(now)) == Narrow(ArmedStart(Unbounded, u, now))
    ensures Timed(ArmedStart(Unbounded, u, now), now, now)
  {
    hide PinsFollow, PhasePins, HallPins, Wrap, Due;
    DueAgrees(now, u.armedAt);
    WrapsDue(now, u.armedAt);
    PlusWrap(now, u.abz.ticks);
  }

  lemma WrapsDue(now: int, deadline: int)
    requires 0 <= now - deadline < HALF
    ensures Minus(Wrap(now), Wrap(deadline)) == now - deadline
  {
    WrapMinus(now, deadline);
  }

  lemma SmallWrap(x: int)
    requires 0 <= x < HALF
    ensures Wrap(x) == x
  {
  }

  /** Where both clocks apply the update, they agree on whether it came a whole
      new period late if and only if it is not misjudged. */
  lemma UpdateExactly(u: State, p: int, t: int, now: int)
    requires Shape(u) && Timed(u, p, t) && t <= now < p + GAP && u.running && u.active == Abz
    requires u.updatePending && now >= u.update.at && Wrap(now - u.update.at) < HALF
    ensures ApplyUpdate(Wrapping, Narrow(u), Wrap(now)) == Narrow(ApplyUpdate(Unbounded, u, now)) <==>
            !Misjudged(u, now)
    ensures Timed(ApplyUpdate(Unbounded, u, now), now, now)
  {
    hide PinsFollow, PhasePins, HallPins, Wrap;
    WrapMinus(now, u.update.at);
    if now - u.update.at < HALF {
      SmallWrap(now - u.update.at);
    }
    OneMore(u.scheduleLate);
    PlusWrap(now, u.abz.ticks);
    PlusWrap(now, u.update.ticks);
  }

  lemma OneMore(x: u32)
    ensures Plus(x, 1) != x
  {
  }

  lemma PacedAgrees(p: Pace, before: int, now: int)
    requires GoodTicks(p.ticks) && before < p.next <= now < before + GAP
    ensures Paced(Wrapping, p.(next := Wrap(p.next)), Wrap(now)) ==
            Paced(Unbounded, p, now).(next := Wrap(Paced(Unbounded, p, now).next))
    ensures now < Paced(Unbounded, p, now).next < now + HALF
  {
    hide Wrap;
    WrapsDue(now, p.next);
    PlusWrap(now, p.ticks);
    PlusWrap(p.next, p.ticks);
  }

  lemma TransitionAgrees(u: State, p: int, t: int, now: int)
    requires Shape(u) && Timed(u, p, t) && t <= now < p + GAP && u.running
    ensures u.active == Abz && now >= u.abz.next ==>
              && AbzTransition(Wrapping, Narrow(u), Wrap(now)) == Narrow(AbzTransition(Unbounded, u, now))
              && Timed(AbzTransition(Unbounded, u, now), now, now)
    ensures u.active == Hall && now >= u.hall.next ==>
              && HallTransition(Wrapping, Narrow(u), Wrap(now)) == Narrow(HallTransition(Unbounded, u, now))
              && Timed(HallTransition(Unbounded, u, now), now, now)
  {
    hide PinsFollow, PhasePins, HallPins, Wrap, Paced;
    if u.active == Abz && now >= u.abz.next {
      PacedAgrees(u.abz, p, now);
    }
    if u.active == Hall && now >= u.hall.next {
      PacedAgrees(u.hall, p, now);
    }
  }

  /** Nothing was due, so every live deadline lies ahead of this pass. */
  lemma NothingDue(u: State, p: int, t: int, now: int)
    requires Shape(u) && Timed(u, p, t) && t <= now && Decide(Unbounded, u, now).Served?
    ensures Timed(u, now, now)
  {
    hide Bounded, PinsFollow;
  }

  /** One pass: the wrapping scheduler decides and does the same, if and only if
      the pass does not misjudge an update. */
  lemma StepExactly(u: State, p: int, t: int, poll: Poll)
    requires Shape(u) && Timed(u, p, t) && t <= poll.now < p + GAP && u.startPending == NoMode &&
            InOrder(poll.now, poll.requests)
    ensures var w, v := Step(Wrapping, Narrow(u), poll), Step(Unbounded, u, poll);
            && (w == (Narrow(v.0), v.1) <==> !Misjudged(u, poll.now))
            && (!Misjudged(u, poll.now) ==> Timed(v.0, poll.now, EndOf(poll.now, poll.requests)))
  {
    hide Shape, Step, Serve, ArmedStart, ApplyUpdate, AbzTransition, HallTransition, Narrow, InOrder, Timed, Decide;
    var now := poll.now;
    DecideExactly(u, p, t, now);
    if Misjudged(u, now) && Wrap(now - u.update.at) >= HALF {
      Differs(u, poll);
    } else {
      WellDecided(u, p, t, poll);
    }
  }

  lemma DecisionIs(k: Ticks, s: State, now: int)
    ensures s.running && !s.armed && s.active == Abz && s.updatePending && Due(k, now, s.update.at) ==>
            Decide(k, s, now) == UpdateApplied
    ensures Decide(k, s, now) == UpdateApplied ==>
            s.running && s.active == Abz && s.updatePending && Due(k, now, s.update.at)
  {
  }

  /** Different decisions make different steps. */
  lemma Differs(u: State, poll: Poll)
    requires Decide(Wrapping, Narrow(u), Wrap(poll.now)) != Decide(Unbounded, u, poll.now)
    ensures Step(Wrapping, Narrow(u), poll).1 != Step(Unbounded, u, poll).1
  {
    hide Narrow, Serve, ArmedStart, ApplyUpdate, AbzTransition, HallTransition, Wrap, Due;
  }

  lemma WellDecided(u: State, p: int, t: int, poll: Poll)
    requires Shape(u) && Timed(u, p, t) && t <= poll.now < p + GAP && u.startPending == NoMode &&
            InOrder(poll.now, poll.requests)
    requires Decide(Wrapping, Narrow(u), Wrap(poll.now)) == Decide(Unbounded, u, poll.now)
    ensures var w, v := Step(Wrapping, Narrow(u), poll), Step(Unbounded, u, poll);
            && (w == (Narrow(v.0), v.1) <==> !Misjudged(u, poll.now))
            && Timed(v.0, poll.now, EndOf(poll.now, poll.requests))
  {
    var now := poll.now;
    DecideExactly(u, p, t, now);
    DecisionIs(Unbounded, u, now);
    EndsLater(now, poll.requests);
    OnlyUpdates(u, now);
    hide Shape, Narrow, Serve, ArmedStart, ApplyUpdate, AbzTransition, HallTransition, Wrap, InOrder, Misjudged;
    match Decide(Unbounded, u, now) {
      case Start =>
        StartAgrees(u, p, t, now);
        Later(ArmedStart(Unbounded, u, now), now, now, EndOf(now, poll.requests));
      case UpdateApplied =>
        UpdateExactly(u, p, t, now);
        Later(ApplyUpdate(Unbounded, u, now), now, now, EndOf(now, poll.requests));
      case Transition =>
        Modes(u);
        NarrowKeeps(u);
        TransitionAgrees(u, p, t, now);
        if u.active == Abz {
          Later(AbzTransition(Unbounded, u, now), now, now, EndOf(now, poll.requests));
        } else {
          Later(HallTransition(Unbounded, u, now), now, now, EndOf(now, poll.requests));
        }
      case Served(_) =>
        NothingDue(u, p, t, now);
        ServeAgrees(u, now, poll.requests);
    }
  }

  lemma OnlyUpdates(u: State, now: int)
    requires Shape(u)
    ensures Misjudged(u, now) ==> Decide(Unbounded, u, now) == UpdateApplied
  {
    hide Bounded, PinsFollow, Wrap;
  }

  lemma NarrowKeeps(u: State)
    ensures Narrow(u).active == u.active
  {
  }

  lemma Later(s: State, p: int, t: int, t': int)
    requires Timed(s, p, t) && t <= t'
    ensures Timed(s, p, t')
  {
  }

  lemma EndsLater(now: nat, rs: seq<Received>)
    requires InOrder(now, rs)
    ensures now <= EndOf(now, rs)
  {
    if rs != [] {
      EndsAfter(now, rs, |rs| - 1);
    }
  }

  lemma {:induction false} EndsAfter(now: nat, rs: seq<Received>, i: nat)
    requires InOrder(now, rs) && i < |rs|
    ensures now <= rs[i].sentAt
  {
    assert OneInOrder(now, rs, i);
    if i == 0 {
    } else {
      EndsAfter(now, rs, i - 1);
    }
  }

  /** Passes begin less than 2^30 ticks apart. */
  predicate WellTimed(polls: seq<Poll>) {
    forall n :: 0 <= n < |polls| ==>
      && InOrder(polls[n].now, polls[n].requests)
      && (n > 0 ==> EndOf(polls[n - 1].now, polls[n - 1].requests) <= polls[n].now < polls[n - 1].now + GAP)
  }

  /** None of the first `n` passes misjudges an update. */
  predicate Judged(polls: seq<Poll>, n: nat)
    requires n <= |polls|
  {
    forall m :: 0 <= m < n ==> !Misjudged(StateAfter(Unbounded, RESET, polls, m), polls[m].now)
  }

  predicate AgreeAt(polls: seq<Poll>, n: nat)
    requires n <= |polls|
  {
    && StateAfter(Wrapping, RESET, polls, n) == Narrow(StateAfter(Unbounded, RESET, polls, n))
    && (n < |polls| ==>
      Step(Wrapping, StateAfter(Wrapping, RESET, polls, n), polls[n]).1 ==
          Step(Unbounded, StateAfter(Unbounded, RESET, polls, n), polls[n]).1)
  }

  predicate TimedAt(polls: seq<Poll>, n: nat)
    requires n <= |polls|
  {
    n > 0 ==> Timed(StateAfter(Unbounded, RESET, polls, n), polls[n - 1].now,
                    EndOf(polls[n - 1].now, polls[n - 1].requests))
  }

  lemma {:induction false} StatesAgree(polls: seq<Poll>, n: nat)
    requires WellTimed(polls) && n <= |polls| && Judged(polls, n)
    ensures StateAfter(Wrapping, RESET, polls, n) == Narrow(StateAfter(Unbounded, RESET, polls, n)) && TimedAt(polls, n)
  {
    hide Step, Shape, InOrder, Narrow, Timed, Misjudged;
    if n == 0 {
      ResetFits();
    } else {
      StatesAgree(polls, n - 1);
      OnePass(polls, n - 1);
    }
  }

  /** Refinement: from reset, for every sequence of passes, the scheduler with
      wrapping 32-bit ticks is at every pass the 32-bit image of the one with
      unbounded time, and takes the same start, update and transition steps and
      gives the same replies at the same passes, as long as no pass so far has
      misjudged an update. */
  lemma WrappingRefines(polls: seq<Poll>, n: nat)
    requires WellTimed(polls) && n <= |polls| && Judged(polls, n)
    requires n < |polls| ==> !Misjudged(StateAfter(Unbounded, RESET, polls, n), polls[n].now)
    ensures AgreeAt(polls, n) && TimedAt(polls, n)
  {
    hide Step, Shape, InOrder, Narrow, Timed, Misjudged;
    StatesAgree(polls, n);
    if n < |polls| {
      OnePass(polls, n);
    }
  }

  /** The condition is exact: the two agree at every pass of a run if and only if
      no pass misjudges an update. */
  lemma RefinesExactly(polls: seq<Poll>)
    requires WellTimed(polls)
    ensures (forall n :: 0 <= n <= |polls| ==> AgreeAt(polls, n)) <==> Judged(polls, |polls|)
  {
    hide WellTimed, AgreeAt, Misjudged, TimedAt, StateAfter;
    if Judged(polls, |polls|) {
      forall n | 0 <= n <= |polls| ensures AgreeAt(polls, n) {
        WrappingRefines(polls, n);
      }
    } else {
      var m := FirstMisjudged(polls, |polls|);
      StatesAgree(polls, m);
      DisagreesAfter(polls, m);
    }
  }

  lemma {:induction false} FirstMisjudged(polls: seq<Poll>, n: nat) returns (m: nat)
    requires n <= |polls| && !Judged(polls, n)
    ensures m < n && Judged(polls, m) && Misjudged(StateAfter(Unbounded, RESET, polls, m), polls[m].now)
  {
    hide Misjudged, StateAfter;
    if Judged(polls, n - 1) {
      m := n - 1;
    } else {
      m := FirstMisjudged(polls, n - 1);
    }
  }

  lemma DisagreesAfter(polls: seq<Poll>, m: nat)
    requires WellTimed(polls) && m < |polls| && TimedAt(polls, m)
    requires StateAfter(Wrapping, RESET, polls, m) == Narrow(StateAfter(Unbounded, RESET, polls, m))
    requires Misjudged(StateAfter(Unbounded, RESET, polls, m), polls[m].now)
    ensures !(AgreeAt(polls, m) && AgreeAt(polls, m + 1))
  {
    hide Step, Shape, InOrder, Narrow, Timed, Misjudged;
    OnePass(polls, m);
  }

  lemma ResetFits()
    ensures Narrow(RESET) == RESET && forall p: int :: Timed(RESET, p, p)
  {
    assert Wrap(0) == 0;
  }

  /** Pass `n` from a state already known to agree. */
  lemma OnePass(polls: seq<Poll>, n: nat)
    requires WellTimed(polls) && n < |polls| && TimedAt(polls, n)
    requires StateAfter(Wrapping, RESET, polls, n) == Narrow(StateAfter(Unbounded, RESET, polls, n))
    ensures var u := StateAfter(Unbounded, RESET, polls, n);
            var w, v := Step(Wrapping, Narrow(u), polls[n]), Step(Unbounded, u, polls[n]);
            && (w == (Narrow(v.0), v.1) <==> !Misjudged(u, polls[n].now))
            && (!Misjudged(u, polls[n].now) ==> Timed(v.0, polls[n].now, EndOf(polls[n].now, polls[n].requests)))
  {
    hide Step, Shape, InOrder, Narrow, Timed, Misjudged;
    ReachableShape(Unbounded, polls, n);
    var u := StateAfter(Unbounded, RESET, polls, n);
    if n == 0 {
      ResetFits();
      StepExactly(u, polls[0].now, polls[0].now, polls[0]);
    } else {
      StepExactly(u, polls[n - 1].now, EndOf(polls[n - 1].now, polls[n - 1].requests), polls[n]);
    }
  }

  // ---- where misjudged updates come from ----

  /** A queued update belongs to an armed start before it or to a running ABZ
      output, and is at most one pass overdue. */
  predicate Fresh(s: State, p: int) {
    && (s.armed ==> p < s.armedAt)
    && (s.updatePending ==>
        p - GAP < s.update.at && (s.armed || s.active == Abz) && (s.armed ==> s.armedAt < s.update.at))
  }

  /** HALL_STOP meets no queued update, or one whose start is still armed. */
  predicate CleanStops(s: State, rs: seq<Received>) {
    rs == [] ||
    (CleanStops(s, rs[..|rs| - 1]) &&
     var before := Serve(Unbounded, s, rs[..|rs| - 1]).0;
     (rs[|rs| - 1].request == HallStop && before.updatePending ==> before.armed))
  }

  lemma HandleFresh(u: State, p: int, now: int, sent: int, r: Request)
    requires Shape(u) && Fresh(u, p) && p <= now && u.startPending == NoMode
    requires r == HallStop && u.updatePending ==> u.armed
    ensures Fresh(AfterReply(Unbounded, Handle(Unbounded, u, now, r).state, sent), p)
  {
    hide Bounded, PinsFollow, Named, PhasePins, HallPins;
  }

  lemma {:induction false} ServeFresh(u: State, now: nat, rs: seq<Received>)
    requires Shape(u) && Fresh(u, now) && u.startPending == NoMode && InOrder(now, rs) && CleanStops(u, rs)
    ensures Fresh(Serve(Unbounded, u, rs).0, now)
  {
    hide Handle, AfterReply, Shape, Fresh, InOrder;
    if rs == [] {
    } else {
      var rest, r := rs[..|rs| - 1], rs[|rs| - 1];
      InOrderPrefix(now, rs);
      EndsLater(now, rest);
      ServeFresh(u, now, rest);
      ServeShape(Unbounded, u, rest);
      HandleFresh(Serve(Unbounded, u, rest).0, now, r.at, r.sentAt, r.request);
    }
  }

  lemma StepFresh(u: State, p: int, poll: Poll)
    requires Shape(u) && Fresh(u, p) && p <= poll.now < p + GAP && u.startPending == NoMode
    requires InOrder(poll.now, poll.requests) && CleanPass(u, poll)
    ensures Fresh(Step(Unbounded, u, poll).0, poll.now) && !Misjudged(u, poll.now)
  {
    hide Bounded, PinsFollow, PhasePins, HallPins, Serve, Paced, CleanStops, InOrder, Wrap;
    if Decide(Unbounded, u, poll.now).Served? {
      ServeFresh(u, poll.now, poll.requests);
    }
  }

  /** Only a pass with nothing due serves its requests. */
  predicate CleanPass(s: State, p: Poll) {
    Decide(Unbounded, s, p.now).Served? ==> CleanStops(s, p.requests)
  }

  predicate StopsCleanly(polls: seq<Poll>) {
    forall n :: 0 <= n < |polls| ==> CleanPass(StateAfter(Unbounded, RESET, polls, n), polls[n])
  }

  lemma {:induction false} StaysFresh(polls: seq<Poll>, n: nat)
    requires WellTimed(polls) && StopsCleanly(polls) && n <= |polls|
    ensures Judged(polls, n) && (n > 0 ==> Fresh(StateAfter(Unbounded, RESET, polls, n), polls[n - 1].now))
  {
    hide Step, Shape, InOrder, Fresh, Misjudged, CleanStops;
    if n == 0 {
    } else {
      StaysFresh(polls, n - 1);
      ReachableShape(Unbounded, polls, n - 1);
      ResetFresh(polls[0].now);
      if n > 1 {
        EndsLater(polls[n - 2].now, polls[n - 2].requests);
        StepFresh(StateAfter(Unbounded, RESET, polls, n - 1), polls[n - 2].now, polls[n - 1]);
      } else {
        StepFresh(StateAfter(Unbounded, RESET, polls, 0), polls[0].now, polls[0]);
      }
    }
  }

  lemma ResetFresh(p: int)
    ensures Fresh(RESET, p)
  {
  }

  /** A misjudged update has been kept by HALL_STOP under a running ABZ output:
      without such a stop no pass misjudges anything, and both clocks agree. */
  lemma CleanStopsRefine(polls: seq<Poll>, n: nat)
    requires WellTimed(polls) && StopsCleanly(polls) && n <= |polls|
    ensures AgreeAt(polls, n)
  {
    hide WellTimed, AgreeAt, Misjudged, TimedAt, StateAfter, CleanStops, Fresh;
    StaysFresh(polls, |polls|);
    WrappingRefines(polls, n);
  }

  /** A queued update belongs to an armed start, and is due after it, or to the
      running ABZ output. */
  lemma QueuedWith(polls: seq<Poll>, n: nat)
    requires WellTimed(polls) && StopsCleanly(polls) && 0 < n <= |polls|
    ensures var u := StateAfter(Unbounded, RESET, polls, n);
            && (u.updatePending && u.armed ==> u.armedAt < u.update.at)
            && (u.updatePending && !u.armed ==> u.running && u.active == Abz)
  {
    hide StateAfter, CleanStops, InOrder;
    StaysFresh(polls, n);
    ReachableShape(Unbounded, polls, n);
  }

  /** The update `u` is queued and no start is armed any more. */
  predicate Queued(s: State, u: Update) {
    s.updatePending && !s.armed && s.update == u
  }

  lemma HandleQueued(k: Ticks, s: State, now: int, sent: int, r: Request)
    requires Shape(s) && s.startPending == NoMode
    ensures var n := AfterReply(k, Handle(k, s, now, r).state, sent); n.updatePending && !n.armed ==>
            Queued(s, n.update)
  {
    hide Bounded, PinsFollow, Future, Named, PhasePins, HallPins;
  }

  lemma {:induction false} ServeQueued(k: Ticks, s: State, rs: seq<Received>)
    requires Shape(s) && s.startPending == NoMode
    ensures var n := Serve(k, s, rs).0; n.updatePending && !n.armed ==> Queued(s, n.update)
  {
    hide Handle, AfterReply, Shape;
    if rs == [] {
    } else {
      var rest, r := rs[..|rs| - 1], rs[|rs| - 1];
      ServeQueued(k, s, rest);
      ServeShape(k, s, rest);
      HandleQueued(k, Serve(k, s, rest).0, Tick(k, r.at), Tick(k, r.sentAt), r.request);
    }
  }

  /** Only the armed start releases a queued update. */
  lemma StepQueued(k: Ticks, s: State, p: Poll)
    requires Shape(s) && s.startPending == NoMode
    ensures var n := Step(k, s, p).0;
            n.updatePending && !n.armed ==>
              Queued(s, n.update) || (Step(k, s, p).1 == Start && s.armed && s.updatePending && s.update == n.update)
  {
    hide Bounded, PinsFollow, PhasePins, HallPins, Serve, Paced, Due;
    ServeQueued(k, s, p.requests);
  }

  /** Pass `j` is the armed start of the update queued before pass `n`, which has
      waited ever since. */
  predicate StartOf(k: Ticks, polls: seq<Poll>, j: nat, n: nat)
    requires j < n <= |polls|
  {
    var s := StateAfter(k, RESET, polls, j);
    && Step(k, s, polls[j]).1 == Start && s.armed && s.updatePending &&
       s.update == StateAfter(k, RESET, polls, n).update
    && forall m :: j < m <= n ==> Queued(StateAfter(k, RESET, polls, m), s.update)
  }

  lemma {:induction false} ReleasedBy(k: Ticks, polls: seq<Poll>, n: nat) returns (j: nat)
    requires n <= |polls| && Queued(StateAfter(k, RESET, polls, n), StateAfter(k, RESET, polls, n).update)
    ensures j < n && StartOf(k, polls, j, n)
  {
    hide Step, Shape;
    assert n > 0;
    var s := StateAfter(k, RESET, polls, n - 1);
    ReachableShape(k, polls, n - 1);
    StepQueued(k, s, polls[n - 1]);
    if Queued(s, s.update) {
      j := ReleasedBy(k, polls, n - 1);
    } else {
      j := n - 1;
    }
  }

  /** Every applied update comes after its armed start. With either clock, in every
      run: when a pass applies an update, an earlier pass took the armed start with
      that same update queued, and it has been queued ever since with nothing armed.
      In a well-timed run with clean stops it was due after that start, and the ABZ
      output has run from the start on. */
  lemma UpdateAfterStart(k: Ticks, polls: seq<Poll>, n: nat) returns (j: nat)
    requires n < |polls| && Step(k, StateAfter(k, RESET, polls, n), polls[n]).1 == UpdateApplied
    ensures j < n && StartOf(k, polls, j, n)
    ensures WellTimed(polls) && StopsCleanly(polls) ==>
              var s := StateAfter(Unbounded, RESET, polls, j);
              && s.armed && s.armedAt < s.update.at
              && forall m :: j < m <= n ==>
                 StateAfter(k, RESET, polls, m).running && StateAfter(k, RESET, polls, m).active == Abz
  {
    hide Step, Shape, StateAfter, WellTimed, StopsCleanly;
    ReachableShape(k, polls, n);
    AppliesQueued(k, StateAfter(k, RESET, polls, n), polls[n]);
    j := ReleasedBy(k, polls, n);
    if WellTimed(polls) && StopsCleanly(polls) {
      SameQueue(k, polls, j);
      AfterReset(k, polls, j);
      QueuedWith(polls, j);
      forall m | j < m <= n ensures StateAfter(k, RESET, polls, m).running && StateAfter(k, RESET, polls, m).active ==
          Abz {
        SameQueue(k, polls, m);
        QueuedWith(polls, m);
        assert Queued(StateAfter(k, RESET, polls, m), StateAfter(k, RESET, polls, j).update);
      }
    }
  }

  lemma AppliesQueued(k: Ticks, s: State, p: Poll)
    requires Shape(s) && Step(k, s, p).1 == UpdateApplied
    ensures Queued(s, s.update)
  {
    hide Bounded, PinsFollow, Serve, Due;
  }

  lemma AfterReset(k: Ticks, polls: seq<Poll>, j: nat)
    requires j <= |polls| && StateAfter(k, RESET, polls, j).armed
    ensures j > 0
  {
  }

  /** Either clock sees the same queue and modes. */
  lemma SameQueue(k: Ticks, polls: seq<Poll>, n: nat)
    requires WellTimed(polls) && StopsCleanly(polls) && n <= |polls|
    ensures var s, u := StateAfter(k, RESET, polls, n), StateAfter(Unbounded, RESET, polls, n);
            && s.updatePending == u.updatePending && s.armed == u.armed && s.running == u.running &&
               s.active == u.active
  {
    hide WellTimed, StopsCleanly, StateAfter, Step;
    CleanStopsRefine(polls, n);
  }

  /** A queued update has an output to be applied to, or a start that begins one. */
  predicate Owned(s: State) {
    s.updatePending ==> s.armed || (s.running && s.active == Abz)
  }

  /** The one request that takes it away, exactly: HALL_STOP with an update queued
      and no start armed. */
  lemma OwnedExactly(k: Ticks, s: State, now: int, sent: int, r: Request)
    requires Shape(s) && s.startPending == NoMode && Owned(s)
    ensures Owned(AfterReply(k, Handle(k, s, now, r).state, sent)) <==> !(r == HallStop && s.updatePending && !s.armed)
  {
    hide Bounded, PinsFollow, Future, Named, PhasePins, HallPins;
  }

  /** An update stays owned through every request of a pass exactly if the stops
      are clean. */
  lemma {:induction false} ServeOwned(s: State, rs: seq<Received>)
    requires Shape(s) && s.startPending == NoMode && Owned(s)
    ensures CleanStops(s, rs) <==> forall i :: 0 <= i <= |rs| ==> Owned(Serve(Unbounded, s, rs[..i]).0)
  {
    hide Handle, AfterReply, Shape, Owned;
    assert rs[..|rs|] == rs;
    if rs == [] {
    } else {
      var rest, r := rs[..|rs| - 1], rs[|rs| - 1];
      assert forall i :: 0 <= i <= |rest| ==> rest[..i] == rs[..i];
      ServeOwned(s, rest);
      ServeShape(Unbounded, s, rest);
      var before := Serve(Unbounded, s, rest).0;
      assert rest[..|rest|] == rest;
      if Owned(before) {
        OwnedExactly(Unbounded, before, r.at, r.sentAt, r.request);
      }
    }
  }

  predicate OwnedDuring(s: State, p: Poll) {
    && Owned(s)
    && (Decide(Unbounded, s, p.now).Served? ==> forall i :: 0 <= i <= |p.requests| ==>
        Owned(Serve(Unbounded, s, p.requests[..i]).0))
  }

  lemma OwnedPass(s: State, p: Poll)
    requires Shape(s) && s.startPending == NoMode && Owned(s)
    ensures CleanPass(s, p) <==> OwnedDuring(s, p)
    ensures OwnedDuring(s, p) ==> Owned(Step(Unbounded, s, p).0)
  {
    hide Bounded, PinsFollow, PhasePins, HallPins, Serve, Paced, CleanStops, Due;
    ServeOwned(s, p.requests);
    assert p.requests[..|p.requests|] == p.requests;
  }

  /** Over a run: at every pass and after every request of it each queued update has
      its output or an armed start, if and only if the stops are clean. */
  lemma OwnedRun(polls: seq<Poll>)
    ensures StopsCleanly(polls) <==> forall n :: 0 <= n < |polls| ==>
            OwnedDuring(StateAfter(Unbounded, RESET, polls, n), polls[n])
  {
    hide Step, Shape, CleanPass, OwnedDuring, StateAfter;
    if StopsCleanly(polls) {
      forall n | 0 <= n < |polls| ensures OwnedDuring(StateAfter(Unbounded, RESET, polls, n), polls[n]) {
        StaysOwned(polls, n);
        ReachableShape(Unbounded, polls, n);
        OwnedPass(StateAfter(Unbounded, RESET, polls, n), polls[n]);
      }
    }
    forall n | 0 <= n < |polls| && OwnedDuring(StateAfter(Unbounded, RESET, polls, n), polls[n])
      ensures CleanPass(StateAfter(Unbounded, RESET, polls, n), polls[n])
    {
      ReachableShape(Unbounded, polls, n);
      OwnedAtStart(StateAfter(Unbounded, RESET, polls, n), polls[n]);
      OwnedPass(StateAfter(Unbounded, RESET, polls, n), polls[n]);
    }
  }

  lemma OwnedAtStart(s: State, p: Poll)
    requires OwnedDuring(s, p)
    ensures Owned(s)
  {
  }

  lemma {:induction false} StaysOwned(polls: seq<Poll>, n: nat)
    requires StopsCleanly(polls) && n <= |polls|
    ensures Owned(StateAfter(Unbounded, RESET, polls, n))
  {
    hide Step, Shape, CleanPass, OwnedDuring;
    if n == 0 {
    } else {
      StaysOwned(polls, n - 1);
      ReachableShape(Unbounded, polls, n - 1);
      OwnedPass(StateAfter(Unbounded, RESET, polls, n - 1), polls[n - 1]);
    }
  }

  /** How HALL_STOP makes one: it stops the ABZ output but keeps the update; a
      later ABZ start finds it again, and the first pass after half the tick
      range misjudges it. */
  lemma HallStopKeepsUpdate(k: Ticks, s: State, now: int, later: int)
    requires Shape(s) && s.updatePending && s.running && s.active == Abz && s.startPending == NoMode
    ensures var stopped := Handle(k, s, now, HallStop).state;
            var pending := Handle(k, stopped, later, AbzStart);
            var restarted := AfterReply(k, pending.state, later);
            && pending.status == Ok && restarted.running && restarted.updatePending && restarted.update == s.update
            && (HALF <= later - s.update.at < M32 ==> Misjudged(restarted, later))
    ensures HALF <= later - s.update.at < M32 ==>
              Due(Unbounded, later, s.update.at) && !Due(Wrapping, Wrap(later), Wrap(s.update.at))
  {
    WrapMinus(later, s.update.at);
  }

  // ---- rhythm ----

  function PaceOf(s: State): Pace {
    if s.active == Abz then s.abz else s.hall
  }

  /** A running output at the loop head. */
  predicate Session(s: State) {
    Shape(s) && s.running && s.startPending == NoMode
  }

  predicate NoStops(rs: seq<Received>) {
    forall i :: 0 <= i < |rs| ==> rs[i].request !in {ForceSafe, AbzStop, HallStop}
  }

  /** Requests that stop nothing can change no more than the ABZ direction. */
  predicate Undisturbed(s: State, n: State) {
    && Session(n) && n.active == s.active
    && n.abz == s.abz.(direction := n.abz.direction) && n.hall == s.hall
    && n.phase == s.phase && n.hallStep == s.hallStep && n.indexPhase == s.indexPhase && n.indexPeriod == s.indexPeriod
    && n.updatePending == s.updatePending && n.update == s.update
  }

  lemma HandleUndisturbed(k: Ticks, s: State, now: int, sent: int, r: Request)
    requires Session(s) && r !in {ForceSafe, AbzStop, HallStop}
    ensures Undisturbed(s, AfterReply(k, Handle(k, s, now, r).state, sent))
  {
    hide Future, Named, Bounded, PinsFollow;
    HandleShape(k, s, now, r);
  }

  lemma {:induction false} ServeUndisturbed(k: Ticks, s: State, rs: seq<Received>)
    requires Session(s) && NoStops(rs)
    ensures Undisturbed(s, Serve(k, s, rs).0)
  {
    if rs == [] {
      hide Shape;
    } else {
      hide Handle, AfterReply, Shape;
      ServeUndisturbed(k, s, rs[..|rs| - 1]);
      var before, r := Serve(k, s, rs[..|rs| - 1]).0, rs[|rs| - 1];
      HandleUndisturbed(k, before, Tick(k, r.at), Tick(k, r.sentAt), r.request);
    }
  }

  predicate Moves(s: State, p: Poll) {
    Decide(Unbounded, s, p.now) == Transition
  }

  predicate Updates(s: State, p: Poll) {
    Decide(Unbounded, s, p.now) == UpdateApplied
  }

  predicate MovesLate(s: State, p: Poll) {
    Moves(s, p) && Lateness(Unbounded, p.now, PaceOf(s).next) >= PaceOf(s).ticks
  }

  function Turn(s: State): int {
    if PaceOf(s).direction == 0 then 1 else -1
  }

  /** One pass of a session: a transition, an applied update, or neither. */
  lemma SessionStep(s: State, p: Poll)
    requires Session(s) && NoStops(p.requests)
    ensures var n := Step(Unbounded, s, p).0;
            && Session(n) && n.active == s.active && n.indexPeriod == s.indexPeriod
            && (!Updates(s, p) ==>
              PaceOf(n).ticks == PaceOf(s).ticks && n.updatePending == s.updatePending && n.update == s.update)
            && if Moves(s, p) then
                 && p.now >= PaceOf(s).next && PaceOf(n) == Paced(Unbounded, PaceOf(s), p.now)
                 && (s.active == Abz ==>
                     n.phase == (s.phase + Turn(s)) % 4 && n.indexPhase == NextIndex(s.indexPeriod, s.indexPhase))
                 && (s.active == Hall ==> n.hallStep == (s.hallStep + Turn(s)) % 6)
               else
                 && (!Updates(s, p) ==> PaceOf(n) == PaceOf(s).(direction := PaceOf(n).direction))
                 && n.phase == s.phase && n.hallStep == s.hallStep && n.indexPhase == s.indexPhase
  {
    StepShape(Unbounded, s, p);
    hide Bounded, PinsFollow, Serve, PhasePins, HallPins, NextIndex, Plus, IndexActive;
    ServeUndisturbed(Unbounded, s, p.requests);
    Modulo(s.phase);
    Modulo(s.hallStep);
  }

  lemma Modulo(x: int)
    ensures (x + 3) % 4 == (x - 1) % 4 && (x + 5) % 6 == (x - 1) % 6
  {
  }

  /** Transitions, late transitions and net steps of the first `n` passes. */
  function MoveCount(s: State, polls: seq<Poll>, n: nat): nat
    requires n <= |polls|
  {
    if n == 0 then 0
    else MoveCount(s, polls, n - 1) + if Moves(StateAfter(Unbounded, s, polls, n - 1), polls[n - 1]) then 1 else 0
  }

  function LateCount(s: State, polls: seq<Poll>, n: nat): nat
    requires n <= |polls|
  {
    if n == 0 then 0
    else LateCount(s, polls, n - 1) + if MovesLate(StateAfter(Unbounded, s, polls, n - 1), polls[n - 1]) then 1 else 0
  }

  function NetSteps(s: State, polls: seq<Poll>, n: nat): int
    requires n <= |polls|
  {
    if n == 0 then 0
    else
      var u := StateAfter(Unbounded, s, polls, n - 1);
      NetSteps(s, polls, n - 1) + if Moves(u, polls[n - 1]) then Turn(u) else 0
  }

  /** The time at which the session began: one period before its deadline. */
  function Origin(s: State): int {
    PaceOf(s).next - PaceOf(s).ticks
  }

  /** A pace that began as `first`, with origin `origin`, after `moves`
      transitions of which `late` were late. */
  predicate PaceKept(first: Pace, origin: int, p: Pace, moves: nat, late: nat) {
    var t := first.ticks;
    && p.ticks == t && p.next >= origin + (moves + 1) * t
    && (late == 0 ==> p.next == origin + (moves + 1) * t)
    && p.count == Wrap(first.count + moves) && p.late == Wrap(first.late + late)
  }

  predicate InRhythm(s: State, u: State, moves: nat, late: nat) {
    && Session(u) && u.active == s.active && u.indexPeriod == s.indexPeriod
    && PaceKept(PaceOf(s), Origin(s), PaceOf(u), moves, late)
  }

  lemma PaceMoves(first: Pace, origin: int, p: Pace, now: int, moves: nat, late: nat)
    requires first.ticks > 0 && PaceKept(first, origin, p, moves, late) && now >= p.next
    ensures PaceKept(first, origin, Paced(Unbounded, p, now), moves + 1,
                     if Lateness(Unbounded, now, p.next) >= p.ticks then late + 1 else late)
  {
    PlusWrap(first.count + moves, 1);
    PlusWrap(first.late + late, 1);
    hide Wrap;
    var t := first.ticks;
    assert (moves + 2) * t == (moves + 1) * t + t;
  }

  lemma RhythmStep(s: State, u: State, p: Poll, moves: nat, late: nat)
    requires Session(s) && InRhythm(s, u, moves, late) && NoStops(p.requests) && !Updates(u, p)
    ensures InRhythm(s, Step(Unbounded, u, p).0, moves + (if Moves(u, p) then 1 else 0), late +
                     (if MovesLate(u, p) then 1 else 0))
  {
    hide Session, Step, Moves, Updates, NextIndex, Turn, NoStops, PaceKept, Paced, Origin;
    SessionStep(u, p);
    TicksPositive(s);
    if Moves(u, p) {
      PaceMoves(PaceOf(s), Origin(s), PaceOf(u), p.now, moves, late);
    } else {
      AnyDirection(PaceOf(s), Origin(s), PaceOf(u), moves, late, PaceOf(Step(Unbounded, u, p).0).direction);
    }
  }

  lemma AnyDirection(first: Pace, origin: int, p: Pace, moves: nat, late: nat, direction: u32)
    requires PaceKept(first, origin, p, moves, late)
    ensures PaceKept(first, origin, p.(direction := direction), moves, late)
  {
    hide Wrap;
  }

  lemma TicksPositive(s: State)
    requires Session(s)
    ensures PaceOf(s).ticks > 0
  {
  }

  /** None of the first `n` passes applies an update, so the period is fixed. */
  predicate FixedPeriod(s: State, polls: seq<Poll>, n: nat)
    requires n <= |polls|
  {
    forall m :: 0 <= m < n ==> !Updates(StateAfter(Unbounded, s, polls, m), polls[m])
  }

  predicate Unstopped(polls: seq<Poll>) {
    forall m :: 0 <= m < |polls| ==> NoStops(polls[m].requests)
  }

  lemma {:induction false} Rhythm(s: State, polls: seq<Poll>, n: nat)
    requires Session(s) && n <= |polls| && Unstopped(polls) && FixedPeriod(s, polls, n)
    ensures InRhythm(s, StateAfter(Unbounded, s, polls, n), MoveCount(s, polls, n), LateCount(s, polls, n))
  {
    hide InRhythm, Session, Step, Moves, MovesLate, Updates, NoStops;
    if n == 0 {
      RhythmStarts(s);
    } else {
      Rhythm(s, polls, n - 1);
      RhythmStep(s, StateAfter(Unbounded, s, polls, n - 1), polls[n - 1], MoveCount(s, polls, n - 1),
                 LateCount(s, polls, n - 1));
    }
  }

  /** A session's period is fixed until its queued update, if there is one, falls
      due: none can be queued while running. */
  lemma {:induction false} FixedUntilDue(s: State, polls: seq<Poll>, n: nat)
    requires Session(s) && n <= |polls| && Unstopped(polls)
    requires s.updatePending ==> forall m :: 0 <= m < n ==> polls[m].now < s.update.at
    ensures FixedPeriod(s, polls, n)
    ensures var u := StateAfter(Unbounded, s, polls, n);
            Session(u) && u.updatePending == s.updatePending && u.update == s.update
  {
    hide Session, Step, Moves, Updates, NoStops, NextIndex, Turn, Paced;
    if n == 0 {
    } else {
      FixedUntilDue(s, polls, n - 1);
      var u, p := StateAfter(Unbounded, s, polls, n - 1), polls[n - 1];
      NotDueYet(u, p);
      SessionStep(u, p);
    }
  }

  lemma NotDueYet(u: State, p: Poll)
    ensures Updates(u, p) ==> u.updatePending && p.now >= u.update.at
  {
  }

  lemma RhythmStarts(s: State)
    requires Session(s)
    ensures InRhythm(s, s, 0, 0)
  {
    hide Shape;
  }

  /** Where sessions come from: a start, armed or not and with or without a
      queued update, begins one at that very tick from the configured phase with
      clear counters, and an applied update begins one at its tick with the new
      period and the outputs where they were. */
  lemma SessionOrigins(s: State, now: int)
    requires Shape(s) && s.startPending == NoMode
    ensures s.armed ==> Begun(s, ArmedStart(Unbounded, s, now), now, Abz)
    ensures !Busy(s) ==>
              && Begun(s, AfterReply(Unbounded, Handle(Unbounded, s, now, AbzStart).state, now), now, Abz)
              && Begun(s, AfterReply(Unbounded, Handle(Unbounded, s, now, HallStart).state, now), now, Hall)
    ensures s.running && s.active == Abz && s.updatePending ==>
              var u := ApplyUpdate(Unbounded, s, now);
              && Session(u) && !u.updatePending && Origin(u) == now && u.abz.ticks == UpdatedTicks(s)
              && u.phase == s.phase && u.indexPhase == s.indexPhase && u.pins == s.pins && u.abz.count == s.abz.count
  {
    hide HallPins, PhasePins;
  }

  predicate Begun(s: State, n: State, now: int, mode: Mode) {
    && Session(n) && n.active == mode && Origin(n) == now
    && PaceOf(n).count == 0 && PaceOf(n).late == 0
    && n.updatePending == s.updatePending && n.update == s.update
    && (if mode == Abz then n.phase == s.initialPhase && n.indexPhase == 0 else n.hallStep == s.hallInitial)
  }

  /** One transition's timing, at the level of the pace alone. */
  lemma PacedBounds(p: Pace, now: int, origin: int, moves: nat, t: nat)
    requires p.ticks == t && t > 0 && now >= p.next
    requires p.next >= origin + (moves + 1) * t
    ensures now >= origin + (moves + 1) * t
    ensures p.next == origin + (moves + 1) * t && now - p.next < t ==> now < origin + (moves + 2) * t
    ensures var n := Paced(Unbounded, p, now);
            if now - p.next >= t then n.late == Plus(p.late, 1) && n.next == now + t
            else n.late == p.late && n.next == p.next + t
  {
    assert (moves + 2) * t == (moves + 1) * t + t;
  }

  /** One transition of a session in rhythm. */
  lemma MoveOnRate(s: State, u: State, p: Poll, moves: nat, late: nat)
    requires Session(s) && InRhythm(s, u, moves, late) && NoStops(p.requests) && Moves(u, p)
    ensures var v, t := Step(Unbounded, u, p).0, PaceOf(s).ticks;
            && p.now >= Origin(s) + (moves + 1) * t
            && (late == 0 && !MovesLate(u, p) ==> p.now < Origin(s) + (moves + 2) * t)
            && if MovesLate(u, p) then PaceOf(v).late == Plus(PaceOf(u).late, 1) && PaceOf(v).next == p.now + t
               else PaceOf(v).late == PaceOf(u).late && PaceOf(v).next == PaceOf(u).next + t
  {
    MovesNotUpdates(u, p);
    hide Moves, Updates, Session, Step, NextIndex, Turn, Paced, NoStops, Plus;
    TicksPositive(s);
    SessionStep(u, p);
    PacedBounds(PaceOf(u), p.now, Origin(s), moves, PaceOf(s).ticks);
  }

  /** What the rate theorem says of the transition at pass `n`. */
  predicate OnRate(s: State, polls: seq<Poll>, n: nat)
    requires n < |polls|
  {
    var k, t := MoveCount(s, polls, n + 1), PaceOf(s).ticks;
    var u, v := StateAfter(Unbounded, s, polls, n), StateAfter(Unbounded, s, polls, n + 1);
    && k == MoveCount(s, polls, n) + 1
    && polls[n].now >= Origin(s) + k * t
    && (LateCount(s, polls, n + 1) == 0 ==> polls[n].now < Origin(s) + (k + 1) * t)
    && if MovesLate(u, polls[n]) then
         PaceOf(v).late == Plus(PaceOf(u).late, 1) && PaceOf(v).next == polls[n].now + t
       else
         PaceOf(v).late == PaceOf(u).late && PaceOf(v).next == PaceOf(u).next + t
  }

  /** Rate without drift, for either output: as long as no update has changed the
      period t, the k-th transition never comes before origin + k * t, and comes
      before origin + (k + 1) * t as long as no late transition has been counted;
      a late one raises the counter and starts a new rhythm one period ahead. */
  lemma NoDrift(s: State, polls: seq<Poll>, n: nat)
    requires Session(s) && n < |polls| && Unstopped(polls) && FixedPeriod(s, polls, n)
    requires Moves(StateAfter(Unbounded, s, polls, n), polls[n])
    ensures OnRate(s, polls, n)
  {
    hide Moves, MovesLate, Updates, Session, Step, NoStops, InRhythm, Origin, FixedPeriod;
    Rhythm(s, polls, n);
    LateMoves(StateAfter(Unbounded, s, polls, n), polls[n]);
    MoveOnRate(s, StateAfter(Unbounded, s, polls, n), polls[n], MoveCount(s, polls, n), LateCount(s, polls, n));
  }

  lemma LateMoves(u: State, p: Poll)
    ensures MovesLate(u, p) ==> Moves(u, p)
  {
  }

  lemma MovesNotUpdates(u: State, p: Poll)
    requires Moves(u, p)
    ensures !Updates(u, p)
  {
  }

  /** Where the outputs stand after `net` steps and `moves` transitions, `turns`
      of which completed an index revolution. */
  predicate Follows(s: State, u: State, net: int, moves: nat, turns: nat) {
    && Session(u) && u.active == s.active && u.indexPeriod == s.indexPeriod
    && (s.active == Abz ==>
      && u.phase == (s.phase + net) % 4
      && (s.indexPeriod > 0 ==>
          u.indexPhase < s.indexPeriod && u.indexPhase + turns * s.indexPeriod == s.indexPhase + moves))
    && (s.active == Hall ==> u.hallStep == (s.hallStep + net) % 6)
  }

  lemma AddModulo4(x: int, b: int)
    ensures (x % 4 + b) % 4 == (x + b) % 4
  {
    assert x == 4 * (x / 4) + x % 4;
  }

  lemma AddModulo6(x: int, b: int)
    ensures (x % 6 + b) % 6 == (x + b) % 6
  {
    assert x == 6 * (x / 6) + x % 6;
  }

  lemma IndexStep(period: u32, index: u32, turns: nat) returns (more: nat)
    requires 0 < period && index < period
    ensures NextIndex(period, index) < period
    ensures NextIndex(period, index) + more * period == index as int + turns * period + 1
  {
    more := if index as int + 1 == period then turns + 1 else turns;
    assert (turns + 1) * period == turns * period + period;
  }

  lemma FollowsStep(s: State, u: State, p: Poll, net: int, moves: nat, turns: nat) returns (more: nat)
    requires Session(s) && Follows(s, u, net, moves, turns) && NoStops(p.requests)
    ensures Follows(s, Step(Unbounded, u, p).0, net + (if Moves(u, p) then Turn(u) else 0), moves +
                    (if Moves(u, p) then 1 else 0), more)
  {
    hide Moves, Updates, Session, Step, Turn, Paced, NextIndex, NoStops;
    SessionStep(u, p);
    AddModulo4(s.phase + net, Turn(u));
    AddModulo6(s.hallStep + net, Turn(u));
    more := turns;
    if Moves(u, p) && s.active == Abz && s.indexPeriod > 0 {
      more := IndexStep(s.indexPeriod, u.indexPhase, turns);
    }
  }

  lemma FollowsStart(s: State)
    requires Session(s)
    ensures Follows(s, s, 0, 0, 0)
  {
  }

  /** The outputs follow the net number of steps, through any applied update: the
      phase modulo 4, the Hall step modulo 6, and the index position the number
      of transitions modulo the index period, `turns` being the quotient. */
  lemma {:induction false} OutputsFollowSteps(s: State, polls: seq<Poll>, n: nat) returns (turns: nat)
    requires Session(s) && n <= |polls| && Unstopped(polls)
    ensures Follows(s, StateAfter(Unbounded, s, polls, n), NetSteps(s, polls, n), MoveCount(s, polls, n), turns)
  {
    hide Follows, Session, Step, Moves, Turn, NoStops;
    if n == 0 {
      FollowsStart(s);
      turns := 0;
    } else {
      var rest := OutputsFollowSteps(s, polls, n - 1);
      turns := FollowsStep(s, StateAfter(Unbounded, s, polls, n - 1), polls[n - 1],
                           NetSteps(s, polls, n - 1), MoveCount(s, polls, n - 1), rest);
    }
  }

  // ---- the same at 32-bit ticks ----

  lemma {:induction false} SplitRun(k: Ticks, s: State, polls: seq<Poll>, b: nat, n: nat)
    requires b + n <= |polls|
    ensures StateAfter(k, s, polls, b + n) == StateAfter(k, StateAfter(k, s, polls, b), polls[b..], n)
  {
    hide Step;
    if n == 0 {
    } else {
      SplitRun(k, s, polls, b, n - 1);
    }
  }

  /** The wrapping scheduler's outputs, from the pass `b` at which a session is
      under way, follow the steps and transitions the run takes. */
  lemma OutputsAtTicks(polls: seq<Poll>, b: nat, n: nat) returns (turns: nat)
    requires WellTimed(polls) && b + n <= |polls| && Judged(polls, b + n) && Unstopped(polls[b..])
    requires Session(StateAfter(Wrapping, RESET, polls, b))
    ensures var s := StateAfter(Unbounded, RESET, polls, b);
            && StateAfter(Wrapping, RESET, polls, b) == Narrow(s)
            && Follows(s, StateAfter(Wrapping, RESET, polls, b + n), NetSteps(s, polls[b..], n),
                       MoveCount(s, polls[b..], n), turns)
  {
    hide Step, Shape, Narrow, Session, WellTimed, Misjudged, StateAfter, NoStops, Follows;
    StatesAgree(polls, b);
    StatesAgree(polls, b + n);
    var s := StateAfter(Unbounded, RESET, polls, b);
    NarrowSession(s);
    turns := OutputsFollowSteps(s, polls[b..], n);
    SplitRun(Unbounded, RESET, polls, b, n);
    NarrowFollows(s, StateAfter(Unbounded, RESET, polls, b + n), NetSteps(s, polls[b..], n),
                  MoveCount(s, polls[b..], n), turns);
  }

  lemma NarrowSession(s: State)
    ensures Session(Narrow(s)) <==> Session(s)
  {
    hide Bounded, Wrap;
    NarrowBounded(s);
  }

  lemma NarrowBounded(s: State)
    ensures Bounded(Narrow(s)) <==> Bounded(s)
  {
    hide Wrap;
  }

  lemma NarrowFollows(s: State, u: State, net: int, moves: nat, turns: nat)
    requires Follows(s, u, net, moves, turns)
    ensures Follows(s, Narrow(u), net, moves, turns)
  {
    hide Session, Wrap;
    NarrowSession(u);
  }

  /** The wrapping scheduler keeps the rate: when it takes a transition at pass
      b + n, and no pass since `b` has applied an update, that pass is on rate, in
      unbounded ticks, and its own counters and deadline are the 32-bit images. */
  lemma RateAtTicks(polls: seq<Poll>, b: nat, n: nat)
    requires WellTimed(polls) && b + n < |polls| && Judged(polls, b + n + 1) && Unstopped(polls[b..])
    requires Session(StateAfter(Wrapping, RESET, polls, b))
    requires forall m :: b <= m < b + n ==>
            Step(Wrapping, StateAfter(Wrapping, RESET, polls, m), polls[m]).1 != UpdateApplied
    requires Step(Wrapping, StateAfter(Wrapping, RESET, polls, b + n), polls[b + n]).1 == Transition
    ensures var s := StateAfter(Unbounded, RESET, polls, b);
            && OnRate(s, polls[b..], n)
            && StateAfter(Wrapping, RESET, polls, b + n + 1) == Narrow(StateAfter(Unbounded, s, polls[b..], n + 1))
  {
    hide Step, Shape, Narrow, Session, WellTimed, Misjudged, StateAfter, NoStops, OnRate, TimedAt;
    var s, rest := StateAfter(Unbounded, RESET, polls, b), polls[b..];
    StatesAgree(polls, b);
    NarrowSession(s);
    forall m | 0 <= m < n ensures !Updates(StateAfter(Unbounded, s, rest, m), rest[m]) {
      WrappingRefines(polls, b + m);
      SplitRun(Unbounded, RESET, polls, b, m);
      ActionIs(StateAfter(Unbounded, s, rest, m), rest[m]);
      assert Step(Wrapping, StateAfter(Wrapping, RESET, polls, b + m), polls[b + m]).1 != UpdateApplied;
    }
    WrappingRefines(polls, b + n);
    SplitRun(Unbounded, RESET, polls, b, n);
    ActionIs(StateAfter(Unbounded, s, rest, n), rest[n]);
    NoDrift(s, rest, n);
    StatesAgree(polls, b + n + 1);
    SplitRun(Unbounded, RESET, polls, b, n + 1);
  }

  lemma ActionIs(u: State, p: Poll)
    ensures Step(Unbounded, u, p).1 == UpdateApplied <==> Updates(u, p)
    ensures Step(Unbounded, u, p).1 == Transition <==> Moves(u, p)
  {
    hide Serve, ArmedStart, ApplyUpdate, AbzTransition, HallTransition;
  }
}

/** What each command means for what comes after it. */
module StimulusCommands {
  import BitNumbers
  import opened Words
  import opened Stimulus
  import opened StimulusRuns

  // ---- when a command is accepted ----

  /** With unbounded time: the argument names the first moment with that 32-bit
      value, and has to lie within the next half of the tick range. */
  predicate Ahead(now: int, at: u32) {
    0 < (at - now) % 0x1_0000_0000 < 0x8000_0000
  }

  predicate Accepted(s: State, now: int, r: Request) {
    var idle := !s.running && !s.armed && s.startPending == NoMode;
    match r
    case Malformed => false
    case Query => true
    case ForceSafe => true
    case AbzStop => true
    case HallStop => true
    case AbzConfig(ticks, period, width, _) =>
      idle && 100 <= ticks < 0x8000_0000 && (if period == 0 then width == 0 else width <= period)
    case AbzStart => idle
    case AbzArm(at) => idle && at != 0 && Ahead(now, at)
    case AbzSchedule(at, ticks, direction, flags) =>
      && !s.running && s.armed && !s.updatePending && at != 0 && Ahead(now, at)
      && 0 < now + (at - now) % 0x1_0000_0000 - s.armedAt < 0x8000_0000
      && (flags % 2 == 1 ==> 100 <= ticks < 0x8000_0000) && (flags / 2 % 2 == 1 ==> direction <= 1)
    case AbzDirection(direction) => direction <= 1
    case HallConfig(ticks, direction, step) => idle && 100 <= ticks < 0x8000_0000 && direction <= 1 && step < 6
    case HallStart => idle
  }

  /** A command answers Ok exactly if it is acceptable, and a refused one changes
      nothing. */
  lemma AnswersExactly(s: State, now: int, r: Request)
    ensures Handle(Unbounded, s, now, r).status == Ok <==> Accepted(s, now, r)
    ensures Handle(Unbounded, s, now, r).status != Ok ==> Handle(Unbounded, s, now, r).state == s
  {
  }

  // ---- what it establishes, and what ends that ----

  /** Nothing runs, is armed or waits; all three lines are low. */
  predicate Silent(s: State) {
    && !s.running && s.active == NoMode && !s.armed && s.startPending == NoMode && !s.updatePending
    && !s.pins.b0 && !s.pins.b1 && !s.pins.b2
  }

  datatype Fact =
    | Safe
    | AbzTicks(ticks: u32)
    | AbzTurns(direction: u32)
    | AbzShape(indexPeriod: u32, indexWidth: u32, phase: nat)
    | HallSet(hallTicks: u32, hallDirection: u32, step: nat)
    | StartAt(due: int)
    | UpdateAt(updateDue: int, setsTicks: bool, newTicks: u32, setsDirection: bool, newDirection: u32)

  predicate Holds(f: Fact, s: State) {
    match f
    case Safe => Silent(s)
    case AbzTicks(ticks) => s.abz.ticks == ticks
    case AbzTurns(direction) => s.abz.direction == direction
    case AbzShape(period, width, phase) => s.indexPeriod == period && s.indexWidth == width && s.initialPhase == phase
    case HallSet(ticks, direction, step) => s.hall.ticks == ticks && s.hall.direction == direction &&
        s.hallInitial == step
    case StartAt(due) => s.armed && s.armedAt == due
    case UpdateAt(due, setsTicks, ticks, setsDirection, direction) =>
      s.updatePending && s.update == Update(due, ticks, direction, setsTicks, setsDirection)
  }

  /** The moment `at` names at time `now`. */
  function Moment(k: Ticks, now: int, at: u32): int {
    if k == Wrapping then at else now + (at - now) % 0x1_0000_0000
  }

  /** What an accepted command makes true, in terms of its own fields. */
  predicate Establishes(k: Ticks, now: int, r: Request, f: Fact) {
    match r
    case ForceSafe => f == Safe
    case AbzStop => f == Safe
    case AbzConfig(ticks, period, width, flags) =>
      f == AbzTicks(ticks) || f == AbzTurns(flags % 2) || f == AbzShape(period, width, flags / 256 % 4)
    case AbzDirection(direction) => f == AbzTurns(direction)
    case HallConfig(ticks, direction, step) => f == HallSet(ticks, direction, step)
    case AbzArm(at) => f == StartAt(Moment(k, now, at))
    case AbzSchedule(at, ticks, direction, flags) =>
      f == UpdateAt(Moment(k, now, at), flags % 2 == 1, ticks, flags / 2 % 2 == 1, direction)
    case _ => false
  }

  /** The accepted commands that can end a fact. */
  predicate Ends(r: Request, f: Fact) {
    match f
    case Safe => r.AbzStart? || r.HallStart? || r.AbzArm?
    case AbzTicks(_) => r.AbzConfig?
    case AbzTurns(_) => r.AbzConfig? || r.AbzDirection?
    case AbzShape(_, _, _) => r.AbzConfig?
    case HallSet(_, _, _) => r.HallConfig?
    case StartAt(_) => r.ForceSafe? || r.AbzStop?
    case UpdateAt(_, _, _, _, _) => r.ForceSafe? || r.AbzStop? || r.AbzConfig?
  }

  /** The steps of the loop head that can. */
  predicate StepEnds(a: Action, f: Fact) {
    match f
    case AbzTicks(_) => a == UpdateApplied
    case AbzTurns(_) => a == UpdateApplied
    case StartAt(_) => a == Start
    case UpdateAt(_, _, _, _, _) => a == UpdateApplied
    case _ => false
  }

  /** Straight after the reply. */
  lemma Establish(k: Ticks, s: State, now: int, sent: int, r: Request, f: Fact)
    requires s.startPending == NoMode && Handle(k, s, now, r).status == Ok && Establishes(k, now, r, f)
    requires Shape(s)
    ensures Holds(f, AfterReply(k, Handle(k, s, now, r).state, sent))
  {
    hide Bounded, PinsFollow, Future;
  }

  /** FORCE_SAFE and ABZ_STOP from every state, with either clock: answered Ok, and
      nothing is left running, armed, pending or queued, with all lines low.
      HALL_STOP stops whatever runs but leaves arming and update alone. */
  lemma StopsEverything(k: Ticks, s: State, now: int, sent: int)
    ensures forall r :: r in {ForceSafe, AbzStop} ==>
              var reply := Handle(k, s, now, r);
              reply.status == Ok && Silent(reply.state) && AfterReply(k, reply.state, sent) == reply.state
    ensures var reply := Handle(k, s, now, HallStop);
            var n := reply.state;
            && reply.status == Ok && !n.running && n.active == NoMode && n.startPending == NoMode
            && !n.pins.b0 && !n.pins.b1 && !n.pins.b2
            && n.armed == s.armed && n.armedAt == s.armedAt && n.updatePending == s.updatePending &&
               n.update == s.update
            && AfterReply(k, n, sent) == n
  {
  }

  lemma RequestKeeps(k: Ticks, s: State, now: int, sent: int, r: Request, f: Fact)
    requires Shape(s) && s.startPending == NoMode && Holds(f, s)
    requires Handle(k, s, now, r).status == Ok ==> !Ends(r, f)
    ensures Holds(f, AfterReply(k, Handle(k, s, now, r).state, sent))
  {
    hide Bounded, PinsFollow, Future, Named, PhasePins, HallPins;
  }

  lemma StepKeeps(k: Ticks, s: State, p: Poll, f: Fact)
    requires Shape(s) && s.startPending == NoMode && Holds(f, s)
    requires !Step(k, s, p).1.Served? && !StepEnds(Step(k, s, p).1, f)
    ensures Holds(f, Step(k, s, p).0)
  {
    hide Bounded, PinsFollow, Due, PhasePins, HallPins, Serve, NextIndex, IndexActive, Plus, Lateness;
  }

  /** The state before request `i` of a pass, and whether that request is accepted. */
  function Before(k: Ticks, s: State, rs: seq<Received>, i: nat): State
    requires i <= |rs|
  {
    Serve(k, s, rs[..i]).0
  }

  predicate Granted(k: Ticks, s: State, rs: seq<Received>, i: nat)
    requires i < |rs|
  {
    Handle(k, Before(k, s, rs, i), Tick(k, rs[i].at), rs[i].request).status == Ok
  }

  lemma BeforeNext(k: Ticks, s: State, rs: seq<Received>, i: nat)
    requires i < |rs|
    ensures Before(k, s, rs, i + 1) ==
            AfterReply(k, Handle(k, Before(k, s, rs, i), Tick(k, rs[i].at), rs[i].request).state, Tick(k, rs[i].sentAt))
    ensures Before(k, s, rs, |rs|) == Serve(k, s, rs).0
  {
    assert rs[..i + 1][..i] == rs[..i];
    assert rs[..|rs|] == rs;
  }

  /** No accepted request from number `i` on ends the fact. */
  predicate Undone(k: Ticks, s: State, rs: seq<Received>, i: nat, f: Fact) {
    forall j :: i <= j < |rs| && Granted(k, s, rs, j) ==> !Ends(rs[j].request, f)
  }

  lemma {:induction false} ServeKeeps(k: Ticks, s: State, rs: seq<Received>, i: nat, j: nat, f: Fact)
    requires Shape(s) && s.startPending == NoMode && i <= j <= |rs|
    requires Holds(f, Before(k, s, rs, i)) && Undone(k, s, rs, i, f)
    ensures Holds(f, Before(k, s, rs, j))
    decreases j
  {
    hide Shape, Holds, Ends, Handle, AfterReply, Serve;
    if i == j {
    } else {
      ServeKeeps(k, s, rs, i, j - 1, f);
      ServeShape(k, s, rs[..j - 1]);
      BeforeNext(k, s, rs, j - 1);
      RequestKeeps(k, Before(k, s, rs, j - 1), Tick(k, rs[j - 1].at), Tick(k, rs[j - 1].sentAt), rs[j - 1].request, f);
    }
  }

  /** Pass `n` does nothing to a fact: the loop head takes no step that ends it, and
      no request it serves does. */
  predicate Spares(k: Ticks, s: State, p: Poll, f: Fact) {
    if Step(k, s, p).1.Served? then Undone(k, s, p.requests, 0, f) else !StepEnds(Step(k, s, p).1, f)
  }

  lemma PassKeeps(k: Ticks, s: State, p: Poll, f: Fact)
    requires Shape(s) && s.startPending == NoMode && Holds(f, s) && Spares(k, s, p, f)
    ensures Holds(f, Step(k, s, p).0)
  {
    hide Shape, Holds, Ends, StepEnds, Handle, AfterReply, Serve, Undone;
    if Step(k, s, p).1.Served? {
      ServedBy(k, s, p);
      FirstBefore(k, s, p.requests);
      ServeKeeps(k, s, p.requests, 0, |p.requests|, f);
    } else {
      StepKeeps(k, s, p, f);
    }
  }

  lemma ServedBy(k: Ticks, s: State, p: Poll)
    requires Step(k, s, p).1.Served?
    ensures Step(k, s, p).0 == Before(k, s, p.requests, |p.requests|)
  {
    hide Serve, Due;
    assert p.requests[..|p.requests|] == p.requests;
  }

  lemma FirstBefore(k: Ticks, s: State, rs: seq<Received>)
    ensures Before(k, s, rs, 0) == s
  {
  }

  /** Over a run, with either clock: what an accepted command, request `i` of pass
      `n`, makes true in terms of its own fields stays true at every later pass until
      an accepted command or a step of the loop head ends it. For FORCE_SAFE and
      ABZ_STOP that is: nothing runs and all lines are low until a start or an arming
      is accepted. */
  lemma {:induction false} InForce(k: Ticks, polls: seq<Poll>, n: nat, i: nat, m: nat, f: Fact)
    requires n < m <= |polls| && i < |polls[n].requests|
    requires Step(k, StateAfter(k, RESET, polls, n), polls[n]).1.Served?
    requires Granted(k, StateAfter(k, RESET, polls, n), polls[n].requests, i)
    requires Establishes(k, Tick(k, polls[n].requests[i].at), polls[n].requests[i].request, f)
    requires Undone(k, StateAfter(k, RESET, polls, n), polls[n].requests, i + 1, f)
    requires forall j :: n < j < m ==> Spares(k, StateAfter(k, RESET, polls, j), polls[j], f)
    ensures Holds(f, StateAfter(k, RESET, polls, m))
    decreases m
  {
    hide Shape, Holds, Step, Establishes, Undone, Granted, Spares;
    if m == n + 1 {
      ReachableShape(k, polls, n);
      EstablishedInPass(k, StateAfter(k, RESET, polls, n), polls[n], i, f);
    } else {
      InForce(k, polls, n, i, m - 1, f);
      ReachableShape(k, polls, m - 1);
      PassKeeps(k, StateAfter(k, RESET, polls, m - 1), polls[m - 1], f);
    }
  }

  lemma EstablishedInPass(k: Ticks, s: State, p: Poll, i: nat, f: Fact)
    requires Shape(s) && s.startPending == NoMode && Step(k, s, p).1.Served? && i < |p.requests|
    requires Granted(k, s, p.requests, i) && Undone(k, s, p.requests, i + 1, f)
    requires Establishes(k, Tick(k, p.requests[i].at), p.requests[i].request, f)
    ensures Holds(f, Step(k, s, p).0)
  {
    hide Shape, Holds, Step, Establishes, Undone, Handle, AfterReply, Serve;
    ServedBy(k, s, p);
    ServeShape(k, s, p.requests[..i]);
    BeforeNext(k, s, p.requests, i);
    Establish(k, Before(k, s, p.requests, i), Tick(k, p.requests[i].at), Tick(k, p.requests[i].sentAt),
              p.requests[i].request, f);
    ServeKeeps(k, s, p.requests, i + 1, |p.requests|, f);
  }

  // ---- what the facts mean for starts and updates ----

  /** A and B are in quadrature: of the four phases A is high in the second and
      third, B in the third and fourth. Z is high for the first `width` of every
      `period` transitions. */
  predicate ShowsAbz(s: State, phase: nat, index: nat) {
    && (s.pins.b0 <==> phase % 4 == 1 || phase % 4 == 2) && (s.pins.b1 <==> phase % 4 == 2 || phase % 4 == 3)
    && (s.pins.b2 <==> s.indexPeriod > 0 && index % s.indexPeriod < s.indexWidth)
  }

  /** Each Hall line is high in three steps in a row, each line two steps after the
      one before. */
  predicate ShowsHall(s: State, step: nat) {
    && (s.pins.b0 <==> step % 6 in {5, 0, 1}) && (s.pins.b2 <==> step % 6 in {1, 2, 3})
    && (s.pins.b1 <==> step % 6 in {3, 4, 5})
  }

  /** Starting, at once or armed, uses exactly what was configured: the period, the
      direction, the index and the initial phase for ABZ, and the period, direction
      and initial step for Hall, with the first transition due one period later. */
  lemma StartUses(k: Ticks, s: State, now: int, ticks: u32, direction: u32, period: u32, width: u32, phase: nat)
    requires Shape(s) && s.startPending == NoMode
    requires Holds(AbzTicks(ticks), s) && Holds(AbzTurns(direction), s) && Holds(AbzShape(period, width, phase), s)
    ensures s.armed ==> BeginsAbz(k, ArmedStart(k, s, now), now, ticks, direction, period, width, phase)
    ensures !Busy(s) ==>
              BeginsAbz(k, AfterReply(k, Handle(k, s, now, AbzStart).state, now), now, ticks, direction, period,
                        width, phase)
  {
    hide Shape, Lateness;
  }

  predicate BeginsAbz(k: Ticks, n: State, now: int, ticks: u32, direction: u32, period: u32, width: u32, phase: nat) {
    && n.running && n.active == Abz && !n.armed && n.startPending == NoMode
    && n.abz == Pace(ticks, Add(k, now, ticks), direction, 0, 0)
    && n.indexPeriod == period && n.indexWidth == width && n.phase == phase && n.indexPhase == 0 &&
       ShowsAbz(n, phase, 0)
  }

  lemma HallStartUses(k: Ticks, s: State, now: int, ticks: u32, direction: u32, step: nat)
    requires Shape(s) && !Busy(s) && Holds(HallSet(ticks, direction, step), s)
    ensures var n := AfterReply(k, Handle(k, s, now, HallStart).state, now);
            && n.running && n.active == Hall && n.startPending == NoMode
            && n.hall == Pace(ticks, Add(k, now, ticks), direction, 0, 0) && n.hallStep == step && ShowsHall(n, step)
  {
    hide Shape;
  }

  /** Applying a queued update changes the period, the direction, both or neither, as
      the command said, and the next transition is due one period later. */
  lemma UpdateUses(k: Ticks, s: State, now: int, due: int, setsTicks: bool, ticks: u32, setsDirection: bool,
                   direction: u32)
    requires Holds(UpdateAt(due, setsTicks, ticks, setsDirection, direction), s)
    ensures var n := ApplyUpdate(k, s, now);
            && n.abz.ticks == (if setsTicks then ticks else s.abz.ticks)
            && n.abz.direction == (if setsDirection then direction else s.abz.direction)
            && n.abz.next == Add(k, now, n.abz.ticks) && n.abz.count == s.abz.count && n.abz.late == s.abz.late
            && !n.updatePending && n.pins == s.pins && n.phase == s.phase && n.running == s.running
  {
    hide Lateness;
  }

  /** An armed start is taken on the first pass at or after its moment and on no
      earlier one. */
  lemma StartsWhenDue(s: State, p: Poll, due: int)
    requires Holds(StartAt(due), s) && Shape(s)
    ensures Step(Unbounded, s, p).1 == Start <==> p.now >= due
    ensures p.now >= due ==> Step(Unbounded, s, p).0.running && Step(Unbounded, s, p).0.active == Abz
  {
    hide Bounded, PinsFollow, Serve, PhasePins, HallPins, Lateness;
  }

  /** A queued update is applied on the first pass at or after its moment on which the
      ABZ output runs; a running output makes a transition on exactly those other
      passes that begin at or after its deadline; and requests are served exactly when
      nothing is due. */
  lemma ActsWhenDue(s: State, p: Poll)
    requires Session(s)
    ensures var due := s.active == Abz && s.updatePending && p.now >= s.update.at;
            var next := if s.active == Abz then s.abz.next else s.hall.next;
            && (Step(Unbounded, s, p).1 == UpdateApplied <==> due)
            && (Step(Unbounded, s, p).1 == Transition <==> !due && p.now >= next)
            && (Step(Unbounded, s, p).1.Served? <==> !due && p.now < next)
  {
    hide Bounded, PinsFollow, Serve, PhasePins, HallPins, Lateness, NextIndex;
  }

  /** A start or an update a whole period late or more is counted, and no other. */
  lemma LateSchedules(s: State, now: int)
    ensures s.armed ==>
              ArmedStart(Unbounded, s, now).scheduleLate ==
                (s.scheduleLate + if now - s.armedAt >= s.abz.ticks then 1 else 0) % 0x1_0000_0000
    ensures var n := ApplyUpdate(Unbounded, s, now);
            n.scheduleLate == (s.scheduleLate + if now - s.update.at >= n.abz.ticks then 1 else 0) % 0x1_0000_0000
  {
    hide PhasePins, IndexActive;
  }

  // ---- the pins of a running output ----

  /** What the lines of a running output show, from the steps and transitions since
      it began. */
  lemma PinsShow(s: State, polls: seq<Poll>, n: nat)
    requires Session(s) && n <= |polls| && Unstopped(polls) && s.indexPhase == 0
    ensures var u := StateAfter(Unbounded, s, polls, n);
            && u.running && u.active == s.active
            && (s.active == Abz ==>
                 ShowsAbz(u, (s.phase + NetSteps(s, polls, n)) % 4, MoveCount(s, polls, n))
                 && u.indexPeriod == s.indexPeriod)
            && (s.active == Hall ==> ShowsHall(u, (s.hallStep + NetSteps(s, polls, n)) % 6))
  {
    hide Session, StateAfter, NetSteps, MoveCount, Unstopped;
    var turns := OutputsFollowSteps(s, polls, n);
    PinsAre(s, StateAfter(Unbounded, s, polls, n), NetSteps(s, polls, n), MoveCount(s, polls, n), turns);
  }

  lemma PinsAre(s: State, u: State, net: int, moves: nat, turns: nat)
    requires Session(s) && Follows(s, u, net, moves, turns) && s.indexPhase == 0
    ensures u.running && u.active == s.active
    ensures s.active == Abz ==> ShowsAbz(u, (s.phase + net) % 4, moves) && u.indexPeriod == s.indexPeriod
    ensures s.active == Hall ==> ShowsHall(u, (s.hallStep + net) % 6)
  {
    hide Bounded;
    if s.active == Abz && s.indexPeriod > 0 {
      IndexIs(moves, turns, s.indexPeriod, u.indexPhase);
    }
  }

  lemma IndexIs(moves: nat, turns: nat, period: u32, index: u32)
    requires period > 0 && index < period && index + turns * period == moves
    ensures moves % period == index
  {
    BitNumbers.Remainder(moves, turns, period, index);
  }
}
