/** boards/beaglebone_black/firmware/pru1_b2/main.c: the command state machine
    and the polling loop of the PRU1 stimulus scheduler. The same step function
    is read with 32-bit wrapping ticks, as on the PRU, or with unbounded time. */
module Stimulus {
  import opened Words

  const HALF: int := 0x8000_0000
  const MIN_TICKS: nat := 100

  datatype Mode = NoMode | Abz | Hall

  /** R30[0:2]. */
  datatype Pins = Pins(b0: bool, b1: bool, b2: bool)

  const LOW := Pins(false, false, false)

  // ---- ticks ----

  datatype Ticks = Wrapping | Unbounded

  function Tick(k: Ticks, t: int): int { if k.Wrapping? then Wrap(t) else t }

  function Add(k: Ticks, t: int, d: int): int { if k.Wrapping? then Plus(t, d) else t + d }

  function Lateness(k: Ticks, now: int, deadline: int): int { if k.Wrapping? then Minus(now, deadline)
                                                             else now - deadline }

  /** `time_due`: the 32-bit difference, read as signed, is not negative. */
  predicate Due(k: Ticks, now: int, deadline: int) {
    if k.Wrapping? then Minus(now, deadline) < HALF else now >= deadline
  }

  /** `time_is_future`; in unbounded time, less than half the range ahead. */
  predicate Future(k: Ticks, now: int, deadline: int) {
    if k.Wrapping? then 0 < Minus(deadline, now) < HALF else 0 < deadline - now < HALF
  }

  /** The deadline that the 32-bit argument `arg` names at time `now`. */
  function Named(k: Ticks, now: int, arg: u32): int {
    if k.Wrapping? then arg else now + Minus(arg, now)
  }

  // ---- outputs ----

  function PhasePins(phase: nat, z: bool): Pins {
    Pins(phase % 4 == 1 || phase % 4 == 2, phase % 4 == 2 || phase % 4 == 3, z)
  }

  function HallPins(step: nat): Pins {
    match step % 6
    case 0 => Pins(true, false, false)
    case 1 => Pins(true, false, true)
    case 2 => Pins(false, false, true)
    case 3 => Pins(false, true, true)
    case 4 => Pins(false, true, false)
    case _ => Pins(true, true, false)
  }

  predicate IndexActive(period: u32, width: u32, indexPhase: u32) {
    period != 0 && width != 0 && indexPhase < width
  }

  // ---- state ----

  /** One output's timing: the period in ticks, the next deadline, counters. */
  datatype Pace = Pace(ticks: u32, next: int, direction: u32, count: u32, late: u32)

  datatype Update = Update(at: int, ticks: u32, direction: u32, setsTicks: bool, setsDirection: bool)

  datatype State = State(
    active: Mode, running: bool, startPending: Mode,
    armed: bool, armedAt: int, lastApply: int, scheduleLate: u32,
    abz: Pace, indexPeriod: u32, indexWidth: u32, initialPhase: nat, phase: nat, indexPhase: u32,
    updatePending: bool, update: Update,
    hall: Pace, hallInitial: nat, hallStep: nat,
    pins: Pins)

  const RESET := State(
    NoMode, false, NoMode, false, 0, 0, 0,
    Pace(200000, 0, 0, 0, 0), 0, 0, 0, 0, 0,
    false, Update(0, 0, 0, false, false),
    Pace(200000, 0, 0, 0, 0), 0, 0, LOW)

  predicate Busy(s: State) {
    s.running || s.armed || s.startPending != NoMode
  }

  predicate GoodTicks(t: u32) {
    MIN_TICKS <= t < HALF
  }

  // ---- commands ----

  datatype Request =
    | Malformed | Query
    | ForceSafe
    | AbzConfig(ticks: u32, indexPeriod: u32, indexWidth: u32, flags: u32)
    | AbzStart
    | AbzArm(at: u32)
    | AbzSchedule(at: u32, ticks: u32, direction: u32, flags: u32)
    | AbzStop
    | AbzDirection(direction: u32)
    | HallConfig(ticks: u32, direction: u32, step: u32)
    | HallStart
    | HallStop

  datatype Status = Ok | BadRequest | CaptureRunning | InvalidArgument | NotArmed | ScheduleBusy

  datatype Reply = Reply(state: State, status: Status)

  function Stopped(s: State, now: int): State {
    s.(running := false, active := NoMode, startPending := NoMode, pins := LOW, lastApply := now)
  }

  /** `handle_request` at time `now`. */
  function Handle(k: Ticks, s: State, now: int, r: Request): Reply {
    match r
    case Malformed => Reply(s, BadRequest)
    case Query => Reply(s, Ok)
    case ForceSafe => Reply(Stopped(s, now).(armed := false, updatePending := false), Ok)
    case AbzConfig(ticks, period, width, flags) =>
      if Busy(s) then Reply(s, CaptureRunning)
      else if !GoodTicks(ticks) || (period == 0 && width != 0) ||
          (period != 0 && width > period) then Reply(s, InvalidArgument)
      else Reply(s.(abz := Pace(ticks, s.abz.next, flags % 2, 0, 0), indexPeriod := period, indexWidth := width,
                    initialPhase := flags / 256 % 4, phase := flags / 256 % 4, indexPhase := 0,
                    scheduleLate := 0, updatePending := false, pins := LOW), Ok)
    case AbzStart =>
      if Busy(s) then Reply(s, CaptureRunning) else Reply(s.(startPending := Abz), Ok)
    case AbzArm(at) =>
      if Busy(s) then Reply(s, CaptureRunning)
      else if at == 0 || !Future(k, now, Named(k, now, at)) then Reply(s, InvalidArgument)
      else Reply(s.(armed := true, armedAt := Named(k, now, at)), Ok)
    case AbzSchedule(at, ticks, direction, flags) =>
      var due := Named(k, now, at);
      if s.running then Reply(s, CaptureRunning)
      else if !s.armed then Reply(s, NotArmed)
      else if s.updatePending then Reply(s, ScheduleBusy)
      else if at == 0 || !Future(k, now, due) || !Future(k, s.armedAt, due)
              || (flags % 2 == 1 && !GoodTicks(ticks)) ||
                  (flags / 2 % 2 == 1 && direction > 1) then Reply(s, InvalidArgument)
      else Reply(s.(updatePending := true,
                    update := Update(due, ticks, direction, flags % 2 == 1, flags / 2 % 2 == 1)), Ok)
    case AbzStop => Reply(Stopped(s, now).(armed := false, updatePending := false), Ok)
    case AbzDirection(direction) =>
      if direction > 1 then Reply(s, InvalidArgument)
      else Reply(s.(abz := s.abz.(direction := direction), lastApply := now), Ok)
    case HallConfig(ticks, direction, step) =>
      if Busy(s) then Reply(s, CaptureRunning)
      else if !GoodTicks(ticks) || direction > 1 || step >= 6 then Reply(s, InvalidArgument)
      else Reply(s.(hall := Pace(ticks, s.hall.next, direction, 0, 0), hallInitial := step, hallStep := step,
                    pins := LOW), Ok)
    case HallStart =>
      if Busy(s) then Reply(s, CaptureRunning) else Reply(s.(startPending := Hall), Ok)
    case HallStop => Reply(Stopped(s, now), Ok)
  }

  // ---- timed steps ----

  function BeginAbz(k: Ticks, s: State, now: int): State {
    s.(phase := s.initialPhase, indexPhase := 0,
       pins := PhasePins(s.initialPhase, IndexActive(s.indexPeriod, s.indexWidth, 0)),
       abz := s.abz.(count := 0, late := 0, next := Add(k, now, s.abz.ticks)),
       lastApply := now, active := Abz, running := true)
  }

  function BeginHall(k: Ticks, s: State, now: int): State {
    s.(hallStep := s.hallInitial, pins := HallPins(s.hallInitial),
       hall := s.hall.(count := 0, late := 0, next := Add(k, now, s.hall.ticks)),
       lastApply := now, active := Hall, running := true)
  }

  /** After the reply has been sent, a pending start takes effect. */
  function AfterReply(k: Ticks, s: State, now: int): State {
    match s.startPending
    case NoMode => s
    case Abz => BeginAbz(k, s, now).(startPending := NoMode, scheduleLate := 0)
    case Hall => BeginHall(k, s, now).(startPending := NoMode)
  }

  function ArmedStart(k: Ticks, s: State, now: int): State {
    BeginAbz(k, s, now).(armed := false,
      scheduleLate := if Lateness(k, now, s.armedAt) >= s.abz.ticks then Plus(s.scheduleLate, 1) else s.scheduleLate)
  }

  function ApplyUpdate(k: Ticks, s: State, now: int): State {
    var ticks := if s.update.setsTicks then s.update.ticks else s.abz.ticks;
    s.(abz := s.abz.(ticks := ticks, direction := if s.update.setsDirection then s.update.direction
                     else s.abz.direction,
                     next := Add(k, now, ticks)),
       scheduleLate := if Lateness(k, now, s.update.at) >= ticks then Plus(s.scheduleLate, 1) else s.scheduleLate,
       lastApply := now, updatePending := false)
  }

  /** One transition of either output: count it, and either keep the rhythm or,
      when a whole period late, count that too and resynchronise. */
  function Paced(k: Ticks, p: Pace, now: int): Pace {
    var tooLate := Lateness(k, now, p.next) >= p.ticks;
    p.(count := Plus(p.count, 1), late := if tooLate then Plus(p.late, 1) else p.late,
       next := if tooLate then Add(k, now, p.ticks) else Add(k, p.next, p.ticks))
  }

  function NextIndex(period: u32, indexPhase: u32): u32 {
    if period == 0 || Plus(indexPhase, 1) >= period then 0 else Plus(indexPhase, 1)
  }

  function AbzTransition(k: Ticks, s: State, now: int): State {
    var phase := if s.abz.direction == 0 then (s.phase + 1) % 4 else (s.phase + 3) % 4;
    var index := NextIndex(s.indexPeriod, s.indexPhase);
    s.(phase := phase, indexPhase := index, pins := PhasePins(phase, IndexActive(s.indexPeriod, s.indexWidth, index)),
       abz := Paced(k, s.abz, now), lastApply := now)
  }

  function HallTransition(k: Ticks, s: State, now: int): State {
    var step := if s.hall.direction == 0 then (s.hallStep + 1) % 6 else (s.hallStep + 5) % 6;
    s.(hallStep := step, pins := HallPins(step), hall := Paced(k, s.hall, now), lastApply := now)
  }

  datatype Action = Start | UpdateApplied | Transition | Served(replies: seq<Status>)

  /** What the loop head decides at time `now`, before looking for requests. */
  function Decide(k: Ticks, s: State, now: int): Action {
    if s.armed && Due(k, now, s.armedAt) then Start
    else if s.running && s.active == Abz && s.updatePending && Due(k, now, s.update.at) then UpdateApplied
    else if s.running && s.active == Abz && Due(k, now, s.abz.next) then Transition
    else if s.running && s.active == Hall && Due(k, now, s.hall.next) then Transition
    else Served([])
  }

  /** A request, when it is handled, and when the reply has gone out. */
  datatype Received = Received(request: Request, at: nat, sentAt: nat)

  function Serve(k: Ticks, s: State, rs: seq<Received>): (State, seq<Status>) {
    if rs == [] then (s, [])
    else
      var (before, replies) := Serve(k, s, rs[..|rs| - 1]);
      var r := rs[|rs| - 1];
      var reply := Handle(k, before, Tick(k, r.at), r.request);
      (AfterReply(k, reply.state, Tick(k, r.sentAt)), replies + [reply.status])
  }

  /** One pass of the main loop. */
  datatype Poll = Poll(now: nat, requests: seq<Received>)

  function Step(k: Ticks, s: State, p: Poll): (State, Action) {
    var now := Tick(k, p.now);
    match Decide(k, s, now)
    case Start => (ArmedStart(k, s, now), Start)
    case UpdateApplied => (ApplyUpdate(k, s, now), UpdateApplied)
    case Transition => (if s.active == Abz then AbzTransition(k, s, now) else HallTransition(k, s, now), Transition)
    case Served(_) =>
      var (n, replies) := Serve(k, s, p.requests);
      (n, Served(replies))
  }

  /** The firmware: `main`'s variables in `s`, `R30` in `s.pins`. */
  class Firmware {
    var s: State

    constructor ()
      ensures s == RESET
    {
      s := RESET;
    }

    method HandleRequest(now: u32, r: Request) returns (status: Status)
      modifies this
      ensures Reply(s, status) == Handle(Wrapping, old(s), now, r)
    {
      status := Ok;
      match r {
        case Malformed =>
          status := BadRequest;
        case Query =>
        case ForceSafe =>
          s := s.(running := false, active := NoMode, startPending := NoMode, armed := false, updatePending := false);
          s := s.(pins := LOW, lastApply := now);
        case AbzConfig(ticks, period, width, flags) =>
          if s.running || s.armed || s.startPending != NoMode {
            status := CaptureRunning;
          } else if ticks < 100 || ticks >= 0x8000_0000 {
            status := InvalidArgument;
          } else if (period == 0 && width != 0) || (period != 0 && width > period) {
            status := InvalidArgument;
          } else {
            s := s.(abz := s.abz.(ticks := ticks, direction := flags % 2, count := 0, late := 0));
            s := s.(indexPeriod := period, indexWidth := width, initialPhase := flags / 256 % 4,
                    phase := flags / 256 % 4);
            s := s.(indexPhase := 0, scheduleLate := 0, updatePending := false, pins := LOW);
          }
        case AbzStart =>
          if s.running || s.armed || s.startPending != NoMode {
            status := CaptureRunning;
          } else {
            s := s.(startPending := Abz);
          }
        case AbzArm(at) =>
          if s.running || s.armed || s.startPending != NoMode {
            status := CaptureRunning;
          } else if at == 0 || !Future(Wrapping, now, at) {
            status := InvalidArgument;
          } else {
            s := s.(armed := true, armedAt := at);
          }
        case AbzSchedule(at, ticks, direction, flags) =>
          status := Schedule(now, at, ticks, direction, flags);
        case AbzStop =>
          s := s.(running := false, active := NoMode, armed := false, startPending := NoMode, updatePending := false);
          s := s.(pins := LOW, lastApply := now);
        case AbzDirection(direction) =>
          if direction > 1 {
            status := InvalidArgument;
          } else {
            s := s.(abz := s.abz.(direction := direction), lastApply := now);
          }
        case HallConfig(ticks, direction, step) =>
          if s.running || s.armed || s.startPending != NoMode {
            status := CaptureRunning;
          } else if ticks < 100 || ticks >= 0x8000_0000 || direction > 1 || step >= 6 {
            status := InvalidArgument;
          } else {
            s := s.(hall := s.hall.(ticks := ticks, direction := direction, count := 0, late := 0));
            s := s.(hallInitial := step, hallStep := step, pins := LOW);
          }
        case HallStart =>
          if s.running || s.armed || s.startPending != NoMode {
            status := CaptureRunning;
          } else {
            s := s.(startPending := Hall);
          }
        case HallStop =>
          s := s.(running := false, active := NoMode, startPending := NoMode);
          s := s.(pins := LOW, lastApply := now);
      }
    }

    method Schedule(now: u32, at: u32, ticks: u32, direction: u32, flags: u32) returns (status: Status)
      modifies this
      ensures Reply(s, status) == Handle(Wrapping, old(s), now, AbzSchedule(at, ticks, direction, flags))
    {
      status := Ok;
      if s.running {
        status := CaptureRunning;
      } else if !s.armed {
        status := NotArmed;
      } else if s.updatePending {
        status := ScheduleBusy;
      } else if at == 0 || !Future(Wrapping, now, at) || !Future(Wrapping, s.armedAt, at) {
        status := InvalidArgument;
      } else if flags % 2 == 1 && (ticks < 100 || ticks >= 0x8000_0000) {
        status := InvalidArgument;
      } else if flags / 2 % 2 == 1 && direction > 1 {
        status := InvalidArgument;
      } else {
        s := s.(update := Update(at, ticks, direction, flags % 2 == 1, flags / 2 % 2 == 1), updatePending := true);
      }
    }

    /** One pass of `while (1)`. */
    method LoopPass(p: Poll) returns (action: Action)
      modifies this
      ensures (s, action) == Step(Wrapping, old(s), p)
    {
      var now: u32 := Wrap(p.now);
      if s.armed && Due(Wrapping, now, s.armedAt) {
        StartArmed(now);
        return Start;
      }
      if s.running && s.active == Abz {
        if s.updatePending && Due(Wrapping, now, s.update.at) {
          TakeUpdate(now);
          return UpdateApplied;
        }
        if Due(Wrapping, now, s.abz.next) {
          MoveAbz(now);
          return Transition;
        }
      }
      if s.running && s.active == Hall {
        if Due(Wrapping, now, s.hall.next) {
          MoveHall(now);
          return Transition;
        }
      }
      var replies: seq<Status> := [];
      for i := 0 to |p.requests|
        invariant (s, replies) == Serve(Wrapping, old(s), p.requests[..i])
      {
        var r := p.requests[i];
        assert p.requests[..i + 1][..i] == p.requests[..i];
        var status := HandleRequest(Wrap(r.at), r.request);
        replies := replies + [status];
        StartPending(Wrap(r.sentAt));
      }
      assert p.requests[..|p.requests|] == p.requests;
      return Served(replies);
    }

    method StartArmed(now: u32)
      modifies this
      ensures s == ArmedStart(Wrapping, old(s), now)
    {
      var lateness := Minus(now, s.armedAt);
      s := s.(phase := s.initialPhase, indexPhase := 0, abz := s.abz.(count := 0, late := 0));
      s := s.(pins := PhasePins(s.phase, IndexActive(s.indexPeriod, s.indexWidth, s.indexPhase)));
      if lateness >= s.abz.ticks {
        s := s.(scheduleLate := Plus(s.scheduleLate, 1));
      }
      s := s.(lastApply := now, abz := s.abz.(next := Plus(now, s.abz.ticks)), active := Abz, running := true,
              armed := false);
    }

    method TakeUpdate(now: u32)
      modifies this
      ensures s == ApplyUpdate(Wrapping, old(s), now)
    {
      var lateness := Minus(now, s.update.at);
      if s.update.setsTicks {
        s := s.(abz := s.abz.(ticks := s.update.ticks));
      }
      if s.update.setsDirection {
        s := s.(abz := s.abz.(direction := s.update.direction));
      }
      if lateness >= s.abz.ticks {
        s := s.(scheduleLate := Plus(s.scheduleLate, 1));
      }
      s := s.(lastApply := now, abz := s.abz.(next := Plus(now, s.abz.ticks)), updatePending := false);
    }

    method MoveAbz(now: u32)
      modifies this
      ensures s == AbzTransition(Wrapping, old(s), now)
    {
      var lateness := Minus(now, s.abz.next);
      var pace := s.abz;
      if lateness >= s.abz.ticks {
        pace := pace.(late := Plus(pace.late, 1));
      }
      var phase := if pace.direction == 0 then (s.phase + 1) % 4 else (s.phase + 3) % 4;
      pace := pace.(count := Plus(pace.count, 1));
      var index: u32 := 0;
      if s.indexPeriod != 0 {
        index := Plus(s.indexPhase, 1);
        if index >= s.indexPeriod {
          index := 0;
        }
      }
      if lateness >= pace.ticks {
        pace := pace.(next := Plus(now, pace.ticks));
      } else {
        pace := pace.(next := Plus(pace.next, pace.ticks));
      }
      s := s.(phase := phase, indexPhase := index,
              pins := PhasePins(phase, IndexActive(s.indexPeriod, s.indexWidth, index)));
      s := s.(lastApply := now, abz := pace);
    }

    method MoveHall(now: u32)
      modifies this
      ensures s == HallTransition(Wrapping, old(s), now)
    {
      var lateness := Minus(now, s.hall.next);
      var pace := s.hall;
      if lateness >= pace.ticks {
        pace := pace.(late := Plus(pace.late, 1));
      }
      var step := if pace.direction == 0 then (s.hallStep + 1) % 6 else (s.hallStep + 5) % 6;
      pace := pace.(count := Plus(pace.count, 1));
      if lateness >= pace.ticks {
        pace := pace.(next := Plus(now, pace.ticks));
      } else {
        pace := pace.(next := Plus(pace.next, pace.ticks));
      }
      s := s.(hallStep := step, pins := HallPins(step), lastApply := now, hall := pace);
    }

    method StartPending(now: u32)
      modifies this
      ensures s == AfterReply(Wrapping, old(s), now)
    {
      if s.startPending == Abz {
        s := s.(phase := s.initialPhase, indexPhase := 0, abz := s.abz.(count := 0, late := 0), scheduleLate := 0);
        s := s.(pins := PhasePins(s.phase, IndexActive(s.indexPeriod, s.indexWidth, s.indexPhase)), lastApply := now);
        s := s.(abz := s.abz.(next := Plus(now, s.abz.ticks)), active := Abz, running := true, startPending := NoMode);
      } else if s.startPending == Hall {
        s := s.(hallStep := s.hallInitial, hall := s.hall.(count := 0, late := 0));
        s := s.(pins := HallPins(s.hallStep), lastApply := now);
        s := s.(hall := s.hall.(next := Plus(now, s.hall.ticks)), active := Hall, running := true,
                startPending := NoMode);
      }
    }
  }
}
