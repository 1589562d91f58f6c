/** The A and B levels, A first. */
module Quadrature {
  datatype AB = AB(a: bool, b: bool)
}

/** rtl/generator/abz_encoder_emulator.v. */
module AbzEmulator {
  import opened Quadrature
  import opened Words

  datatype Inputs = Inputs(enable: bool, forward: bool, period: u32)

  datatype Regs = Regs(tick: u32, revolution: u32, phase: AB, out: AB, z: bool, position: u32)

  const RESET := Regs(0, 0, AB(false, false), AB(false, false), false, 0)

  /** Gray code: 00, 01, 11, 10 forward. */
  function Turned(phase: AB, forward: bool): AB {
    if forward then AB(phase.b, !phase.a) else AB(!phase.b, phase.a)
  }

  predicate StepDue(r: Regs, i: Inputs) {
    i.enable && (i.period <= 1 || r.tick >= i.period - 1)
  }

  predicate LastOfTurn(counts: u32, r: Regs) {
    r.revolution >= Minus(counts, 1)
  }

  function Next(counts: u32, r: Regs, i: Inputs): Regs {
    if !i.enable then r.(tick := 0, z := false)
    else if StepDue(r, i) then
      var phase := Turned(r.phase, i.forward);
      Regs(0, if LastOfTurn(counts, r) then 0 else Plus(r.revolution, 1), phase, phase, LastOfTurn(counts, r),
           if i.forward then Plus(r.position, 1) else Minus(r.position, 1))
    else r.(tick := Plus(r.tick, 1))
  }

  class Emulator {
    const counts: u32
    var regs: Regs

    constructor (counts: u32)
      ensures this.counts == counts && regs == RESET
    {
      this.counts := counts;
      regs := RESET;
    }

    /** The combinational `next_phase`. */
    method NextPhase(forward: bool) returns (next: AB)
      ensures next == Turned(regs.phase, forward)
    {
      if forward {
        match regs.phase {
          case AB(false, false) => next := AB(false, true);
          case AB(false, true) => next := AB(true, true);
          case AB(true, true) => next := AB(true, false);
          case AB(true, false) => next := AB(false, false);
        }
      } else {
        match regs.phase {
          case AB(false, false) => next := AB(true, false);
          case AB(true, false) => next := AB(true, true);
          case AB(true, true) => next := AB(false, true);
          case AB(false, true) => next := AB(false, false);
        }
      }
    }

    method Clock(i: Inputs)
      modifies this
      ensures regs == Next(counts, old(regs), i)
    {
      hide Turned, Wrap;
      var stepDue := if i.period <= 1 then true else regs.tick >= i.period - 1;
      var nextPhase := NextPhase(i.forward);
      var n := regs;
      if !i.enable {
        n := n.(tick := 0, z := false);
      } else if stepDue {
        n := n.(tick := 0, phase := nextPhase, out := nextPhase);
        n := n.(position := if i.forward then Plus(regs.position, 1) else Minus(regs.position, 1));
        if regs.revolution >= Minus(counts, 1) {
          n := n.(revolution := 0, z := true);
        } else {
          n := n.(revolution := Plus(regs.revolution, 1), z := false);
        }
      } else {
        n := n.(tick := Plus(regs.tick, 1));
      }
      regs := n;
    }
  }

  /** Forward and backward undo each other, never stand still, and always differ
      in exactly one line. */
  lemma TurnsBack(phase: AB, forward: bool)
    ensures Turned(Turned(phase, forward), !forward) == phase
    ensures var n := Turned(phase, forward); (n.a != phase.a) != (n.b != phase.b)
    ensures Turned(phase, true) != Turned(phase, false)
    ensures Turned(AB(false, false), true) == AB(false, true) && Turned(AB(false, true), true) == AB(true, true)
    ensures Turned(AB(true, true), true) == AB(true, false) && Turned(AB(true, false), true) == AB(false, false)
  {
    assert phase.a || !phase.a;
  }
}

/** rtl/capture/abz_encoder_capture.v behind its rtl/common/sync_2ff.v. */
module AbzDecoder {
  import opened Quadrature
  import opened Timestamps
  import opened Words

  datatype Lines = Lines(ab: AB, z: bool)

  datatype Inputs = Inputs(lines: Lines, timestamp: u64, clearFaults: bool)

  datatype Regs = Regs(
    meta: Lines, sync: Lines, prev: Lines, position: u32, forward: bool, step: bool, index: bool, illegal: bool,
        edgeAt: u64)

  const QUIET := Lines(AB(false, false), false)

  const RESET := Regs(QUIET, QUIET, QUIET, 0, true, false, false, false, 0)

  datatype Move = Still | Up | Down | Illegal

  /** The x4 transition table. */
  function Decode(prev: AB, now: AB): Move {
    if now == prev then Still
    else if now == AB(prev.b, !prev.a) then Up
    else if now == AB(!prev.b, prev.a) then Down
    else Illegal
  }

  function Next(r: Regs, i: Inputs): Regs {
    var move := Decode(r.prev.ab, r.sync.ab);
    Regs(i.lines, r.meta, r.sync,
         match move case Up => Plus(r.position, 1) case Down => Minus(r.position, 1) case _ => r.position,
         match move case Up => true case Down => false case _ => r.forward,
         move == Up || move == Down, r.sync.z && !r.prev.z,
         move == Illegal || (r.illegal && !i.clearFaults),
         if move == Still then r.edgeAt else i.timestamp)
  }

  class Decoder {
    var regs: Regs

    constructor ()
      ensures regs == RESET
    {
      regs := RESET;
    }

    method Clock(i: Inputs)
      modifies this
      ensures regs == Next(old(regs), i)
    {
      hide Wrap;
      var n := regs.(meta := i.lines, sync := regs.meta, prev := regs.sync);
      n := n.(step := false, index := regs.sync.z && !regs.prev.z);
      if i.clearFaults {
        n := n.(illegal := false);
      }
      if regs.sync.ab != regs.prev.ab {
        n := n.(edgeAt := i.timestamp);
        match (regs.prev.ab, regs.sync.ab) {
          case (AB(false, false), AB(false, true)) =>
            n := n.(position := Plus(regs.position, 1), forward := true, step := true);
          case (AB(false, true), AB(true, true)) =>
            n := n.(position := Plus(regs.position, 1), forward := true, step := true);
          case (AB(true, true), AB(true, false)) =>
            n := n.(position := Plus(regs.position, 1), forward := true, step := true);
          case (AB(true, false), AB(false, false)) =>
            n := n.(position := Plus(regs.position, 1), forward := true, step := true);
          case (AB(false, false), AB(true, false)) =>
            n := n.(position := Minus(regs.position, 1), forward := false, step := true);
          case (AB(true, false), AB(true, true)) =>
            n := n.(position := Minus(regs.position, 1), forward := false, step := true);
          case (AB(true, true), AB(false, true)) =>
            n := n.(position := Minus(regs.position, 1), forward := false, step := true);
          case (AB(false, true), AB(false, false)) =>
            n := n.(position := Minus(regs.position, 1), forward := false, step := true);
          case (_, _) => n := n.(illegal := true);
        }
      }
      regs := n;
    }
  }
}

/** Emulator wired to decoder. */
module AbzLoopback {
  import opened Words
  import opened Timestamps
  import E = AbzEmulator
  import D = AbzDecoder

  datatype Stimulus = Stimulus(emulator: E.Inputs, timestamp: u64, clearFaults: bool)

  /** What the emulator has done up to one moment: lines, position, direction of
      the last step, steps in either direction, whole revolutions. */
  datatype Moment = Moment(lines: D.Lines, position: u32, forward: bool, steps: nat, turns: nat)

  /** The modules, the moment now, the three before it, and the step and index
      pulses the decoder has given. */
  datatype State = State(e: E.Regs, d: D.Regs, now: Moment, ago1: Moment, ago2: Moment, ago3: Moment, pulses: nat,
                         indexes: nat)

  const START := Moment(D.QUIET, 0, true, 0, 0)

  const RESET := State(E.RESET, D.RESET, START, START, START, START, 0, 0)

  function NextMoment(counts: u32, e: E.Regs, m: Moment, i: E.Inputs): Moment {
    var n := E.Next(counts, e, i);
    var lines := D.Lines(n.out, n.z);
    if E.StepDue(e, i) then
      Moment(lines, n.position, i.forward, m.steps + 1, if E.LastOfTurn(counts, e) then m.turns + 1 else m.turns)
    else m.(lines := lines, position := n.position)
  }

  function Step(counts: u32, s: State, i: Stimulus): State {
    var d := D.Next(s.d, D.Inputs(D.Lines(s.e.out, s.e.z), i.timestamp, i.clearFaults));
    State(E.Next(counts, s.e, i.emulator), d, NextMoment(counts, s.e, s.now, i.emulator), s.now, s.ago1, s.ago2,
          s.pulses + (if d.step then 1 else 0), s.indexes + (if d.index then 1 else 0))
  }

  /** `n` comes after `m` within one clock of the emulator. */
  predicate Follows(m: Moment, n: Moment) {
    if n.steps == m.steps then n.lines.ab == m.lines.ab && n.position == m.position && n.forward == m.forward
    else
      && n.steps == m.steps + 1 && n.lines.ab == E.Turned(m.lines.ab, n.forward)
      && n.position == if n.forward then Plus(m.position, 1) else Minus(m.position, 1)
  }

  /** Z goes high exactly when a revolution has been completed. */
  predicate Indexes(m: Moment, n: Moment) {
    n.turns == if n.lines.z && !m.lines.z then m.turns + 1 else m.turns
  }

  /** The emulator agrees with the moment, the decoder lags three clocks. */
  predicate Inv(s: State) {
    && s.e.phase == s.e.out && s.now.lines == D.Lines(s.e.out, s.e.z) && s.now.position == s.e.position
    && Follows(s.ago1, s.now) && Follows(s.ago2, s.ago1) && Follows(s.ago3, s.ago2)
    && s.d.meta == s.ago1.lines && s.d.sync == s.ago2.lines && s.d.prev == s.ago3.lines
    && s.d.position == s.ago3.position && s.d.forward == s.ago3.forward && !s.d.illegal
    && s.pulses == s.ago3.steps
  }

  predicate IndexInv(counts: u32, s: State) {
    && (s.e.z ==> s.e.revolution == 0) && s.e.revolution < counts
    && s.now.steps == s.now.turns * counts + s.e.revolution
    && Indexes(s.ago1, s.now) && Indexes(s.ago2, s.ago1) && Indexes(s.ago3, s.ago2)
    && s.indexes == s.ago3.turns
  }

  lemma MomentFollows(counts: u32, e: E.Regs, m: Moment, i: E.Inputs)
    requires e.phase == e.out && m.lines == D.Lines(e.out, e.z) && m.position == e.position
    ensures Follows(m, NextMoment(counts, e, m, i)) && E.Next(counts, e, i).phase == E.Next(counts, e, i).out
  {
    hide E.Turned;
  }

  /** Z and the revolution counter move only on steps. */
  lemma RevolutionStep(counts: u32, e: E.Regs, m: Moment, i: E.Inputs)
    requires counts >= 2 && m.lines.z == e.z && (e.z ==> e.revolution == 0) && e.revolution < counts
    ensures var n, r := NextMoment(counts, e, m, i), E.Next(counts, e, i);
            && Indexes(m, n) && (r.z ==> r.revolution == 0) && r.revolution < counts
            && if n.turns == m.turns then n.steps - r.revolution == m.steps - e.revolution
               else n.turns == m.turns + 1 && n.steps - r.revolution == m.steps - e.revolution + counts
  {
    hide E.Turned;
  }

  lemma MomentIndexes(counts: u32, e: E.Regs, m: Moment, i: E.Inputs)
    requires counts >= 2 && m.lines.z == e.z && (e.z ==> e.revolution == 0) && e.revolution < counts
    requires m.steps == m.turns * counts + e.revolution
    ensures var n, r := NextMoment(counts, e, m, i), E.Next(counts, e, i);
            && Indexes(m, n) && (r.z ==> r.revolution == 0) && r.revolution < counts
            && n.steps == n.turns * counts + r.revolution
  {
    hide E.Next, NextMoment, Indexes;
    RevolutionStep(counts, e, m, i);
    assert (m.turns + 1) * counts == m.turns * counts + counts;
  }

  /** One clock of the decoder follows one clock of the emulator. */
  lemma DecoderFollows(m: Moment, n: Moment, d: D.Regs, i: D.Inputs)
    requires Follows(m, n) && d.sync == n.lines && d.prev == m.lines
    requires d.position == m.position && d.forward == m.forward && !d.illegal
    ensures var r := D.Next(d, i);
            && r.meta == i.lines && r.sync == d.meta && r.prev == n.lines
            && r.position == n.position && r.forward == n.forward && !r.illegal
            && r.step == (n.steps == m.steps + 1) && (!r.step ==> n.steps == m.steps)
            && (Indexes(m, n) ==> n.turns == if r.index then m.turns + 1 else m.turns)
  {
    hide Wrap;
    E.TurnsBack(m.lines.ab, n.forward);
  }

  lemma MomentLines(counts: u32, e: E.Regs, m: Moment, i: E.Inputs)
    requires m.position == e.position
    ensures var n := NextMoment(counts, e, m, i);
            n.lines == D.Lines(E.Next(counts, e, i).out, E.Next(counts, e, i).z) &&
                n.position == E.Next(counts, e, i).position
  {
  }

  lemma InvStep(counts: u32, s: State, i: Stimulus)
    requires Inv(s)
    ensures Inv(Step(counts, s, i))
    ensures counts >= 2 && IndexInv(counts, s) ==> IndexInv(counts, Step(counts, s, i))
  {
    hide E.Next, D.Next, NextMoment, Follows, Indexes;
    MomentLines(counts, s.e, s.now, i.emulator);
    MomentFollows(counts, s.e, s.now, i.emulator);
    DecoderFollows(s.ago3, s.ago2, s.d, D.Inputs(D.Lines(s.e.out, s.e.z), i.timestamp, i.clearFaults));
    if counts >= 2 && IndexInv(counts, s) {
      MomentIndexes(counts, s.e, s.now, i.emulator);
    }
  }

  function After(counts: u32, stimuli: seq<Stimulus>, n: nat): State
    requires n <= |stimuli|
  {
    if n == 0 then RESET else Step(counts, After(counts, stimuli, n - 1), stimuli[n - 1])
  }

  lemma ResetInv(counts: u32)
    ensures Inv(RESET) && (counts >= 2 ==> IndexInv(counts, RESET))
  {
  }

  lemma {:induction false} RunInv(counts: u32, stimuli: seq<Stimulus>, n: nat)
    requires n <= |stimuli|
    ensures Inv(After(counts, stimuli, n)) && (counts >= 2 ==> IndexInv(counts, After(counts, stimuli, n)))
  {
    hide Inv, IndexInv, Step;
    if n == 0 {
      ResetInv(counts);
    } else {
      RunInv(counts, stimuli, n - 1);
      InvStep(counts, After(counts, stimuli, n - 1), stimuli[n - 1]);
    }
  }

  lemma Delay(counts: u32, stimuli: seq<Stimulus>, n: nat)
    requires n + 3 <= |stimuli|
    ensures After(counts, stimuli, n + 3).ago3 == After(counts, stimuli, n).now
  {
    hide E.Next, D.Next, NextMoment;
    assert After(counts, stimuli, n + 1).ago1 == After(counts, stimuli, n).now;
    assert After(counts, stimuli, n + 2).ago2 == After(counts, stimuli, n + 1).ago1;
  }

  /** Loopback: for every history of enable, direction, step period, fault
      clearing and timestamps, three clocks later the decoder holds the
      emulator's position modulo 2^32 and the direction of its last step, has
      given one step pulse per step and, with at least two counts a revolution,
      one index pulse per whole revolution, and has never seen an illegal
      transition. */
  lemma Loopback(counts: u32, stimuli: seq<Stimulus>, n: nat)
    requires n + 3 <= |stimuli|
    ensures var e, d := After(counts, stimuli, n), After(counts, stimuli, n + 3);
            && d.d.position == e.e.position && d.d.forward == e.now.forward && d.pulses == e.now.steps
            && (counts >= 2 ==>
              d.indexes == e.now.turns && e.now.steps == e.now.turns * counts + e.e.revolution &&
                  e.e.revolution < counts)
    ensures forall k :: 0 <= k <= |stimuli| ==> !After(counts, stimuli, k).d.illegal
  {
    hide After, Step, Follows, Indexes;
    RunInv(counts, stimuli, n);
    RunInv(counts, stimuli, n + 3);
    Delay(counts, stimuli, n);
    forall k | 0 <= k <= |stimuli| ensures !After(counts, stimuli, k).d.illegal {
      RunInv(counts, stimuli, k);
    }
  }

  /** The net position: forward minus backward steps, modulo 2^32. */
  function NetSteps(counts: u32, stimuli: seq<Stimulus>, n: nat): int
    requires n <= |stimuli|
  {
    if n == 0 then 0
    else
      var i := stimuli[n - 1].emulator;
      NetSteps(counts, stimuli, n - 1)
      + if !E.StepDue(After(counts, stimuli, n - 1).e, i) then 0 else if i.forward then 1 else -1
  }

  lemma {:induction false} PositionIsNet(counts: u32, stimuli: seq<Stimulus>, n: nat)
    requires n <= |stimuli|
    ensures After(counts, stimuli, n).e.position == Wrap(NetSteps(counts, stimuli, n))
  {
    hide D.Next, NextMoment, E.Turned;
    if n == 0 {
    } else {
      PositionIsNet(counts, stimuli, n - 1);
      PlusWrap(NetSteps(counts, stimuli, n - 1), 1);
    }
  }

  // ---- how fast, and when ----

  /** Enabled throughout, at one step period. */
  predicate Steady(stimuli: seq<Stimulus>, period: u32) {
    forall k :: 0 <= k < |stimuli| ==> stimuli[k].emulator.enable && stimuli[k].emulator.period == period
  }

  lemma TickStep(counts: u32, e: E.Regs, i: E.Inputs, n: nat, steps: nat, p: nat)
    requires i.enable && 1 <= p < M32 && p == Max(1, i.period) && n == steps * p + e.tick && e.tick < p
    ensures E.StepDue(e, i) <==> e.tick == p - 1
    ensures E.Next(counts, e, i).tick < p
    ensures n + 1 == (if E.StepDue(e, i) then steps + 1 else steps) * p + E.Next(counts, e, i).tick
  {
    hide E.Turned;
    assert (steps + 1) * p == steps * p + p;
  }

  /** Enabled at a constant period the emulator steps exactly once every `period`
      clocks, or every clock for a period of 0 or 1: after `n` clocks it has made
      n / period steps, with the remainder on its tick counter. */
  lemma {:induction false} SteadyRate(counts: u32, stimuli: seq<Stimulus>, n: nat, period: u32)
    requires n <= |stimuli| && Steady(stimuli, period)
    ensures var s := After(counts, stimuli, n);
            n == s.now.steps * Max(1, period) + s.e.tick && s.e.tick < Max(1, period)
  {
    hide E.Next, D.Next;
    if n == 0 {
    } else {
      SteadyRate(counts, stimuli, n - 1, period);
      var s := After(counts, stimuli, n - 1);
      TickStep(counts, s.e, stimuli[n - 1].emulator, n - 1, s.now.steps, Max(1, period));
    }
  }

  /** Disabled it stands still: lines, position and steps stay, Z goes low and the
      step timer starts again. */
  lemma DisabledHolds(counts: u32, s: State, i: Stimulus)
    requires !i.emulator.enable
    ensures var n := Step(counts, s, i);
            && n.e.out == s.e.out && n.e.phase == s.e.phase && n.e.position == s.e.position
            && n.e.revolution == s.e.revolution && !n.e.z && n.e.tick == 0 && n.now.steps == s.now.steps
  {
    hide D.Next;
  }

  // ---- the decoder on any lines ----

  /** The lines `k` clocks before clock `n`, low before the first. */
  function LinesAt(inputs: seq<D.Inputs>, k: int): D.Lines
    requires k <= |inputs|
  {
    if 0 <= k < |inputs| then inputs[k].lines else D.QUIET
  }

  function Decoded(inputs: seq<D.Inputs>, n: nat): D.Regs
    requires n <= |inputs|
  {
    if n == 0 then D.RESET else D.Next(Decoded(inputs, n - 1), inputs[n - 1])
  }

  /** On clock `n` the decoder compares the lines of two and three clocks before. */
  function Sees(inputs: seq<D.Inputs>, n: nat): (D.Lines, D.Lines)
    requires n <= |inputs|
  {
    (LinesAt(inputs, n - 3), LinesAt(inputs, n - 2))
  }

  lemma {:induction false} Pipeline(inputs: seq<D.Inputs>, n: nat)
    requires n <= |inputs|
    ensures var r := Decoded(inputs, n);
            r.meta == LinesAt(inputs, n - 1) && r.sync == LinesAt(inputs, n - 2) && r.prev == LinesAt(inputs, n - 3)
  {
    hide D.Decode;
    if n == 0 {
    } else {
      Pipeline(inputs, n - 1);
    }
  }

  /** Both lines change between one clock and the next. */
  predicate Jumps(inputs: seq<D.Inputs>, n: nat)
    requires n <= |inputs|
  {
    var (was, now) := Sees(inputs, n);
    was.ab.a != now.ab.a && was.ab.b != now.ab.b
  }

  predicate Moves(inputs: seq<D.Inputs>, n: nat)
    requires n <= |inputs|
  {
    var (was, now) := Sees(inputs, n);
    was.ab != now.ab
  }

  /** For any lines at all, on every clock: the illegal latch is up exactly if both
      lines have jumped together since it was last cleared; a step pulse follows
      every change of one line, an index pulse every rise of Z, and the edge time is
      that of the last change. */
  lemma {:induction false} DecoderExact(inputs: seq<D.Inputs>, n: nat) returns (j: int)
    requires n < |inputs|
    ensures var r := Decoded(inputs, n + 1);
            && (r.illegal <==> exists k :: 0 <= k <= n && Jumps(inputs, k) && forall i :: k < i <= n ==>
                !inputs[i].clearFaults)
            && (r.step <==> Moves(inputs, n) && !Jumps(inputs, n))
            && (r.index <==> Sees(inputs, n).1.z && !Sees(inputs, n).0.z)
    ensures -1 <= j <= n && forall k :: j < k <= n ==> !Moves(inputs, k)
    ensures if j < 0 then Decoded(inputs, n + 1).edgeAt == 0
            else Moves(inputs, j) && Decoded(inputs, n + 1).edgeAt == inputs[j].timestamp
  {
    hide D.Decode, Sees, LinesAt;
    Pipeline(inputs, n);
    DecodesAs(inputs, n);
    var before := Decoded(inputs, n);
    if n == 0 {
      j := if Moves(inputs, 0) then 0 else -1;
    } else {
      j := DecoderExact(inputs, n - 1);
      if Moves(inputs, n) {
        j := n;
      }
      if before.illegal && !inputs[n].clearFaults {
        var k :| 0 <= k <= n - 1 && Jumps(inputs, k) && forall i :: k < i <= n - 1 ==> !inputs[i].clearFaults;
        assert forall i :: k < i <= n ==> !inputs[i].clearFaults;
      }
    }
  }

  lemma DecodesAs(inputs: seq<D.Inputs>, n: nat)
    requires n < |inputs|
    ensures var r, m := Decoded(inputs, n), D.Decode(Sees(inputs, n).0.ab, Sees(inputs, n).1.ab);
            && D.Decode(r.prev.ab, r.sync.ab) == m && r.sync.z == Sees(inputs, n).1.z && r.prev.z == Sees(inputs, n).0.z
            && (m == D.Still <==> !Moves(inputs, n)) && (m == D.Illegal <==> Jumps(inputs, n))
  {
    hide D.Next;
    Pipeline(inputs, n);
  }
}
