/** rtl/generator/pwm_complementary_generator.v. */
module PwmGenerator {
  import opened Words

  datatype Inputs = Inputs(enable: bool, period: u32, highTicks: u32, dead: u32)

  datatype Regs = Regs(counter: u32, high: bool, low: bool, cycle: bool)

  const RESET := Regs(0, false, false, false)

  predicate InHigh(i: Inputs, counter: int) {
    i.highTicks > i.dead && i.dead <= counter < i.highTicks
  }

  predicate InLow(i: Inputs, counter: int) {
    var start := i.highTicks as int + i.dead;
    start < M32 && start < i.period && start <= counter < i.period
  }

  function Next(r: Regs, i: Inputs): Regs {
    if !i.enable || i.period < 4 then Regs(0, false, false, false)
    else if r.counter >= i.period - 1 then Regs(0, InHigh(i, r.counter), InLow(i, r.counter), true)
    else Regs(r.counter + 1, InHigh(i, r.counter), InLow(i, r.counter), false)
  }

  class Generator {
    var regs: Regs

    constructor ()
      ensures regs == RESET
    {
      regs := RESET;
    }

    method Clock(i: Inputs)
      modifies this
      ensures regs == Next(old(regs), i)
      ensures !(regs.high && regs.low)
    {
      var lowStart := i.highTicks as int + i.dead;
      var n := regs.(cycle := false);
      if !i.enable || !(i.period >= 4) {
        n := n.(counter := 0, high := false, low := false);
      } else {
        if regs.counter >= i.period - 1 {
          n := n.(counter := 0, cycle := true);
        } else {
          n := n.(counter := Plus(regs.counter, 1));
        }
        n := n.(high := i.highTicks > i.dead && regs.counter >= i.dead && regs.counter < i.highTicks);
        n := n.(low := lowStart / M32 == 0 && lowStart % M32 < i.period && regs.counter >= lowStart % M32 &&
                regs.counter < i.period);
      }
      regs := n;
    }
  }

  /** Never both on, even when the parameters change on every clock. */
  lemma NeverBoth(r: Regs, i: Inputs)
    ensures !(Next(r, i).high && Next(r, i).low)
  {
  }

  /** The registers after any history of parameters; in none are both on. */
  function After(inputs: seq<Inputs>): (r: Regs)
    ensures !(r.high && r.low)
  {
    if inputs == [] then RESET else Next(After(inputs[..|inputs| - 1]), inputs[|inputs| - 1])
  }
}

/** The generator's windows and, for any waveform at all, what the receivers make of
    it. */
module PwmWaveforms {
  import BitNumbers
  import opened Timestamps
  import opened Words
  import G = PwmGenerator
  import R = PwmReceiver
  import M = PwmMonitor

  // ---- the generator at constant parameters ----

  /** Whatever the parameters, as long as they stay and enable is high: the counter
      is the clock modulo the period, the high output is on from `dead` to
      `highTicks`, the low one from `highTicks + dead` to the end of the period, and
      the cycle pulse comes once a period. */
  lemma {:induction false} WindowsExact(inputs: seq<G.Inputs>, i: G.Inputs)
    requires i.enable && i.period >= 4 && forall k :: 0 <= k < |inputs| ==> inputs[k] == i
    ensures G.After(inputs).counter == |inputs| % i.period
    ensures |inputs| > 0 ==>
              var r, x := G.After(inputs), (|inputs| - 1) % i.period;
              && (r.high <==> i.dead <= x < i.highTicks) && (r.low <==> i.highTicks as int + i.dead <= x)
              && (r.cycle <==> |inputs| % i.period == 0)
  {
    hide G.Next;
    if inputs == [] {
    } else {
      WindowsExact(inputs[..|inputs| - 1], i);
      Cyclic(|inputs| - 1, i.period);
      OneClock(G.After(inputs[..|inputs| - 1]), i);
    }
  }

  lemma OneClock(r: G.Regs, i: G.Inputs)
    requires i.enable && i.period >= 4 && r.counter < i.period
    ensures var n, x := G.Next(r, i), r.counter;
            && n.counter == (if x == i.period - 1 then 0 else x + 1) && (n.cycle <==> x == i.period - 1)
            && (n.high <==> i.dead <= x < i.highTicks) && (n.low <==> i.highTicks as int + i.dead <= x)
  {
  }

  lemma Cyclic(n: nat, p: nat)
    requires p > 1
    ensures (n + 1) % p == if n % p == p - 1 then 0 else n % p + 1
  {
    var q, r := n / p, n % p;
    assert n == q * p + r;
    assert (q + 1) * p == q * p + p;
    if r == p - 1 {
      BitNumbers.Remainder(n + 1, q + 1, p, 0);
    } else {
      BitNumbers.Remainder(n + 1, q, p, r + 1);
    }
  }

  /** Disabled, or with a period below 4, the generator is back at its reset state. */
  lemma OffAtOnce(inputs: seq<G.Inputs>, i: G.Inputs)
    requires !i.enable || i.period < 4
    ensures G.After(inputs + [i]) == G.RESET
  {
    assert (inputs + [i])[..|inputs|] == inputs;
  }

  // ---- edges of any waveform, as seen behind the synchroniser ----

  function Level(levels: seq<bool>, k: int): bool {
    0 <= k < |levels| && levels[k]
  }

  /** On clock `n` the level of two clocks before differs from that of three before. */
  predicate Rises(levels: seq<bool>, n: int) {
    Level(levels, n - 2) && !Level(levels, n - 3)
  }

  predicate Falls(levels: seq<bool>, n: int) {
    !Level(levels, n - 2) && Level(levels, n - 3)
  }

  /** The last clock before `n` with a rise, or a fall; -1 without. */
  function LastRise(levels: seq<bool>, n: nat): (j: int)
    ensures -1 <= j < n && (j >= 0 ==> Rises(levels, j)) && forall k :: j < k < n ==> !Rises(levels, k)
  {
    if n == 0 then -1 else if Rises(levels, n - 1) then n - 1 else LastRise(levels, n - 1)
  }

  function LastFall(levels: seq<bool>, n: nat): (j: int)
    ensures -1 <= j < n && (j >= 0 ==> Falls(levels, j)) && forall k :: j < k < n ==> !Falls(levels, k)
  {
    if n == 0 then -1 else if Falls(levels, n - 1) then n - 1 else LastFall(levels, n - 1)
  }

  /** The time between two timestamps, as 64 bits and saturated to 32. */
  function Between(now: u64, then_: u64): int {
    (now - then_) % 0x1_0000_0000_0000_0000
  }

  function Saturated(d: int): int {
    if d > 0xffff_ffff then 0xffff_ffff else d
  }

  // ---- the receiver ----

  function Pwm(inputs: seq<R.Inputs>): (l: seq<bool>)
    ensures |l| == |inputs|
  {
    seq(|inputs|, k requires 0 <= k < |inputs| => inputs[k].pwm)
  }

  function Received(inputs: seq<R.Inputs>, n: nat): R.Regs
    requires n <= |inputs|
  {
    if n == 0 then R.RESET else R.Next(Received(inputs, n - 1), inputs[n - 1])
  }

  lemma {:induction false} ReceiverKnows(inputs: seq<R.Inputs>, n: nat)
    requires n <= |inputs|
    ensures var r, l := Received(inputs, n), Pwm(inputs);
            && r.meta == Level(l, n - 1) && r.sync == Level(l, n - 2) && r.d == Level(l, n - 3)
            && r.haveRise == (LastRise(l, n) >= 0) && (r.haveRise ==> r.riseAt == inputs[LastRise(l, n)].timestamp)
            && r.haveFall == (LastFall(l, n) >= 0) && (r.haveFall ==> r.fallAt == inputs[LastFall(l, n)].timestamp)
  {
    hide Delta, R.Ticks;
    if n == 0 {
    } else {
      ReceiverKnows(inputs, n - 1);
    }
  }

  /** For any waveform and any timestamps, on every clock: a period is given exactly
      on a rise that has a rise before it, and is the time since the last one; a low
      time on a rise that has a fall before it; a high time on a fall that has a rise
      before it; times of 2^32 and more saturate, and without a new one the old value
      stays. */
  lemma ReceiverMeasures(inputs: seq<R.Inputs>, n: nat)
    requires n < |inputs|
    ensures var l, was, r, now := Pwm(inputs), Received(inputs, n), Received(inputs, n + 1), inputs[n].timestamp;
            var rise, fall := LastRise(l, n), LastFall(l, n);
            && (r.periodValid <==> Rises(l, n) && rise >= 0) && (r.highValid <==> Falls(l, n) && rise >= 0)
            && (r.lowValid <==> Rises(l, n) && fall >= 0)
            && r.period == (if r.periodValid then Saturated(Between(now, inputs[rise].timestamp)) else was.period)
            && r.high == (if r.highValid then Saturated(Between(now, inputs[rise].timestamp)) else was.high)
            && r.low == (if r.lowValid then Saturated(Between(now, inputs[fall].timestamp)) else was.low)
  {
    ReceiverKnows(inputs, n);
    hide LastRise, LastFall;
  }

  // ---- the monitor ----

  function Side(inputs: seq<M.Inputs>, high: bool): (l: seq<bool>)
    ensures |l| == |inputs|
  {
    seq(|inputs|, k requires 0 <= k < |inputs| => if high then inputs[k].high else inputs[k].low)
  }

  function Watched(inputs: seq<M.Inputs>, n: nat): M.Regs
    requires n <= |inputs|
  {
    if n == 0 then M.RESET else M.Next(Watched(inputs, n - 1), inputs[n - 1])
  }

  predicate LineKnows(inputs: seq<M.Inputs>, n: nat, high: bool, l: M.Line)
    requires n <= |inputs|
  {
    var levels := Side(inputs, high);
    && l.meta == Level(levels, n - 1) && l.sync == Level(levels, n - 2) && l.d == Level(levels, n - 3)
    && l.fallSeen == (LastFall(levels, n) >= 0) && (l.fallSeen ==> l.fallAt == inputs[LastFall(levels, n)].timestamp)
  }

  lemma LineMoves(inputs: seq<M.Inputs>, n: nat, high: bool, l: M.Line)
    requires n < |inputs| && LineKnows(inputs, n, high, l)
    ensures LineKnows(inputs, n + 1, high,
                      M.NextLine(l, if high then inputs[n].high else inputs[n].low, inputs[n].timestamp))
  {
  }

  lemma {:induction false} MonitorKnows(inputs: seq<M.Inputs>, n: nat)
    requires n <= |inputs|
    ensures LineKnows(inputs, n, true, Watched(inputs, n).high) && LineKnows(inputs, n, false, Watched(inputs, n).low)
  {
    hide Delta, M.Gap, M.NextLine;
    if n == 0 {
    } else {
      MonitorKnows(inputs, n - 1);
      LineMoves(inputs, n - 1, true, Watched(inputs, n - 1).high);
      LineMoves(inputs, n - 1, false, Watched(inputs, n - 1).low);
      hide LineKnows;
    }
  }

  /** The dead time that ends on clock `n`, when the other side of `offHigh` turns on:
      zero if this side turns off on the same clock, else the time since it did. */
  function DeadTime(inputs: seq<M.Inputs>, n: nat, offHigh: bool): Option<int>
    requires n < |inputs|
  {
    var off, on := Side(inputs, offHigh), Side(inputs, !offHigh);
    if !Rises(on, n) then None
    else if Falls(off, n) then Some(0)
    else if LastFall(off, n) >= 0 then Some(Between(inputs[n].timestamp, inputs[LastFall(off, n)].timestamp))
    else None
  }

  /** A dead time below the minimum ends on clock `n`, in either direction. */
  predicate EndsShort(inputs: seq<M.Inputs>, n: nat)
    requires n < |inputs|
  {
    exists offHigh: bool :: DeadTime(inputs, n, offHigh).Some? && DeadTime(inputs, n, offHigh).value < inputs[n].minimum
  }

  predicate BothOn(inputs: seq<M.Inputs>, n: nat) {
    Level(Side(inputs, true), n - 2) && Level(Side(inputs, false), n - 2)
  }

  lemma MonitorStep(inputs: seq<M.Inputs>, n: nat)
    requires n < |inputs|
    ensures var was, r, down, up := Watched(inputs, n), Watched(inputs, n + 1), DeadTime(inputs, n, true),
            DeadTime(inputs, n, false);
            && r.highToLow == (if down.Some? then M.Dead(down.value % 0x1_0000_0000, true)
                               else was.highToLow.(valid := false))
            && r.lowToHigh == (if up.Some? then M.Dead(up.value % 0x1_0000_0000, true)
                               else was.lowToHigh.(valid := false))
            && r.shoot == (BothOn(inputs, n) || (was.shoot && !inputs[n].clearFaults))
            && r.violation == (EndsShort(inputs, n) || (was.violation && !inputs[n].clearFaults))
  {
    hide LastFall, Side;
    MonitorKnows(inputs, n);
    var down, up := DeadTime(inputs, n, true), DeadTime(inputs, n, false);
    assert EndsShort(inputs, n) <==>
           (down.Some? && down.value < inputs[n].minimum) || (up.Some? && up.value < inputs[n].minimum);
  }

  /** For any two waveforms, timestamps, minima and clears: each dead time is given on
      the turn-on that ends it; the shoot-through latch is up exactly if both lines
      have been high together since it was last cleared, and the violation latch
      exactly if a dead time below the minimum of its clock has ended since. */
  lemma {:induction false} MonitorExact(inputs: seq<M.Inputs>, n: nat)
    requires n < |inputs|
    ensures var r, down, up := Watched(inputs, n + 1), DeadTime(inputs, n, true), DeadTime(inputs, n, false);
            && r.highToLow.valid == down.Some? && (down.Some? ==> r.highToLow.ticks == down.value % 0x1_0000_0000)
            && r.lowToHigh.valid == up.Some? && (up.Some? ==> r.lowToHigh.ticks == up.value % 0x1_0000_0000)
    ensures Watched(inputs, n + 1).shoot <==>
            exists k :: 0 <= k <= n && BothOn(inputs, k) && forall i :: k < i <= n ==> !inputs[i].clearFaults
    ensures Watched(inputs, n + 1).violation <==>
            exists k :: 0 <= k <= n && EndsShort(inputs, k) && forall i :: k < i <= n ==> !inputs[i].clearFaults
  {
    hide M.Next, DeadTime, EndsShort, BothOn;
    MonitorStep(inputs, n);
    if n == 0 {
    } else {
      MonitorExact(inputs, n - 1);
      var was := Watched(inputs, n);
      if was.shoot && !inputs[n].clearFaults {
        var k :| 0 <= k <= n - 1 && BothOn(inputs, k) && forall i :: k < i <= n - 1 ==> !inputs[i].clearFaults;
        assert forall i :: k < i <= n ==> !inputs[i].clearFaults;
      }
      if was.violation && !inputs[n].clearFaults {
        var k :| 0 <= k <= n - 1 && EndsShort(inputs, k) && forall i :: k < i <= n - 1 ==> !inputs[i].clearFaults;
        assert forall i :: k < i <= n ==> !inputs[i].clearFaults;
      }
    }
  }
}

/** rtl/capture/pwm_capture.v behind its rtl/common/sync_2ff.v. */
module PwmReceiver {
  import opened Timestamps
  import opened Words

  datatype Inputs = Inputs(pwm: bool, timestamp: u64)

  datatype Regs = Regs(
    meta: bool, sync: bool, d: bool, haveRise: bool, haveFall: bool, riseAt: u64, fallAt: u64,
    period: u32, high: u32, low: u32, periodValid: bool, highValid: bool, lowValid: bool)

  const RESET := Regs(false, false, false, false, false, 0, 0, 0, 0, 0, false, false, false)

  /** Longer than 32 bits saturates. */
  function Ticks(delta: u64): u32 { if delta >= M32 then 0xffff_ffff else delta }

  function Next(r: Regs, i: Inputs): Regs {
    var rise, fall := r.sync && !r.d, !r.sync && r.d;
    var now := i.timestamp;
    Regs(i.pwm, r.meta, r.sync, r.haveRise || rise, r.haveFall || fall,
         if rise then now else r.riseAt, if fall then now else r.fallAt,
         if rise && r.haveRise then Ticks(Delta(now, r.riseAt)) else r.period,
         if fall && r.haveRise then Ticks(Delta(now, r.riseAt)) else r.high,
         if rise && r.haveFall then Ticks(Delta(now, r.fallAt)) else r.low,
         rise && r.haveRise, fall && r.haveRise, rise && r.haveFall)
  }

  class Capture {
    var regs: Regs

    constructor ()
      ensures regs == RESET
    {
      regs := RESET;
    }

    method Clock(i: Inputs)
      modifies this
      ensures regs == Next(old(regs), i)
    {
      hide Delta;
      var riseEdge, fallEdge := regs.sync && !regs.d, !regs.sync && regs.d;
      var periodDelta := Delta(i.timestamp, regs.riseAt);
      var highDelta := Delta(i.timestamp, regs.riseAt);
      var lowDelta := Delta(i.timestamp, regs.fallAt);
      var n := regs.(meta := i.pwm, sync := regs.meta, d := regs.sync);
      n := n.(periodValid := false, highValid := false, lowValid := false);
      if riseEdge {
        if regs.haveRise {
          n := n.(period := if periodDelta >= M32 then 0xffff_ffff else periodDelta, periodValid := true);
        }
        if regs.haveFall {
          n := n.(low := if lowDelta >= M32 then 0xffff_ffff else lowDelta, lowValid := true);
        }
        n := n.(riseAt := i.timestamp, haveRise := true);
      }
      if fallEdge {
        if regs.haveRise {
          n := n.(high := if highDelta >= M32 then 0xffff_ffff else highDelta, highValid := true);
        }
        n := n.(fallAt := i.timestamp, haveFall := true);
      }
      regs := n;
    }
  }
}

/** rtl/capture/pwm_complementary_monitor.v behind its rtl/common/sync_2ff.v. */
module PwmMonitor {
  import opened Timestamps
  import opened Words

  datatype Inputs = Inputs(high: bool, low: bool, timestamp: u64, minimum: u32, clearFaults: bool)

  /** One line: two synchroniser stages, the edge detector, its last falling edge. */
  datatype Line = Line(meta: bool, sync: bool, d: bool, fallAt: u64, fallSeen: bool) {
    predicate Rise() { sync && !d }
    predicate Fall() { !sync && d }
  }

  /** One dead time: its last value and its valid pulse. */
  datatype Dead = Dead(ticks: u32, valid: bool)

  datatype Regs = Regs(high: Line, low: Line, highToLow: Dead, lowToHigh: Dead, shoot: bool, violation: bool)

  const NO_EDGE := Line(false, false, false, 0, false)

  const RESET := Regs(NO_EDGE, NO_EDGE, Dead(0, false), Dead(0, false), false, false)

  function NextLine(l: Line, level: bool, now: u64): Line {
    Line(level, l.meta, l.sync, if l.Fall() then now else l.fallAt, l.fallSeen || l.Fall())
  }

  /** The 64-bit dead time that the turn-on of `next` ends, if it does. */
  function Gap(prev: Line, next: Line, now: u64): Option<u64> {
    if !next.Rise() then None
    else if prev.Fall() then Some(0)
    else if prev.fallSeen then Some(Delta(now, prev.fallAt))
    else None
  }

  function NextDead(d: Dead, gap: Option<u64>): Dead {
    if gap.Some? then Dead(Wrap(gap.value), true) else d.(valid := false)
  }

  predicate TooShort(gap: Option<u64>, minimum: u32) {
    gap.Some? && gap.value < minimum
  }

  function Next(r: Regs, i: Inputs): Regs {
    var down, up := Gap(r.high, r.low, i.timestamp), Gap(r.low, r.high, i.timestamp);
    Regs(NextLine(r.high, i.high, i.timestamp), NextLine(r.low, i.low, i.timestamp),
         NextDead(r.highToLow, down), NextDead(r.lowToHigh, up),
         (r.high.sync && r.low.sync) || (r.shoot && !i.clearFaults),
         TooShort(down, i.minimum) || TooShort(up, i.minimum) || (r.violation && !i.clearFaults))
  }

  class Monitor {
    var regs: Regs

    constructor ()
      ensures regs == RESET
    {
      regs := RESET;
    }

    method Clock(i: Inputs)
      modifies this
      ensures regs == Next(old(regs), i)
    {
      hide Delta, Wrap;
      WrapZero();
      var now, h, l := i.timestamp, regs.high, regs.low;
      var highFall, lowFall := !h.sync && h.d, !l.sync && l.d;
      var nh, nl := h.(meta := i.high, sync := h.meta, d := h.sync), l.(meta := i.low, sync := l.meta, d := l.sync);
      var down, up := regs.highToLow.(valid := false), regs.lowToHigh.(valid := false);
      var shoot, violation := regs.shoot, regs.violation;
      if i.clearFaults {
        shoot, violation := false, false;
      }
      if h.sync && l.sync {
        shoot := true;
      }
      if highFall {
        nh := nh.(fallAt := now, fallSeen := true);
      }
      if lowFall {
        nl := nl.(fallAt := now, fallSeen := true);
      }
      if l.sync && !l.d {
        if highFall {
          down := Dead(0, true);
          if i.minimum != 0 { violation := true; }
        } else if h.fallSeen {
          down := Dead(Wrap(Delta(now, h.fallAt)), true);
          if Delta(now, h.fallAt) < i.minimum { violation := true; }
        }
      }
      if h.sync && !h.d {
        if lowFall {
          up := Dead(0, true);
          if i.minimum != 0 { violation := true; }
        } else if l.fallSeen {
          up := Dead(Wrap(Delta(now, l.fallAt)), true);
          if Delta(now, l.fallAt) < i.minimum { violation := true; }
        }
      }
      regs := Regs(nh, nl, down, up, shoot, violation);
    }
  }

  lemma WrapZero()
    ensures Wrap(0) == 0
  {
  }
}

/** The generator wired to both receivers. */
module PwmLoopback {
  import opened Timestamps
  import opened Words
  import G = PwmGenerator
  import R = PwmReceiver
  import M = PwmMonitor

  /** Constant parameters; the timebase reads `base` on the first clock. */
  datatype Setup = Setup(period: u32, highTicks: u32, dead: u32, base: nat) {
    predicate Valid() {
      period >= 4 && dead < highTicks && highTicks + dead < period
    }

    function Drive(): G.Inputs { G.Inputs(true, period, highTicks, dead) }
  }

  datatype Stimulus = Stimulus(minimum: u32, clearFaults: bool)

  /** The modules, the clocks since reset, and when the current period began. */
  datatype Bench = Bench(g: G.Regs, c: R.Regs, m: M.Regs, t: nat, began: nat)

  const RESET := Bench(G.RESET, R.RESET, M.RESET, 0, 0)

  predicate InTime(p: Setup, s: Bench) {
    p.base + s.t < M64
  }

  function Step(p: Setup, s: Bench, i: Stimulus): Bench
    requires InTime(p, s)
  {
    var now: u64 := p.base + s.t;
    var g := G.Next(s.g, p.Drive());
    Bench(g, R.Next(s.c, R.Inputs(s.g.high, now)),
          M.Next(s.m, M.Inputs(s.g.high, s.g.low, now, i.minimum, i.clearFaults)),
          s.t + 1, if g.cycle then s.began + p.period else s.began)
  }

  // ---- positions in the period ----

  /** The counter `k` clocks ago. */
  function Lag(p: Setup, s: Bench, k: nat): int {
    if s.g.counter >= k then s.g.counter - k else s.g.counter - k + p.period
  }

  predicate HighAt(p: Setup, x: int) { p.dead <= x < p.highTicks }

  predicate LowAt(p: Setup, x: int) { p.highTicks + p.dead <= x < p.period }

  predicate WasHigh(p: Setup, s: Bench, k: nat) {
    s.t >= k && HighAt(p, Lag(p, s, k))
  }

  predicate WasLow(p: Setup, s: Bench, k: nat) {
    s.t >= k && LowAt(p, Lag(p, s, k))
  }

  /** The counter counts the clocks of the current period; the first three are
      told apart. */
  predicate InPeriod(p: Setup, s: Bench) {
    && s.g.counter < p.period && s.t == s.began + s.g.counter
    && (s.began == 0 || s.began == p.period || s.began == 2 * p.period || s.began >= 3 * p.period)
  }

  /** The counter's position and the delay line of either level. */
  predicate Lines(p: Setup, s: Bench) {
    && InPeriod(p, s)
    && s.g.high == WasHigh(p, s, 1) && s.g.low == WasLow(p, s, 1)
    && s.c.meta == s.m.high.meta == WasHigh(p, s, 2) && s.m.low.meta == WasLow(p, s, 2)
    && s.c.sync == s.m.high.sync == WasHigh(p, s, 3) && s.m.low.sync == WasLow(p, s, 3)
    && s.c.d == s.m.high.d == WasHigh(p, s, 4) && s.m.low.d == WasLow(p, s, 4)
  }

  lemma LagMoves(p: Setup, s: Bench, i: Stimulus, k: nat)
    requires p.Valid() && InTime(p, s) && Lines(p, s) && k <= 3
    ensures var n := Step(p, s, i);
            && Lag(p, n, k + 1) == Lag(p, s, k) && WasHigh(p, n, k + 1) == WasHigh(p, s, k) &&
               WasLow(p, n, k + 1) == WasLow(p, s, k)
  {
    hide R.Next, M.Next;
  }

  /** Both delay lines move on by one register. */
  lemma Shifts(p: Setup, s: Bench, i: Stimulus)
    requires InTime(p, s)
    ensures var n := Step(p, s, i);
            && n.c.meta == n.m.high.meta == s.g.high && n.m.low.meta == s.g.low
            && n.c.sync == s.c.meta && n.m.high.sync == s.m.high.meta && n.m.low.sync == s.m.low.meta
            && n.c.d == s.c.sync && n.m.high.d == s.m.high.sync && n.m.low.d == s.m.low.sync
  {
    hide Delta, G.Next;
  }

  lemma LinesStep(p: Setup, s: Bench, i: Stimulus)
    requires p.Valid() && InTime(p, s) && Lines(p, s)
    ensures Lines(p, Step(p, s, i))
  {
    hide Lag, HighAt, LowAt, InPeriod, WasHigh, WasLow, Step;
    LagMoves(p, s, i, 0);
    LagMoves(p, s, i, 1);
    LagMoves(p, s, i, 2);
    LagMoves(p, s, i, 3);
    CounterStep(p, s, i);
    Shifts(p, s, i);
  }

  lemma CounterStep(p: Setup, s: Bench, i: Stimulus)
    requires p.Valid() && InTime(p, s) && InPeriod(p, s)
    ensures var n := Step(p, s, i);
            InPeriod(p, n) && n.g.high == WasHigh(p, s, 0) && n.g.low == WasLow(p, s, 0)
  {
    hide M.Next, R.Next;
  }

  // ---- measurements ----

  /** Where the synchroniser outputs stand in the period after `t` clocks: the
      position `at`, and `before` in the edge detectors. */
  predicate Stands(p: Setup, t: nat, at: int, before: int) {
    && 0 <= at < p.period && before == (if at == 0 then p.period - 1 else at - 1)
    && (t >= 3 ==> at == t - 3 || at == t - 3 - p.period || t >= 2 * p.period + at + 3)
    && (t < 3 ==> at == t - 3 + p.period)
  }

  lemma Positions(p: Setup, s: Bench)
    requires p.Valid() && Lines(p, s)
    ensures Stands(p, s.t, Lag(p, s, 3), Lag(p, s, 4))
  {
  }

  /** The position at the synchroniser outputs moves on by one. */
  function Following(p: Setup, at: int): int {
    if at + 1 == p.period then 0 else at + 1
  }

  /** What the receivers see of it: rise and fall of the high line, rise and fall
      of the low line. */
  datatype View = View(highRise: bool, highFall: bool, lowRise: bool, lowFall: bool)

  function Seen(p: Setup, t: nat, at: int): View {
    View(t >= 3 && at == p.dead, t >= 3 && at == p.highTicks,
         t >= 3 && at == p.highTicks + p.dead, t >= p.period + 3 && at == 0)
  }

  lemma EdgesAt(p: Setup, t: nat, at: int, before: int)
    requires p.Valid() && Stands(p, t, at, before)
    ensures var h, hd := t >= 3 && HighAt(p, at), t >= 4 && HighAt(p, before);
            var l, ld := t >= 3 && LowAt(p, at), t >= 4 && LowAt(p, before);
            View(h && !hd, !h && hd, l && !ld, !l && ld) == Seen(p, t, at) && !(h && l)
  {
  }

  lemma Edges(p: Setup, s: Bench)
    requires p.Valid() && Lines(p, s)
    ensures Seen(p, s.t, Lag(p, s, 3)) == View(s.m.high.Rise(), s.m.high.Fall(), s.m.low.Rise(), s.m.low.Fall())
    ensures s.c.sync == s.m.high.sync && s.c.d == s.m.high.d && !(s.m.high.sync && s.m.low.sync)
  {
    Positions(p, s);
    hide Stands, HighAt, LowAt, Lag, Seen;
    EdgesAt(p, s.t, Lag(p, s, 3), Lag(p, s, 4));
  }

  /** Clocks since position `x` was last processed. */
  function Since(p: Setup, at: int, x: int): int {
    if at > x then at - x else at - x + p.period
  }

  /** Position `x` of the first period has been processed. */
  predicate Passed(t: nat, x: int) {
    t > x + 3
  }

  /** The capture unit after `t` clocks, at timebase `now`. */
  predicate Captured(p: Setup, c: R.Regs, now: int, t: nat, at: int, before: int) {
    && (c.haveRise <==> Passed(t, p.dead)) && (c.haveFall <==> Passed(t, p.highTicks))
    && (c.haveRise ==> now - c.riseAt == Since(p, at, p.dead))
    && (c.haveFall ==> now - c.fallAt == Since(p, at, p.highTicks))
    && (Passed(t, p.highTicks) ==> c.high == p.highTicks - p.dead)
    && (Passed(t, p.dead + p.period) ==> c.period == p.period && c.low == p.period - p.highTicks + p.dead)
    && (c.periodValid <==> Passed(t, p.dead + p.period) && before == p.dead)
    && (c.lowValid <==> Passed(t, p.dead + p.period) && before == p.dead)
    && (c.highValid <==> Passed(t, p.highTicks) && before == p.highTicks)
  }

  lemma CaptureMoves(p: Setup, c: R.Regs, level: bool, now: u64, t: nat, at: int, before: int)
    requires p.Valid() && Stands(p, t, at, before) && Captured(p, c, now, t, at, before)
    requires c.sync && !c.d <==> Seen(p, t, at).highRise
    requires !c.sync && c.d <==> Seen(p, t, at).highFall
    ensures Captured(p, R.Next(c, R.Inputs(level, now)), now + 1, t + 1, Following(p, at), at)
  {
    if c.haveRise {
      DeltaIs(now, c.riseAt);
    }
    if c.haveFall {
      DeltaIs(now, c.fallAt);
    }
    hide Delta;
  }

  /** One direction's dead time, from the line that turned off at `from` (in the
      period before when `wraps`) to the one that turns on `p.dead` later. */
  predicate Guarded(p: Setup, prev: M.Line, dead: M.Dead, now: int, t: nat, at: int, before: int, from: int,
                    first: int) {
    && (prev.fallSeen <==> Passed(t, first))
    && (prev.fallSeen ==> now - prev.fallAt == Since(p, at, from))
    && (Passed(t, first + p.dead) ==> dead.ticks == p.dead)
    && (dead.valid <==> Passed(t, first + p.dead) && before == from + p.dead)
  }

  lemma GuardMoves(p: Setup, prev: M.Line, next: M.Line, dead: M.Dead, level: bool, now: u64, t: nat, at: int,
                   before: int, from: int, first: int)
    requires p.Valid() && Stands(p, t, at, before) && Guarded(p, prev, dead, now, t, at, before, from, first)
    requires 0 <= from && from + p.dead < p.period && (first == from || first == from + p.period)
    requires prev.Fall() <==> t >= first + 3 && at == from
    requires next.Rise() <==> t >= 3 && at == from + p.dead
    ensures var gap := M.Gap(prev, next, now);
            && Guarded(p, M.NextLine(prev, level, now), M.NextDead(dead, gap), now + 1, t + 1, Following(p, at), at,
                       from, first)
            && (gap == if t >= first + p.dead + 3 && at == from + p.dead then Some(p.dead) else None)
  {
    if prev.fallSeen {
      DeltaIs(now, prev.fallAt);
    }
    hide Delta;
    assert Wrap(p.dead) == p.dead;
  }

  /** The monitor after `t` clocks, at timebase `now`. */
  predicate Monitored(p: Setup, m: M.Regs, now: int, t: nat, at: int, before: int) {
    && Guarded(p, m.high, m.highToLow, now, t, at, before, p.highTicks, p.highTicks)
    && Guarded(p, m.low, m.lowToHigh, now, t, at, before, 0, p.period)
    && !m.shoot
  }

  predicate Inv(p: Setup, s: Bench) {
    && Lines(p, s) && Captured(p, s.c, p.base + s.t, s.t, Lag(p, s, 3), Lag(p, s, 4))
    && Monitored(p, s.m, p.base + s.t, s.t, Lag(p, s, 3), Lag(p, s, 4))
  }

  /** A dead time is measured on this clock. */
  predicate Measures(p: Setup, t: nat, at: int) {
    || (t >= p.highTicks + p.dead + 3 && at == p.highTicks + p.dead)
    || (t >= p.period + p.dead + 3 && at == p.dead)
  }

  lemma MonitorMoves(p: Setup, m: M.Regs, i: M.Inputs, t: nat, at: int, before: int)
    requires p.Valid() && Stands(p, t, at, before) && Monitored(p, m, i.timestamp, t, at, before)
    requires Seen(p, t, at) == View(m.high.Rise(), m.high.Fall(), m.low.Rise(), m.low.Fall()) &&
            !(m.high.sync && m.low.sync)
    ensures var n := M.Next(m, i);
            && Monitored(p, n, i.timestamp + 1, t + 1, Following(p, at), at)
            && (n.violation <==> (m.violation && !i.clearFaults) || (Measures(p, t, at) && p.dead < i.minimum))
  {
    hide Stands, Guarded, Following, Seen, M.Gap, M.NextLine, M.NextDead, M.Line.Rise, M.Line.Fall;
    SeenIn(p, t, at, before);
    assert m.high.Fall() == Seen(p, t, at).highFall && m.low.Fall() == Seen(p, t, at).lowFall;
    assert m.high.Rise() == Seen(p, t, at).highRise && m.low.Rise() == Seen(p, t, at).lowRise;
    GuardMoves(p, m.high, m.low, m.highToLow, i.high, i.timestamp, t, at, before, p.highTicks, p.highTicks);
    GuardMoves(p, m.low, m.high, m.lowToHigh, i.low, i.timestamp, t, at, before, 0, p.period);
  }

  lemma SeenIn(p: Setup, t: nat, at: int, before: int)
    requires p.Valid() && Stands(p, t, at, before)
    ensures Seen(p, t, at).highFall <==> t >= p.highTicks + 3 && at == p.highTicks
    ensures Seen(p, t, at).lowFall <==> t >= p.period + 3 && at == 0
    ensures Seen(p, t, at).highRise <==> t >= 3 && at == 0 + p.dead
    ensures Seen(p, t, at).lowRise <==> t >= 3 && at == p.highTicks + p.dead
  {
  }

  lemma CapturedStep(p: Setup, s: Bench, i: Stimulus)
    requires p.Valid() && InTime(p, s) && Inv(p, s)
    ensures var n := Step(p, s, i); Captured(p, n.c, p.base + n.t, n.t, Following(p, Lag(p, s, 3)), Lag(p, s, 3))
  {
    hide Lag, Lines, G.Next, M.Next, R.Next, Captured, Stands, Monitored, HighAt, LowAt, Following;
    Edges(p, s);
    Positions(p, s);
    CaptureMoves(p, s.c, s.g.high, p.base + s.t, s.t, Lag(p, s, 3), Lag(p, s, 4));
  }

  lemma MonitoredStep(p: Setup, s: Bench, i: Stimulus)
    requires p.Valid() && InTime(p, s) && Inv(p, s)
    ensures var n := Step(p, s, i);
            && Monitored(p, n.m, p.base + n.t, n.t, Following(p, Lag(p, s, 3)), Lag(p, s, 3))
            && (n.m.violation <==>
                (s.m.violation && !i.clearFaults) || (Measures(p, s.t, Lag(p, s, 3)) && p.dead < i.minimum))
  {
    hide Lag, Lines, G.Next, M.Next, R.Next, Captured, Stands, Monitored, Measures, Seen, HighAt, LowAt, Following;
    Edges(p, s);
    Positions(p, s);
    MonitorMoves(p, s.m, M.Inputs(s.g.high, s.g.low, p.base + s.t, i.minimum, i.clearFaults), s.t, Lag(p, s, 3),
                 Lag(p, s, 4));
  }

  lemma InvStep(p: Setup, s: Bench, i: Stimulus)
    requires p.Valid() && InTime(p, s) && Inv(p, s)
    ensures Inv(p, Step(p, s, i))
    ensures Step(p, s, i).m.violation <==>
            (s.m.violation && !i.clearFaults) || (Measures(p, s.t, Lag(p, s, 3)) && p.dead < i.minimum)
  {
    hide Lag, Lines, G.Next, M.Next, R.Next, Captured, Monitored, Measures, WasHigh, WasLow, Following;
    CapturedStep(p, s, i);
    MonitoredStep(p, s, i);
    LinesStep(p, s, i);
    LagOne(p, s, i);
    LagTwo(p, s, i);
  }

  lemma LagTwo(p: Setup, s: Bench, i: Stimulus)
    requires p.Valid() && InTime(p, s) && Lines(p, s)
    ensures Lag(p, Step(p, s, i), 4) == Lag(p, s, 3)
  {
    LagMoves(p, s, i, 3);
  }

  lemma LagOne(p: Setup, s: Bench, i: Stimulus)
    requires p.Valid() && InTime(p, s) && Lines(p, s)
    ensures Lag(p, Step(p, s, i), 3) == Following(p, Lag(p, s, 3))
  {
    hide M.Next, R.Next;
  }

  // ---- whole runs ----

  function After(p: Setup, stimuli: seq<Stimulus>, n: nat): Bench
    requires n <= |stimuli| && p.base + n < M64
    ensures After(p, stimuli, n).t == n
  {
    if n == 0 then RESET else Step(p, After(p, stimuli, n - 1), stimuli[n - 1])
  }

  lemma ResetInv(p: Setup)
    requires p.Valid()
    ensures Inv(p, RESET)
  {
  }

  lemma {:induction false} RunInv(p: Setup, stimuli: seq<Stimulus>, n: nat)
    requires p.Valid() && n <= |stimuli| && p.base + n < M64
    ensures Inv(p, After(p, stimuli, n))
    ensures n < |stimuli| && p.base + n + 1 < M64 ==>
              var s := After(p, stimuli, n);
              After(p, stimuli, n + 1).m.violation <==>
              (s.m.violation && !stimuli[n].clearFaults) ||
                  (Measures(p, n, Lag(p, s, 3)) && p.dead < stimuli[n].minimum)
  {
    hide Inv, Step, Measures;
    if n == 0 {
      ResetInv(p);
    } else {
      RunInv(p, stimuli, n - 1);
      InvStep(p, After(p, stimuli, n - 1), stimuli[n - 1]);
    }
    if n < |stimuli| && p.base + n + 1 < M64 {
      InvStep(p, After(p, stimuli, n), stimuli[n]);
    }
  }

  /** Loopback with constant period P, high time H and dead time D (P >= 4,
      D < H, H + D < P), n clocks after reset: the receivers hold period P, high
      H - D, low P - H + D and both dead times exactly D, from the first whole
      measurement on and for ever; the period is refreshed once per period, and
      shoot-through is never latched. */
  lemma Measured(p: Setup, stimuli: seq<Stimulus>, n: nat)
    requires p.Valid() && n <= |stimuli| && p.base + n < M64
    ensures var s := After(p, stimuli, n);
            && !(s.g.high && s.g.low) && !s.m.shoot
            && (n > p.highTicks + 3 ==> s.c.high == p.highTicks - p.dead)
            && (n > p.dead + p.period + 3 ==> s.c.period == p.period && s.c.low == p.period - p.highTicks + p.dead)
            && (n > p.highTicks + p.dead + 3 ==> s.m.highToLow.ticks == p.dead)
            && (n > p.period + p.dead + 3 ==> s.m.lowToHigh.ticks == p.dead)
            && (s.c.periodValid <==> n > p.dead + p.period + 3 && Lag(p, s, 4) == p.dead)
  {
    RunInv(p, stimuli, n);
    InvTells(p, After(p, stimuli, n));
    if n > 0 {
      G.NeverBoth(After(p, stimuli, n - 1).g, p.Drive());
    }
  }

  lemma InvTells(p: Setup, s: Bench)
    requires p.Valid() && Inv(p, s)
    ensures !s.m.shoot
    ensures s.t > p.highTicks + 3 ==> s.c.high == p.highTicks - p.dead
    ensures s.t > p.dead + p.period + 3 ==> s.c.period == p.period && s.c.low == p.period - p.highTicks + p.dead
    ensures s.t > p.highTicks + p.dead + 3 ==> s.m.highToLow.ticks == p.dead
    ensures s.t > p.period + p.dead + 3 ==> s.m.lowToHigh.ticks == p.dead
    ensures s.c.periodValid <==> s.t > p.dead + p.period + 3 && Lag(p, s, 4) == p.dead
  {
    hide Lines, Lag;
  }

  /** The dead-time latch is never set as long as no minimum is above D. */
  lemma {:induction false} NeverLatched(p: Setup, stimuli: seq<Stimulus>, n: nat)
    requires p.Valid() && n <= |stimuli| && p.base + n < M64
    requires forall k :: 0 <= k < n ==> stimuli[k].minimum <= p.dead
    ensures !After(p, stimuli, n).m.violation
  {
    hide Step, Inv, Lag, Measures;
    if n == 0 {
    } else {
      NeverLatched(p, stimuli, n - 1);
      RunInv(p, stimuli, n - 1);
    }
  }

  /** A minimum above D is noticed: the latch is set on the clock after any
      measurement, in either direction. */
  lemma TooHighMinimumLatches(p: Setup, stimuli: seq<Stimulus>, n: nat)
    requires p.Valid() && n < |stimuli| && p.base + n + 1 < M64
    requires stimuli[n].minimum > p.dead && Measures(p, n, Lag(p, After(p, stimuli, n), 3))
    ensures After(p, stimuli, n + 1).m.violation
  {
    hide Step, Inv, Lag, Measures;
    RunInv(p, stimuli, n);
  }
}
