/** The SSI encoder emulator and the SSI master, register by register. Vector
    registers are sequences of bits, most significant first. */
module SsiEmulator {
  import opened Words
  import opened BitVectors

  datatype Inputs = Inputs(enable: bool, ssiClk: bool, frame: seq<bool>, gapTicks: u32, faultMask: seq<bool>,
                           faultEnable: bool)

  datatype Regs = Regs(
    meta: bool, sync: bool, clkD: bool, gapCount: u32, shift: seq<bool>,
    data: bool, active: bool, bitCount: nat, done: bool)

  function Selected(i: Inputs): (r: seq<bool>)
    requires |i.frame| == |i.faultMask|
    ensures |r| == |i.frame|
  {
    if i.faultEnable then XorBits(i.frame, i.faultMask) else i.frame
  }

  predicate GapElapsed(r: Regs, i: Inputs) {
    i.gapTicks == 0 || r.gapCount >= i.gapTicks
  }

  predicate Fits(width: nat, r: Regs, i: Inputs) {
    2 <= width < 0x1_0000 && |r.shift| == width && |i.frame| == width && |i.faultMask| == width
  }

  /** The registers after one clock. */
  function Next(width: nat, r: Regs, i: Inputs): Regs
    requires Fits(width, r, i)
  {
    var rise, fall := r.sync && !r.clkD, !r.sync && r.clkD;
    var loads := fall && !r.active;
    var shifts := fall && r.active && r.bitCount < width;
    var ends := r.active && (GapElapsed(r, i) || (rise && r.bitCount >= width));
    Regs(
      i.ssiClk, r.meta, r.sync,
      if !i.enable then 0xffff_ffff else if rise || fall then 0 else if r.gapCount == 0xffff_ffff then r.gapCount
          else r.gapCount + 1,
      if !i.enable then Zeros(width) else if loads then Selected(i) else if shifts then r.shift[1..] + [false]
          else r.shift,
      if !i.enable then true else if loads then Selected(i)[0] else if shifts then r.shift[1] else ends || r.data,
      i.enable && (loads || (r.active && !ends)),
      if !i.enable then 0 else if loads then 1 else if shifts then r.bitCount + 1 else if ends then 0 else r.bitCount,
      i.enable && r.active && rise && r.bitCount >= width)
  }

  /** The module itself. In `Clock`, `regs` are the registers before the edge
      and `n` collects the non-blocking assignments. */
  class Emulator {
    const width: nat
    var regs: Regs

    constructor (width: nat)
      ensures this.width == width
      ensures regs == Regs(false, false, true, 0xffff_ffff, Zeros(width), true, false, 0, false)
    {
      this.width := width;
      regs := Regs(false, false, true, 0xffff_ffff, Zeros(width), true, false, 0, false);
    }

    method Clock(i: Inputs)
      requires Fits(width, regs, i)
      modifies this
      ensures regs == Next(width, old(regs), i)
    {
      hide XorBits, Zeros;
      var clkRise, clkFall := regs.sync && !regs.clkD, !regs.sync && regs.clkD;
      var gapElapsed := i.gapTicks == 0 || regs.gapCount >= i.gapTicks;
      var selectedFrame := if i.faultEnable then XorBits(i.frame, i.faultMask) else i.frame;
      var n := regs.(meta := i.ssiClk, sync := regs.meta, clkD := regs.sync, done := false);
      if !i.enable {
        n := n.(gapCount := 0xffff_ffff, shift := Zeros(width), data := true, active := false, bitCount := 0);
        assert n == Next(width, regs, i);
      } else {
        n := n.(gapCount := if clkRise || clkFall then 0
                            else if regs.gapCount != 0xffff_ffff then regs.gapCount + 1 else regs.gapCount);
        if regs.active && gapElapsed {
          n := n.(active := false, bitCount := 0, data := true);
        }
        if clkFall {
          if !regs.active {
            n := n.(shift := selectedFrame, data := selectedFrame[0], active := true, bitCount := 1);
          } else if regs.bitCount < width {
            n := n.(shift := regs.shift[1..] + [false], data := regs.shift[1], bitCount := regs.bitCount + 1);
          }
        }
        if regs.active && clkRise && regs.bitCount >= width {
          n := n.(done := true, active := false, bitCount := 0, data := true);
        }
        assert n == Next(width, regs, i);
      }
      regs := n;
    }
  }
}

module SsiMaster {
  import opened Words
  import opened BitVectors

  datatype Inputs = Inputs(start: bool, half: u32, data: bool)

  datatype Regs = Regs(
    meta: bool, sync: bool, clk: bool, captured: seq<bool>, busy: bool, done: bool,
    bitCount: nat, tick: u32, phaseLow: bool)

  predicate HalfDue(r: Regs, half: u32) {
    if half <= 1 then true else r.tick >= half - 1
  }

  function Next(width: nat, r: Regs, i: Inputs): Regs
    requires 2 <= width && |r.captured| == width
  {
    var due := r.busy && HalfDue(r, i.half);
    var samples := due && r.phaseLow;
    var last := samples && r.bitCount >= width - 1;
    var starts := !r.busy && i.start;
    Regs(
      i.data, r.meta,
      if due then r.phaseLow else !r.busy || r.clk,
      if starts then Zeros(width) else if samples then r.captured[1..] + [r.sync] else r.captured,
      if r.busy then !last else i.start,
      last,
      if starts then 0 else if last then width else if samples then r.bitCount + 1 else r.bitCount,
      if r.busy && !due then Plus(r.tick, 1) else 0,
      r.busy && due != r.phaseLow)
  }

  class Master {
    const width: nat
    var regs: Regs

    constructor (width: nat)
      ensures this.width == width
      ensures regs == Regs(false, false, true, Zeros(width), false, false, 0, 0, false)
    {
      this.width := width;
      regs := Regs(false, false, true, Zeros(width), false, false, 0, 0, false);
    }

    method Clock(i: Inputs)
      requires 2 <= width && |regs.captured| == width
      modifies this
      ensures regs == Next(width, old(regs), i)
    {
      var halfPeriodDue := if i.half <= 1 then true else regs.tick >= i.half - 1;
      var n := regs.(meta := i.data, sync := regs.meta, done := false);
      if !regs.busy {
        n := n.(clk := true, tick := 0, phaseLow := false);
        if i.start {
          n := n.(captured := Zeros(width), bitCount := 0, busy := true);
        }
      } else if halfPeriodDue {
        n := n.(tick := 0);
        if !regs.phaseLow {
          n := n.(clk := false, phaseLow := true);
        } else {
          n := n.(clk := true, phaseLow := false, captured := regs.captured[1..] + [regs.sync]);
          if regs.bitCount >= width - 1 {
            n := n.(bitCount := width, busy := false, done := true);
          } else {
            n := n.(bitCount := regs.bitCount + 1);
          }
        }
      } else {
        n := n.(tick := Plus(regs.tick, 1));
      }
      regs := n;
    }
  }
}

/** Master and emulator wired to each other. */
module SsiLoopback {
  import opened Words
  import opened BitVectors
  import E = SsiEmulator
  import M = SsiMaster

  /** What the surroundings may do on a clock. */
  datatype Stimulus = Stimulus(start: bool, frame: seq<bool>, gapTicks: u32, faultMask: seq<bool>, faultEnable: bool)

  /** History of the run: clocks since SSI_CLK last rose or fell, falling edges in
      this transaction, the frame the emulator selected last, and what was left of
      the one before when the first falling edge of this transaction arrived. */
  datatype Track = Track(age: nat, falls: nat, word: seq<bool>, lead: seq<bool>)

  datatype Link = Link(em: E.Regs, ma: M.Regs, tr: Track)

  datatype Setup = Setup(width: nat, half: u32)

  /** Half period of at least the round trip through both synchronisers, gap
      not below the half period. */
  predicate Allowed(c: Setup, i: Stimulus) {
    && 2 <= c.width < 0x1_0000 && 6 <= c.half
    && |i.frame| == c.width && |i.faultMask| == c.width && i.gapTicks >= c.half
  }

  function EmIn(s: Link, i: Stimulus): E.Inputs {
    E.Inputs(true, s.ma.clk, i.frame, i.gapTicks, i.faultMask, i.faultEnable)
  }

  predicate Sized(c: Setup, s: Link) {
    |s.em.shift| == c.width && |s.ma.captured| == c.width
  }

  predicate Loads(s: Link) {
    !s.em.sync && s.em.clkD && !s.em.active
  }

  /** The first falling edge of a transaction reaches the emulator. */
  predicate Arrives(s: Link) {
    s.ma.phaseLow && s.tr.falls == 1 && s.tr.age == 2
  }

  /** The bits an emulator that is still in a frame sends before it selects the
      next one: the rest of its frame, or just one bit if the gap elapses on the
      very clock of the edge. */
  function Leftover(s: Link, i: Stimulus): seq<bool> {
    var b, word := s.em.bitCount, s.tr.word;
    if !s.em.active || b >= |word| then []
    else if E.GapElapsed(s.em, EmIn(s, i)) then [word[b]]
    else word[b..]
  }

  function Next(c: Setup, s: Link, i: Stimulus): Link
    requires Allowed(c, i) && Sized(c, s)
  {
    var ma := M.Next(c.width, s.ma, M.Inputs(i.start, c.half, s.em.data));
    Link(E.Next(c.width, s.em, EmIn(s, i)), ma,
         Track(if ma.clk != s.ma.clk then 0 else s.tr.age + 1,
               if ma.clk && !ma.busy then 0 else if s.ma.clk && !ma.clk then s.tr.falls + 1 else s.tr.falls,
               if Loads(s) then E.Selected(EmIn(s, i)) else s.tr.word,
               if Arrives(s) then Leftover(s, i) else s.tr.lead))
  }

  /** Both ends as the reset leaves them. */
  function Reset(c: Setup): Link {
    Link(E.Regs(false, false, true, 0xffff_ffff, Zeros(c.width), true, false, 0, false),
         M.Regs(false, false, true, Zeros(c.width), false, false, 0, 0, false),
         Track(0, 0, [], []))
  }

  /** Both ends idle with the clock high long enough to have settled. */
  predicate Quiescent(c: Setup, s: Link) {
    && Sized(c, s)
    && s.em.meta && s.em.sync && s.em.clkD && !s.em.active
    && s.ma.clk && !s.ma.busy && !s.ma.done && !s.ma.phaseLow
    && s.tr.age >= 3 && s.tr.falls == 0 && s.tr.lead == []
  }

  // ---- the invariant ----

  /** The clock travels through the synchroniser one register per clock. */
  predicate Wires(s: Link) {
    && s.em.meta == (if s.tr.age >= 1 then s.ma.clk else !s.ma.clk)
    && s.em.sync == (if s.tr.age >= 2 then s.ma.clk else !s.ma.clk)
    && s.em.clkD == (if s.tr.age >= 3 then s.ma.clk else !s.ma.clk)
    && s.ma.clk == !s.ma.phaseLow
  }

  predicate GapRuns(c: Setup, s: Link) {
    s.em.gapCount == if s.tr.age >= 3 then s.tr.age - 3 else c.half + s.tr.age - 3
  }

  /** An emulator in a frame shows its bit number `bitCount` (counting from 1). */
  predicate Shows(c: Setup, s: Link) {
    var b, word := s.em.bitCount, s.tr.word;
    s.em.active ==>
      && 1 <= b <= c.width && |word| == c.width
      && s.em.data == word[b - 1] && s.em.shift == word[b - 1..] + Zeros(b - 1)
  }

  /** What this transaction brings: the leftover, then the frame. */
  function Told(s: Link): seq<bool> {
    s.tr.lead + s.tr.word
  }

  /** `g` falling edges of this transaction have reached the emulator. */
  predicate Arrived(c: Setup, s: Link, g: nat) {
    var o := |s.tr.lead|;
    if g <= o then
      && o < c.width
      && (g < o ==> s.em.active)
      && (s.em.active ==>
            && s.em.bitCount == c.width - o + g && GapRuns(c, s)
            && |s.tr.word| == c.width && s.tr.lead == s.tr.word[c.width - o..])
    else s.em.active && s.em.bitCount == g - o && GapRuns(c, s)
  }

  predicate Captured(c: Setup, s: Link, k: nat) {
    k <= c.width && s.ma.bitCount == k && k <= |Told(s)| && s.ma.captured == Zeros(c.width - k) + Told(s)[..k]
  }

  /** Clock high, no falling edge yet. */
  predicate Rest(c: Setup, s: Link) {
    && s.tr.falls == 0 && !s.ma.phaseLow
    && (s.tr.age <= 2 ==> s.em.active && s.em.gapCount + 3 <= c.half + s.tr.age)
    && (s.tr.age >= 3 && s.em.active ==> s.em.bitCount < c.width)
    && (s.ma.busy ==> s.ma.tick <= s.tr.age && s.ma.tick < c.half && Captured(c, s, 0))
  }

  /** Clock low after falling edge number `falls`. */
  predicate Low(c: Setup, s: Link) {
    var f := s.tr.falls;
    && 1 <= f <= c.width && s.ma.busy && s.ma.phaseLow && s.ma.tick == s.tr.age < c.half
    && Captured(c, s, f - 1)
    && (s.tr.age <= 2 ==> if f == 1 then s.em.active ==> s.em.bitCount < c.width
                          else Arrived(c, s, f - 1) && (f - 1 == |s.tr.lead| ==> !s.em.active))
    && (s.tr.age >= 3 ==> Arrived(c, s, f) && f <= |Told(s)| && s.em.data == Told(s)[f - 1])
    && (s.tr.age >= 4 ==> s.ma.meta == Told(s)[f - 1])
    && (s.tr.age >= 5 ==> s.ma.sync == Told(s)[f - 1])
  }

  /** Clock high again between two bits. */
  predicate High(c: Setup, s: Link) {
    var f := s.tr.falls;
    && 1 <= f < c.width && s.ma.busy && !s.ma.phaseLow && s.ma.tick == s.tr.age < c.half
    && Captured(c, s, f) && Arrived(c, s, f) && (s.tr.age >= 3 && f == |s.tr.lead| ==> !s.em.active)
  }

  /** At done the master holds the leftover and then the frame, up to its width;
      the emulator has sent that much of the frame. */
  predicate Answered(c: Setup, s: Link) {
    s.ma.done ==>
      && !s.ma.busy && s.tr.falls == 0 && s.tr.age == 0 && |s.tr.word| == c.width && s.ma.captured == Told(s)[..c.width]
      && s.em.active && s.em.bitCount == c.width - |s.tr.lead|
  }

  predicate Linked(c: Setup, s: Link) {
    && Sized(c, s) && Wires(s) && Shows(c, s) && |s.tr.lead| < c.width
    && (Rest(c, s) || Low(c, s) || High(c, s)) && Answered(c, s)
  }

  predicate Inv(c: Setup, s: Link) {
    s == Reset(c) || Linked(c, s)
  }

  /** The synchroniser starts low under a clock that rests high: a falling edge no
      master made. The emulator selects a frame and shows its first bit. */
  lemma ResetStep(c: Setup, i: Stimulus)
    requires Allowed(c, i)
    ensures var n := Next(c, Reset(c), i);
            Linked(c, n) && Rest(c, n) && n.em.active && n.em.bitCount == 1 && n.tr.age == 1
  {
    var n := Next(c, Reset(c), i);
    assert n.tr.word[0..] + Zeros(0) == n.em.shift;
    assert Zeros(c.width) + [] == Zeros(c.width);
  }

  predicate Falls(r: E.Regs) {
    !r.sync && r.clkD
  }

  /** Without a falling edge the emulator only counts, until a gap or the end of
      the frame stops it. */
  lemma EmulatorQuiet(width: nat, r: E.Regs, i: E.Inputs)
    requires E.Fits(width, r, i) && i.enable && !Falls(r)
    ensures var n, rise := E.Next(width, r, i), r.sync && !r.clkD;
            && n.meta == i.ssiClk && n.sync == r.meta && n.clkD == r.sync && n.shift == r.shift
            && (n.active <==> r.active && !E.GapElapsed(r, i) && !(rise && r.bitCount >= width))
            && (n.active ==> n.data == r.data && n.bitCount == r.bitCount && n.gapCount == if rise then 0
                else r.gapCount + 1)
            && (!r.active ==> n.data == r.data)
  {
    hide XorBits, Zeros;
  }

  /** With one it goes on to the next bit, or selects a frame. */
  lemma EmulatorFalls(width: nat, r: E.Regs, i: E.Inputs)
    requires E.Fits(width, r, i) && i.enable && Falls(r) && (r.active ==> r.bitCount < width)
    ensures var n := E.Next(width, r, i);
            && n.meta == i.ssiClk && n.sync == r.meta && n.clkD == r.sync && n.gapCount == 0
            && if r.active then
                 n.shift == r.shift[1..] + [false] && n.data == r.shift[1] && n.bitCount == r.bitCount + 1 &&
                     (n.active <==> !E.GapElapsed(r, i))
               else n.shift == E.Selected(i) && n.data == E.Selected(i)[0] && n.bitCount == 1 && n.active
  {
    hide XorBits, Zeros;
  }

  /** Between half periods the master only counts. */
  lemma MasterHolds(width: nat, r: M.Regs, i: M.Inputs)
    requires 2 <= width && |r.captured| == width && r.busy && i.half > 1 && r.tick < i.half - 1
    ensures M.Next(width, r, i) == r.(meta := i.data, sync := r.meta, done := false, tick := r.tick + 1)
  {
    hide Zeros;
  }

  /** Shifting left moves on to the next bit of the word. */
  lemma ShiftLeft(word: seq<bool>, b: nat)
    requires 1 <= b < |word|
    ensures var shift := word[b - 1..] + Zeros(b - 1);
            shift[1] == word[b] && shift[1..] + [false] == word[b..] + Zeros(b)
  {
  }

  lemma ShowsStep(c: Setup, s: Link, i: Stimulus)
    requires Allowed(c, i) && Sized(c, s) && Shows(c, s) && (Falls(s.em) && s.em.active ==> s.em.bitCount < c.width)
    ensures Shows(c, Next(c, s, i)) && |Next(c, s, i).em.shift| == c.width
    ensures Falls(s.em) && s.em.active ==> Next(c, s, i).em.data == s.tr.word[s.em.bitCount]
  {
    hide Zeros, XorBits, E.Next, M.Next, Leftover;
    if Falls(s.em) {
      EmulatorFalls(c.width, s.em, EmIn(s, i));
      if s.em.active {
        ShiftLeft(s.tr.word, s.em.bitCount);
      } else {
        var word := E.Selected(EmIn(s, i));
        assert word[0..] + Zeros(0) == word;
      }
    } else {
      EmulatorQuiet(c.width, s.em, EmIn(s, i));
    }
  }

  /** The registers between the two ends; the clock never changes before the last
      change is through. */
  lemma WiresStep(c: Setup, s: Link, i: Stimulus)
    requires Allowed(c, i) && Sized(c, s) && Wires(s)
    requires M.Next(c.width, s.ma, M.Inputs(i.start, c.half, s.em.data)).clk != s.ma.clk ==> s.tr.age >= 3
    ensures Wires(Next(c, s, i))
  {
    hide Zeros, XorBits, Leftover;
  }

  lemma RestStep(c: Setup, s: Link, i: Stimulus)
    requires Allowed(c, i) && Linked(c, s) && Rest(c, s)
    ensures Linked(c, Next(c, s, i))
  {
    hide E.Next, Shows;
    assert s.ma.busy && s.ma.tick >= c.half - 1 ==> s.tr.age >= 5;
    assert Zeros(c.width) + [] == Zeros(c.width);
    ShowsStep(c, s, i);
    WiresStep(c, s, i);
    EmulatorQuiet(c.width, s.em, EmIn(s, i));
  }

  lemma HighStep(c: Setup, s: Link, i: Stimulus)
    requires Allowed(c, i) && Linked(c, s) && High(c, s)
    ensures Linked(c, Next(c, s, i))
  {
    hide E.Next, Shows, Zeros;
    ShowsStep(c, s, i);
    WiresStep(c, s, i);
    EmulatorQuiet(c.width, s.em, EmIn(s, i));
  }

  /** The first falling edge is still on its way. */
  lemma LowBegins(c: Setup, s: Link, i: Stimulus)
    requires Allowed(c, i) && Linked(c, s) && Low(c, s) && s.tr.falls == 1 && s.tr.age <= 1
    ensures Linked(c, Next(c, s, i))
  {
    hide Zeros, E.Next, M.Next, Shows;
    MasterHolds(c.width, s.ma, M.Inputs(i.start, c.half, s.em.data));
    ShowsStep(c, s, i);
    WiresStep(c, s, i);
    EmulatorQuiet(c.width, s.em, EmIn(s, i));
  }

  /** It arrives: an idle emulator selects the frame, another goes on with its own. */
  lemma FirstArrives(c: Setup, s: Link, i: Stimulus)
    requires Allowed(c, i) && Linked(c, s) && Low(c, s) && s.tr.falls == 1 && s.tr.age == 2
    ensures Linked(c, Next(c, s, i))
  {
    hide E.Next, M.Next, Leftover, Zeros, Shows, Wires, Arrived;
    FirstTrack(c, s, i);
    FallKeeps(c, s, i);
    LowAgain(c, Next(c, s, i));
  }

  /** The first arrival, register by register. */
  lemma FirstMoves(c: Setup, s: Link, i: Stimulus)
    requires Allowed(c, i) && Linked(c, s) && Low(c, s) && s.tr.falls == 1 && s.tr.age == 2
    ensures Falls(s.em) && Arrives(s) && (s.em.active ==> s.em.bitCount < c.width == |s.tr.word|)
    ensures var n := Next(c, s, i);
            && n.tr.age == 3 && n.tr.lead == Leftover(s, i) && n.ma.captured == s.ma.captured == Zeros(c.width)
            && n.tr.word == (if s.em.active then s.tr.word else E.Selected(EmIn(s, i)))
            && n.em == E.Next(c.width, s.em, EmIn(s, i))
  {
    hide Zeros, XorBits, E.Next, M.Next, Captured, Leftover, Told, E.Selected;
    ArrivalSeen(s);
    MasterHolds(c.width, s.ma, M.Inputs(i.start, c.half, s.em.data));
    NothingCaptured(c, s);
  }

  /** An emulator in a frame goes on with what it has left. */
  lemma GoesOn(c: Setup, s: Link, n: Link, i: Stimulus)
    requires Allowed(c, i) && Sized(c, s) && Shows(c, s) && Falls(s.em) && s.em.active && s.em.bitCount < c.width
    requires n.tr.age == 3 && n.tr.lead == Leftover(s, i) && n.tr.word == s.tr.word
    requires n.em == E.Next(c.width, s.em, EmIn(s, i))
    ensures Arrived(c, n, 1) && 1 <= |n.tr.lead| < c.width && n.em.data == n.tr.lead[0]
  {
    hide XorBits, E.Next;
    EmulatorFalls(c.width, s.em, EmIn(s, i));
    ShiftLeft(s.tr.word, s.em.bitCount);
    hide Zeros;
  }

  /** An idle one selects the frame. */
  lemma Selects(c: Setup, s: Link, n: Link, i: Stimulus)
    requires Allowed(c, i) && Sized(c, s) && Falls(s.em) && !s.em.active
    requires n.tr.age == 3 && n.tr.lead == Leftover(s, i) && n.tr.word == E.Selected(EmIn(s, i))
    requires n.em == E.Next(c.width, s.em, EmIn(s, i))
    ensures Arrived(c, n, 1) && n.tr.lead == [] && n.em.data == n.tr.word[0]
  {
    hide XorBits, E.Next, Zeros;
    EmulatorFalls(c.width, s.em, EmIn(s, i));
  }

  /** What the track says after the first arrival. */
  lemma FirstTrack(c: Setup, s: Link, i: Stimulus)
    requires Allowed(c, i) && Linked(c, s) && Low(c, s) && s.tr.falls == 1 && s.tr.age == 2
    ensures var n := Next(c, s, i);
            && Arrived(c, n, 1) && |n.tr.lead| < c.width && |Told(n)| >= c.width && n.em.data == Told(n)[0]
            && n.ma.captured == s.ma.captured && s.ma.captured == Zeros(c.width - 0) + Told(n)[..0]
  {
    hide Next, XorBits, E.Next, M.Next, Captured, Leftover, Arrived, Shows, Wires, Low, E.Selected, Zeros;
    FirstMoves(c, s, i);
    if s.em.active {
      GoesOn(c, s, Next(c, s, i), i);
    } else {
      Selects(c, s, Next(c, s, i), i);
    }
    assert Zeros(c.width) + [] == Zeros(c.width);
  }

  lemma NothingCaptured(c: Setup, s: Link)
    requires Captured(c, s, 0)
    ensures s.ma.captured == Zeros(c.width)
  {
  }

  /** Arrival of a falling edge leaves the master and the wires alone. */
  lemma FallKeeps(c: Setup, s: Link, i: Stimulus)
    requires Allowed(c, i) && Linked(c, s) && Low(c, s) && s.tr.age == 2 && (s.em.active ==> s.em.bitCount < c.width)
    ensures var n := Next(c, s, i);
            && Sized(c, n) && Wires(n) && Shows(c, n) && n.tr.falls == s.tr.falls && n.tr.age == 3
            && n.ma.busy && n.ma.phaseLow && n.ma.tick == 3 && !n.ma.done && n.ma.bitCount == s.ma.bitCount &&
               n.ma.captured == s.ma.captured
  {
    hide Zeros, XorBits, E.Next, M.Next, Arrived, Shows, Leftover;
    MasterHolds(c.width, s.ma, M.Inputs(i.start, c.half, s.em.data));
    ShowsStep(c, s, i);
    WiresStep(c, s, i);
  }

  lemma LowAgain(c: Setup, n: Link)
    requires 6 <= c.half && Sized(c, n) && Wires(n) && Shows(c, n) && |n.tr.lead| < c.width
    requires 1 <= n.tr.falls <= c.width && n.tr.age == 3 && n.ma.busy && n.ma.phaseLow && n.ma.tick == 3 && !n.ma.done
    requires Captured(c, n, n.tr.falls - 1) && Arrived(c, n, n.tr.falls)
    requires n.tr.falls <= |Told(n)| && n.em.data == Told(n)[n.tr.falls - 1]
    ensures Linked(c, n) && Low(c, n)
  {
    hide Zeros, Shows, Captured, Arrived, Wires;
  }

  lemma NextArrives(c: Setup, s: Link, i: Stimulus)
    requires Allowed(c, i) && Linked(c, s) && Low(c, s) && s.tr.falls > 1 && s.tr.age == 2
    ensures Linked(c, Next(c, s, i))
  {
    hide E.Next, M.Next, Leftover, Zeros, Shows, Wires, Arrived;
    NextTrack(c, s, i);
    FallKeeps(c, s, i);
    LowAgain(c, Next(c, s, i));
  }

  lemma NextTrack(c: Setup, s: Link, i: Stimulus)
    requires Allowed(c, i) && Linked(c, s) && Low(c, s) && s.tr.falls > 1 && s.tr.age == 2
    ensures var n := Next(c, s, i);
            && Arrived(c, n, s.tr.falls) && n.tr.lead == s.tr.lead && s.tr.falls <= |Told(n)| &&
               n.em.data == Told(n)[s.tr.falls - 1]
            && Told(n)[..s.tr.falls - 1] == Told(s)[..s.tr.falls - 1]
            && (s.em.active ==> s.em.bitCount < c.width)
  {
    hide Zeros, XorBits, E.Next, M.Next, Leftover, Captured, Wires;
    ArrivalSeen(s);
    EmulatorFalls(c.width, s.em, EmIn(s, i));
    MasterHolds(c.width, s.ma, M.Inputs(i.start, c.half, s.em.data));
    if s.em.active {
      ShowsStep(c, s, i);
      hide Shows;
      NextBit(s.tr.lead, s.tr.word, s.em.bitCount, s.tr.falls, c.width);
    } else {
      hide Shows;
      FirstOfFrame(s.tr.lead, s.tr.word, E.Selected(EmIn(s, i)));
    }
  }

  /** A new frame follows the leftover. */
  lemma FirstOfFrame(lead: seq<bool>, was: seq<bool>, word: seq<bool>)
    requires word != []
    ensures (lead + was)[..|lead|] == (lead + word)[..|lead|] && (lead + word)[|lead|] == word[0]
  {
    assert (lead + was)[..|lead|] == lead == (lead + word)[..|lead|];
  }

  lemma ArrivalSeen(s: Link)
    requires Wires(s) && s.ma.phaseLow && s.tr.age == 2
    ensures Falls(s.em)
  {
  }

  /** The bit after those told so far. */
  lemma NextBit(lead: seq<bool>, word: seq<bool>, b: nat, f: nat, width: nat)
    requires |word| == width && |lead| < width && 1 < f <= width && b < width
    requires if f - 1 <= |lead| then b == width - |lead| + f - 1 && lead == word[width - |lead|..]
            else b == f - 1 - |lead|
    ensures f <= |lead + word| && word[b] == (lead + word)[f - 1]
  {
  }

  lemma CapturedKept(c: Setup, s: Link, n: Link, k: nat)
    requires Captured(c, s, k) && n.tr.word == s.tr.word && n.tr.lead == s.tr.lead
    requires n.ma.bitCount == s.ma.bitCount && n.ma.captured == s.ma.captured
    ensures Captured(c, n, k) && Told(n) == Told(s)
  {
  }

  lemma LowStays(c: Setup, s: Link, i: Stimulus)
    requires Allowed(c, i) && Linked(c, s) && Low(c, s) && s.ma.tick < c.half - 1
    requires s.tr.age >= 3 || (s.tr.falls > 1 && s.tr.age <= 1)
    ensures Linked(c, Next(c, s, i))
  {
    hide Zeros, E.Selected, E.Next, M.Next, Leftover, Captured, Told, Shows;
    EmulatorQuiet(c.width, s.em, EmIn(s, i));
    MasterHolds(c.width, s.ma, M.Inputs(i.start, c.half, s.em.data));
    ShowsStep(c, s, i);
    WiresStep(c, s, i);
    CapturedKept(c, s, Next(c, s, i), s.tr.falls - 1);
  }

  lemma SampleStep(c: Setup, s: Link, i: Stimulus)
    requires Allowed(c, i) && Sized(c, s) && Low(c, s) && s.ma.tick >= c.half - 1
    ensures Next(c, s, i).ma.captured == Zeros(c.width - s.tr.falls) + Told(s)[..s.tr.falls]
  {
    hide E.Next, Arrived, Leftover;
    var f, told := s.tr.falls, Told(s);
    var before := Zeros(c.width - (f - 1)) + told[..f - 1];
    assert s.ma.captured == before;
    assert before[1..] + [told[f - 1]] == Zeros(c.width - f) + told[..f];
  }

  /** The master raises the clock and captures bit `falls`. */
  lemma RiseStep(c: Setup, s: Link, i: Stimulus)
    requires Allowed(c, i) && Linked(c, s) && Low(c, s) && s.ma.tick >= c.half - 1
    ensures Linked(c, Next(c, s, i))
  {
    hide E.Next, M.Next, Leftover, Shows, Wires, Captured;
    WiresStep(c, s, i);
    RiseEmulator(c, s, i);
    RiseMaster(c, s, i);
    hide Next, Low, Zeros, Told;
  }

  lemma RiseEmulator(c: Setup, s: Link, i: Stimulus)
    requires Allowed(c, i) && Linked(c, s) && Low(c, s) && s.ma.tick >= c.half - 1
    ensures var n := Next(c, s, i);
            && n.tr.age == 0 && Arrived(c, n, s.tr.falls) && Shows(c, n) && |n.em.shift| == c.width
            && (s.tr.falls == c.width ==>
                  n.em.active && n.em.gapCount + 3 <= c.half && |n.tr.word| == c.width &&
                      n.em.bitCount == c.width - |n.tr.lead|)
  {
    hide E.Next, Leftover, Captured, Zeros;
    ShowsStep(c, s, i);
    EmulatorQuiet(c.width, s.em, EmIn(s, i));
    hide Shows, Told, XorBits;
  }

  lemma RiseMaster(c: Setup, s: Link, i: Stimulus)
    requires Allowed(c, i) && Linked(c, s) && Low(c, s) && s.ma.tick >= c.half - 1
    ensures var n, f := Next(c, s, i), s.tr.falls;
            && |n.ma.captured| == c.width && n.tr.lead == s.tr.lead && !n.ma.phaseLow && n.ma.tick == 0
            && (n.ma.busy <==> f < c.width) && n.ma.done == !n.ma.busy
            && if f < c.width then n.tr.falls == f && Captured(c, n, f)
               else n.tr.falls == 0 && c.width <= |Told(n)| && n.ma.captured == Told(n)[..c.width]
  {
    hide E.Next, Leftover, Arrived, Shows;
    SampleStep(c, s, i);
    if s.tr.falls == c.width {
      assert Zeros(0) + Told(s)[..c.width] == Told(s)[..c.width];
    }
  }

  lemma InvStep(c: Setup, s: Link, i: Stimulus)
    requires Allowed(c, i) && Inv(c, s)
    ensures Inv(c, Next(c, s, i)) && Linked(c, Next(c, s, i))
  {
    hide Linked, Next;
    if s == Reset(c) {
      ResetStep(c, i);
    } else {
      LinkedStep(c, s, i);
    }
  }

  lemma LinkedStep(c: Setup, s: Link, i: Stimulus)
    requires Allowed(c, i) && Linked(c, s)
    ensures Linked(c, Next(c, s, i))
  {
    hide Next, Wires, Shows, Captured, Arrived, Answered;
    if Rest(c, s) {
      RestStep(c, s, i);
    } else if High(c, s) {
      HighStep(c, s, i);
    } else if s.tr.age == 2 && s.tr.falls == 1 {
      FirstArrives(c, s, i);
    } else if s.tr.age == 2 {
      NextArrives(c, s, i);
    } else if s.tr.age <= 1 && s.tr.falls == 1 {
      LowBegins(c, s, i);
    } else if s.ma.tick >= c.half - 1 {
      RiseStep(c, s, i);
    } else {
      LowStays(c, s, i);
    }
  }

  /** A run of the link: `states[k + 1]` follows `states[k]` under `stimuli[k]`,
      from the reset or from an idle link. */
  ghost predicate IsRun(c: Setup, states: seq<Link>, stimuli: seq<Stimulus>) {
    && 2 <= c.width < 0x1_0000 && 6 <= c.half
    && |states| == |stimuli| + 1 && (states[0] == Reset(c) || Quiescent(c, states[0]))
    && (forall k :: 0 <= k < |stimuli| ==> Allowed(c, stimuli[k]))
    && (forall k :: 0 <= k < |stimuli| ==> Sized(c, states[k]) && states[k + 1] == Next(c, states[k], stimuli[k]))
  }

  lemma QuiescentInv(c: Setup, s: Link)
    requires 6 <= c.half && 2 <= c.width && Quiescent(c, s)
    ensures Inv(c, s)
  {
  }

  lemma {:induction false} RunInv(c: Setup, states: seq<Link>, stimuli: seq<Stimulus>, n: nat)
    requires IsRun(c, states, stimuli) && n < |states|
    ensures Inv(c, states[n]) && (n > 0 ==> Linked(c, states[n]))
  {
    hide Inv, Linked, Next, Allowed, Reset, Quiescent;
    if n == 0 {
      FirstInv(c, states[0]);
    } else {
      RunInv(c, states, stimuli, n - 1);
      InvStep(c, states[n - 1], stimuli[n - 1]);
    }
  }

  lemma FirstInv(c: Setup, s: Link)
    requires 6 <= c.half && 2 <= c.width && (s == Reset(c) || Quiescent(c, s))
    ensures Inv(c, s)
  {
    if Quiescent(c, s) {
      QuiescentInv(c, s);
    }
  }

  // ---- how long a transaction takes ----

  /** Clocks that `bits` whole bits take. */
  function Span(half: nat, bits: nat): nat {
    2 * bits * half
  }

  lemma SpanGrows(half: nat, bits: nat, more: nat)
    requires bits < more
    ensures Span(half, bits + 1) == Span(half, bits) + 2 * half
    ensures Span(half, bits) + 2 * half <= Span(half, more)
  {
    assert 2 * (bits + 1) * half == 2 * bits * half + 2 * half;
    assert 2 * (bits + 1) * half <= 2 * more * half;
  }

  /** Clocks the master has been busy. */
  function Elapsed(c: Setup, ma: M.Regs): nat {
    Span(c.half, ma.bitCount) + (if ma.phaseLow then c.half else 0) + ma.tick
  }

  lemma MasterTicks(c: Setup, ma: M.Regs, i: M.Inputs)
    requires 2 <= c.width && |ma.captured| == c.width && i.half == c.half >= 6
    requires ma.busy && ma.bitCount < c.width && ma.tick < c.half
    ensures var n := M.Next(c.width, ma, i);
            && Elapsed(c, n) == Elapsed(c, ma) + 1
            && (n.done <==> !n.busy) && (n.done <==> Elapsed(c, n) == Span(c.half, c.width))
  {
    hide Span, Zeros;
    SpanGrows(c.half, ma.bitCount, c.width);
    if ma.bitCount + 1 < c.width {
      SpanGrows(c.half, ma.bitCount + 1, c.width);
    }
  }

  lemma ElapsedStep(c: Setup, s: Link, i: Stimulus)
    requires Allowed(c, i) && Inv(c, s) && s.ma.busy
    ensures var n := Next(c, s, i).ma;
            && Elapsed(c, n) == Elapsed(c, s.ma) + 1
            && (n.done <==> !n.busy) && (n.done <==> Elapsed(c, n) == Span(c.half, c.width))
  {
    hide Span, E.Next, M.Next, Elapsed, Zeros, Arrived, Shows, Wires, Told;
    MasterTicks(c, s.ma, M.Inputs(i.start, c.half, s.em.data));
  }

  /** Start accepted on clock `n`. */
  ghost predicate Accepts(c: Setup, states: seq<Link>, stimuli: seq<Stimulus>, n: nat) {
    IsRun(c, states, stimuli) && n < |stimuli| && !states[n].ma.busy && stimuli[n].start
  }

  /** From the clock after an accepted start, the master stays busy for exactly
      two half periods per bit and is done on the next clock. */
  lemma {:induction false} BusyFor(c: Setup, states: seq<Link>, stimuli: seq<Stimulus>, n: nat, d: nat)
    requires Accepts(c, states, stimuli, n) && n + 1 + d < |states| && d <= Span(c.half, c.width)
    ensures Elapsed(c, states[n + 1 + d].ma) == d
    ensures states[n + 1 + d].ma.busy <==> d < Span(c.half, c.width)
    ensures states[n + 1 + d].ma.done <==> d == Span(c.half, c.width)
    decreases d
  {
    hide Inv, Next, Elapsed, Allowed, Span, Linked, Reset, Quiescent;
    RunInv(c, states, stimuli, n + d);
    if d == 0 {
      Accepted(c, states[n], stimuli[n]);
    } else {
      BusyFor(c, states, stimuli, n, d - 1);
      ElapsedStep(c, states[n + d], stimuli[n + d]);
    }
  }

  lemma Accepted(c: Setup, s: Link, i: Stimulus)
    requires Allowed(c, i) && Inv(c, s) && !s.ma.busy && i.start
    ensures var n := Next(c, s, i).ma; n.busy && !n.done && Elapsed(c, n) == 0 && Span(c.half, c.width) > 0
  {
    hide E.Next, Arrived, Shows, Told;
    assert c.width * c.half > 0;
    assert Span(c.half, c.width) == 2 * (c.width * c.half);
    assert Span(c.half, 0) == 0;
  }

  // ---- what a transaction reads ----

  /** The first falling edge of a transaction arrives exactly half a period and two
      clocks after the master became busy. */
  lemma ArrivesWhen(c: Setup, s: Link)
    requires Linked(c, s) && 6 <= c.half
    ensures Arrives(s) ==> Elapsed(c, s.ma) == c.half + 2
    ensures s.ma.busy && Elapsed(c, s.ma) == c.half + 2 ==> Arrives(s)
    ensures Arrives(s) ==> (Loads(s) <==> !s.em.active) && (s.em.active ==> s.em.bitCount < |s.tr.word|)
  {
    hide Arrived, Told;
    if s.ma.bitCount > 0 {
      SpanGrows(c.half, 0, s.ma.bitCount);
    }
    assert Span(c.half, 0) == 0;
    hide Span;
  }

  /** What was left over when the first falling edge arrived stays on record until
      the transaction is done. */
  lemma {:induction false} LeadKept(c: Setup, states: seq<Link>, stimuli: seq<Stimulus>, n: nat, d: nat)
    requires Accepts(c, states, stimuli, n) && n + 1 + d < |states| && c.half + 2 < d <= Span(c.half, c.width)
    ensures states[n + 1 + d].tr.lead == Leftover(states[n + c.half + 3], stimuli[n + c.half + 3])
    decreases d
  {
    hide Inv, Elapsed, Allowed, Span, Linked, Reset, Quiescent, E.Next, M.Next, Leftover;
    BusyFor(c, states, stimuli, n, d - 1);
    RunInv(c, states, stimuli, n + d);
    ArrivesWhen(c, states[n + d]);
    if d == c.half + 3 {
    } else {
      LeadKept(c, states, stimuli, n, d - 1);
    }
  }

  /** Every transaction of every run, from the reset or from idle: it takes
      `2 * width * half + 1` clocks, and the master then holds what the emulator
      had left over when the first falling edge arrived, followed by the frame it
      selected during this transaction. Nothing was left over, and the frame was
      selected at that first edge, exactly if the emulator was idle there. */
  lemma Transaction(c: Setup, states: seq<Link>, stimuli: seq<Stimulus>, n: nat)
    requires Accepts(c, states, stimuli, n) && n + 1 + Span(c.half, c.width) < |states|
    ensures c.half + 2 < Span(c.half, c.width)
    ensures var a, left, d := states[n + c.half + 3], Leftover(states[n + c.half + 3], stimuli[n + c.half + 3]),
            states[n + 1 + Span(c.half, c.width)];
            && Arrives(a) && (Loads(a) <==> !a.em.active) && (left == [] <==> !a.em.active)
            && d.ma.done && d.tr.lead == left && |left| < c.width == |d.tr.word| &&
               d.ma.captured == (left + d.tr.word)[..c.width]
  {
    hide Inv, Elapsed, Allowed, Span, Linked, Reset, Quiescent, Next, Leftover;
    SpanGrows(c.half, 1, c.width);
    SpanOne(c.half);
    BusyFor(c, states, stimuli, n, c.half + 2);
    RunInv(c, states, stimuli, n + c.half + 3);
    ArrivesWhen(c, states[n + c.half + 3]);
    BusyFor(c, states, stimuli, n, Span(c.half, c.width));
    LeadKept(c, states, stimuli, n, Span(c.half, c.width));
    RunInv(c, states, stimuli, n + 1 + Span(c.half, c.width));
    DoneHolds(c, states[n + 1 + Span(c.half, c.width)]);
    LeftoverEmpty(states[n + c.half + 3], stimuli[n + c.half + 3]);
  }

  lemma SpanOne(half: nat)
    ensures Span(half, 1) == 2 * half
  {
  }

  lemma LeftoverEmpty(s: Link, i: Stimulus)
    requires s.em.active ==> s.em.bitCount < |s.tr.word|
    ensures Leftover(s, i) == [] <==> !s.em.active
  {
  }

  lemma DoneHolds(c: Setup, s: Link)
    requires Linked(c, s) && s.ma.done
    ensures |s.tr.lead| < c.width == |s.tr.word| && s.ma.captured == (s.tr.lead + s.tr.word)[..c.width]
  {
    hide Zeros, Arrived, Wires, Shows;
  }

  /** No transaction has anything left over, and between transactions the emulator
      goes idle. */
  predicate Settled(c: Setup, s: Link) {
    && s.tr.lead == []
    && (s.tr.falls == 0 ==> if s.tr.age <= 2 then s.em.bitCount == c.width else !s.em.active)
    && (s.ma.phaseLow && s.tr.falls == 1 && s.tr.age <= 2 ==> !s.em.active)
  }

  lemma SettledStep(c: Setup, s: Link, i: Stimulus)
    requires Allowed(c, i) && Linked(c, s) && Settled(c, s)
    ensures Settled(c, Next(c, s, i))
  {
    hide Shows, Zeros, XorBits, E.Next, Told;
    if Falls(s.em) {
      assert s.em.active ==> Arrived(c, s, s.tr.falls - 1);
      EmulatorFalls(c.width, s.em, EmIn(s, i));
    } else {
      EmulatorQuiet(c.width, s.em, EmIn(s, i));
    }
  }

  lemma {:induction false} StaysSettled(c: Setup, states: seq<Link>, stimuli: seq<Stimulus>, m: nat, n: nat)
    requires IsRun(c, states, stimuli) && m <= n < |states| && Linked(c, states[m]) && Settled(c, states[m])
    ensures Settled(c, states[n]) && Linked(c, states[n])
    decreases n - m
  {
    hide Inv, Linked, Next, Allowed, Settled, Reset, Quiescent;
    if m == n {
    } else {
      StaysSettled(c, states, stimuli, m, n - 1);
      RunInv(c, states, stimuli, n);
      SettledStep(c, states[n - 1], stimuli[n - 1]);
    }
  }

  lemma SettledReads(c: Setup, s: Link)
    requires Linked(c, s) && Settled(c, s) && 6 <= c.half
    ensures Loads(s) <==> Arrives(s)
    ensures s.ma.done ==> s.ma.captured == s.tr.word
  {
    hide Zeros, Shows;
    assert [] + s.tr.word == s.tr.word;
  }

  /** Loopback: once the link has settled, however many transactions follow and
      whatever frames and fault masks are driven, the emulator selects a frame at
      the first falling edge of each and nowhere else, and the word the master
      holds at any done pulse is that frame. */
  lemma Loopback(c: Setup, states: seq<Link>, stimuli: seq<Stimulus>, m: nat, n: nat)
    requires IsRun(c, states, stimuli) && m <= n < |states|
    requires Quiescent(c, states[m]) || (Linked(c, states[m]) && Settled(c, states[m]))
    ensures states[n].ma.done ==> states[n].ma.captured == states[n].tr.word
    ensures Loads(states[n]) <==> Arrives(states[n])
    ensures Accepts(c, states, stimuli, n) && n + 1 + Span(c.half, c.width) < |states| ==>
              var d := states[n + 1 + Span(c.half, c.width)]; d.ma.done && d.ma.captured == d.tr.word
  {
    hide Inv, Next, Span, Loads, Allowed, Linked, Settled, Arrives, Reset, Quiescent;
    if Quiescent(c, states[m]) {
      QuiescentSettled(c, states[m]);
    }
    StaysSettled(c, states, stimuli, m, n);
    SettledReads(c, states[n]);
    if Accepts(c, states, stimuli, n) && n + 1 + Span(c.half, c.width) < |states| {
      BusyFor(c, states, stimuli, n, Span(c.half, c.width));
      StaysSettled(c, states, stimuli, m, n + 1 + Span(c.half, c.width));
      SettledReads(c, states[n + 1 + Span(c.half, c.width)]);
    }
  }

  /** Between transactions the clock's age counts from the done pulse. */
  lemma DoneWhenRisen(c: Setup, s: Link, i: Stimulus)
    requires Allowed(c, i) && Linked(c, s)
    ensures var n := Next(c, s, i); n.ma.done <==> n.tr.falls == 0 && n.tr.age == 0
  {
    hide E.Next, Shows, Told, Arrived, Zeros;
  }

  lemma EmulatorEnds(c: Setup, s: Link, i: Stimulus)
    requires Allowed(c, i) && Linked(c, s) && Settled(c, s)
    ensures Next(c, s, i).em.done <==> s.tr.falls == 0 && s.tr.age == 2
  {
    hide Shows, Told, Zeros, XorBits, M.Next;
  }

  lemma AgesOn(c: Setup, s: Link, i: Stimulus)
    requires Allowed(c, i) && Linked(c, s)
    ensures var n := Next(c, s, i); n.tr.falls == 0 && n.tr.age > 0 ==> s.tr.falls == 0 && n.tr.age == s.tr.age + 1
    ensures s.tr.falls == 0 && s.tr.age < 5 ==> Next(c, s, i).tr.falls == 0 && Next(c, s, i).tr.age == s.tr.age + 1
  {
    hide E.Next, Shows, Told, Arrived, Zeros;
  }

  /** On a settled link the emulator's own done pulse follows the master's by three
      clocks, and comes at no other time. */
  lemma EmulatorDone(c: Setup, states: seq<Link>, stimuli: seq<Stimulus>, m: nat, n: nat)
    requires IsRun(c, states, stimuli) && m < n && n + 3 < |states|
    requires Quiescent(c, states[m]) || (Linked(c, states[m]) && Settled(c, states[m]))
    ensures states[n + 3].em.done <==> states[n].ma.done
  {
    hide Inv, Next, Allowed, Linked, Settled, Reset, Quiescent;
    if Quiescent(c, states[m]) {
      QuiescentSettled(c, states[m]);
    }
    StaysSettled(c, states, stimuli, m, n - 1);
    StaysSettled(c, states, stimuli, m, n);
    StaysSettled(c, states, stimuli, m, n + 1);
    StaysSettled(c, states, stimuli, m, n + 2);
    DoneWhenRisen(c, states[n - 1], stimuli[n - 1]);
    AgesOn(c, states[n], stimuli[n]);
    AgesOn(c, states[n + 1], stimuli[n + 1]);
    EmulatorEnds(c, states[n + 2], stimuli[n + 2]);
  }

  /** The frame driven on clock `i`, bit by bit with the faults switched on. */
  predicate IsFrame(word: seq<bool>, i: Stimulus) {
    && |word| == |i.frame| == |i.faultMask|
    && forall k :: 0 <= k < |word| ==> (word[k] <==> i.frame[k] != (i.faultEnable && i.faultMask[k]))
  }

  lemma SelectsFrame(s: Link, i: Stimulus)
    requires |i.frame| == |i.faultMask|
    ensures IsFrame(E.Selected(EmIn(s, i)), i)
  {
  }

  lemma {:induction false} WordKept(c: Setup, states: seq<Link>, stimuli: seq<Stimulus>, m: nat, n: nat, d: nat)
    requires Accepts(c, states, stimuli, n) && m <= n && n + 1 + d < |states| && c.half + 2 < d <= Span(c.half, c.width)
    requires Linked(c, states[m]) && Settled(c, states[m])
    ensures IsFrame(states[n + 1 + d].tr.word, stimuli[n + c.half + 3])
    decreases d
  {
    hide Inv, Elapsed, Allowed, Span, Linked, Settled, Reset, Quiescent, E.Next, M.Next, Leftover, IsFrame, E.Selected;
    BusyFor(c, states, stimuli, n, d - 1);
    StaysSettled(c, states, stimuli, m, n + d);
    SettledReads(c, states[n + d]);
    ArrivesWhen(c, states[n + d]);
    if d == c.half + 3 {
      AllowedFrame(c, stimuli[n + d]);
      SelectsFrame(states[n + d], stimuli[n + d]);
    } else {
      WordKept(c, states, stimuli, m, n, d - 1);
    }
  }

  lemma AllowedFrame(c: Setup, i: Stimulus)
    requires Allowed(c, i)
    ensures |i.frame| == |i.faultMask| == c.width
  {
  }

  /** What a settled link reads, in terms of the inputs alone: a start accepted on
      clock `n` ends with the frame driven when its first falling edge arrives, the
      masked bits flipped if the fault is enabled there, most significant bit
      first. */
  lemma ReadsTheFrame(c: Setup, states: seq<Link>, stimuli: seq<Stimulus>, m: nat, n: nat)
    requires Accepts(c, states, stimuli, n) && m <= n && n + 1 + Span(c.half, c.width) < |states|
    requires Quiescent(c, states[m]) || (Linked(c, states[m]) && Settled(c, states[m]))
    ensures var d := states[n + 1 + Span(c.half, c.width)];
            d.ma.done && c.half + 2 < Span(c.half, c.width) && IsFrame(d.ma.captured, stimuli[n + c.half + 3])
  {
    hide Inv, Next, Span, Loads, Allowed, Linked, Settled, Arrives, Reset, Quiescent, IsFrame;
    if Quiescent(c, states[m]) {
      QuiescentSettled(c, states[m]);
    }
    SpanGrows(c.half, 1, c.width);
    SpanOne(c.half);
    Loopback(c, states, stimuli, m, n);
    WordKept(c, states, stimuli, m, n, Span(c.half, c.width));
  }

  lemma QuiescentSettled(c: Setup, s: Link)
    requires 6 <= c.half && 2 <= c.width && Quiescent(c, s)
    ensures Linked(c, s) && Settled(c, s)
  {
  }

  // ---- a start before the emulator has settled ----

  /** No start from clock `m` on until clock `n`; `n` may lie after the run. */
  predicate FirstAt(stimuli: seq<Stimulus>, m: nat, n: nat) {
    m <= n && (forall j :: m <= j < n && j < |stimuli| ==> !stimuli[j].start) && (n < |stimuli| ==> stimuli[n].start)
  }

  /** The master has just raised the clock, or comes out of reset. */
  predicate Fresh(s: Link) {
    !s.ma.busy && s.ma.clk && !s.ma.phaseLow && s.tr.falls == 0 && s.tr.age == 0
  }

  /** `since` clocks after that, `t` after the clock with the start (none yet if
      negative). */
  predicate Waiting(c: Setup, s: Link, since: nat, t: int) {
    if t <= c.half then
      && s.tr.falls == 0 && !s.ma.phaseLow && s.ma.clk && s.tr.age == since
      && (s.ma.busy <==> t > 0) && (t > 0 ==> s.ma.tick == t - 1 && s.ma.bitCount == 0)
    else
      && s.tr.falls == 1 && s.ma.busy && s.ma.phaseLow && !s.ma.clk
      && s.tr.age == t - c.half - 1 && s.ma.tick == s.tr.age
  }

  lemma WaitingStep(c: Setup, s: Link, i: Stimulus, since: nat, t: int)
    requires Allowed(c, i) && Sized(c, s) && Waiting(c, s, since, t) && t <= c.half + 2
    requires (t < 0 ==> !i.start) && (t == 0 ==> i.start)
    ensures Waiting(c, Next(c, s, i), since + 1, t + 1) && Next(c, s, i).tr.lead == s.tr.lead
  {
    hide E.Next, Leftover, Zeros;
  }

  lemma {:induction false} WaitsFor(c: Setup, states: seq<Link>, stimuli: seq<Stimulus>, m: nat, n: nat, k: nat)
    requires IsRun(c, states, stimuli) && m <= k < |states| && k <= n + c.half + 3
    requires Fresh(states[m]) && FirstAt(stimuli, m, n)
    ensures Waiting(c, states[k], k - m, k - n) && states[k].tr.lead == states[m].tr.lead
    decreases k
  {
    hide Waiting, Next, Allowed, Reset, Quiescent;
    if k == m {
      FreshWaits(c, states[m], m - n);
    } else {
      WaitsFor(c, states, stimuli, m, n, k - 1);
      WaitingStep(c, states[k - 1], stimuli[k - 1], k - 1 - m, k - 1 - n);
    }
  }

  lemma FreshWaits(c: Setup, s: Link, t: int)
    requires Fresh(s) && t <= 0
    ensures Waiting(c, s, 0, t)
  {
  }

  /** An emulator in the middle of a frame, without a falling edge. */
  predicate Holds(c: Setup, s: Link) {
    s.em.active && s.em.bitCount < c.width
  }

  /** The gap has not elapsed on any clock before `k`, counted from the clock on
      which the last rising edge reached the emulator. */
  predicate NoGap(stimuli: seq<Stimulus>, m: nat, k: nat) {
    forall j :: m + 3 <= j < k && j < |stimuli| ==> j - m - 3 < stimuli[j].gapTicks
  }

  lemma HoldsStep(c: Setup, s: Link, i: Stimulus, since: nat, t: int)
    requires Allowed(c, i) && Linked(c, s) && Waiting(c, s, since, t) && t <= c.half + 2 && since >= 1
    requires t > 0 ==> since >= t
    requires s.em.active ==> Holds(c, s) && (since >= 3 ==> s.em.gapCount == since - 3)
    ensures var n := Next(c, s, i);
            && (n.em.active <==> s.em.active && (since >= 3 ==> since - 3 < i.gapTicks))
            && (n.em.active ==> Holds(c, n) && (since + 1 >= 3 ==> n.em.gapCount == since + 1 - 3))
  {
    hide E.Next, M.Next, Shows, Zeros, Captured, Leftover, Arrived;
    EmulatorQuiet(c.width, s.em, EmIn(s, i));
  }

  lemma {:induction false} HoldsUntil(c: Setup, states: seq<Link>, stimuli: seq<Stimulus>, m: nat, n: nat, k: nat)
    requires IsRun(c, states, stimuli) && m < k < |states| && k <= n + c.half + 3
    requires Fresh(states[m]) && FirstAt(stimuli, m, n) && Holds(c, states[m + 1])
    ensures states[k].em.active <==> NoGap(stimuli, m, k)
    ensures states[k].em.active ==> Holds(c, states[k]) && (k >= m + 3 ==> states[k].em.gapCount == k - m - 3)
    decreases k
  {
    hide Linked, Inv, Waiting, Next, Allowed, Reset, Quiescent, Fresh;
    if k == m + 1 {
    } else {
      HoldsUntil(c, states, stimuli, m, n, k - 1);
      RunInv(c, states, stimuli, k - 1);
      WaitsFor(c, states, stimuli, m, n, k - 1);
      HoldsStep(c, states[k - 1], stimuli[k - 1], k - 1 - m, k - 1 - n);
    }
  }

  /** Where an emulator is left in the middle of a frame: by the reset, and by every
      transaction that had a leftover. */
  predicate Midway(c: Setup, s: Link) {
    s == Reset(c) || (Linked(c, s) && s.ma.done && s.tr.lead != [])
  }

  lemma LeftHolding(c: Setup, s: Link, i: Stimulus)
    requires Allowed(c, i) && Midway(c, s)
    ensures Fresh(s) && Holds(c, Next(c, s, i))
  {
    if s == Reset(c) {
      ResetStep(c, i);
    } else {
      hide E.Next, Shows, Zeros, Captured, Leftover, Arrived, Told;
      EmulatorQuiet(c.width, s.em, EmIn(s, i));
    }
  }

  /** How a transaction went whose first falling edge arrives in `a` and which is
      done in `d`: right if the emulator selects a frame at that edge, and the word
      read is that frame; otherwise it begins with the leftover. */
  predicate Reads(c: Setup, a: Link, d: Link, right: bool) {
    && Arrives(a) && (Loads(a) <==> right)
    && d.ma.done && |d.tr.lead| < c.width == |d.tr.word| && d.ma.captured == (d.tr.lead + d.tr.word)[..c.width]
    && (d.tr.lead == [] <==> right) && (right ==> d.ma.captured == d.tr.word)
    && (!right && d.tr.lead[0] != d.tr.word[0] ==> d.ma.captured != d.tr.word)
  }

  lemma ReadsAs(c: Setup, a: Link, d: Link)
    requires Arrives(a) && (Loads(a) <==> d.tr.lead == []) && d.ma.done
    requires |d.tr.lead| < c.width == |d.tr.word| && d.ma.captured == (d.tr.lead + d.tr.word)[..c.width]
    ensures Reads(c, a, d, Loads(a))
  {
    assert [] + d.tr.word == d.tr.word;
    assert d.tr.lead != [] ==> d.ma.captured[0] == d.tr.lead[0];
  }

  /** The first falling edge of the first start: the emulator is idle there if and
      only if the gap has elapsed before. */
  lemma FirstEdge(c: Setup, states: seq<Link>, stimuli: seq<Stimulus>, m: nat, n: nat)
    requires IsRun(c, states, stimuli) && FirstAt(stimuli, m, n) && n + c.half + 3 < |states|
    requires Midway(c, states[m])
    ensures Accepts(c, states, stimuli, n) && c.half + 2 < Span(c.half, c.width)
    ensures Linked(c, states[n + c.half + 3]) && Arrives(states[n + c.half + 3])
    ensures Loads(states[n + c.half + 3]) <==> !NoGap(stimuli, m, n + c.half + 3)
  {
    hide Inv, Elapsed, Span, Linked, Midway, Quiescent, Next, NoGap, Holds, Allowed, Arrives, Loads;
    LeftHolding(c, states[m], stimuli[m]);
    WaitsFor(c, states, stimuli, m, n, n);
    SpanGrows(c.half, 1, c.width);
    SpanOne(c.half);
    BusyFor(c, states, stimuli, n, c.half + 2);
    RunInv(c, states, stimuli, n + c.half + 3);
    ArrivesWhen(c, states[n + c.half + 3]);
    HoldsUntil(c, states, stimuli, m, n, n + c.half + 3);
  }

  /** The exact condition on the first start after the reset (`m == 0`), or after a
      transaction that had a leftover: it is read right if and only if the gap has
      elapsed on some clock before its first falling edge arrives. */
  lemma FirstStart(c: Setup, states: seq<Link>, stimuli: seq<Stimulus>, m: nat, n: nat)
    requires IsRun(c, states, stimuli) && FirstAt(stimuli, m, n) && n + 1 + Span(c.half, c.width) < |states|
    requires Midway(c, states[m])
    ensures Accepts(c, states, stimuli, n) && c.half + 2 < Span(c.half, c.width)
    ensures Reads(c, states[n + c.half + 3], states[n + 1 + Span(c.half, c.width)], !NoGap(stimuli, m, n + c.half + 3))
  {
    hide Inv, Elapsed, Span, Midway, Quiescent, Next, Leftover, NoGap, Holds, Allowed, Arrives, Loads, Reads;
    SpanGrows(c.half, 1, c.width);
    SpanOne(c.half);
    FirstEdge(c, states, stimuli, m, n);
    Transaction(c, states, stimuli, n);
    ReadsAs(c, states[n + c.half + 3], states[n + 1 + Span(c.half, c.width)]);
  }

  /** With a constant gap: if and only if the clocks waited and the half period
      together exceed it. */
  lemma FirstStartAt(c: Setup, states: seq<Link>, stimuli: seq<Stimulus>, m: nat, n: nat, gap: u32)
    requires IsRun(c, states, stimuli) && FirstAt(stimuli, m, n) && n + 1 + Span(c.half, c.width) < |states|
    requires Midway(c, states[m])
    requires forall j :: 0 <= j < |stimuli| ==> stimuli[j].gapTicks == gap
    ensures c.half + 2 < Span(c.half, c.width)
    ensures Reads(c, states[n + c.half + 3], states[n + 1 + Span(c.half, c.width)], (n - m) + c.half > gap)
  {
    hide Span, Midway, NoGap, Accepts, Reads, Reset, Quiescent, Next, Allowed;
    FirstStart(c, states, stimuli, m, n);
    GapIs(stimuli, m, n + c.half + 3, gap);
  }

  lemma GapIs(stimuli: seq<Stimulus>, m: nat, k: nat, gap: u32)
    requires m + 3 <= k <= |stimuli| && forall j :: 0 <= j < |stimuli| ==> stimuli[j].gapTicks == gap
    ensures NoGap(stimuli, m, k) <==> k - m - 3 <= gap
  {
    if NoGap(stimuli, m, k) && k > m + 3 {
      assert stimuli[k - 1].gapTicks == gap;
    }
  }

  /** After a first start late enough, every transaction is read right. */
  lemma LateStartSettles(c: Setup, states: seq<Link>, stimuli: seq<Stimulus>, m: nat, n: nat, k: nat)
    requires IsRun(c, states, stimuli) && FirstAt(stimuli, m, n) && n + c.half + 3 < k < |states|
    requires Midway(c, states[m]) && !NoGap(stimuli, m, n + c.half + 3)
    ensures states[k].ma.done ==> states[k].ma.captured == states[k].tr.word
    ensures Loads(states[k]) <==> Arrives(states[k])
  {
    hide Span, Inv, Midway, Linked, Reset, Quiescent, NoGap, FirstAt, Next, Allowed;
    FirstEdge(c, states, stimuli, m, n);
    var a := n + c.half + 3;
    RunInv(c, states, stimuli, a);
    RunInv(c, states, stimuli, a + 1);
    SelectedSettles(c, states[a], stimuli[a]);
    Loopback(c, states, stimuli, a + 1, k);
  }

  lemma SelectedSettles(c: Setup, s: Link, i: Stimulus)
    requires Allowed(c, i) && Linked(c, s) && Arrives(s) && Loads(s)
    ensures Settled(c, Next(c, s, i))
  {
    hide Shows, Zeros, XorBits, E.Next, M.Next, Told, Captured, Arrived;
    MasterHolds(c.width, s.ma, M.Inputs(i.start, c.half, s.em.data));
  }

  /** Left alone after the reset under a constant gap, the link is idle and settled
      from clock `gap + 4` on and not before. */
  lemma ResetSettles(c: Setup, states: seq<Link>, stimuli: seq<Stimulus>, k: nat, gap: u32)
    requires IsRun(c, states, stimuli) && states[0] == Reset(c) && k < |states|
    requires forall j :: 0 <= j < |stimuli| ==> stimuli[j].gapTicks == gap && (j < k ==> !stimuli[j].start)
    ensures Quiescent(c, states[k]) <==> k > gap + 3
  {
    hide Linked, Inv, Next;
    if k > 0 {
      var n := FirstAfter(stimuli, k);
      assert Allowed(c, stimuli[0]);
      LeftHolding(c, states[0], stimuli[0]);
      WaitsFor(c, states, stimuli, 0, n, k);
      HoldsUntil(c, states, stimuli, 0, n, k);
      RunInv(c, states, stimuli, k);
      if k >= 3 {
        GapIs(stimuli, 0, k, gap);
      }
      IdleLooks(c, states[k]);
    }
  }

  lemma FirstAfter(stimuli: seq<Stimulus>, k: nat) returns (n: nat)
    requires forall j :: 0 <= j < |stimuli| && j < k ==> !stimuli[j].start
    ensures k <= n && FirstAt(stimuli, 0, n)
  {
    n := k;
    while n < |stimuli| && !stimuli[n].start
      invariant k <= n && forall j :: 0 <= j < n && j < |stimuli| ==> !stimuli[j].start
    {
      n := n + 1;
    }
  }

  lemma IdleLooks(c: Setup, s: Link)
    requires Linked(c, s) && s.tr.falls == 0 && s.tr.lead == [] && !s.ma.busy && s.ma.clk
    ensures Quiescent(c, s) <==> s.tr.age >= 3 && !s.em.active
  {
    hide Shows, Captured, Told, Arrived;
  }
}
