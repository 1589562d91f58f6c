/** rtl/dac/ad3542r_quad_stream.v: configuration, instruction and endless data
    stream to two AD3542R devices sharing CS and SCLK. */
module DacStream {
  import opened Words
  import opened BitVectors

  type Code = s: seq<bool> | |s| == 16 witness Zeros(16)

  datatype Sample = Sample(ch0: Code, ch1: Code, ch2: Code, ch3: Code) {
    function WordA(): (w: seq<bool>)
      ensures |w| == 32
    {
      ch1 + ch0
    }

    function WordB(): (w: seq<bool>)
      ensures |w| == 32
    {
      ch3 + ch2
    }
  }

  datatype Setup = Setup(startupCycles: u32, range: seq<bool>, safe: Code) {
    predicate Valid() { |range| == 8 }

    function Safe(): Sample { Sample(safe, safe, safe, safe) }
  }

  datatype Inputs = Inputs(enable: bool, forceSafe: bool, sample: Sample, sampleValid: bool) {
    predicate Muted() { forceSafe || !enable }
  }

  datatype Mode = Delay | CfgStart | CfgShift | CfgGap | WaitSample | StreamInstr | StreamData

  /** One device's SDIO0 line and what is still to be shifted out on it. */
  datatype Lane = Lane(sdio: bool, shift: seq<bool>)

  datatype Regs = Regs(
    mode: Mode, index: nat, startup: u32, bits: nat, a: Lane, b: Lane,
    active: Sample, pending: Sample, pendingValid: bool, acceptedPulse: bool, updatePulse: bool,
    sclk: bool, csN: bool, resetN: bool, initialized: bool, streamActive: bool)

  function Reset(c: Setup): Regs {
    Regs(Delay, 0, 0, 0, IDLE, IDLE, c.Safe(), c.Safe(), false, false, false, false, true, false, false, false)
  }

  const IDLE: Lane := Lane(false, Zeros(31))

  /** STREAM_MODE, the kept loop length and the output range. */
  function ConfigWord(c: Setup, index: nat): (w: seq<bool>)
    requires c.Valid()
    ensures |w| == 16
  {
    match index
    case 0 => Bits(0x0E04, 16)
    case 1 => Bits(0x0F04, 16)
    case 2 => Bits(0x19, 8) + c.range
    case _ => Zeros(16)
  }

  /** Write from address 0x2C. */
  function Instruction(): (w: seq<bool>)
    ensures |w| == 8
  {
    [false] + Bits(0x2C, 7)
  }

  predicate Ready(r: Regs, i: Inputs) {
    r.initialized && !r.pendingValid && !i.forceSafe
  }

  predicate OutputEnable(r: Regs, i: Inputs) {
    r.initialized && r.streamActive && i.enable && !i.forceSafe
  }

  predicate Wide(r: Regs) {
    |r.a.shift| == 31 && |r.b.shift| == 31
  }

  /** A lane with a fresh word on it. */
  function Loaded(word: seq<bool>): (l: Lane)
    requires 1 <= |word| <= 32
    ensures |l.shift| == 31
  {
    Lane(word[0], word[1..] + Zeros(32 - |word|))
  }

  function Shifted(l: Lane): (m: Lane)
    requires |l.shift| == 31
    ensures |m.shift| == 31
  {
    Lane(l.shift[0], l.shift[1..] + [false])
  }

  /** SCLK toggles; on falling edges the lanes move on, the last one excepted. */
  predicate LastFall(r: Regs) {
    r.sclk && r.bits <= 1
  }

  function Toggled(r: Regs): Regs
    requires Wide(r)
  {
    if !r.sclk then r.(sclk := true)
    else if r.bits > 1 then r.(sclk := false, a := Shifted(r.a), b := Shifted(r.b), bits := r.bits - 1)
    else r.(sclk := false)
  }

  function Started(r: Regs, s: Sample): Regs {
    r.(a := Loaded(s.WordA()), b := Loaded(s.WordB()), bits := 32)
  }

  /** What every clock does before looking at the state. */
  function Sampled(r: Regs, i: Inputs): Regs {
    var accepts := i.sampleValid && Ready(r, i);
    r.(acceptedPulse := accepts, updatePulse := false, resetN := true,
       pending := if accepts then i.sample else r.pending,
       pendingValid := (accepts || r.pendingValid) && !i.forceSafe)
  }

  /** The sample a data word shows when the word before it has ended. */
  function Chosen(c: Setup, r: Regs, i: Inputs): Sample {
    if i.Muted() then c.Safe()
    else if r.mode == StreamData && r.pendingValid then r.pending
    else r.active
  }

  function Next(c: Setup, r: Regs, i: Inputs): Regs
    requires c.Valid() && Wide(r)
  {
    var n := Sampled(r, i);
    match r.mode
    case Delay =>
      if c.startupCycles == 0 || r.startup >= c.startupCycles - 1 then
        n.(csN := true, sclk := false, startup := 0, index := 0, mode := CfgStart)
      else n.(csN := true, sclk := false, startup := Plus(r.startup, 1))
    case CfgStart =>
      var word := ConfigWord(c, r.index);
      n.(csN := false, sclk := false, a := Loaded(word), b := Loaded(word), bits := 16, mode := CfgShift)
    case CfgShift =>
      if LastFall(r) then
        n.(sclk := false, bits := 0, csN := true, a := r.a.(sdio := false), b := r.b.(sdio := false), mode := CfgGap)
      else Toggled(n)
    case CfgGap =>
      if r.index < 2 then n.(csN := true, sclk := false, index := r.index + 1, mode := CfgStart)
      else n.(csN := true, sclk := false, initialized := true, mode := WaitSample)
    case WaitSample =>
      if r.pendingValid then
        n.(active := r.pending, pendingValid := false, a := Loaded(Instruction()), b := Loaded(Instruction()),
           bits := 8,
           csN := false, sclk := false, streamActive := true, mode := StreamInstr)
      else n.(csN := true, sclk := false)
    case StreamInstr =>
      if LastFall(r) then Started(n, Chosen(c, r, i)).(sclk := false, mode := StreamData) else Toggled(n)
    case StreamData =>
      if LastFall(r) then
        Started(n, Chosen(c, r, i)).(sclk := false, csN := false, updatePulse := true, active := Chosen(c, r, i),
                                     pendingValid := n.pendingValid && !(r.pendingValid && !i.Muted()))
      else Toggled(n).(csN := false)
  }

  /** The module itself; `n` collects the non-blocking assignments. */
  class QuadStream {
    const c: Setup
    var regs: Regs

    constructor (c: Setup)
      ensures this.c == c && regs == Reset(c)
    {
      this.c := c;
      regs := Reset(c);
    }

    method Clock(i: Inputs)
      requires c.Valid() && Wide(regs)
      modifies this
      ensures regs == Next(c, old(regs), i)
    {
      hide Bits, Loaded, Shifted, ConfigWord, Instruction, Zeros, Plus;
      var sampleReady := regs.initialized && !regs.pendingValid && !i.forceSafe;
      var n := regs.(acceptedPulse := false, updatePulse := false, resetN := true);
      if i.sampleValid && sampleReady {
        n := n.(pending := i.sample, pendingValid := true, acceptedPulse := true);
      }
      if i.forceSafe {
        n := n.(pendingValid := false);
      }
      assert n == Sampled(regs, i);
      match regs.mode {
        case Delay => n := Startup(i, n);
        case CfgStart => n := StartConfig(i, n);
        case CfgShift => n := ShiftConfig(i, n);
        case CfgGap => n := EndConfig(i, n);
        case WaitSample => n := AwaitSample(i, n);
        case StreamInstr => n := ShiftInstruction(i, n);
        case StreamData => n := ShiftData(i, n);
      }
      regs := n;
    }

    method Startup(i: Inputs, m: Regs) returns (n: Regs)
      requires c.Valid() && Wide(regs) && regs.mode == Delay && m == Sampled(regs, i)
      ensures n == Next(c, regs, i)
    {
      hide Bits, Loaded, Shifted, ConfigWord, Instruction, Zeros, Plus;
      n := m;
      n := n.(csN := true, sclk := false);
      if c.startupCycles == 0 || regs.startup >= c.startupCycles - 1 {
        n := n.(startup := 0, index := 0, mode := CfgStart);
      } else {
        n := n.(startup := Plus(regs.startup, 1));
      }
    }

    method StartConfig(i: Inputs, m: Regs) returns (n: Regs)
      requires c.Valid() && Wide(regs) && regs.mode == CfgStart && m == Sampled(regs, i)
      ensures n == Next(c, regs, i)
    {
      hide Bits, Loaded, Shifted, ConfigWord, Instruction, Zeros, Plus;
      n := m;
      var config := ConfigWord(c, regs.index);
      n := n.(csN := false, sclk := false, bits := 16, mode := CfgShift);
      n := n.(a := Loaded(config), b := Loaded(config));
    }

    method ShiftConfig(i: Inputs, m: Regs) returns (n: Regs)
      requires c.Valid() && Wide(regs) && regs.mode == CfgShift && m == Sampled(regs, i)
      ensures n == Next(c, regs, i)
    {
      hide Bits, Loaded, Shifted, ConfigWord, Instruction, Zeros, Plus;
      n := m;
      if !regs.sclk {
        n := n.(sclk := true);
      } else {
        n := n.(sclk := false);
        if regs.bits > 1 {
          n := n.(a := Shifted(regs.a), b := Shifted(regs.b), bits := regs.bits - 1);
        } else {
          n := n.(bits := 0, csN := true, a := regs.a.(sdio := false), b := regs.b.(sdio := false), mode := CfgGap);
        }
      }
    }

    method EndConfig(i: Inputs, m: Regs) returns (n: Regs)
      requires c.Valid() && Wide(regs) && regs.mode == CfgGap && m == Sampled(regs, i)
      ensures n == Next(c, regs, i)
    {
      hide Bits, Loaded, Shifted, ConfigWord, Instruction, Zeros, Plus;
      n := m;
      n := n.(csN := true, sclk := false);
      if regs.index < 2 {
        n := n.(index := regs.index + 1, mode := CfgStart);
      } else {
        n := n.(initialized := true, mode := WaitSample);
      }
    }

    method AwaitSample(i: Inputs, m: Regs) returns (n: Regs)
      requires c.Valid() && Wide(regs) && regs.mode == WaitSample && m == Sampled(regs, i)
      ensures n == Next(c, regs, i)
    {
      hide Bits, Loaded, Shifted, ConfigWord, Instruction, Zeros, Plus;
      n := m;
      n := n.(csN := true, sclk := false);
      if regs.pendingValid {
        n := n.(active := regs.pending, pendingValid := false, bits := 8, csN := false, streamActive := true,
                mode := StreamInstr);
        n := n.(a := Loaded(Instruction()), b := Loaded(Instruction()));
      }
    }

    method ShiftInstruction(i: Inputs, m: Regs) returns (n: Regs)
      requires c.Valid() && Wide(regs) && regs.mode == StreamInstr && m == Sampled(regs, i)
      ensures n == Next(c, regs, i)
    {
      hide Bits, Loaded, Shifted, ConfigWord, Instruction, Zeros, Plus;
      n := m;
      if !regs.sclk {
        n := n.(sclk := true);
      } else {
        n := n.(sclk := false);
        if regs.bits > 1 {
          n := n.(a := Shifted(regs.a), b := Shifted(regs.b), bits := regs.bits - 1);
        } else {
          var word := if i.forceSafe || !i.enable then c.Safe() else regs.active;
          n := n.(bits := 32, a := Loaded(word.WordA()), b := Loaded(word.WordB()), mode := StreamData);
        }
      }
    }

    method ShiftData(i: Inputs, m: Regs) returns (n: Regs)
      requires c.Valid() && Wide(regs) && regs.mode == StreamData && m == Sampled(regs, i)
      ensures n == Next(c, regs, i)
    {
      hide Bits, Loaded, Shifted, ConfigWord, Instruction, Zeros, Plus;
      n := m;
      n := n.(csN := false);
      if !regs.sclk {
        n := n.(sclk := true);
      } else {
        n := n.(sclk := false);
        if regs.bits > 1 {
          n := n.(a := Shifted(regs.a), b := Shifted(regs.b), bits := regs.bits - 1);
        } else {
          n := n.(bits := 32, updatePulse := true);
          if i.forceSafe || !i.enable {
            n := n.(active := c.Safe());
          } else if regs.pendingValid {
            n := n.(active := regs.pending, pendingValid := false);
          }
          n := n.(a := Loaded(n.active.WordA()), b := Loaded(n.active.WordB()));
        }
      }
    }
  }
}

/** What the two devices see over a whole run. */
module DacReceived {
  import opened Words
  import opened BitVectors
  import opened DacStream

  /** History: the bits each device has read on rising SCLK, the samples whose
      data words have begun, the accepted samples, how many of those have begun,
      and the clocks since reset. */
  datatype Track = Track(seenA: seq<bool>, seenB: seq<bool>, sent: seq<Sample>, accepted: seq<Sample>, started: nat,
                         clock: nat)

  datatype State = State(r: Regs, tr: Track)

  predicate Begins(r: Regs) {
    (r.mode == StreamInstr || r.mode == StreamData) && LastFall(r)
  }

  /** The word that begins shows an accepted sample for the first time. */
  predicate Fresh(r: Regs, i: Inputs) {
    Begins(r) && !i.Muted() && (r.mode == StreamInstr || r.pendingValid)
  }

  function Step(c: Setup, s: State, i: Inputs): State
    requires c.Valid() && Wide(s.r)
  {
    var n := Next(c, s.r, i);
    var rises := n.sclk && !s.r.sclk;
    State(n, Track(
            if rises then s.tr.seenA + [s.r.a.sdio] else s.tr.seenA,
            if rises then s.tr.seenB + [s.r.b.sdio] else s.tr.seenB,
            if Begins(s.r) then s.tr.sent + [Chosen(c, s.r, i)] else s.tr.sent,
            if n.acceptedPulse then s.tr.accepted + [i.sample] else s.tr.accepted,
            if Fresh(s.r, i) then s.tr.started + 1 else s.tr.started,
            s.tr.clock + 1))
  }

  function Initial(c: Setup): State {
    State(Reset(c), Track([], [], [], [], 0, 0))
  }

  // ---- words on a lane ----

  function WordsA(sent: seq<Sample>): seq<seq<bool>> {
    seq(|sent|, k requires 0 <= k < |sent| => sent[k].WordA())
  }

  function WordsB(sent: seq<Sample>): seq<seq<bool>> {
    seq(|sent|, k requires 0 <= k < |sent| => sent[k].WordB())
  }

  /** The first `n` configuration words. */
  function Configs(c: Setup, n: nat): seq<seq<bool>>
    requires c.Valid()
  {
    if n == 0 then [] else Configs(c, n - 1) + [ConfigWord(c, n - 1)]
  }

  /** Every word put on a lane so far, in order: configuration, instruction,
      data. */
  function Script(c: Setup, r: Regs, data: seq<seq<bool>>): seq<seq<bool>>
    requires c.Valid()
  {
    match r.mode
    case Delay => []
    case CfgStart => Configs(c, r.index)
    case CfgShift => Configs(c, r.index + 1)
    case CfgGap => Configs(c, r.index + 1)
    case WaitSample => Configs(c, 3)
    case StreamInstr => Configs(c, 3) + [Instruction()]
    case StreamData => Configs(c, 3) + [Instruction()] + data
  }

  /** Bits of the current word that the device has not read yet. */
  function Left(l: Lane, bits: nat, sclk: bool): seq<bool>
    requires |l.shift| == 31 && bits <= 32
  {
    if bits == 0 then [] else (if sclk then [] else [l.sdio]) + l.shift[..bits - 1]
  }

  predicate Spelled(c: Setup, r: Regs, l: Lane, seen: seq<bool>, data: seq<seq<bool>>)
    requires c.Valid()
  {
    |l.shift| == 31 && r.bits <= 32 && seen + Left(l, r.bits, r.sclk) == Flat(Script(c, r, data))
  }

  /** Which registers belong together in each state. */
  predicate Control(r: Regs) {
    && r.index <= 2 && r.bits <= 32 && Wide(r)
    && match r.mode
       case Delay => r.index == 0 && r.bits == 0 && !r.sclk && r.csN && !r.initialized && !r.streamActive
       case CfgStart => r.bits == 0 && !r.sclk && r.csN && !r.initialized && !r.streamActive
       case CfgShift => 1 <= r.bits <= 16 && !r.csN && !r.initialized && !r.streamActive
       case CfgGap => r.bits == 0 && !r.sclk && r.csN && !r.initialized && !r.streamActive
       case WaitSample => r.bits == 0 && !r.sclk && r.csN && r.initialized && !r.streamActive && r.index == 2
       case StreamInstr => 1 <= r.bits <= 8 && !r.csN && r.initialized && r.streamActive
       case StreamData => 1 <= r.bits && !r.csN && r.initialized && r.streamActive
  }

  lemma ControlStep(c: Setup, r: Regs, i: Inputs)
    requires c.Valid() && Control(r)
    ensures Control(Next(c, r, i))
  {
    hide Bits, Loaded, Shifted, ConfigWord, Instruction, Zeros, Plus, Chosen;
  }

  lemma LeftRises(l: Lane, bits: nat)
    requires |l.shift| == 31 && 1 <= bits <= 32
    ensures Left(l, bits, false) == [l.sdio] + Left(l, bits, true)
  {
  }

  lemma LeftShifts(l: Lane, bits: nat)
    requires |l.shift| == 31 && 2 <= bits <= 32
    ensures Left(Shifted(l), bits - 1, false) == Left(l, bits, true)
  {
  }

  lemma LeftLoaded(w: seq<bool>)
    requires 1 <= |w| <= 32
    ensures |Loaded(w).shift| == 31 && Left(Loaded(w), |w|, false) == w
  {
  }

  /** A word is put on a lane whose last word has been read to the end. */
  lemma LoadSpells(words: seq<seq<bool>>, w: seq<bool>, seen: seq<bool>)
    requires 1 <= |w| <= 32 && seen == Flat(words)
    ensures |Loaded(w).shift| == 31 && seen + Left(Loaded(w), |w|, false) == Flat(words + [w])
  {
    LeftLoaded(w);
    FlatSnoc(words, w);
  }

  /** Next's effect on one lane, seen through its words. */
  lemma LaneStep(c: Setup, r: Regs, i: Inputs, onA: bool, l: Lane, m: Lane, seen: seq<bool>, data: seq<seq<bool>>,
                 word: seq<bool>)
    requires c.Valid() && Control(r) && Spelled(c, r, l, seen, data) && |word| == 32
    requires r.mode == StreamInstr ==> data == []
    requires if onA then l == r.a && m == Next(c, r, i).a && word == Chosen(c, r, i).WordA()
             else l == r.b && m == Next(c, r, i).b && word == Chosen(c, r, i).WordB()
    ensures var n := Next(c, r, i);
            Spelled(c, n, m, if n.sclk && !r.sclk then seen + [l.sdio] else seen, if Begins(r) then data + [word]
                    else data)
  {
    hide Bits, Flat, Configs, Left, ConfigWord, Instruction, Zeros, Loaded, Shifted, Chosen;
    var n := Next(c, r, i);
    var words := Script(c, r, data);
    Idle(l);
    if r.mode == CfgStart {
      LoadSpells(words, ConfigWord(c, r.index), seen);
      ConfigsStep(c, r.index);
    } else if r.mode == WaitSample && r.pendingValid {
      LoadSpells(words, Instruction(), seen);
    } else if r.bits > 0 && !r.sclk {
      LeftRises(l, r.bits);
      assert seen + ([l.sdio] + Left(l, r.bits, true)) == (seen + [l.sdio]) + Left(l, r.bits, true);
    } else if r.bits > 1 {
      LeftShifts(l, r.bits);
    } else if Begins(r) {
      LoadSpells(words, word, seen);
      assert words + [word] == Configs(c, 3) + [Instruction()] + (data + [word]);
    } else {
      Idle(m);
      ConfigsEnds(c);
    }
  }

  lemma Idle(l: Lane)
    requires |l.shift| == 31
    ensures Left(l, 0, false) == [] && Left(l, 1, true) == []
  {
  }

  lemma ConfigsStep(c: Setup, n: nat)
    requires c.Valid()
    ensures Configs(c, n + 1) == Configs(c, n) + [ConfigWord(c, n)]
  {
  }

  lemma ConfigsEnds(c: Setup)
    requires c.Valid()
    ensures Configs(c, 0) == []
  {
  }

  // ---- the run ----

  lemma ResetControl(c: Setup)
    ensures Control(Reset(c))
  {
  }

  lemma ControlWide(r: Regs)
    requires Control(r)
    ensures Wide(r)
  {
  }

  /** From reset under `inputs`. */
  function After(c: Setup, inputs: seq<Inputs>, n: nat): (s: State)
    requires c.Valid() && n <= |inputs|
    ensures Control(s.r) && Wide(s.r)
  {
    hide Next;
    ResetControl(c);
    if n == 0 then Initial(c)
    else
      var before := After(c, inputs, n - 1);
      ControlStep(c, before.r, inputs[n - 1]);
      Step(c, before, inputs[n - 1])
  }

  lemma AfterIs(c: Setup, inputs: seq<Inputs>, n: nat)
    requires c.Valid() && n <= |inputs|
    ensures After(c, inputs, n) == if n == 0 then Initial(c) else Step(c, After(c, inputs, n - 1), inputs[n - 1])
  {
    hide Step, Next, Control;
  }

  predicate Heard(c: Setup, s: State)
    requires c.Valid()
  {
    && Control(s.r) && (s.r.mode != StreamData ==> s.tr.sent == [])
    && Spelled(c, s.r, s.r.a, s.tr.seenA, WordsA(s.tr.sent))
    && Spelled(c, s.r, s.r.b, s.tr.seenB, WordsB(s.tr.sent))
  }

  lemma WordsSnoc(sent: seq<Sample>, s: Sample)
    ensures WordsA(sent + [s]) == WordsA(sent) + [s.WordA()]
    ensures WordsB(sent + [s]) == WordsB(sent) + [s.WordB()]
    ensures WordsA([]) == [] && WordsB([]) == []
  {
  }

  lemma HeardStep(c: Setup, s: State, i: Inputs)
    requires c.Valid() && Heard(c, s)
    ensures Heard(c, Step(c, s, i))
  {
    hide Spelled, Control;
    ControlStep(c, s.r, i);
    ControlWide(s.r);
    var word := Chosen(c, s.r, i);
    WordsSnoc(s.tr.sent, word);
    hide Chosen, WordsA, WordsB;
    LaneStep(c, s.r, i, true, s.r.a, Next(c, s.r, i).a, s.tr.seenA, WordsA(s.tr.sent), word.WordA());
    LaneStep(c, s.r, i, false, s.r.b, Next(c, s.r, i).b, s.tr.seenB, WordsB(s.tr.sent), word.WordB());
    DataKeeps(c, s.r, i);
  }

  lemma DataKeeps(c: Setup, r: Regs, i: Inputs)
    requires c.Valid() && Wide(r)
    ensures Next(c, r, i).mode == StreamData <==> r.mode == StreamData || Begins(r)
  {
    hide Bits, Loaded, Shifted, ConfigWord, Instruction, Zeros, Plus, Chosen;
  }

  lemma HeardStarts(c: Setup)
    requires c.Valid()
    ensures Heard(c, Initial(c))
  {
    ResetControl(c);
  }

  /** Parser undoes printer: after any number of clocks from reset, whatever the
      inputs, what each device has read on rising SCLK plus the unread rest of
      the word on its line is exactly the configuration words, the instruction
      and the data words begun so far, on both lanes. */
  lemma {:induction false} DevicesRead(c: Setup, inputs: seq<Inputs>, n: nat)
    requires c.Valid() && n <= |inputs|
    ensures var s := After(c, inputs, n);
            && Heard(c, s) && |s.tr.seenA| == |s.tr.seenB|
            && s.tr.seenA + Left(s.r.a, s.r.bits, s.r.sclk) == Flat(Script(c, s.r, WordsA(s.tr.sent)))
            && s.tr.seenB + Left(s.r.b, s.r.bits, s.r.sclk) == Flat(Script(c, s.r, WordsB(s.tr.sent)))
  {
    hide Heard, Step, Next, Control, After, Left, Flat, Script, WordsA, WordsB;
    AfterIs(c, inputs, n);
    if n == 0 {
      HeardStarts(c);
    } else {
      DevicesRead(c, inputs, n - 1);
      HeardStep(c, After(c, inputs, n - 1), inputs[n - 1]);
      InLockstep(c, After(c, inputs, n - 1), inputs[n - 1]);
    }
    HeardSpells(c, After(c, inputs, n));
  }

  lemma InLockstep(c: Setup, s: State, i: Inputs)
    requires c.Valid() && Wide(s.r) && |s.tr.seenA| == |s.tr.seenB|
    ensures var n := Step(c, s, i); |n.tr.seenA| == |n.tr.seenB|
  {
    hide Next;
  }

  lemma HeardSpells(c: Setup, s: State)
    requires c.Valid() && Heard(c, s)
    ensures Control(s.r) && s.r.bits <= 32
    ensures s.tr.seenA + Left(s.r.a, s.r.bits, s.r.sclk) == Flat(Script(c, s.r, WordsA(s.tr.sent)))
    ensures s.tr.seenB + Left(s.r.b, s.r.bits, s.r.sclk) == Flat(Script(c, s.r, WordsB(s.tr.sent)))
  {
  }

  // ---- start-up ----

  /** Clocks from reset to the end of the start-up delay, and to initialized. */
  function Settled(c: Setup): nat { Max(1, c.startupCycles) }

  predicate Timeline(c: Setup, s: State) {
    var t, d, r := s.tr.clock, Settled(c), s.r;
    match r.mode
    case Delay => r.startup == t < d
    case CfgStart => t == d + 34 * r.index
    case CfgShift => t == d + 34 * r.index + 33 - 2 * r.bits + if r.sclk then 1 else 0
    case CfgGap => t == d + 34 * r.index + 33
    case _ => t >= d + 102
  }

  lemma TimelineStep(c: Setup, s: State, i: Inputs)
    requires c.Valid() && Control(s.r) && Timeline(c, s)
    ensures Timeline(c, Step(c, s, i))
  {
    hide Bits, Loaded, Shifted, ConfigWord, Instruction, Zeros, Chosen;
  }

  /** Start-up takes the configured delay (at least one clock) and 102 clocks of
      configuration, whatever the inputs do. */
  lemma {:induction false} InitializedWhen(c: Setup, inputs: seq<Inputs>, n: nat)
    requires c.Valid() && n <= |inputs|
    ensures var s := After(c, inputs, n);
            s.tr.clock == n && Timeline(c, s) && (s.r.initialized <==> n >= Settled(c) + 102)
  {
    hide Step, Next, Control, Timeline, After;
    AfterIs(c, inputs, n);
    if n == 0 {
      TimelineStarts(c);
    } else {
      InitializedWhen(c, inputs, n - 1);
      TimelineStep(c, After(c, inputs, n - 1), inputs[n - 1]);
      ClockCounts(c, After(c, inputs, n - 1), inputs[n - 1]);
    }
    TimelineTells(c, After(c, inputs, n));
  }

  lemma TimelineStarts(c: Setup)
    ensures Timeline(c, Initial(c))
  {
  }

  lemma ClockCounts(c: Setup, s: State, i: Inputs)
    requires c.Valid() && Wide(s.r)
    ensures Step(c, s, i).tr.clock == s.tr.clock + 1
  {
  }

  lemma TimelineTells(c: Setup, s: State)
    requires Control(s.r) && Timeline(c, s)
    ensures s.r.initialized <==> s.tr.clock >= Settled(c) + 102
  {
  }

  // ---- acceptance order ----

  /** `sent` is `samples` in order, each repeated one or more times. */
  predicate Stretched(samples: seq<Sample>, sent: seq<Sample>) {
    if sent == [] then samples == []
    else
      && samples != [] && samples[|samples| - 1] == sent[|sent| - 1]
      && (Stretched(samples, sent[..|sent| - 1]) || Stretched(samples[..|samples| - 1], sent[..|sent| - 1]))
  }

  /** The same, by position: which sample each word shows. */
  lemma {:induction false} StretchedOwner(samples: seq<Sample>, sent: seq<Sample>) returns (owner: seq<nat>)
    requires Stretched(samples, sent) && sent != []
    ensures |owner| == |sent| && owner[0] == 0 && owner[|sent| - 1] == |samples| - 1
    ensures forall p :: 0 <= p < |sent| ==> owner[p] < |samples| && sent[p] == samples[owner[p]]
    ensures forall p :: 0 < p < |sent| ==> owner[p] == owner[p - 1] || owner[p] == owner[p - 1] + 1
  {
    var rest := sent[..|sent| - 1];
    if rest == [] {
      owner := [0];
    } else {
      var before := StretchedOwner(if Stretched(samples, rest) then samples else samples[..|samples| - 1], rest);
      owner := before + [|samples| - 1];
    }
  }

  lemma StretchAgain(samples: seq<Sample>, sent: seq<Sample>)
    requires Stretched(samples, sent) && sent != []
    ensures Stretched(samples, sent + [sent[|sent| - 1]])
  {
    assert (sent + [sent[|sent| - 1]])[..|sent|] == sent;
  }

  lemma StretchFresh(samples: seq<Sample>, sent: seq<Sample>, s: Sample)
    requires Stretched(samples, sent)
    ensures Stretched(samples + [s], sent + [s])
  {
    assert (sent + [s])[..|sent|] == sent && (samples + [s])[..|samples|] == samples;
  }

  /** Accepted samples that have not begun: the one behind the instruction, and
      the pending one. */
  function Backlog(r: Regs): seq<Sample> {
    (if r.mode == StreamInstr then [r.active] else []) + (if r.pendingValid then [r.pending] else [])
  }

  predicate Kept(s: State) {
    && s.tr.started <= |s.tr.accepted| && s.tr.accepted[s.tr.started..] == Backlog(s.r)
    && Stretched(s.tr.accepted[..s.tr.started], s.tr.sent)
    && (s.r.pendingValid ==> s.r.initialized)
    && if s.r.mode == StreamData then s.tr.sent != [] && s.tr.sent[|s.tr.sent| - 1] == s.r.active
       else s.tr.sent == [] && s.tr.started == 0
  }

  lemma BacklogStep(c: Setup, r: Regs, i: Inputs)
    requires c.Valid() && Control(r) && !i.Muted() && (r.pendingValid ==> r.initialized)
    ensures var n := Next(c, r, i);
            && (n.pendingValid ==> n.initialized)
            && (n.mode == StreamData && !Begins(r) ==> n.active == r.active && r.mode == StreamData)
            && (Begins(r) ==> n.mode == StreamData && n.active == Chosen(c, r, i))
            && (if Fresh(r, i) then Backlog(r) != [] && Chosen(c, r, i) == Backlog(r)[0] else Begins(r) ==>
                Chosen(c, r, i) == r.active)
            && Backlog(n) == (if Fresh(r, i) then Backlog(r)[1..] else Backlog(r)) +
               (if n.acceptedPulse then [i.sample] else [])
  {
    hide Bits, Loaded, Shifted, ConfigWord, Instruction, Zeros, Plus;
  }

  /** A queue whose first `k` elements are out: at most one more leaves, at most
      one joins. */
  lemma QueueMoves(queue: seq<Sample>, k: nat, back: seq<Sample>, more: seq<Sample>, leaves: bool)
    requires k <= |queue| && queue[k..] == back && (leaves ==> back != [])
    ensures var taken := if leaves then k + 1 else k;
            && taken <= |queue| && (queue + more)[taken..] == (if leaves then back[1..] else back) + more
            && (queue + more)[..taken] == queue[..k] + (if leaves then [back[0]] else [])
  {
  }

  lemma StretchMoves(samples: seq<Sample>, sent: seq<Sample>, begins: bool, isFresh: bool, word: Sample)
    requires Stretched(samples, sent) && (isFresh ==> begins)
    requires begins && !isFresh ==> sent != [] && sent[|sent| - 1] == word
    ensures Stretched(samples + (if isFresh then [word] else []), if begins then sent + [word] else sent)
  {
    hide Stretched;
    assert samples + [] == samples;
    if isFresh {
      StretchFresh(samples, sent, word);
    } else if begins {
      StretchAgain(samples, sent);
    }
  }

  /** The registers' part of Kept. */
  predicate Shown(r: Regs, sent: seq<Sample>, started: nat) {
    && (r.pendingValid ==> r.initialized)
    && if r.mode == StreamData then sent != [] && sent[|sent| - 1] == r.active else sent == [] && started == 0
  }

  lemma ShownStep(c: Setup, s: State, i: Inputs)
    requires c.Valid() && Control(s.r) && !i.Muted() && Kept(s)
    ensures var n := Step(c, s, i);
            && Shown(n.r, n.tr.sent, n.tr.started)
            && (Begins(s.r) && !Fresh(s.r, i) ==>
                 s.tr.sent != [] && s.tr.sent[|s.tr.sent| - 1] == Chosen(c, s.r, i))
            && (Fresh(s.r, i) ==> Begins(s.r))
  {
    hide Next, Control, Stretched, Chosen, Backlog, LastFall;
    ControlWide(s.r);
    BacklogStep(c, s.r, i);
    DataKeeps(c, s.r, i);
  }

  lemma KeptStep(c: Setup, s: State, i: Inputs)
    requires c.Valid() && Control(s.r) && !i.Muted() && Kept(s)
    ensures Kept(Step(c, s, i))
  {
    hide Next, Control, Stretched, Chosen, Backlog, LastFall, Fresh, Begins;
    ControlWide(s.r);
    var n, k, isFresh, begins := Step(c, s, i), s.tr.started, Fresh(s.r, i), Begins(s.r);
    ShownStep(c, s, i);
    BacklogStep(c, s.r, i);
    hide Inputs.Muted;
    QueueMoves(s.tr.accepted, k, Backlog(s.r), if n.r.acceptedPulse then [i.sample] else [], isFresh);
    StretchMoves(s.tr.accepted[..k], s.tr.sent, begins, isFresh, Chosen(c, s.r, i));
    assert n.tr.accepted == s.tr.accepted + (if n.r.acceptedPulse then [i.sample] else []);
  }

  predicate Unmuted(inputs: seq<Inputs>) {
    forall k :: 0 <= k < |inputs| ==> !inputs[k].Muted()
  }

  /** With enable high and no FORCE_SAFE nothing accepted is lost: the data words
      are the accepted samples in acceptance order, each sent one or more times,
      and the at most two that are still missing are held in order. */
  lemma {:induction false} AcceptedInOrder(c: Setup, inputs: seq<Inputs>, n: nat)
    requires c.Valid() && n <= |inputs| && Unmuted(inputs)
    ensures var s := After(c, inputs, n);
            && Kept(s) && |Backlog(s.r)| <= 2
            && s.tr.accepted == s.tr.accepted[..s.tr.started] + Backlog(s.r)
            && Stretched(s.tr.accepted[..s.tr.started], s.tr.sent)
  {
    hide Step, Next, Control, Stretched, After;
    AfterIs(c, inputs, n);
    if n == 0 {
      NothingKept(c);
    } else {
      hide Kept;
      AcceptedInOrder(c, inputs, n - 1);
      KeptStep(c, After(c, inputs, n - 1), inputs[n - 1]);
    }
    KeptSplits(After(c, inputs, n));
  }

  lemma NothingKept(c: Setup)
    ensures Kept(Initial(c))
  {
  }

  lemma KeptSplits(s: State)
    requires Kept(s)
    ensures s.tr.started <= |s.tr.accepted| && s.tr.accepted == s.tr.accepted[..s.tr.started] + Backlog(s.r)
    ensures Stretched(s.tr.accepted[..s.tr.started], s.tr.sent)
  {
    hide Stretched;
  }

  // ---- latency ----

  /** Clocks until the word on the line has been read to the end. */
  function WordLeft(r: Regs): int {
    2 * r.bits - (if r.sclk then 1 else 0)
  }

  /** Clocks until the first word of accepted sample `k` begins. */
  function Wait(s: State, k: nat): int {
    if k < s.tr.started then 0
    else if s.r.mode == WaitSample then 17
    else if s.r.mode == StreamInstr && k > s.tr.started then WordLeft(s.r) + 64
    else WordLeft(s.r)
  }

  lemma WordTicks(c: Setup, r: Regs, i: Inputs)
    requires c.Valid() && Control(r) && r.bits > 0
    ensures var n := Next(c, r, i);
            if WordLeft(r) > 1 then WordLeft(n) == WordLeft(r) - 1 && n.mode == r.mode
            else LastFall(r) && (Begins(r) ==> WordLeft(n) == 64)
  {
    hide Bits, Loaded, Shifted, ConfigWord, Instruction, Zeros, Plus, Chosen;
  }

  lemma WaitStep(c: Setup, s: State, i: Inputs, k: nat)
    requires c.Valid() && Control(s.r) && !i.Muted() && Kept(s) && k < |s.tr.accepted|
    ensures 0 <= Wait(s, k) <= 80 && (Wait(s, k) == 0 <==> k < s.tr.started)
    ensures Wait(s, k) > 0 ==> Wait(Step(c, s, i), k) == Wait(s, k) - 1
  {
    hide Stretched, Chosen, Bits, Loaded, Shifted, ConfigWord, Instruction, Zeros, Plus;
    assert s.tr.accepted[s.tr.started..] == Backlog(s.r);
    assert |s.tr.accepted| == s.tr.started + |Backlog(s.r)|;
    if s.r.mode != WaitSample && Backlog(s.r) != [] {
      WordTicks(c, s.r, i);
    }
  }

  /** A sample accepted by clock `n` begins after exactly `Wait` more clocks, at
      most one word time and 16 clocks. */
  lemma {:induction false} BeginsAfterWait(c: Setup, inputs: seq<Inputs>, n: nat, k: nat, d: nat)
    requires c.Valid() && n + d <= |inputs| && Unmuted(inputs) && k < |After(c, inputs, n).tr.accepted|
    requires n + d < |inputs|
    ensures k < |After(c, inputs, n + d).tr.accepted|
    ensures Wait(After(c, inputs, n), k) <= 80
    ensures After(c, inputs, n + d).tr.started > k <==> d >= Wait(After(c, inputs, n), k)
    ensures d <= Wait(After(c, inputs, n), k) ==> Wait(After(c, inputs, n + d), k) == Wait(After(c, inputs, n), k) - d
    decreases d
  {
    hide Step, Next, Control, Stretched, Kept, Wait, After;
    AfterIs(c, inputs, n + d);
    var s := After(c, inputs, n + d);
    AcceptedInOrder(c, inputs, n + d);
    if d == 0 {
    } else {
      BeginsAfterWait(c, inputs, n, k, d - 1);
      AcceptedInOrder(c, inputs, n + d - 1);
      WaitStep(c, After(c, inputs, n + d - 1), inputs[n + d - 1], k);
      StartedGrows(c, After(c, inputs, n + d - 1), inputs[n + d - 1]);
    }
    WaitStep(c, s, inputs[n + d], k);
  }

  lemma StartedGrows(c: Setup, s: State, i: Inputs)
    requires c.Valid() && Wide(s.r)
    ensures var n := Step(c, s, i);
            |n.tr.accepted| >= |s.tr.accepted| && n.tr.started >= s.tr.started && n.tr.sent[..|s.tr.sent|] == s.tr.sent
  {
    hide Next, Chosen, Fresh;
  }

  // ---- when a sample is accepted ----

  lemma AcceptStep(c: Setup, s: State, i: Inputs)
    requires c.Valid() && Control(s.r)
    ensures var n := Step(c, s, i);
            && (n.r.acceptedPulse <==> i.sampleValid && s.r.initialized && !s.r.pendingValid && !i.forceSafe)
            && n.tr.accepted == s.tr.accepted + (if n.r.acceptedPulse then [i.sample] else [])
            && (n.r.acceptedPulse ==> n.r.pendingValid && n.r.pending == i.sample)
            && (n.r.pendingValid && !n.r.acceptedPulse ==>
                 s.r.pendingValid && n.r.pending == s.r.pending && !i.forceSafe)
  {
    hide Bits, Loaded, Shifted, ConfigWord, Instruction, Zeros, Plus, Chosen;
  }

  /** A sample is accepted on a clock exactly if it is valid there, initialization
      is over, no other is pending and FORCE_SAFE is low, whatever the inputs were
      before. */
  lemma AcceptedExactly(c: Setup, inputs: seq<Inputs>, n: nat)
    requires c.Valid() && n < |inputs|
    ensures var s, t, i := After(c, inputs, n), After(c, inputs, n + 1), inputs[n];
            && (t.r.acceptedPulse <==>
                i.sampleValid && n >= Settled(c) + 102 && !s.r.pendingValid && !i.forceSafe)
            && t.tr.accepted == s.tr.accepted + if t.r.acceptedPulse then [i.sample] else []
  {
    hide Step, Next, Control, Timeline, After;
    AfterIs(c, inputs, n + 1);
    InitializedWhen(c, inputs, n);
    AcceptStep(c, After(c, inputs, n), inputs[n]);
  }

  /** A pending sample was accepted on some clock, and has been pending since, with
      no FORCE_SAFE. */
  lemma {:induction false} PendingSince(c: Setup, inputs: seq<Inputs>, n: nat) returns (j: nat)
    requires c.Valid() && n <= |inputs| && After(c, inputs, n).r.pendingValid
    ensures j < n && After(c, inputs, j + 1).r.acceptedPulse && After(c, inputs, n).r.pending == inputs[j].sample
    ensures forall m :: j < m <= n ==> After(c, inputs, m).r.pendingValid
    ensures forall m :: j <= m < n ==> !inputs[m].forceSafe
  {
    hide Step, Next, Control, After;
    AfterIs(c, inputs, n);
    if n == 0 {
      assert false;
    } else {
      AcceptStep(c, After(c, inputs, n - 1), inputs[n - 1]);
      if After(c, inputs, n).r.acceptedPulse {
        j := n - 1;
      } else {
        j := PendingSince(c, inputs, n - 1);
      }
    }
  }

  lemma {:induction false} NoneAccepted(c: Setup, inputs: seq<Inputs>, n: nat, m: nat)
    requires c.Valid() && n <= m <= |inputs| && forall k :: n <= k < m ==> After(c, inputs, k).r.pendingValid
    ensures After(c, inputs, m).tr.accepted == After(c, inputs, n).tr.accepted
    decreases m
  {
    hide Step, Next, Control, After;
    if n == m {
    } else {
      NoneAccepted(c, inputs, n, m - 1);
      AcceptedExactly(c, inputs, m - 1);
    }
  }

  /** With enable high and no FORCE_SAFE, a sample held valid after initialization
      is accepted within one word time and 17 clocks. */
  lemma AcceptedWithin(c: Setup, inputs: seq<Inputs>, n: nat) returns (m: nat)
    requires c.Valid() && Unmuted(inputs) && n >= Settled(c) + 102 && n + 80 < |inputs|
    requires forall k :: n <= k <= n + 80 ==> inputs[k].sampleValid
    ensures n <= m <= n + 80 && After(c, inputs, m + 1).r.acceptedPulse
    ensures After(c, inputs, m + 1).tr.accepted == After(c, inputs, m).tr.accepted + [inputs[m].sample]
  {
    hide Step, Next, Control, After, Kept, Wait;
    if k :| n <= k <= n + 80 && !After(c, inputs, k).r.pendingValid {
      m := k;
    } else {
      NoneAccepted(c, inputs, n, n + 80);
      var a, b := After(c, inputs, n), After(c, inputs, n + 80);
      AcceptedInOrder(c, inputs, n);
      AcceptedInOrder(c, inputs, n + 80);
      KeptSplits(a);
      KeptSplits(b);
      assert |Backlog(a.r)| > 0 && |Backlog(b.r)| > 0;
      BeginsAfterWait(c, inputs, n, |a.tr.accepted| - 1, 80);
      assert false;
    }
    AcceptedExactly(c, inputs, m);
  }

  // ---- the stream by position ----

  lemma {:induction false} FlatParts(words: seq<seq<bool>>, p: nat)
    requires p < |words| && forall k :: 0 <= k < |words| ==> |words[k]| == 32
    ensures |Flat(words)| == 32 * |words| && Flat(words)[32 * p..32 * p + 32] == words[p]
  {
    var rest, n := words[..|words| - 1], |words| - 1;
    FlatLength(rest);
    if p == n {
    } else {
      FlatParts(rest, p);
      assert Flat(words)[32 * p..32 * p + 32] == Flat(rest)[32 * p..32 * p + 32];
    }
  }

  lemma {:induction false} FlatLength(words: seq<seq<bool>>)
    requires forall k :: 0 <= k < |words| ==> |words[k]| == 32
    ensures |Flat(words)| == 32 * |words|
  {
    if words == [] {
    } else {
      FlatLength(words[..|words| - 1]);
    }
  }

  /** The bits before the data: three configuration words and the instruction. */
  function Preamble(c: Setup): (b: seq<bool>)
    requires c.Valid()
    ensures |b| == 56
  {
    Bits(0x0E04, 16) + Bits(0x0F04, 16) + (Bits(0x19, 8) + c.range) + ([false] + Bits(0x2C, 7))
  }

  lemma FlatPreamble(c: Setup)
    requires c.Valid()
    ensures Flat(Configs(c, 3) + [Instruction()]) == Preamble(c)
  {
    hide Bits, Flat;
    ConfigsAre(c);
    FlatSnoc([], ConfigWord(c, 0));
    FlatSnoc([ConfigWord(c, 0)], ConfigWord(c, 1));
    FlatSnoc([ConfigWord(c, 0), ConfigWord(c, 1)], ConfigWord(c, 2));
    FlatSnoc(Configs(c, 3), Instruction());
    FlatNone();
    assert [] + [ConfigWord(c, 0)] == [ConfigWord(c, 0)];
    assert [ConfigWord(c, 0)] + [ConfigWord(c, 1)] == [ConfigWord(c, 0), ConfigWord(c, 1)];
  }

  lemma FlatNone()
    ensures Flat([]) == []
  {
  }

  lemma ConfigsAre(c: Setup)
    requires c.Valid()
    ensures Configs(c, 3) == [ConfigWord(c, 0), ConfigWord(c, 1)] + [ConfigWord(c, 2)]
  {
    hide ConfigWord;
    ConfigsEnds(c);
    ConfigsStep(c, 0);
    ConfigsStep(c, 1);
    ConfigsStep(c, 2);
  }

  lemma {:induction false} FlatJoins(a: seq<seq<bool>>, b: seq<seq<bool>>)
    ensures Flat(a + b) == Flat(a) + Flat(b)
  {
    if b == [] {
      assert a + b == a && Flat(a) + [] == Flat(a);
    } else {
      var rest, last := b[..|b| - 1], b[|b| - 1];
      FlatJoins(a, rest);
      assert (a + b)[..|a + b| - 1] == a + rest;
      assert Flat(a + b) == Flat(a + rest) + last;
      assert Flat(a) + (Flat(rest) + last) == (Flat(a) + Flat(rest)) + last;
    }
  }

  /** Lane A carries channel 1 and then channel 0, lane B channel 3 and then channel
      2, each code most significant bit first, right behind the 56 bits of the
      preamble: bit positions of everything a device reads once data flows. */
  lemma DeviceBits(c: Setup, inputs: seq<Inputs>, n: nat, p: nat)
    requires c.Valid() && n <= |inputs| && p < |After(c, inputs, n).tr.sent|
    ensures var s := After(c, inputs, n);
            var a := s.tr.seenA + Left(s.r.a, s.r.bits, s.r.sclk);
            var b := s.tr.seenB + Left(s.r.b, s.r.bits, s.r.sclk);
            && |a| == |b| == 56 + 32 * |s.tr.sent| && a[..56] == b[..56] == Preamble(c)
            && a[56 + 32 * p..72 + 32 * p] == s.tr.sent[p].ch1 && a[72 + 32 * p..88 + 32 * p] == s.tr.sent[p].ch0
            && b[56 + 32 * p..72 + 32 * p] == s.tr.sent[p].ch3 && b[72 + 32 * p..88 + 32 * p] == s.tr.sent[p].ch2
  {
    hide Step, Next, Control, After, Left, Flat, Configs, Instruction, Preamble, Spelled;
    DevicesRead(c, inputs, n);
    var s := After(c, inputs, n);
    LanePart(c, WordsA(s.tr.sent), p, s.tr.sent[p].ch1, s.tr.sent[p].ch0);
    LanePart(c, WordsB(s.tr.sent), p, s.tr.sent[p].ch3, s.tr.sent[p].ch2);
  }

  lemma LanePart(c: Setup, words: seq<seq<bool>>, p: nat, first: Code, second: Code)
    requires c.Valid() && p < |words| && words[p] == first + second
    requires forall k :: 0 <= k < |words| ==> |words[k]| == 32
    ensures var a := Flat(Configs(c, 3) + [Instruction()] + words);
            && |a| == 56 + 32 * |words| && a[..56] == Preamble(c)
            && a[56 + 32 * p..72 + 32 * p] == first && a[72 + 32 * p..88 + 32 * p] == second
  {
    hide Flat, Configs, Instruction, Preamble;
    FlatJoins(Configs(c, 3) + [Instruction()], words);
    FlatPreamble(c);
    FlatParts(words, p);
    var a, d := Flat(Configs(c, 3) + [Instruction()] + words), Flat(words);
    assert a == Preamble(c) + d;
    assert a[56 + 32 * p..72 + 32 * p] == d[32 * p..32 * p + 16] == d[32 * p..32 * p + 32][..16];
    assert a[72 + 32 * p..88 + 32 * p] == d[32 * p + 16..32 * p + 32] == d[32 * p..32 * p + 32][16..];
  }

  // ---- the switch and the update pulse ----

  lemma ActiveStep(c: Setup, s: State, i: Inputs)
    requires c.Valid() && Control(s.r) && (s.r.pendingValid ==> s.r.initialized)
    ensures var n := Step(c, s, i);
            && (n.r.streamActive <==> s.r.streamActive || s.r.pendingValid)
            && (n.r.pendingValid ==> n.r.initialized)
            && (n.r.updatePulse <==> |n.tr.sent| > |s.tr.sent| && s.r.mode == StreamData)
  {
    hide Bits, Loaded, Shifted, ConfigWord, Instruction, Zeros, Plus, Chosen;
  }

  lemma {:induction false} SentInData(c: Setup, inputs: seq<Inputs>, n: nat)
    requires c.Valid() && n <= |inputs|
    ensures After(c, inputs, n).r.mode == StreamData <==> After(c, inputs, n).tr.sent != []
  {
    hide Next, Control, After;
    AfterIs(c, inputs, n);
    if n == 0 {
    } else {
      SentInData(c, inputs, n - 1);
      DataKeeps(c, After(c, inputs, n - 1).r, inputs[n - 1]);
    }
  }

  ghost predicate EverPending(c: Setup, inputs: seq<Inputs>, n: nat)
    requires c.Valid() && n <= |inputs|
  {
    exists m :: 0 <= m < n && After(c, inputs, m).r.pendingValid
  }

  lemma {:induction false} StreamSince(c: Setup, inputs: seq<Inputs>, n: nat)
    requires c.Valid() && n <= |inputs|
    ensures var r := After(c, inputs, n).r;
            (r.pendingValid ==> r.initialized) && (r.streamActive <==> EverPending(c, inputs, n))
  {
    hide Step, Next, After, Control;
    AfterIs(c, inputs, n);
    if n == 0 {
    } else {
      StreamSince(c, inputs, n - 1);
      ActiveStep(c, After(c, inputs, n - 1), inputs[n - 1]);
      if EverPending(c, inputs, n - 1) {
        var m :| 0 <= m < n - 1 && After(c, inputs, m).r.pendingValid;
        assert EverPending(c, inputs, n);
      }
    }
  }

  /** The analog switch is closed exactly while enable is high, FORCE_SAFE low and a
      sample has ever been pending; the update pulse is up exactly after a clock on
      which a data word other than the first began. */
  lemma SwitchAndPulse(c: Setup, inputs: seq<Inputs>, n: nat)
    requires c.Valid() && n < |inputs|
    ensures OutputEnable(After(c, inputs, n).r, inputs[n]) <==>
            inputs[n].enable && !inputs[n].forceSafe && EverPending(c, inputs, n)
    ensures After(c, inputs, n + 1).r.updatePulse <==>
            |After(c, inputs, n + 1).tr.sent| > |After(c, inputs, n).tr.sent| > 0
  {
    hide Step, Next, After, EverPending, Control;
    AfterIs(c, inputs, n + 1);
    StreamSince(c, inputs, n);
    SentInData(c, inputs, n);
    StreamInitialized(After(c, inputs, n).r);
    ActiveStep(c, After(c, inputs, n), inputs[n]);
  }

  lemma StreamInitialized(r: Regs)
    requires Control(r)
    ensures r.streamActive ==> r.initialized
  {
  }

  // ---- FORCE_SAFE ----

  /** While FORCE_SAFE is high or enable low, every data word that begins is the
      safe code on all four channels, and the analog switch is open. */
  lemma {:induction false} MutedSendsSafe(c: Setup, inputs: seq<Inputs>, n: nat, m: nat)
    requires c.Valid() && n <= m <= |inputs| && forall k :: n <= k < m ==> inputs[k].Muted()
    ensures var s, t := After(c, inputs, n), After(c, inputs, m);
            && |s.tr.sent| <= |t.tr.sent| && t.tr.sent[..|s.tr.sent|] == s.tr.sent
            && forall p :: |s.tr.sent| <= p < |t.tr.sent| ==> t.tr.sent[p] == c.Safe()
    ensures m < |inputs| && inputs[m].Muted() ==> !OutputEnable(After(c, inputs, m).r, inputs[m])
    decreases m - n
  {
    hide Next, Control, After;
    AfterIs(c, inputs, m);
    if n < m {
      MutedSendsSafe(c, inputs, n, m - 1);
      StartedGrows(c, After(c, inputs, m - 1), inputs[m - 1]);
    }
  }
}
