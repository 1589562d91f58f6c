/** boards/beaglebone_black/firmware/pru1_b2_serial/main.c: commands and the
    clock-edge loop in SSI and BiSS mode. */
module SerialEmitter {
  import opened Words
  import opened SerialFrame
  import opened BitNumbers

  datatype Config = Config(mode: Mode, bits: nat, gap: u32, value: u32, mask: u32, flags: u32) {
    predicate Valid() { 1 <= bits <= 32 }

    function Frame(): (f: seq<bool>)
      ensures Valid() ==> |f| >= 1
    {
      FrameBits(mode, bits, value, mask, flags)
    }

    predicate Clocked() { mode == Ssi || mode == Biss }
  }

  datatype State = State(
    c: Config, configured: bool, enabled: bool, pending: bool, frameCount: u32, minHalf: u32, lastApply: u32,
    lastClk: bool, lastEdge: u32, active: bool, bitIndex: nat, totalBits: nat, frame: nat, data: bool)

  const RESET := State(Config(NoMode, 24, 200, 0, 0, 6), false, false, false, 0, 0, 0, true, 0, false, 0, 0, 0, false)

  // ---- commands ----

  datatype Request =
    | Malformed | Query | ForceSafe | Start | Stop
    | Configure(mode: u32, bits: u32, gap: u32)
    | SetData(value: u32, mask: u32, flags: u32)

  datatype Reply = Ok | BadRequest | CaptureRunning | UnsupportedMode | InvalidArgument

  function ModeOf(m: u32): Mode {
    match m case 1 => Ssi case 2 => Biss case 3 => Spi case _ => NoMode
  }

  function Handle(s: State, now: u32, r: Request): (State, Reply) {
    match r
    case Malformed => (s, BadRequest)
    case Query => (s, Ok)
    case ForceSafe => (s.(enabled := false, pending := false, data := false, lastApply := now), Ok)
    case Stop => (s.(enabled := false, pending := false, data := false, lastApply := now), Ok)
    case Configure(mode, bits, gap) =>
      if s.enabled then (s, CaptureRunning)
      else if ModeOf(mode) == NoMode then (s, UnsupportedMode)
      else if bits == 0 || bits > 32 then (s, InvalidArgument)
      else (s.(c := s.c.(mode := ModeOf(mode), bits := bits, gap := gap), configured := true, frameCount := 0,
               minHalf := 0, data := false), Ok)
    case SetData(value, mask, flags) =>
      if s.enabled then (s, CaptureRunning) else (s.(c := s.c.(value := value, mask := mask, flags := flags)), Ok)
    case Start =>
      if !s.configured then (s, InvalidArgument)
      else if s.enabled || s.pending then (s, CaptureRunning)
      else (s.(pending := true), Ok)
  }

  /** Once the reply has left, a pending start takes its baseline. */
  function AfterReply(s: State, clk: bool, now: u32): State {
    if !s.pending then s
    else s.(lastClk := clk, lastEdge := now, active := false, bitIndex := 0, minHalf := 0, data := s.c.Clocked(),
            lastApply := now, enabled := true, pending := false)
  }

  /** A request, when it is handled, and the clock level and time after its
      reply. */
  datatype Received = Received(request: Request, now: u32, clk: bool, sentAt: u32)

  function Serve(s: State, rs: seq<Received>): State {
    if rs == [] then s
    else
      var r := rs[|rs| - 1];
      AfterReply(Handle(Serve(s, rs[..|rs| - 1]), r.now, r.request).0, r.clk, r.sentAt)
  }

  // ---- clock edges ----

  predicate GapElapsed(s: State, now: u32) {
    s.lastEdge == 0 || (s.c.gap != 0 && Minus(now, s.lastEdge) >= s.c.gap)
  }

  /** A falling edge loads bit 0 of a new frame or moves on to the next bit. */
  function Fallen(s: State, now: u32): State
    requires s.c.Valid() && (s.active ==> s.totalBits >= 1)
  {
    if !s.active || GapElapsed(s, now) then
      var f := s.c.Frame();
      s.(frame := Number(f), totalBits := |f|, bitIndex := 0, active := true, data := FrameBit(Number(f), |f|, 0))
    else if s.bitIndex + 1 < s.totalBits then
      s.(bitIndex := s.bitIndex + 1, data := FrameBit(s.frame, s.totalBits, s.bitIndex + 1))
    else s
  }

  predicate Completes(s: State) {
    s.active && s.bitIndex + 1 >= s.totalBits
  }

  function Risen(s: State): State {
    if Completes(s) then s.(frameCount := Plus(s.frameCount, 1), active := false, data := true) else s
  }

  function EdgeTimed(s: State, now: u32): State {
    var delta := Minus(now, s.lastEdge);
    s.(minHalf := if s.lastEdge != 0 && (s.minHalf == 0 || delta < s.minHalf) then delta
       else s.minHalf, lastEdge := now)
  }

  function TimedOut(s: State, now: u32): State {
    if s.active && s.c.gap != 0 && Minus(now, s.lastEdge) >= s.c.gap then s.(active := false, data := true) else s
  }

  function ClockEdge(s: State, clk: bool, now: u32): State
    requires s.c.Valid() && (s.active ==> s.totalBits >= 1)
  {
    if clk == s.lastClk then TimedOut(s, now)
    else if clk then TimedOut(EdgeTimed(Risen(s), now), now)
    else TimedOut(EdgeTimed(Fallen(s, now), now), now)
  }

  /** One pass of the main loop in these modes. */
  datatype Pass = Pass(clk: bool, now: nat, requests: seq<Received>)

  predicate Sane(s: State) {
    s.c.Valid() && (s.active ==> s.totalBits >= 1)
  }

  function Clocked(s: State, clk: bool, now: u32): State
    requires Sane(s)
  {
    (if s.enabled && s.c.Clocked() then ClockEdge(s, clk, now) else s).(lastClk := clk)
  }

  function Next(s: State, p: Pass): State
    requires Sane(s)
  {
    Serve(Clocked(s, p.clk, Wrap(p.now)), p.requests)
  }

  /** The firmware: `main`'s variables, with DATA in `s.data`. */
  class Firmware {
    var s: State

    constructor ()
      ensures s == RESET
    {
      s := RESET;
    }

    method HandleRequest(now: u32, r: Request) returns (reply: Reply)
      modifies this
      ensures (s, reply) == Handle(old(s), now, r)
    {
      reply := Ok;
      match r {
        case Malformed => reply := BadRequest;
        case Query =>
        case ForceSafe =>
          s := s.(enabled := false, pending := false, data := false, lastApply := now);
        case Stop =>
          s := s.(enabled := false, pending := false, data := false, lastApply := now);
        case Configure(mode, bits, gap) =>
          if s.enabled {
            reply := CaptureRunning;
          } else if mode < 1 || mode > 3 {
            reply := UnsupportedMode;
          } else if bits == 0 || bits > 32 {
            reply := InvalidArgument;
          } else {
            s := s.(c := s.c.(mode := ModeOf(mode), bits := bits, gap := gap), configured := true);
            s := s.(frameCount := 0, minHalf := 0, data := false);
          }
        case SetData(value, mask, flags) =>
          if s.enabled {
            reply := CaptureRunning;
          } else {
            s := s.(c := s.c.(value := value, mask := mask, flags := flags));
          }
        case Start =>
          if !s.configured || s.enabled || s.pending {
            reply := if !s.configured then InvalidArgument else CaptureRunning;
          } else {
            s := s.(pending := true);
          }
      }
    }

    method UpdateMinHalfPeriod(now: u32)
      modifies this
      ensures s == EdgeTimed(old(s), now)
    {
      if s.lastEdge != 0 {
        var delta := Minus(now, s.lastEdge);
        if s.minHalf == 0 || delta < s.minHalf {
          s := s.(minHalf := delta);
        }
      }
      s := s.(lastEdge := now);
    }

    method FallingEdge(now: u32)
      requires Sane(s)
      modifies this
      ensures s == Fallen(old(s), now)
    {
      hide FrameBits, Number, Bit;
      var gapElapsed := if s.lastEdge == 0 then true else s.c.gap != 0 && Minus(now, s.lastEdge) >= s.c.gap;
      if !s.active || gapElapsed {
        var frame, totalBits := BuildFrame(s.c.mode, s.c.bits, s.c.value, s.c.mask, s.c.flags);
        s := s.(frame := frame, totalBits := totalBits, bitIndex := 0, active := true);
        s := s.(data := FrameBit(s.frame, s.totalBits, s.bitIndex));
      } else if s.bitIndex + 1 < s.totalBits {
        s := s.(bitIndex := s.bitIndex + 1);
        s := s.(data := FrameBit(s.frame, s.totalBits, s.bitIndex));
      }
    }

    method ClockStep(clk: bool, now: u32)
      requires Sane(s)
      modifies this
      ensures s == ClockEdge(old(s), clk, now)
    {
      hide Fallen;
      var rise, fall := clk && !s.lastClk, !clk && s.lastClk;
      if fall {
        FallingEdge(now);
      }
      if rise && s.active && s.bitIndex + 1 >= s.totalBits {
        s := s.(frameCount := Plus(s.frameCount, 1), active := false, data := true);
      }
      if rise || fall {
        UpdateMinHalfPeriod(now);
      }
      if s.active && s.c.gap != 0 && Minus(now, s.lastEdge) >= s.c.gap {
        s := s.(active := false, data := true);
      }
    }

    method LoopPass(p: Pass)
      requires Sane(s)
      modifies this
      ensures s == Next(old(s), p)
    {
      hide ClockEdge, Handle, AfterReply;
      if s.enabled && (s.c.mode == Ssi || s.c.mode == Biss) {
        ClockStep(p.clk, Wrap(p.now));
      }
      s := s.(lastClk := p.clk);
      ghost var clocked := s;
      for i := 0 to |p.requests|
        invariant s == Serve(clocked, p.requests[..i])
      {
        var r := p.requests[i];
        assert p.requests[..i + 1][..i] == p.requests[..i];
        var reply := HandleRequest(r.now, r.request);
        StartPending(r.clk, r.sentAt);
      }
      assert p.requests[..|p.requests|] == p.requests;
    }

    method StartPending(clk: bool, now: u32)
      modifies this
      ensures s == AfterReply(old(s), clk, now)
    {
      if s.pending {
        s := s.(lastClk := clk, lastEdge := now, active := false, bitIndex := 0, minHalf := 0);
        if s.c.mode == Ssi || s.c.mode == Biss {
          s := s.(data := true);
        } else {
          s := s.(data := false);
        }
        s := s.(lastApply := s.lastEdge, enabled := true, pending := false);
      }
    }
  }
}

/** What a master reads from the emitter over a whole session. */
module SerialSession {
  import opened Words
  import opened BitVectors
  import opened SerialFrame
  import opened BitNumbers
  import opened SerialEmitter

  predicate Harmless(rs: seq<Received>) {
    forall i :: 0 <= i < |rs| ==> rs[i].request != ForceSafe && rs[i].request != Stop
  }

  /** While enabled, every other command is refused or only answers. */
  lemma {:induction false} SessionUndisturbed(s: State, rs: seq<Received>)
    requires s.enabled && !s.pending && Harmless(rs)
    ensures Serve(s, rs) == s
  {
    if rs == [] {
    } else {
      SessionUndisturbed(s, rs[..|rs| - 1]);
      assert rs[|rs| - 1].request != ForceSafe && rs[|rs| - 1].request != Stop;
    }
  }

  /** History of a session: DATA at the rising edges of the frame being read,
      of whole frames, and of every rising edge after the first falling one; and
      the time of the last edge. */
  datatype Track = Track(heard: seq<bool>, frames: seq<seq<bool>>, read: seq<bool>, begun: bool, edgeAt: nat)

  function Listen(s: State, t: Track, p: Pass): Track {
    if p.clk == s.lastClk then t
    else if p.clk then
      if !s.active then t.(read := if t.begun then t.read + [s.data] else t.read, edgeAt := p.now)
      else if Completes(s) then t.(heard := [], frames := t.frames + [t.heard + [s.data]], read := t.read + [s.data],
                                   edgeAt := p.now)
      else t.(heard := t.heard + [s.data], read := t.read + [s.data], edgeAt := p.now)
    else
      t.(heard := if !s.active || GapElapsed(s, Wrap(p.now)) then [] else t.heard, begun := true, edgeAt := p.now)
  }

  /** A session: enabled, in SSI or BiSS mode, with `start` frames counted. */
  predicate InSession(c: Config, s: State) {
    c.Valid() && c.Clocked() && s.c == c && s.enabled && !s.pending
  }

  predicate Spelling(c: Config, s: State, t: Track, start: int) {
    && InSession(c, s)
    && (forall k :: 0 <= k < |t.frames| ==> t.frames[k] == c.Frame())
    && s.frameCount == Wrap(start + |t.frames|)
    && (s.active ==>
      && s.frame == Number(c.Frame()) && s.totalBits == |c.Frame()| && s.bitIndex < s.totalBits
      && s.data == c.Frame()[s.bitIndex]
      && t.heard == c.Frame()[..if s.lastClk then s.bitIndex + 1 else s.bitIndex]
      && (s.lastClk ==> s.bitIndex + 1 < s.totalBits))
  }

  const SILENT := Track([], [], [], false, 0)

  /** An accepted START in SSI or BiSS mode begins a session. */
  lemma SessionBegins(s: State, clk: bool, now: u32)
    requires s.c.Valid() && s.c.Clocked() && s.configured && !s.enabled && !s.pending
    ensures var n := AfterReply(Handle(s, now, Start).0, clk, now);
            Spelling(s.c, n, SILENT, s.frameCount) && Whole(n, SILENT) && n.data
  {
    assert Wrap(s.frameCount) == s.frameCount;
  }

  lemma FrameBitOf(c: Config, k: nat)
    requires c.Valid() && k < |c.Frame()|
    ensures FrameBit(Number(c.Frame()), |c.Frame()|, k) == c.Frame()[k]
  {
    hide FrameBits;
    FrameBitIs(c.Frame(), k);
  }

  /** Falling edge, then whatever the timeout makes of it. */
  lemma FallSpells(c: Config, s: State, t: Track, start: int, p: Pass)
    requires Spelling(c, s, t, start) && !p.clk && s.lastClk
    ensures Spelling(c, Clocked(s, p.clk, Wrap(p.now)), Listen(s, t, p), start)
  {
    hide Wrap, Config.Frame, FrameBit, Number;
    if !s.active || GapElapsed(s, Wrap(p.now)) {
      FrameBitOf(c, 0);
      assert c.Frame()[..0] == [];
    } else {
      FrameBitOf(c, s.bitIndex + 1);
    }
  }

  lemma RiseSpells(c: Config, s: State, t: Track, start: int, p: Pass)
    requires Spelling(c, s, t, start) && p.clk && !s.lastClk
    ensures Spelling(c, Clocked(s, p.clk, Wrap(p.now)), Listen(s, t, p), start)
  {
    PlusWrap(start + |t.frames|, 1);
    hide Wrap, Config.Frame, FrameBit, Number;
    if s.active {
      assert c.Frame()[..s.bitIndex] + [c.Frame()[s.bitIndex]] == c.Frame()[..s.bitIndex + 1];
      assert c.Frame()[..|c.Frame()|] == c.Frame();
    }
  }

  lemma StillSpells(c: Config, s: State, t: Track, start: int, p: Pass)
    requires Spelling(c, s, t, start) && p.clk == s.lastClk
    ensures Spelling(c, Clocked(s, p.clk, Wrap(p.now)), Listen(s, t, p), start)
  {
    hide Wrap, Config.Frame, FrameBit, Number;
  }

  lemma SpellingStep(c: Config, s: State, t: Track, start: int, p: Pass)
    requires Spelling(c, s, t, start) && Harmless(p.requests) && Sane(s)
    ensures Spelling(c, Next(s, p), Listen(s, t, p), start) && Next(s, p) == Clocked(s, p.clk, Wrap(p.now))
  {
    hide Spelling, Clocked, Listen;
    if p.clk == s.lastClk {
      StillSpells(c, s, t, start, p);
    } else if p.clk {
      RiseSpells(c, s, t, start, p);
    } else {
      FallSpells(c, s, t, start, p);
    }
    SpellingEnabled(c, Clocked(s, p.clk, Wrap(p.now)), Listen(s, t, p), start);
    SessionUndisturbed(Clocked(s, p.clk, Wrap(p.now)), p.requests);
  }

  lemma SpellingEnabled(c: Config, s: State, t: Track, start: int)
    requires Spelling(c, s, t, start)
    ensures s.enabled && !s.pending && Sane(s)
  {
    hide Config.Frame, Number;
  }

  // ---- nothing lost ----

  /** Every rising edge since the first falling one has read a frame bit, and all
      of them belong to whole frames or the one being read. */
  predicate Whole(s: State, t: Track) {
    && (t.begun && !s.active ==> s.lastClk)
    && (!t.begun ==> !s.active && t.frames == [] && t.read == [])
    && t.read == Flat(t.frames) + if s.active then t.heard else []
  }

  /** The pass gives up an unfinished frame: it times out between edges, or the
      falling edge takes the time since the last edge for a gap. */
  predicate Loses(s: State, p: Pass) {
    s.active &&
    if p.clk == s.lastClk then s.c.gap != 0 && Minus(Wrap(p.now), s.lastEdge) >= s.c.gap
    else !p.clk && GapElapsed(s, Wrap(p.now))
  }

  lemma StillWhole(c: Config, s: State, t: Track, start: int, p: Pass)
    requires Spelling(c, s, t, start) && Whole(s, t) && Sane(s) && p.clk == s.lastClk
    ensures Whole(Clocked(s, p.clk, Wrap(p.now)), Listen(s, t, p)) <==> !Loses(s, p)
  {
    hide Config.Frame, FrameBit, Number, Wrap, Flat;
    if s.active {
      Longer(Flat(t.frames), t.heard);
      HeardHigh(c, s, t, start);
    }
  }

  lemma HeardHigh(c: Config, s: State, t: Track, start: int)
    requires Spelling(c, s, t, start) && s.active
    ensures s.lastClk ==> t.heard != []
    ensures t.heard == [] || |t.heard| > 0
    ensures !s.lastClk ==> t.heard == c.Frame()[..s.bitIndex]
  {
    hide Config.Frame, FrameBit, Number, Wrap;
  }

  lemma Longer(a: seq<bool>, b: seq<bool>)
    ensures a == a + b <==> b == []
    ensures a + [] == a
  {
    if a == a + b {
      assert |a| == |a| + |b|;
    }
  }

  lemma FallWhole(c: Config, s: State, t: Track, start: int, p: Pass)
    requires Spelling(c, s, t, start) && Whole(s, t) && Sane(s) && s.lastClk && !p.clk
    ensures Whole(Clocked(s, p.clk, Wrap(p.now)), Listen(s, t, p)) <==> !Loses(s, p)
  {
    hide Config.Frame, FrameBit, Number, Wrap, Flat;
    SameTick(Wrap(p.now));
    if s.active {
      Longer(Flat(t.frames), t.heard);
      HeardHigh(c, s, t, start);
    }
  }

  lemma RiseWhole(c: Config, s: State, t: Track, start: int, p: Pass)
    requires Spelling(c, s, t, start) && Whole(s, t) && Sane(s) && !s.lastClk && p.clk
    ensures Whole(Clocked(s, p.clk, Wrap(p.now)), Listen(s, t, p)) && !Loses(s, p)
  {
    hide Config.Frame, FrameBit, Number, Wrap, Flat;
    SameTick(Wrap(p.now));
    FlatSnoc(t.frames, t.heard + [s.data]);
    assert Flat(t.frames) + t.heard + [s.data] == Flat(t.frames) + (t.heard + [s.data]);
    Longer(Flat(t.frames + [t.heard + [s.data]]), []);
  }

  /** One pass keeps what was read whole if and only if it gives up no frame. */
  lemma WholeExactly(c: Config, s: State, t: Track, start: int, p: Pass)
    requires Spelling(c, s, t, start) && Whole(s, t) && Sane(s)
    ensures Whole(Clocked(s, p.clk, Wrap(p.now)), Listen(s, t, p)) <==> !Loses(s, p)
  {
    hide Spelling, Whole, Loses, Clocked, Listen, Sane;
    if p.clk == s.lastClk {
      StillWhole(c, s, t, start, p);
    } else if p.clk {
      RiseWhole(c, s, t, start, p);
    } else {
      FallWhole(c, s, t, start, p);
    }
  }

  // ---- edges on time ----

  /** The firmware's edge tick is the last edge's. */
  predicate EdgeKnown(s: State, t: Track) {
    (t.begun ==> s.lastEdge == Wrap(t.edgeAt)) && (!t.begun ==> !s.active)
  }

  /** A frame's edges are closer than the gap. */
  predicate OnTime(s: State, t: Track, p: Pass) {
    s.active && s.c.gap != 0 ==> t.edgeAt <= p.now < t.edgeAt + s.c.gap
  }

  lemma EdgeStays(c: Config, s: State, t: Track, start: int, p: Pass)
    requires Spelling(c, s, t, start) && EdgeKnown(s, t) && Sane(s) && (t.begun && !s.active ==> s.lastClk)
    ensures EdgeKnown(Clocked(s, p.clk, Wrap(p.now)), Listen(s, t, p))
  {
    hide Config.Frame, FrameBit, Number, Wrap;
  }

  /** With edges on time a frame is given up in one case only: tick 0 doubles as
      "no edge yet", so the falling edge after a rising edge on tick 0 starts the
      frame again although no gap has passed. */
  lemma TickZeroOnly(s: State, t: Track, p: Pass)
    requires EdgeKnown(s, t) && OnTime(s, t, p)
    ensures Loses(s, p) <==> s.active && s.lastClk && !p.clk && s.lastEdge == 0
  {
    if s.active && s.c.gap != 0 {
      WrapDistance(t.edgeAt, p.now);
    }
  }

  lemma TickZeroRestarts(c: Config, s: State, t: Track, start: int, p: Pass)
    requires Spelling(c, s, t, start) && s.active && s.lastEdge == 0 && s.lastClk && !p.clk
    ensures var n := Clocked(s, p.clk, Wrap(p.now));
            n.active && n.bitIndex == 0 && t.heard != [] && Listen(s, t, p).heard == [] && n.frameCount == s.frameCount
  {
    hide Config.Frame, FrameBit, Number, Wrap;
    SameTick(Wrap(p.now));
  }

  lemma SameTick(now: u32)
    ensures Minus(now, now) == 0
  {
  }

  datatype Session = Session(s: State, t: Track)

  function After(from: State, passes: seq<Pass>, n: nat): Session
    requires n <= |passes| && Sane(from)
    ensures Sane(After(from, passes, n).s)
  {
    if n == 0 then Session(from, SILENT)
    else
      var before := After(from, passes, n - 1);
      NextSane(before.s, passes[n - 1]);
      Session(Next(before.s, passes[n - 1]), Listen(before.s, before.t, passes[n - 1]))
  }

  lemma NextSane(s: State, p: Pass)
    requires Sane(s)
    ensures Sane(Next(s, p))
  {
    hide Number, FrameBit, Wrap, Config.Frame;
    ServeSane(Clocked(s, p.clk, Wrap(p.now)), p.requests);
  }

  lemma HandleSane(s: State, now: u32, r: Request)
    requires Sane(s)
    ensures Sane(Handle(s, now, r).0)
  {
  }

  lemma {:induction false} ServeSane(s: State, rs: seq<Received>)
    requires Sane(s)
    ensures Sane(Serve(s, rs))
  {
    hide Handle;
    if rs == [] {
    } else {
      ServeSane(s, rs[..|rs| - 1]);
      HandleSane(Serve(s, rs[..|rs| - 1]), rs[|rs| - 1].now, rs[|rs| - 1].request);
    }
  }

  predicate Undisturbed(passes: seq<Pass>) {
    forall k :: 0 <= k < |passes| ==> Harmless(passes[k].requests)
  }

  /** For every sampled clock waveform, with whatever gaps: DATA at the rising
      edges of each completed frame spells the frame's bits, exactly all of
      them, and `frame_count` rises once per frame. */
  lemma {:induction false} FramesSpelled(c: Config, from: State, passes: seq<Pass>, n: nat)
    requires Sane(from) && Spelling(c, from, SILENT, from.frameCount) && Undisturbed(passes) && n <= |passes|
    ensures var a := After(from, passes, n);
            && Spelling(c, a.s, a.t, from.frameCount) && a.s.frameCount == Wrap(from.frameCount + |a.t.frames|)
            && forall k :: 0 <= k < |a.t.frames| ==> a.t.frames[k] == c.Frame()
  {
    hide Next, Listen, Config.Frame, Number;
    if n == 0 {
    } else {
      hide Spelling;
      FramesSpelled(c, from, passes, n - 1);
      var before := After(from, passes, n - 1);
      SpellingStep(c, before.s, before.t, from.frameCount, passes[n - 1]);
    }
    SpellingTells(c, After(from, passes, n).s, After(from, passes, n).t, from.frameCount);
  }

  lemma SpellingTells(c: Config, s: State, t: Track, start: int)
    requires Spelling(c, s, t, start)
    ensures s.frameCount == Wrap(start + |t.frames|) && forall k :: 0 <= k < |t.frames| ==> t.frames[k] == c.Frame()
    ensures s.active ==> ProperPrefix(t.heard, c.Frame())
  {
    hide Config.Frame, Number, Wrap;
  }

  predicate ProperPrefix(a: seq<bool>, b: seq<bool>) {
    |a| < |b| && a == b[..|a|]
  }

  /** None of the first `n` passes gives up a frame. */
  predicate Patient(from: State, passes: seq<Pass>, n: nat)
    requires n <= |passes| && Sane(from)
  {
    forall k :: 0 <= k < n ==> !Loses(After(from, passes, k).s, passes[k])
  }

  lemma AfterIs(from: State, passes: seq<Pass>, n: nat)
    requires n < |passes| && Sane(from)
    ensures var a := After(from, passes, n);
            After(from, passes, n + 1) == Session(Next(a.s, passes[n]), Listen(a.s, a.t, passes[n]))
  {
    hide Next, Listen, Sane;
  }

  predicate WholeAt(from: State, passes: seq<Pass>, n: nat)
    requires n <= |passes| && Sane(from)
  {
    Whole(After(from, passes, n).s, After(from, passes, n).t)
  }

  /** Over a run: what was read has been whole at every pass so far if and only if
      no pass gave up a frame. */
  lemma {:induction false} WholeRun(c: Config, from: State, passes: seq<Pass>, n: nat)
    requires Sane(from) && Spelling(c, from, SILENT, from.frameCount) && Undisturbed(passes) && n <= |passes| &&
            Whole(from, SILENT)
    ensures (forall k :: 0 <= k <= n ==> WholeAt(from, passes, k)) <==> Patient(from, passes, n)
  {
    hide Next, Listen, Spelling, Loses, Whole, Sane, Clocked, After, WholeAt;
    AfterZero(from, passes);
    if n == 0 {
      WholeIs(from, passes, 0);
    } else {
      WholeRun(c, from, passes, n - 1);
      FramesSpelled(c, from, passes, n - 1);
      AfterIs(from, passes, n - 1);
      WholeIs(from, passes, n - 1);
      WholeIs(from, passes, n);
      var before := After(from, passes, n - 1);
      SpellingStep(c, before.s, before.t, from.frameCount, passes[n - 1]);
      if WholeAt(from, passes, n - 1) {
        WholeExactly(c, before.s, before.t, from.frameCount, passes[n - 1]);
      }
    }
  }

  lemma WholeIs(from: State, passes: seq<Pass>, n: nat)
    requires n <= |passes| && Sane(from)
    ensures WholeAt(from, passes, n) <==> Whole(After(from, passes, n).s, After(from, passes, n).t)
  {
    hide Whole;
  }

  lemma AfterZero(from: State, passes: seq<Pass>)
    requires Sane(from)
    ensures After(from, passes, 0) == Session(from, SILENT)
  {
  }

  /** When no pass gives up a frame, nothing is lost or repeated: from the first
      falling edge on, DATA at the rising edges is the frame over and over, then a
      proper prefix of it. */
  lemma NothingLost(c: Config, from: State, passes: seq<Pass>, n: nat)
    requires Sane(from) && Spelling(c, from, SILENT, from.frameCount) && Undisturbed(passes) && n <= |passes|
    requires Whole(from, SILENT) && Patient(from, passes, n)
    ensures var a := After(from, passes, n);
            && a.t.read == Flat(a.t.frames) + (if a.s.active then a.t.heard else [])
            && (a.s.active ==> ProperPrefix(a.t.heard, c.Frame()))
            && forall k :: 0 <= k < |a.t.frames| ==> a.t.frames[k] == c.Frame()
  {
    hide Spelling, Sane, ProperPrefix, Flat, After, Whole, Loses, Config.Frame;
    FramesSpelled(c, from, passes, n);
    SpellingTells(c, After(from, passes, n).s, After(from, passes, n).t, from.frameCount);
    WholeRun(c, from, passes, n);
    assert WholeAt(from, passes, n);
    WholeTells(After(from, passes, n).s, After(from, passes, n).t);
  }

  lemma WholeTells(s: State, t: Track)
    requires Whole(s, t)
    ensures t.read == Flat(t.frames) + (if s.active then t.heard else []) && (t.begun && !s.active ==> s.lastClk)
  {
  }

  /** No pass finds a frame's edges too far apart, or the one edge on tick 0 that
      matters. */
  predicate Punctual(from: State, passes: seq<Pass>, n: nat)
    requires n <= |passes| && Sane(from)
  {
    forall k :: 0 <= k < n ==>
      var a := After(from, passes, k);
      OnTime(a.s, a.t, passes[k]) && !(a.s.active && a.s.lastClk && !passes[k].clk && a.s.lastEdge == 0)
  }

  /** In real time: edges closer than the gap, and no falling edge inside a frame
      whose last rising edge was on tick 0, are all it takes. */
  lemma {:induction false} PunctualIsPatient(c: Config, from: State, passes: seq<Pass>, n: nat)
    requires Sane(from) && Spelling(c, from, SILENT, from.frameCount) && Undisturbed(passes) && n <= |passes|
    requires Whole(from, SILENT) && Punctual(from, passes, n)
    ensures Patient(from, passes, n) && EdgeKnown(After(from, passes, n).s, After(from, passes, n).t)
  {
    hide Next, Listen, Spelling, Whole, Sane, Clocked, After, Loses, OnTime, EdgeKnown, WholeAt;
    AfterZero(from, passes);
    if n == 0 {
      SilentEdge(from);
    } else {
      PunctualIsPatient(c, from, passes, n - 1);
      WholeRun(c, from, passes, n - 1);
      WholeIs(from, passes, n - 1);
      FramesSpelled(c, from, passes, n - 1);
      AfterIs(from, passes, n - 1);
      var before := After(from, passes, n - 1);
      assert WholeAt(from, passes, n - 1);
      WholeTells(before.s, before.t);
      SpellingStep(c, before.s, before.t, from.frameCount, passes[n - 1]);
      TickZeroOnly(before.s, before.t, passes[n - 1]);
      EdgeStays(c, before.s, before.t, from.frameCount, passes[n - 1]);
    }
  }

  lemma SilentEdge(from: State)
    requires Whole(from, SILENT)
    ensures EdgeKnown(from, SILENT)
  {
  }

  /** End to end in BiSS mode: every frame a master completes parses to the
      effective position, the status bits and a CRC that checks. */
  lemma MasterReads(c: Config, from: State, passes: seq<Pass>, n: nat, k: nat)
    requires c.mode == Biss && Sane(from) && Spelling(c, from, SILENT, from.frameCount) && Undisturbed(passes) &&
            n <= |passes|
    requires k < |After(from, passes, n).t.frames|
    ensures var position := if c.flags % 2 == 1 then Xor(c.value, c.mask) else c.value;
            Parse(After(from, passes, n).t.frames[k], c.bits) ==
            Some(Reading(position % Pow2(c.bits), c.flags / 2 % 2 == 1, c.flags / 4 % 2 == 1))
  {
    hide Spelling, Parse, Xor, BissBits, After;
    FramesSpelled(c, from, passes, n);
    var position := if c.flags % 2 == 1 then Xor(c.value, c.mask) else c.value;
    ParseFrame(position, c.bits, c.flags / 2 % 2 == 1, c.flags / 4 % 2 == 1);
  }
}

/** What each command of the emitter means for what comes after it. */
module SerialCommands {
  import opened Words
  import opened SerialFrame
  import opened SerialEmitter
  import opened SerialSession

  predicate Accepted(s: State, r: Request) {
    match r
    case Malformed => false
    case Query => true
    case ForceSafe => true
    case Stop => true
    case Configure(mode, bits, _) => !s.enabled && 1 <= mode <= 3 && 1 <= bits <= 32
    case SetData(_, _, _) => !s.enabled
    case Start => s.configured && !s.enabled && !s.pending
  }

  /** A command answers Ok exactly if it is acceptable, and a refused one changes
      nothing. */
  lemma AnswersExactly(s: State, now: u32, r: Request)
    ensures Handle(s, now, r).1 == Ok <==> Accepted(s, r)
    ensures Handle(s, now, r).1 != Ok ==> Handle(s, now, r).0 == s
  {
  }

  datatype Fact =
    | Off
    | Configured(mode: u32, bits: u32, gap: u32)
    | Loaded(value: u32, mask: u32, flags: u32)

  predicate Holds(f: Fact, s: State) {
    match f
    case Off => !s.enabled && !s.pending && !s.data
    case Configured(mode, bits, gap) => s.configured && s.c.mode == ModeOf(mode) && s.c.bits == bits && s.c.gap == gap
    case Loaded(value, mask, flags) => s.c.value == value && s.c.mask == mask && s.c.flags == flags
  }

  predicate Establishes(r: Request, f: Fact) {
    match r
    case ForceSafe => f == Off
    case Stop => f == Off
    case Configure(mode, bits, gap) => f == Configured(mode, bits, gap)
    case SetData(value, mask, flags) => f == Loaded(value, mask, flags)
    case _ => false
  }

  predicate Ends(r: Request, f: Fact) {
    match f
    case Off => r.Start?
    case Configured(_, _, _) => r.Configure?
    case Loaded(_, _, _) => r.SetData?
  }

  /** One request after its reply: an accepted one makes its facts true, and keeps
      all others that it does not end. */
  lemma RequestKeeps(s: State, r: Received, f: Fact)
    requires !s.pending
    ensures var n := AfterReply(Handle(s, r.now, r.request).0, r.clk, r.sentAt);
            && !n.pending
            && (Accepted(s, r.request) && Establishes(r.request, f) ==> Holds(f, n))
            && (Holds(f, s) && !(Accepted(s, r.request) && Ends(r.request, f)) ==> Holds(f, n))
  {
  }

  lemma ClockKeeps(s: State, clk: bool, now: u32, f: Fact)
    requires Sane(s) && Holds(f, s)
    ensures Holds(f, Clocked(s, clk, now))
  {
    hide FrameBit, Wrap, Config.Frame;
  }

  /** The state before request `i` of a pass. */
  function Before(s: State, p: Pass, i: nat): State
    requires Sane(s) && i <= |p.requests|
  {
    Serve(Clocked(s, p.clk, Wrap(p.now)), p.requests[..i])
  }

  predicate Undone(s: State, p: Pass, i: nat, f: Fact)
    requires Sane(s)
  {
    forall j :: i <= j < |p.requests| ==>
        !(Accepted(Before(s, p, j), p.requests[j].request) && Ends(p.requests[j].request, f))
  }

  lemma BeforeNext(s: State, p: Pass, i: nat)
    requires Sane(s)
    ensures i < |p.requests| ==>
              var r := p.requests[i];
              Before(s, p, i + 1) == AfterReply(Handle(Before(s, p, i), r.now, r.request).0, r.clk, r.sentAt)
    ensures Before(s, p, 0) == Clocked(s, p.clk, Wrap(p.now)) && Before(s, p, |p.requests|) == Next(s, p)
  {
    hide Handle, AfterReply, Clocked;
    if i < |p.requests| {
      assert p.requests[..i + 1][..i] == p.requests[..i];
    }
    assert p.requests[..|p.requests|] == p.requests;
  }

  lemma {:induction false} PassKeeps(s: State, p: Pass, i: nat, j: nat, f: Fact)
    requires Sane(s) && !s.pending && i <= j <= |p.requests|
    requires Holds(f, Before(s, p, i)) && Undone(s, p, i, f)
    ensures Holds(f, Before(s, p, j))
    decreases j
  {
    hide Holds, Before, Accepted, Ends, Establishes;
    if i == j {
    } else {
      PassKeeps(s, p, i, j - 1, f);
      NeverPending(s, p, j - 1);
      BeforeNext(s, p, j - 1);
      RequestKeeps(Before(s, p, j - 1), p.requests[j - 1], f);
    }
  }

  lemma {:induction false} NeverPending(s: State, p: Pass, i: nat)
    requires Sane(s) && !s.pending && i <= |p.requests|
    ensures !Before(s, p, i).pending
  {
    hide Before, Accepted, Handle, AfterReply;
    BeforeNext(s, p, 0);
    if i == 0 {
      ClockedPending(s, p.clk, Wrap(p.now));
    } else {
      NeverPending(s, p, i - 1);
      BeforeNext(s, p, i - 1);
      RequestKeeps(Before(s, p, i - 1), p.requests[i - 1], Off);
    }
  }

  lemma ClockedPending(s: State, clk: bool, now: u32)
    requires Sane(s)
    ensures Clocked(s, clk, now).pending == s.pending
  {
    hide FrameBit, Wrap, Config.Frame;
  }

  lemma {:induction false} RunNeverPending(from: State, passes: seq<Pass>, n: nat)
    requires n <= |passes| && Sane(from) && !from.pending
    ensures !After(from, passes, n).s.pending
  {
    hide Next, Listen;
    if n == 0 {
    } else {
      RunNeverPending(from, passes, n - 1);
      var s, p := After(from, passes, n - 1).s, passes[n - 1];
      BeforeNext(s, p, 0);
      NeverPending(s, p, |p.requests|);
    }
  }

  lemma AfterNext(from: State, passes: seq<Pass>, n: nat)
    requires 0 < n <= |passes| && Sane(from)
    ensures After(from, passes, n).s == Next(After(from, passes, n - 1).s, passes[n - 1])
  {
    hide Next, Listen;
  }

  /** Over a run: what an accepted command, request `i` of pass `n`, makes true in
      terms of its own fields stays true until an accepted command ends it. For
      FORCE_SAFE and STOP: disabled with DATA low until a START is accepted, however
      the clock moves. */
  lemma {:induction false} InForce(from: State, passes: seq<Pass>, n: nat, i: nat, m: nat, f: Fact)
    requires Sane(from) && !from.pending && n < m <= |passes| && i < |passes[n].requests|
    requires Accepted(Before(After(from, passes, n).s, passes[n], i), passes[n].requests[i].request)
    requires Establishes(passes[n].requests[i].request, f) && Undone(After(from, passes, n).s, passes[n], i + 1, f)
    requires forall j :: n < j < m ==> Undone(After(from, passes, j).s, passes[j], 0, f)
    ensures Holds(f, After(from, passes, m).s)
    decreases m
  {
    hide *;
    var s, p := After(from, passes, m - 1).s, passes[m - 1];
    AfterNext(from, passes, m);
    RunNeverPending(from, passes, m - 1);
    BeforeNext(s, p, 0);
    if m == n + 1 {
      NeverPending(s, p, i);
      BeforeNext(s, p, i);
      RequestKeeps(Before(s, p, i), p.requests[i], f);
      PassKeeps(s, p, i + 1, |p.requests|, f);
    } else {
      InForce(from, passes, n, i, m - 1, f);
      ClockKeeps(s, p.clk, Wrap(p.now), f);
      PassKeeps(s, p, 0, |p.requests|, f);
    }
  }

  /** A START in force of both: the session emits exactly what was configured and
      loaded, beginning with DATA high. */
  lemma StartUses(s: State, clk: bool, now: u32, mode: u32, bits: u32, gap: u32, value: u32, mask: u32, flags: u32)
    requires Holds(Configured(mode, bits, gap), s) && Holds(Loaded(value, mask, flags), s)
    requires 1 <= mode <= 2 && 1 <= bits <= 32 && !s.enabled && !s.pending
    ensures var n := AfterReply(Handle(s, now, Start).0, clk, now);
            && n.c == Config(if mode == 1 then Ssi else Biss, bits, gap, value, mask, flags)
            && n.enabled && n.data && n.minHalf == 0 && Spelling(n.c, n, SILENT, s.frameCount)
  {
    SessionBegins(s, clk, now);
    hide Spelling, Config.Frame, Whole;
  }

  // ---- the shortest half period ----

  /** The time since the edge before, at an edge that has one. */
  function GapAt(s: State, p: Pass): seq<u32> {
    if p.clk != s.lastClk && s.lastEdge != 0 then [Minus(Wrap(p.now), s.lastEdge)] else []
  }

  function Gaps(from: State, passes: seq<Pass>, n: nat): seq<u32>
    requires n <= |passes| && Sane(from)
  {
    if n == 0 then [] else Gaps(from, passes, n - 1) + GapAt(After(from, passes, n - 1).s, passes[n - 1])
  }

  predicate Shortest(least: u32, gaps: seq<u32>) {
    if gaps == [] then least == 0 else least in gaps && forall k :: 0 <= k < |gaps| ==> least <= gaps[k]
  }

  lemma ShortestMore(least: u32, gaps: seq<u32>, gap: u32)
    requires Shortest(least, gaps) && gap > 0 && forall k :: 0 <= k < |gaps| ==> gaps[k] > 0
    ensures Shortest(if least == 0 || gap < least then gap else least, gaps + [gap])
  {
    var more := gaps + [gap];
    assert more[|gaps|] == gap;
    if gaps != [] {
      var k :| 0 <= k < |gaps| && gaps[k] == least;
      assert more[k] == least && gaps[k] > 0;
    }
  }

  /** Over a session `min_half_period` is the shortest time between two successive
      clock edges, as long as no two fall on the same tick. */
  lemma {:induction false} ShortestHalf(c: Config, from: State, passes: seq<Pass>, n: nat)
    requires Sane(from) && Spelling(c, from, SILENT, from.frameCount) && Undisturbed(passes) && n <= |passes|
    requires from.minHalf == 0 && forall k :: 0 <= k < |Gaps(from, passes, n)| ==> Gaps(from, passes, n)[k] > 0
    ensures Shortest(After(from, passes, n).s.minHalf, Gaps(from, passes, n))
  {
    hide Spelling, Config.Frame, Next, Listen, Shortest;
    if n == 0 {
      NoGaps();
    } else {
      var gaps, a, p := Gaps(from, passes, n - 1), After(from, passes, n - 1), passes[n - 1];
      assert forall k :: 0 <= k < |gaps| ==> Gaps(from, passes, n)[k] == gaps[k];
      ShortestHalf(c, from, passes, n - 1);
      FramesSpelled(c, from, passes, n - 1);
      SpellingStep(c, a.s, a.t, from.frameCount, p);
      HalfStep(c, a.s, a.t, from.frameCount, p);
      assert gaps + [] == gaps;
      if GapAt(a.s, p) != [] {
        assert Gaps(from, passes, n)[|gaps|] == GapAt(a.s, p)[0];
        ShortestMore(a.s.minHalf, gaps, GapAt(a.s, p)[0]);
      }
    }
  }

  lemma NoGaps()
    ensures Shortest(0, [])
  {
  }

  lemma HalfStep(c: Config, s: State, t: Track, start: int, p: Pass)
    requires Spelling(c, s, t, start) && Sane(s)
    ensures var n, gap := Clocked(s, p.clk, Wrap(p.now)), GapAt(s, p);
            n.minHalf == if gap == [] then s.minHalf else if s.minHalf == 0 || gap[0] < s.minHalf then gap[0]
                else s.minHalf
  {
    hide FrameBit, Wrap, Config.Frame;
  }
}
