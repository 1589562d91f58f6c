/** host/hil/transports/uio.py: the register sequences of the Linux side. */
module UioTransport {
  import opened Timestamps
  import opened Words
  import opened EventRing
  import opened AxiControlPlane

  /** A DIO event as the caller gives it. */
  datatype DioEvent = DioEvent(target: nat, mask: nat, value: nat, id: nat)

  /** What reaches the event FIFO: a 64-bit timestamp, 16-bit mask, value and id. */
  function Delivered(e: DioEvent): Event {
    Event(e.target % M64, e.mask % 0x1_0000, e.value % 0x1_0000, e.id % 0x1_0000)
  }

  /** `write32`: a full-word store. */
  function Store(addr: nat, value: int): (w: BusWrite)
    ensures w.Valid()
  {
    BusWrite(addr, Wrap(value), [true, true, true, true])
  }

  function ScheduleWrites(e: DioEvent): seq<BusWrite> {
    [Store(REG_EVT_TS_LO, e.target), Store(REG_EVT_TS_HI, e.target / M32), Store(REG_EVT_MASK, e.mask),
     Store(REG_EVT_VALUE, e.value), Store(REG_EVT_ID, e.id), Store(REG_EVT_PUSH, 1)]
  }

  const REG_EVT_STATUS := 0x118
  /** The bit of that register which says that the FIFO is full. */
  const EVT_STATUS_FULL := 1

  /** The memory-mapped window. Reads may return anything. */
  class Mmio {
    var writes: seq<BusWrite>

    method Write32(addr: nat, value: int)
      modifies this
      ensures writes == old(writes) + [Store(addr, value)]
    {
      writes := writes + [Store(addr, value)];
    }

    method Read32(addr: nat) returns (value: u32)
    {
      value := *;
    }
  }

  class ZynqUioTransport {
    const mmio: Mmio

    constructor (mmio: Mmio)
      ensures this.mmio == mmio
    {
      this.mmio := mmio;
    }

    /** `schedule_dio`; refused without a write if and only if the status word read
        has its FULL bit set. */
    method ScheduleDio(e: DioEvent) returns (full: bool, ghost read: u32)
      modifies mmio
      ensures full == Bit(read, EVT_STATUS_FULL)
      ensures mmio.writes == old(mmio.writes) + if full then [] else ScheduleWrites(e)
    {
      var status := mmio.Read32(REG_EVT_STATUS);
      read := status;
      if Bit(status, EVT_STATUS_FULL) {
        full := true;
        return;
      }
      mmio.Write32(REG_EVT_TS_LO, Wrap(e.target));
      mmio.Write32(REG_EVT_TS_HI, Wrap(e.target / M32));
      mmio.Write32(REG_EVT_MASK, e.mask);
      mmio.Write32(REG_EVT_VALUE, e.value);
      mmio.Write32(REG_EVT_ID, e.id);
      mmio.Write32(REG_EVT_PUSH, 1);
      full := false;
    }

    /** `start_abz`, `stop_abz` and `force_safe` write back the control word
        they read, with some bits changed. */
    method StartAbz() returns (ghost read: u32)
      modifies mmio
      ensures mmio.writes == old(mmio.writes) + [Store(REG_CONTROL, AndNot(Or(Or(read, 1), 8), 2))]
    {
      var control := mmio.Read32(REG_CONTROL);
      read := control;
      var value := Or(Or(control, 1), 8);
      value := AndNot(value, 2);
      mmio.Write32(REG_CONTROL, value);
    }

    method StopAbz() returns (ghost read: u32)
      modifies mmio
      ensures mmio.writes == old(mmio.writes) + [Store(REG_CONTROL, AndNot(read, 8))]
    {
      var control := mmio.Read32(REG_CONTROL);
      read := control;
      mmio.Write32(REG_CONTROL, AndNot(control, 8));
    }

    method ForceSafe(asserted: bool) returns (ghost read: u32)
      modifies mmio
      ensures mmio.writes == old(mmio.writes) + [Store(REG_CONTROL, if asserted then Or(read, 2) else AndNot(read, 2))]
    {
      var value := mmio.Read32(REG_CONTROL);
      read := value;
      if asserted {
        value := Or(value, 2);
      } else {
        value := AndNot(value, 2);
      }
      mmio.Write32(REG_CONTROL, value);
    }
  }

  // ---- what a program of register writes does ----

  /** The configuration after the first `m` writes. */
  function ConfigAfter(program: seq<BusWrite>, m: nat): Config
    requires m <= |program| && forall w :: w in program ==> w.Valid()
  {
    if m == 0 then CONFIG_RESET else Written(ConfigAfter(program, m - 1), program[m - 1])
  }

  /** The events the first `m` writes push. */
  function PushedBy(program: seq<BusWrite>, m: nat): seq<Event>
    requires m <= |program| && forall w :: w in program ==> w.Valid()
  {
    if m == 0 then []
    else PushedBy(program, m - 1) + if Pushes(program[m - 1]) then [ConfigAfter(program, m - 1).Staged()] else []
  }

  /** A write changes exactly the bytes whose strobe is set, and a push needs the low
      byte's. */
  lemma StrobedBytes(was: u32, w: BusWrite, k: nat)
    requires w.Valid() && k < 32
    ensures Bit(Merged(was, w), k) <==> if w.strobe[k / 8] then Bit(w.data, k) else Bit(was, k)
    ensures Pushes(w) <==> w.addr == 0x114 && w.strobe[0] && w.data % 2 == 1
  {
  }

  lemma FullWord(was: u32, w: BusWrite)
    requires w.Valid() && w.strobe == [true, true, true, true]
    ensures Merged(was, w) == w.data
  {
    SameWord(Merged(was, w), w.data);
  }

  lemma Halves(t: nat)
    ensures Wrap(t / M32) * M32 + Wrap(t) == t % M64
  {
    var q, lo := t / M32, t % M32;
    var hi, top := q % M32, q / M32;
    assert t == (top * M32 + hi) * M32 + lo;
    assert t == top * M64 + (hi * M32 + lo);
    assert 0 <= hi * M32 + lo < M64;
    QuotientOf(t, top, hi * M32 + lo);
  }

  lemma QuotientOf(t: nat, top: nat, rest: nat)
    requires t == top * M64 + rest && rest < M64
    ensures t % M64 == rest
  {
  }

  lemma LowBits(x: nat)
    ensures Wrap(x) % 0x1_0000 == x % 0x1_0000
  {
    assert x == M32 * (x / M32) + Wrap(x);
    assert M32 == 0x1_0000 * 0x1_0000;
  }

  lemma Block(program: seq<BusWrite>, m: nat, block: seq<BusWrite>)
    requires |block| == 6 && m + 6 <= |program| && program[m..m + 6] == block
    ensures program[m] == block[0] && program[m + 1] == block[1] && program[m + 2] == block[2]
    ensures program[m + 3] == block[3] && program[m + 4] == block[4] && program[m + 5] == block[5]
  {
  }

  lemma OnePushes()
    ensures Pushes(Store(REG_EVT_PUSH, 1))
  {
    assert Wrap(1) == 1;
  }

  /** Steps one to five of `schedule_dio` stage exactly the event, whatever was
      staged before; step six pushes it. */
  lemma ScheduleBlock(program: seq<BusWrite>, m: nat, e: DioEvent)
    requires m + 6 <= |program| && (forall w :: w in program ==> w.Valid()) && program[m..m + 6] == ScheduleWrites(e)
    ensures PushedBy(program, m + 6) == PushedBy(program, m) + [Delivered(e)]
  {
    hide Merged, ConfigAfter, Wrap;
    Block(program, m, ScheduleWrites(e));
    Staging(program, m, e);
    Halves(e.target);
    LowBits(e.mask);
    LowBits(e.value);
    LowBits(e.id);
    OnePushes();
    PushedStep(program, m);
    PushedStep(program, m + 1);
    PushedStep(program, m + 2);
    PushedStep(program, m + 3);
    PushedStep(program, m + 4);
    PushedStep(program, m + 5);
  }

  lemma PushedStep(program: seq<BusWrite>, m: nat)
    requires m < |program| && forall w :: w in program ==> w.Valid()
    ensures PushedBy(program, m + 1) ==
            PushedBy(program, m) + if Pushes(program[m]) then [ConfigAfter(program, m).Staged()] else []
  {
  }

  lemma Staging(program: seq<BusWrite>, m: nat, e: DioEvent)
    requires m + 6 <= |program| && (forall w :: w in program ==> w.Valid()) && program[m..m + 6] == ScheduleWrites(e)
    ensures ConfigAfter(program, m + 5).Staged() ==
            Event(Wrap(e.target / M32) * M32 + Wrap(e.target), Wrap(e.mask) % 0x1_0000, Wrap(e.value) % 0x1_0000,
                  Wrap(e.id) % 0x1_0000)
  {
    hide Merged, Wrap;
    Block(program, m, ScheduleWrites(e));
    var c := ConfigAfter(program, m);
    FullWord(c.tsLo, program[m]);
    FullWord(c.tsHi, program[m + 1]);
    FullWord(c.mask, program[m + 2]);
    FullWord(c.value, program[m + 3]);
    FullWord(c.id, program[m + 4]);
    assert ConfigAfter(program, m + 1) == c.(tsLo := Wrap(e.target));
    assert ConfigAfter(program, m + 2) == c.(tsLo := Wrap(e.target), tsHi := Wrap(e.target / M32));
    assert ConfigAfter(program, m + 3).mask == Wrap(e.mask) % 0x1_0000;
    assert ConfigAfter(program, m + 4).value == Wrap(e.value) % 0x1_0000;
  }

  /** A call of the transport: an event, or a rewrite of the control word. */
  datatype Call = Schedule(event: DioEvent) | Control(value: u32)

  function WritesOf(c: Call): (r: seq<BusWrite>)
    ensures forall w :: w in r ==> w.Valid()
  {
    match c case Schedule(e) => ScheduleWrites(e) case Control(v) => [Store(REG_CONTROL, v)]
  }

  function Program(calls: seq<Call>): (r: seq<BusWrite>)
    ensures forall w :: w in r ==> w.Valid()
  {
    if calls == [] then [] else Program(calls[..|calls| - 1]) + WritesOf(calls[|calls| - 1])
  }

  /** The scheduled events in call order, as they should arrive. */
  function Deliveries(calls: seq<Call>): seq<Event> {
    if calls == [] then []
    else Deliveries(calls[..|calls| - 1]) +
         match calls[|calls| - 1] case Schedule(e) => [Delivered(e)] case Control(_) => []
  }

  // ---- what a session with the transport writes ----

  datatype Command = ScheduleDio(event: DioEvent) | StartAbz | StopAbz | ForceSafe(asserted: bool)

  /** What a command does, given the word it read first: the calls it makes. */
  function CallOf(c: Command, read: u32): seq<Call> {
    match c
    case ScheduleDio(e) => if Bit(read, EVT_STATUS_FULL) then [] else [Schedule(e)]
    case StartAbz => [Control(AndNot(Or(Or(read, 1), 8), 2))]
    case StopAbz => [Control(AndNot(read, 8))]
    case ForceSafe(asserted) => [Control(if asserted then Or(read, 2) else AndNot(read, 2))]
  }

  function CallsOf(commands: seq<Command>, answers: seq<u32>): seq<Call>
    requires |commands| == |answers|
  {
    if commands == [] then []
    else
      var n := |commands| - 1;
      CallsOf(commands[..n], answers[..n]) + CallOf(commands[n], answers[n])
  }

  /** The events of the commands whose FULL bit was clear, in command order. */
  function Admitted(commands: seq<Command>, answers: seq<u32>): seq<Event>
    requires |commands| == |answers|
  {
    if commands == [] then []
    else
      var n := |commands| - 1;
      Admitted(commands[..n], answers[..n]) +
      if commands[n].ScheduleDio? && !Bit(answers[n], EVT_STATUS_FULL) then [Delivered(commands[n].event)] else []
  }

  /** The calls deliver exactly the admitted events. */
  lemma {:induction false} CallsDeliver(commands: seq<Command>, answers: seq<u32>)
    requires |commands| == |answers|
    ensures Deliveries(CallsOf(commands, answers)) == Admitted(commands, answers)
  {
    hide Delivered, Bit;
    if commands == [] {
    } else {
      var n := |commands| - 1;
      CallsDeliver(commands[..n], answers[..n]);
      var most, newest := CallsOf(commands[..n], answers[..n]), CallOf(commands[n], answers[n]);
      if newest == [] {
        assert most + newest == most;
      } else {
        assert (most + newest)[..|most + newest| - 1] == most;
      }
    }
  }

  lemma ProgramGrows(calls: seq<Call>, more: seq<Call>)
    requires |more| <= 1
    ensures Program(calls + more) == Program(calls) + if more == [] then [] else WritesOf(more[0])
  {
    if more == [] {
      assert calls + more == calls;
    } else {
      assert (calls + more)[..|calls + more| - 1] == calls;
    }
  }

  /** What one command writes. */
  function WritesFor(c: Command, read: u32): seq<BusWrite> {
    if CallOf(c, read) == [] then [] else WritesOf(CallOf(c, read)[0])
  }

  lemma WritesAre(c: Command, read: u32)
    ensures WritesFor(c, read) ==
            match c
            case ScheduleDio(e) => if Bit(read, EVT_STATUS_FULL) then [] else ScheduleWrites(e)
            case StartAbz => [Store(REG_CONTROL, AndNot(Or(Or(read, 1), 8), 2))]
            case StopAbz => [Store(REG_CONTROL, AndNot(read, 8))]
            case ForceSafe(asserted) => [Store(REG_CONTROL, if asserted then Or(read, 2) else AndNot(read, 2))]
  {
    hide Bit, Or, AndNot, Store, ScheduleWrites;
  }

  /** One command, by the method of the transport it names. */
  method PerformOne(t: ZynqUioTransport, c: Command) returns (ghost read: u32)
    modifies t.mmio
    ensures t.mmio.writes == old(t.mmio.writes) + WritesFor(c, read)
  {
    hide *;
    match c {
      case ScheduleDio(e) =>
        var full;
        full, read := t.ScheduleDio(e);
      case StartAbz =>
        read := t.StartAbz();
      case StopAbz =>
        read := t.StopAbz();
      case ForceSafe(asserted) =>
        read := t.ForceSafe(asserted);
    }
    WritesAre(c, read);
  }

  /** One more command. */
  lemma CommandsGrow(commands: seq<Command>, answers: seq<u32>, n: nat, read: u32)
    requires n < |commands| && |answers| == n
    ensures Program(CallsOf(commands[..n + 1], answers + [read])) ==
            Program(CallsOf(commands[..n], answers)) + WritesFor(commands[n], read)
  {
    hide Program, WritesOf, CallOf;
    assert commands[..n + 1][..n] == commands[..n];
    assert (answers + [read])[..n] == answers;
    AtMostOne(commands[n], read);
    ProgramGrows(CallsOf(commands[..n], answers), CallOf(commands[n], read));
  }

  lemma AtMostOne(c: Command, read: u32)
    ensures |CallOf(c, read)| <= 1
  {
  }

  /** For every sequence of commands and whatever is read, the transport writes the
      program of its calls, which pushes exactly the admitted events, in order. */
  method Perform(t: ZynqUioTransport, commands: seq<Command>) returns (ghost answers: seq<u32>)
    modifies t.mmio
    ensures |answers| == |commands|
    ensures t.mmio.writes == old(t.mmio.writes) + Program(CallsOf(commands, answers))
    ensures var program := Program(CallsOf(commands, answers));
            PushedBy(program, |program|) == Admitted(commands, answers)
  {
    hide PushedBy, Admitted, WritesFor, WritesOf, CallOf;
    answers := [];
    for n := 0 to |commands|
      invariant |answers| == n
      invariant t.mmio.writes == old(t.mmio.writes) + Program(CallsOf(commands[..n], answers))
    {
      ghost var read := PerformOne(t, commands[n]);
      CommandsGrow(commands, answers, n, read);
      answers := answers + [read];
    }
    assert commands[..|commands|] == commands;
    ProgramPushes(CallsOf(commands, answers));
    CallsDeliver(commands, answers);
  }

  lemma {:induction false} PushedPrefix(a: seq<BusWrite>, b: seq<BusWrite>, m: nat)
    requires a <= b && m <= |a| && forall w :: w in b ==> w.Valid()
    ensures (forall w :: w in a ==> w.Valid()) && ConfigAfter(b, m) == ConfigAfter(a, m) &&
            PushedBy(b, m) == PushedBy(a, m)
  {
    assert forall w :: w in a ==> w in b;
    if m == 0 {
    } else {
      PushedPrefix(a, b, m - 1);
      assert a[m - 1] == b[m - 1];
    }
  }

  /** Running the whole program pushes exactly the scheduled events, in call
      order, each rebuilt bit for bit. */
  lemma {:induction false} ProgramPushes(calls: seq<Call>)
    ensures PushedBy(Program(calls), |Program(calls)|) == Deliveries(calls)
  {
    if calls == [] {
    } else {
      var most, last := calls[..|calls| - 1], calls[|calls| - 1];
      var p, all := Program(most), Program(calls);
      ProgramPushes(most);
      assert p <= all && all[|p|..] == WritesOf(last);
      PushedPrefix(p, all, |p|);
      CallPushes(all, |p|, last);
    }
  }

  /** What the writes of one call add to the pushed events. */
  lemma CallPushes(all: seq<BusWrite>, m: nat, c: Call)
    requires m <= |all| && (forall w :: w in all ==> w.Valid()) && all[m..] == WritesOf(c)
    ensures PushedBy(all, |all|) == PushedBy(all, m) + match c case Schedule(e) => [Delivered(e)] case Control(_) => []
  {
    hide Delivered;
    match c {
      case Schedule(e) =>
        assert all[m..m + 6] == all[m..];
        ScheduleBlock(all, m, e);
      case Control(v) =>
        assert all[m] == all[m..][0];
        PushedStep(all, m);
    }
  }

  lemma {:induction false} PushedGrows(program: seq<BusWrite>, m: nat, n: nat)
    requires m <= n <= |program| && forall w :: w in program ==> w.Valid()
    ensures PushedBy(program, m) <= PushedBy(program, n)
  {
    if m == n {
    } else {
      PushedGrows(program, m, n - 1);
    }
  }

  // ---- the control word ----

  /** Committing a control word sets the switches from its bits. */
  lemma ControlTakesEffect(c: Config, v: u32)
    ensures Written(c, Store(REG_CONTROL, v)) ==
            c.(hilEnable := Bit(v, 0), forceSafe := Bit(v, 1), abzEnable := Bit(v, 3), abzForward := Bit(v, 4))
  {
    hide Bit, Merged, ControlWord;
    FullWord(ControlWord(c), Store(REG_CONTROL, v));
  }

  lemma ControlBits()
    ensures forall k: nat :: k < 5 ==> (Bit(1, k) <==> k == 0) && (Bit(2, k) <==> k == 1) && (Bit(8, k) <==> k == 3)
  {
    forall k: nat | k < 5 ensures (Bit(1, k) <==> k == 0) && (Bit(2, k) <==> k == 1) && (Bit(8, k) <==> k == 3) {
      assert k == 0 || k == 1 || k == 2 || k == 3 || k == 4;
    }
  }

  /** What a read of the control register shows: the force-safe bit includes
      the external input. */
  function ControlRead(c: Config, external: bool): u32 {
    ControlWord(c.(forceSafe := c.forceSafe || external))
  }

  /** Starting and stopping the encoder change only the bits they are about,
      except that a read-modify-write latches an asserted external force-safe
      input: stopping the encoder keeps the software force-safe bit if and only
      if the input is low or the bit was already set. */
  lemma EncoderCommands(c: Config, external: bool)
    ensures var read := ControlRead(c, external);
            && Written(c, Store(REG_CONTROL, AndNot(Or(Or(read, 1), 8), 2))) ==
               c.(hilEnable := true, forceSafe := false, abzEnable := true)
            && Written(c, Store(REG_CONTROL, AndNot(read, 8))) ==
               c.(forceSafe := c.forceSafe || external, abzEnable := false)
            && (Written(c, Store(REG_CONTROL, AndNot(read, 8))).forceSafe == c.forceSafe <==> !external || c.forceSafe)
    ensures var read := ControlRead(c, external);
            && Written(c, Store(REG_CONTROL, Or(read, 2))) == c.(forceSafe := true)
            && Written(c, Store(REG_CONTROL, AndNot(read, 2))) == c.(forceSafe := false)
  {
    hide Written;
    var read := ControlRead(c, external);
    ControlBits();
    ReadBits(c, external);
    ControlTakesEffect(c, AndNot(Or(Or(read, 1), 8), 2));
    ControlTakesEffect(c, AndNot(read, 8));
    ControlTakesEffect(c, Or(read, 2));
    ControlTakesEffect(c, AndNot(read, 2));
    hide Bit, ControlRead;
  }

  lemma ReadBits(c: Config, external: bool)
    ensures var read := ControlRead(c, external);
            && Bit(read, 0) == c.hilEnable && Bit(read, 1) == (c.forceSafe || external)
            && Bit(read, 3) == c.abzEnable && Bit(read, 4) == c.abzForward
  {
    hide Bit;
  }
}

/** The host on the bus: any AXI4-Lite master that issues a program of writes,
    stalling as it likes, against the write channel. Addresses, data and responses
    run independently: the master may queue an address or its data before the other
    and before the response to the write in front has been taken. */
module AxiHost {
  import opened Words
  import opened EventRing
  import opened AxiControlPlane
  import opened UioTransport

  /** Addresses and data words sent, and responses taken. */
  datatype Host = Host(aw: nat, w: nat, b: nat)

  datatype Front = Front(channel: Channel, host: Host)

  /** Which handshakes the host is willing to make on a clock. */
  datatype Stall = Stall(aw: bool, w: bool, b: bool)

  const IDLE_WRITE := BusWrite(0, 0, [false, false, false, false])

  predicate IsProgram(program: seq<BusWrite>) {
    forall w :: w in program ==> w.Valid()
  }

  /** The host presents the next address and the next data word. */
  function OnBus(program: seq<BusWrite>, h: Host, s: Stall): (b: Bus)
    requires IsProgram(program)
    ensures b.write.Valid()
  {
    var data := if h.w < |program| then program[h.w] else IDLE_WRITE;
    assert h.w < |program| ==> data in program;
    Bus(h.aw < |program| && s.aw, h.w < |program| && s.w, s.b,
        if h.aw < |program| then data.(addr := program[h.aw].addr) else data)
  }

  function FrontNext(program: seq<BusWrite>, f: Front, s: Stall): (n: Front)
    requires IsProgram(program) && f.channel.Valid()
    ensures n.channel.Valid()
  {
    var bus := OnBus(program, f.host, s);
    Front(ChannelNext(f.channel, bus),
          Host(f.host.aw + (if bus.awValid && !f.channel.awPending then 1 else 0),
               f.host.w + (if bus.wValid && !f.channel.wPending then 1 else 0),
               f.host.b + (if f.channel.bValid && s.b then 1 else 0)))
  }

  predicate Start(f: Front) {
    && f.channel.Valid() && f.channel.config == CONFIG_RESET && f.host == Host(0, 0, 0)
    && !f.channel.awPending && !f.channel.wPending && !f.channel.bValid && !f.channel.push
  }

  /** Writes committed so far. */
  function Committed(f: Front): nat {
    f.host.b + if f.channel.bValid then 1 else 0
  }

  /** The registers are the program's after `Committed` writes; whatever the channel
      holds belongs to the write after those; a push pulse comes with the response
      and means that the last committed write was a push. */
  predicate Inv(program: seq<BusWrite>, f: Front)
    requires IsProgram(program)
  {
    var c, m := f.channel, Committed(f);
    && c.Valid() && m <= |program| && c.config == ConfigAfter(program, m)
    && f.host.aw == m + (if c.awPending then 1 else 0) && f.host.w == m + (if c.wPending then 1 else 0)
    && (c.awPending ==> m < |program| && c.awHold == program[m].addr)
    && (c.wPending ==> m < |program| && c.wHold.(addr := program[m].addr) == program[m])
    && (c.push ==> c.bValid && m > 0 && Pushes(program[m - 1]))
  }

  lemma InvStep(program: seq<BusWrite>, f: Front, s: Stall)
    requires IsProgram(program) && Inv(program, f)
    ensures Inv(program, FrontNext(program, f, s))
    ensures f.channel.Commits() ==> Committed(f) < |program|
    ensures FrontNext(program, f, s).channel.push <==> f.channel.Commits() && Pushes(program[Committed(f)])
    ensures Committed(FrontNext(program, f, s)) == Committed(f) + if f.channel.Commits() then 1 else 0
  {
    hide Written, Pushes;
    if f.channel.Commits() {
      assert f.channel.Held() == program[Committed(f)];
    }
  }

  ghost predicate IsStep(program: seq<BusWrite>, f: Front, s: Stall, n: Front)
    requires IsProgram(program)
  {
    f.channel.Valid() && n == FrontNext(program, f, s)
  }

  ghost predicate IsRun(program: seq<BusWrite>, states: seq<Front>, stalls: seq<Stall>)
    requires IsProgram(program)
  {
    && |states| == |stalls| + 1 && Start(states[0])
    && forall k :: 0 <= k < |stalls| ==> IsStep(program, states[k], stalls[k], states[k + 1])
  }

  /** The event on the push port at one state. */
  function PulseAt(f: Front): seq<Event> {
    if f.channel.push then [f.channel.config.Staged()] else []
  }

  /** Everything pushed into the FIFO during the first `n` clocks. */
  function Pulses(states: seq<Front>, n: nat): seq<Event>
    requires n <= |states|
  {
    if n == 0 then [] else Pulses(states, n - 1) + PulseAt(states[n - 1])
  }

  /** However the master overlaps and stalls its writes, after `n` clocks the FIFO
      port has carried exactly the pushes of the committed part of the program. */
  lemma {:induction false} PulsesFollowProgram(program: seq<BusWrite>, states: seq<Front>, stalls: seq<Stall>, n: nat)
    requires IsProgram(program) && IsRun(program, states, stalls) && n < |states|
    ensures Inv(program, states[n])
    ensures Pulses(states, n) + PulseAt(states[n]) == PushedBy(program, Committed(states[n]))
  {
    hide FrontNext, Start, Written, Pushes;
    if n == 0 {
      StartInv(program, states[0]);
    } else {
      var f := states[n - 1];
      assert IsStep(program, f, stalls[n - 1], states[n]);
      PulsesFollowProgram(program, states, stalls, n - 1);
      InvStep(program, f, stalls[n - 1]);
      if f.channel.Commits() {
        PushedStep(program, Committed(f));
        PushKeepsStage(program, Committed(f));
      }
      assert PushedBy(program, Committed(f)) + [] == PushedBy(program, Committed(f));
    }
  }

  lemma CommittedBound(program: seq<BusWrite>, f: Front)
    requires IsProgram(program)
    ensures Inv(program, f) ==>
            Committed(f) <= |program| && (f.host.b == |program| ==> Committed(f) == |program| && !f.channel.push)
  {
  }

  lemma StartInv(program: seq<BusWrite>, f: Front)
    requires IsProgram(program) && Start(f)
    ensures Inv(program, f) && PulseAt(f) == [] && Committed(f) == 0
  {
  }

  lemma PushKeepsStage(program: seq<BusWrite>, m: nat)
    requires IsProgram(program) && m < |program|
    ensures Pushes(program[m]) ==> ConfigAfter(program, m + 1) == ConfigAfter(program, m)
  {
  }

  /** For every sequence of transport calls and every stall pattern, the events
      that reach the FIFO port are a prefix of the scheduled events, in call
      order and rebuilt exactly; all of them once every response is taken. */
  lemma EventsInCallOrder(calls: seq<Call>, states: seq<Front>, stalls: seq<Stall>, n: nat)
    requires IsRun(Program(calls), states, stalls) && n < |states|
    ensures Pulses(states, n) <= Deliveries(calls)
    ensures states[n].host.b == |Program(calls)| ==> Pulses(states, n) == Deliveries(calls)
  {
    hide Inv, IsRun, FrontNext, Program, Deliveries, PushedBy;
    var program := Program(calls);
    CommittedBound(program, states[n]);
    PulsesFollowProgram(program, states, stalls, n);
    ProgramPushes(calls);
    PushedGrows(program, Committed(states[n]), |program|);
  }
}
