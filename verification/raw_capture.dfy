/** boards/beaglebone_black/firmware/pru0_b1_raw/main.c: the bounded precision
    capture window and the command handler around it. */
module RawCapture {
  import opened Words
  import opened RawAnalysis

  const CAPACITY: nat := 1024
  const MAGIC: u32 := 0x31574152
  const VERSION: u32 := 1
  const NO_RECORD := RawRecord(0, 0)

  datatype StopReason = NotStopped | EventLimit | HostRequest | ForcedSafe

  /** `hil_raw_capture_shared` without its constant fields and the ring. */
  datatype Header = Header(
    magic: u32, version: u32, generation: u32, running: bool, limit: u32, count: u32,
    initial: u32, final: u32, startTicks: u32, stopTicks: u32, reason: StopReason, overflow: u32)

  /** The variables of `main`. */
  datatype Vars = Vars(capturing: bool, pending: bool, count: u32, limit: u32, lastInputs: u32)

  /** The R31 bits of the six PWM inputs. */
  const INPUT_MASK: u32 := FromBits((k: nat) => k in RAW_BITS)

  function Masked(raw: u32): u32 { And(raw, INPUT_MASK) }

  /** One R31 sample and the IEP count right after it. */
  datatype Observed = Observed(r31: u32, now: u32)

  // ---- what the window records ----

  function LastRaw(initial: u32, records: seq<RawRecord>): u32 {
    if records == [] then initial else records[|records| - 1].raw
  }

  /** The samples that differ from the one recorded before. */
  function Changes(initial: u32, seen: seq<Observed>): (records: seq<RawRecord>)
    ensures |records| <= |seen|
  {
    if seen == [] then []
    else
      var before, o := Changes(initial, seen[..|seen| - 1]), seen[|seen| - 1];
      if Masked(o.r31) == LastRaw(initial, before) then before else before + [RawRecord(o.now, Masked(o.r31))]
  }

  // ---- commands ----

  datatype Request =
    | BadLength | BadMagic | BadVersion | BadCommand
    | Hello | Time | Ping | Status
    | ForceSafe | Clear | Start | Stop
    | Config(limit: u32)

  datatype Reply = Ok | ErrLength | ErrMagic | ErrVersion | ErrCommand | ErrCaptureRunning | ErrInvalidArgument

  datatype Outcome = Outcome(h: Header, v: Vars, reply: Reply)

  function Cleared(h: Header): Header {
    Header(MAGIC, VERSION, if h.magic == MAGIC && h.version == VERSION then Plus(h.generation, 1) else 1,
           false, CAPACITY, 0, 0, 0, 0, 0, NotStopped, 0)
  }

  function Published(h: Header, reason: StopReason, ticks: u32, raw: u32, count: u32): Header {
    h.(final := raw, count := count, stopTicks := ticks, reason := reason, running := false)
  }

  /** `handle_request` with the loop's sample `raw` at time `now`. */
  function Handle(h: Header, v: Vars, raw: u32, now: u32, r: Request): Outcome {
    var busy := v.capturing || v.pending;
    match r
    case BadLength => Outcome(h, v, ErrLength)
    case BadMagic => Outcome(h, v, ErrMagic)
    case BadVersion => Outcome(h, v, ErrVersion)
    case BadCommand => Outcome(h, v, ErrCommand)
    case Hello => Outcome(h, v, Ok)
    case Time => Outcome(h, v, Ok)
    case Ping => Outcome(h, v, Ok)
    case ForceSafe =>
      Outcome(if v.capturing then Published(h, ForcedSafe, now, raw, v.count)
              else h, v.(pending := false, capturing := false), Ok)
    case Config(limit) =>
      if busy then Outcome(h, v, ErrCaptureRunning)
      else if limit == 0 || limit > CAPACITY then Outcome(h, v, ErrInvalidArgument)
      else Outcome(h.(limit := limit), v.(limit := limit), Ok)
    case Clear =>
      if busy then Outcome(h, v, ErrCaptureRunning)
      else Outcome(Cleared(h).(limit := v.limit), v.(count := 0, lastInputs := raw), Ok)
    case Start =>
      if busy then Outcome(h, v, ErrCaptureRunning)
      else Outcome(h.(count := 0, stopTicks := 0, reason := NotStopped, overflow := 0, running := false),
                   v.(count := 0, pending := true), Ok)
    case Stop =>
      var stopped := if v.pending then h.(stopTicks := now, reason := HostRequest, running := false) else h;
      Outcome(if v.capturing then Published(stopped, HostRequest, now, raw, v.count)
              else stopped, v.(pending := false, capturing := false), Ok)
    case Status => Outcome(h.(count := v.count, final := raw), v, Ok)
  }

  datatype Received = Received(request: Request, now: u32)

  function Drain(h: Header, v: Vars, raw: u32, rs: seq<Received>): (Header, Vars) {
    if rs == [] then (h, v)
    else
      var (g, u) := Drain(h, v, raw, rs[..|rs| - 1]);
      var o := Handle(g, u, raw, rs[|rs| - 1].now, rs[|rs| - 1].request);
      (o.h, o.v)
  }

  // ---- one pass of the main loop ----

  datatype State = State(h: Header, v: Vars, ring: seq<RawRecord>)

  /** What one pass meets: its first R31 and IEP reading, the samples of a
      capture window, the requests waiting. */
  datatype Pass = Pass(first: Observed, samples: seq<Observed>, requests: seq<Received>)

  predicate Sane(s: State) {
    |s.ring| == CAPACITY && 1 <= s.v.limit <= CAPACITY
  }

  function Baseline(s: State, first: Observed): State {
    State(s.h.(count := 0, initial := Masked(first.r31), final := Masked(first.r31), startTicks := first.now,
               stopTicks := 0,
               reason := NotStopped, overflow := 0, running := true),
          s.v.(count := 0, lastInputs := Masked(first.r31), capturing := true, pending := false), s.ring)
  }

  /** The window fed with `samples`: it returns once `limit` changes are in the
      ring, and otherwise is still running. */
  function Window(s: State, initial: u32, samples: seq<Observed>): State
    requires Sane(s)
  {
    var all := Changes(initial, samples);
    if |all| < s.v.limit then s.(ring := if |all| <= |s.ring| then all + s.ring[|all|..] else s.ring)
    else
      var records := all[..s.v.limit];
      var last := records[|records| - 1];
      State(Published(s.h, EventLimit, last.timestamp, last.raw, |records|),
            s.v.(count := |records|, capturing := false),
            records + s.ring[|records|..])
  }

  function Next(s: State, p: Pass): State
    requires Sane(s)
  {
    if s.v.capturing then s
    else if s.v.pending then Window(Baseline(s, p.first), Masked(p.first.r31), p.samples)
    else
      var (h, v) := Drain(s.h, s.v, Masked(p.first.r31), p.requests);
      State(h, v, s.ring)
  }

  function Reset(memory: Header, first: Observed): State {
    State(Cleared(memory).(initial := Masked(first.r31), final := Masked(first.r31)),
          Vars(false, false, 0, CAPACITY, Masked(first.r31)), seq(CAPACITY, _ => NO_RECORD))
  }

  // ---- the firmware ----

  class Firmware {
    var h: Header
    var v: Vars
    const ring: array<RawRecord>

    constructor (memory: Header, first: Observed)
      ensures fresh(ring) && ring.Length == CAPACITY
      ensures State(h, v, ring[..]) == Reset(memory, first)
    {
      var generation := if memory.magic == MAGIC && memory.version == VERSION then Plus(memory.generation, 1) else 1;
      h := Header(MAGIC, VERSION, generation, false, CAPACITY, 0, 0, 0, 0, 0, NotStopped, 0)
      .(initial := Masked(first.r31), final := Masked(first.r31));
      v := Vars(false, false, 0, CAPACITY, Masked(first.r31));
      ring := new RawRecord[CAPACITY](_ => NO_RECORD);
    }

    function Now(): State
      reads this, ring
    {
      State(h, v, ring[..])
    }

    method PublishStop(reason: StopReason, ticks: u32, raw: u32, count: u32)
      modifies `h
      ensures h == Published(old(h), reason, ticks, raw, count)
    {
      h := h.(final := raw);
      h := h.(count := count, stopTicks := ticks, reason := reason);
      h := h.(running := false);
    }

    /** The precision kernel. Its local variables are `count`, `last` and
        `lastTicks`; `done` tells whether it has reached the limit. */
    method RunCaptureWindow(limit: u32, initial: u32, samples: seq<Observed>) returns (done: bool, count: u32)
      requires ring.Length == CAPACITY && 1 <= limit <= CAPACITY && v.limit == limit
      modifies `h, ring
      ensures done == (|Changes(initial, samples)| >= limit) && (done ==> count == limit)
      ensures State(h, if done then v.(count := count, capturing := false) else v, ring[..]) ==
              Window(old(Now()), initial, samples)
    {
      hide Changes, Masked;
      count := 0;
      done := false;
      var last, lastTicks := initial, h.startTicks;
      ChangesEmpty(initial);
      var i := 0;
      while i < |samples| && !done
        invariant 0 <= i <= |samples| && count <= limit <= CAPACITY && done == (count == limit)
        invariant ring[..count] == Changes(initial, samples[..i]) && last == LastRaw(initial, ring[..count])
        invariant done ==> last == ring[count - 1].raw && lastTicks == ring[count - 1].timestamp
        invariant ring[count..] == old(ring[count..]) && h == old(h)
      {
        ChangesSnoc(initial, samples, i);
        var raw := Masked(samples[i].r31);
        if raw != last {
          ring[count] := RawRecord(samples[i].now, raw);
          last, lastTicks := raw, samples[i].now;
          count := count + 1;
          assert ring[..count] == ring[..count - 1] + [RawRecord(lastTicks, raw)];
          done := count >= limit;
        }
        i := i + 1;
      }
      ChangesPrefix(initial, samples, i);
      assert samples[..|samples|] == samples;
      if done {
        PublishStop(EventLimit, lastTicks, last, count);
        assert ring[..] == ring[..count] + ring[count..];
        assert old(ring[..])[count..] == old(ring[count..]);
      } else {
        assert ring[..] == ring[..count] + ring[count..];
        assert old(ring[..])[count..] == old(ring[count..]);
      }
    }

    method HandleRequest(raw: u32, now: u32, r: Request) returns (reply: Reply)
      modifies `h, `v
      ensures Outcome(h, v, reply) == Handle(old(h), old(v), raw, now, r)
    {
      reply := Ok;
      match r {
        case BadLength => reply := ErrLength;
        case BadMagic => reply := ErrMagic;
        case BadVersion => reply := ErrVersion;
        case BadCommand => reply := ErrCommand;
        case Hello =>
        case Time =>
        case Ping =>
        case ForceSafe =>
          v := v.(pending := false);
          if v.capturing {
            PublishStop(ForcedSafe, now, raw, v.count);
            v := v.(capturing := false);
          }
        case Config(limit) =>
          if v.capturing || v.pending {
            reply := ErrCaptureRunning;
          } else if limit == 0 || limit > CAPACITY {
            reply := ErrInvalidArgument;
          } else {
            v := v.(limit := limit);
            h := h.(limit := limit);
          }
        case Clear =>
          if v.capturing || v.pending {
            reply := ErrCaptureRunning;
          } else {
            var generation := if h.magic == MAGIC && h.version == VERSION then Plus(h.generation, 1) else 1;
            h := Header(MAGIC, VERSION, generation, false, CAPACITY, 0, 0, 0, 0, 0, NotStopped, 0);
            h := h.(limit := v.limit);
            v := v.(count := 0, lastInputs := raw);
          }
        case Start =>
          if v.capturing || v.pending {
            reply := ErrCaptureRunning;
          } else {
            v := v.(count := 0, pending := true);
            h := h.(count := 0, stopTicks := 0, reason := NotStopped, overflow := 0, running := false);
          }
        case Stop =>
          if v.pending {
            v := v.(pending := false);
            h := h.(stopTicks := now, reason := HostRequest, running := false);
          }
          if v.capturing {
            PublishStop(HostRequest, now, raw, v.count);
            v := v.(capturing := false);
          }
        case Status =>
          h := h.(count := v.count, final := raw);
      }
    }

    /** One pass of `while (1)`; without `returned` the firmware is still inside
        the capture window. */
    method LoopPass(p: Pass) returns (returned: bool)
      requires ring.Length == CAPACITY && Sane(Now()) && !v.capturing
      modifies this, ring
      ensures Now() == Next(old(Now()), p) && returned == !v.capturing
    {
      hide Masked, Changes, Window;
      returned := true;
      if v.pending {
        var baseline := Masked(p.first.r31);
        v := v.(count := 0, lastInputs := baseline);
        h := h.(count := 0, initial := baseline, final := baseline, startTicks := p.first.now, stopTicks := 0);
        h := h.(reason := NotStopped, overflow := 0);
        v := v.(capturing := true, pending := false);
        h := h.(running := true);
        assert Now() == Baseline(old(Now()), p.first);
        var count;
        returned, count := RunCaptureWindow(v.limit, baseline, p.samples);
        if returned {
          v := v.(count := count, capturing := false);
        }
        return;
      }
      var raw := Masked(p.first.r31);
      for i := 0 to |p.requests|
        invariant (h, v) == Drain(old(h), old(v), raw, p.requests[..i]) && ring[..] == old(ring[..])
      {
        assert p.requests[..i + 1][..i] == p.requests[..i];
        var reply := HandleRequest(raw, p.requests[i].now, p.requests[i].request);
      }
      assert p.requests[..|p.requests|] == p.requests;
      NeverDuringCapture(old(h), old(v), raw, p.requests);
    }
  }

  /** No request is handled while a capture runs: draining never starts one. */
  lemma {:induction false} NeverDuringCapture(h: Header, v: Vars, raw: u32, rs: seq<Received>)
    requires !v.capturing
    ensures !Drain(h, v, raw, rs).1.capturing
  {
    if rs == [] {
    } else {
      NeverDuringCapture(h, v, raw, rs[..|rs| - 1]);
    }
  }

  lemma ChangesEmpty(initial: u32)
    ensures Changes(initial, []) == []
  {
  }

  lemma ChangesSnoc(initial: u32, seen: seq<Observed>, i: nat)
    requires i < |seen|
    ensures var before, raw := Changes(initial, seen[..i]), Masked(seen[i].r31);
            Changes(initial, seen[..i + 1]) ==
            if raw == LastRaw(initial, before) then before else before + [RawRecord(seen[i].now, raw)]
  {
    hide Masked;
    assert seen[..i + 1][..i] == seen[..i];
  }

  /** More samples only add records. */
  lemma {:induction false} ChangesPrefix(initial: u32, seen: seq<Observed>, i: nat)
    requires i <= |seen|
    ensures Changes(initial, seen[..i]) <= Changes(initial, seen)
    decreases |seen| - i
  {
    assert seen[..|seen|] == seen;
    if i == |seen| {
    } else {
      ChangesSnoc(initial, seen, i);
      ChangesPrefix(initial, seen, i + 1);
    }
  }
}

/** Whole runs of the raw capture firmware, and what the host makes of a frozen
    capture (hil_raw_shared.py). */
module RawRuns {
  import opened Words
  import opened RawAnalysis
  import opened RawCapture
  import opened Sublists
  import PwmStream
  import StreamVersusOffline

  /** Only PWM inputs. */
  ghost predicate PwmOnly(raw: u32) {
    forall k: nat :: k < 32 && Bit(raw, k) ==> k in RAW_BITS
  }

  /** Records of real changes, starting from the inputs `initial`. */
  ghost predicate Chain(initial: u32, records: seq<RawRecord>) {
    && PwmOnly(initial)
    && forall k :: 0 <= k < |records| ==> Link(initial, records, k)
  }

  ghost predicate Link(initial: u32, records: seq<RawRecord>, k: nat)
    requires k < |records|
  {
    PwmOnly(records[k].raw) && records[k].raw != if k == 0 then initial else records[k - 1].raw
  }

  lemma MaskedOnly(raw: u32)
    ensures PwmOnly(Masked(raw))
  {
    hide Bit;
    forall k: nat | k < 32 && Bit(Masked(raw), k) ensures k in RAW_BITS {
      assert Bit(INPUT_MASK, k);
    }
  }

  /** The window records a chain, and misses nothing: its last record always
      shows the inputs of the last sample. */
  lemma {:induction false} ChangesChain(initial: u32, seen: seq<Observed>)
    requires PwmOnly(initial)
    ensures Chain(initial, Changes(initial, seen))
    ensures LastRaw(initial, Changes(initial, seen)) == if seen == [] then initial else Masked(seen[|seen| - 1].r31)
  {
    hide PwmOnly, Masked;
    if seen == [] {
    } else {
      var before, o := Changes(initial, seen[..|seen| - 1]), seen[|seen| - 1];
      ChangesChain(initial, seen[..|seen| - 1]);
      MaskedOnly(o.r31);
      ChainGrows(initial, before, RawRecord(o.now, Masked(o.r31)));
    }
  }

  lemma ChainGrows(initial: u32, records: seq<RawRecord>, r: RawRecord)
    requires Chain(initial, records) && PwmOnly(r.raw)
    ensures r.raw != LastRaw(initial, records) ==> Chain(initial, records + [r])
  {
    hide PwmOnly;
    var more := records + [r];
    if r.raw != LastRaw(initial, records) {
      forall k | 0 <= k < |more| ensures Link(initial, more, k) {
        assert k < |records| ==> Link(initial, records, k);
      }
    }
  }

  lemma ChainPrefix(initial: u32, records: seq<RawRecord>, n: nat)
    requires Chain(initial, records) && n <= |records|
    ensures Chain(initial, records[..n])
  {
    hide PwmOnly;
    var short := records[..n];
    forall k | 0 <= k < |short| ensures Link(initial, short, k) {
      assert Link(initial, records, k);
    }
  }

  // ---- runs ----

  /** The limit is in range and known to both sides, no capture is running, and
      the published records are a chain. */
  ghost predicate AtLoopTop(s: State) {
    && Sane(s) && !s.v.capturing && !s.h.running
    && s.h.limit == s.v.limit && s.h.count == s.v.count <= CAPACITY && s.h.magic == MAGIC && s.h.version == VERSION
    && Chain(s.h.initial, s.ring[..s.h.count])
    && s.h.reason != ForcedSafe && (s.v.pending ==> s.h.count == 0)
  }

  /** Still inside the window: fewer than `limit` changes so far, all in the
      ring. */
  ghost predicate InWindow(s: State, samples: seq<Observed>) {
    && Sane(s) && s.v.capturing && s.h.running && s.h.limit == s.v.limit
    && var records := Changes(s.h.initial, samples);
       |records| < s.v.limit && records <= s.ring && Chain(s.h.initial, records)
  }

  /** The parts of AtLoopTop that do not speak of bits. */
  predicate Quiet(h: Header, v: Vars) {
    && 1 <= v.limit <= CAPACITY && !v.capturing && !h.running
    && h.limit == v.limit && h.count == v.count <= CAPACITY && h.magic == MAGIC && h.version == VERSION
    && h.reason != ForcedSafe && (v.pending ==> h.count == 0)
  }

  lemma HandleQuiet(h: Header, v: Vars, raw: u32, now: u32, r: Request)
    requires Quiet(h, v)
    ensures var o := Handle(h, v, raw, now, r);
            && Quiet(o.h, o.v) && (o.h.count == 0 || (o.h.initial == h.initial && o.h.count == h.count))
            && (o.h.initial == h.initial || o.h.initial == 0)
  {
  }

  lemma {:induction false} DrainQuiet(h: Header, v: Vars, raw: u32, rs: seq<Received>)
    requires Quiet(h, v)
    ensures var (g, u) := Drain(h, v, raw, rs);
            && Quiet(g, u) && (g.count == 0 || (g.initial == h.initial && g.count == h.count))
            && (g.initial == h.initial || g.initial == 0)
  {
    hide Handle, Quiet;
    if rs == [] {
    } else {
      DrainQuiet(h, v, raw, rs[..|rs| - 1]);
      var (g, u) := Drain(h, v, raw, rs[..|rs| - 1]);
      HandleQuiet(g, u, raw, rs[|rs| - 1].now, rs[|rs| - 1].request);
    }
  }

  lemma NoneSet()
    ensures PwmOnly(0)
  {
    forall k: nat ensures !Bit(0, k) {
      ZeroBit(k);
    }
  }

  lemma WindowKeeps(s: State, first: Observed, samples: seq<Observed>)
    requires AtLoopTop(s)
    ensures var n := Window(Baseline(s, first), Masked(first.r31), samples);
            if n.v.capturing then InWindow(n, samples)
            else AtLoopTop(n) && n.h.count == n.v.limit && n.h.reason == EventLimit
                 && n.h.final == n.ring[n.h.count - 1].raw && n.h.stopTicks == n.ring[n.h.count - 1].timestamp
                 && n.h.initial == Masked(first.r31) &&
                    n.ring[..n.h.count] == Changes(n.h.initial, samples)[..n.v.limit]
  {
    hide PwmOnly, Masked, Changes;
    var initial := Masked(first.r31);
    MaskedOnly(first.r31);
    ChangesChain(initial, samples);
    var all := Changes(initial, samples);
    if |all| >= s.v.limit {
      ChainPrefix(initial, all, s.v.limit);
      var n := Window(Baseline(s, first), initial, samples);
      assert n.ring[..n.h.count] == all[..s.v.limit];
    }
  }

  lemma NextKeeps(s: State, p: Pass)
    requires AtLoopTop(s)
    ensures AtLoopTop(Next(s, p)) || InWindow(Next(s, p), p.samples)
  {
    hide PwmOnly, Masked, Changes, Window;
    if s.v.pending {
      WindowKeeps(s, p.first, p.samples);
    } else {
      DrainQuiet(s.h, s.v, Masked(p.first.r31), p.requests);
      NoneSet();
      var n := Next(s, p);
      assert n.h.count == 0 ==> n.ring[..n.h.count] == [];
    }
  }

  lemma NextSane(s: State, p: Pass)
    requires Sane(s)
    ensures Sane(Next(s, p))
  {
    hide Masked, Changes;
    DrainSane(s.h, s.v, Masked(p.first.r31), p.requests);
  }

  lemma {:induction false} DrainSane(h: Header, v: Vars, raw: u32, rs: seq<Received>)
    requires 1 <= v.limit <= CAPACITY
    ensures 1 <= Drain(h, v, raw, rs).1.limit <= CAPACITY
  {
    if rs == [] {
    } else {
      DrainSane(h, v, raw, rs[..|rs| - 1]);
    }
  }

  /** From reset, with the shared memory holding anything before it. */
  function After(memory: Header, first: Observed, passes: seq<Pass>, n: nat): (s: State)
    requires n <= |passes|
    ensures Sane(s)
  {
    if n == 0 then Reset(memory, first)
    else
      NextSane(After(memory, first, passes, n - 1), passes[n - 1]);
      Next(After(memory, first, passes, n - 1), passes[n - 1])
  }

  lemma ResetAtTop(memory: Header, first: Observed)
    ensures AtLoopTop(Reset(memory, first))
  {
    hide PwmOnly, Masked;
    MaskedOnly(first.r31);
    assert Reset(memory, first).ring[..0] == [];
  }

  /** Over every command sequence and every input waveform: the limit stays in
      1..1024 and is the one the header shows, and at every loop top no capture
      runs and the published records are a chain of real changes from
      `initial_raw_inputs`; otherwise the firmware is in the window, with fewer
      than `limit` records, all inside the ring and again a chain. A FORCE_SAFE
      stop is never published. */
  lemma {:induction false} RecordsAreChanges(memory: Header, first: Observed, passes: seq<Pass>, n: nat)
    requires n <= |passes|
    ensures var s := After(memory, first, passes, n);
            AtLoopTop(s) || (exists m :: 0 <= m < n && InWindow(s, passes[m].samples))
  {
    hide AtLoopTop, InWindow, Next;
    if n == 0 {
      ResetAtTop(memory, first);
    } else {
      RecordsAreChanges(memory, first, passes, n - 1);
      var s := After(memory, first, passes, n - 1);
      if AtLoopTop(s) {
        NextKeeps(s, passes[n - 1]);
      } else {
        var m :| 0 <= m < n - 1 && InWindow(s, passes[m].samples);
        StaysIn(s, passes[m].samples, passes[n - 1]);
        assert InWindow(After(memory, first, passes, n), passes[m].samples);
      }
    }
  }

  lemma StaysIn(s: State, samples: seq<Observed>, p: Pass)
    requires InWindow(s, samples)
    ensures Sane(s) && Next(s, p) == s
  {
  }

  // ---- cancelling ----

  predicate Cancels(r: Request) {
    r == Stop || r == ForceSafe
  }

  /** The last of START, STOP and FORCE_SAFE in `rs`, if any, is a START. */
  predicate StartLast(rs: seq<Received>) {
    rs != [] && (rs[|rs| - 1].request == Start || (!Cancels(rs[|rs| - 1].request) && StartLast(rs[..|rs| - 1])))
  }

  /** A drained START opens a window on the next pass exactly when neither STOP
      nor FORCE_SAFE was drained after the last START; a STOP publishes why. */
  lemma {:induction false} StartUnlessCancelled(h: Header, v: Vars, raw: u32, rs: seq<Received>)
    requires !v.capturing && !v.pending
    ensures Drain(h, v, raw, rs).1.pending <==> StartLast(rs)
    ensures rs != [] && rs[|rs| - 1].request == Stop && StartLast(rs[..|rs| - 1]) ==>
              Drain(h, v, raw, rs).0.reason == HostRequest && Drain(h, v, raw, rs).0.stopTicks == rs[|rs| - 1].now
  {
    if rs == [] {
    } else {
      StartUnlessCancelled(h, v, raw, rs[..|rs| - 1]);
      NeverDuringCapture(h, v, raw, rs[..|rs| - 1]);
    }
  }

  // ---- the limit ----

  /** Request `i` of a drained queue sets the limit: a CONFIG within range while no
      start is pending. */
  predicate Sets(h: Header, v: Vars, raw: u32, rs: seq<Received>, i: nat)
    requires i < |rs|
  {
    && rs[i].request.Config? && 1 <= rs[i].request.limit <= 1024
    && !Drain(h, v, raw, rs[..i]).1.pending && !Drain(h, v, raw, rs[..i]).1.capturing
  }

  predicate NoneSets(h: Header, v: Vars, raw: u32, rs: seq<Received>, from: nat) {
    forall i :: from <= i < |rs| ==> !Sets(h, v, raw, rs, i)
  }

  /** Every other command: START and CLEAR are answered Ok exactly while idle; STOP and
      FORCE_SAFE always, and leave no start pending; a CLEAR begins a new generation,
      empties the record list and keeps the limit. */
  lemma CommandAnswers(h: Header, v: Vars, raw: u32, now: u32)
    requires h.magic == MAGIC && h.version == VERSION
    ensures var idle, start := !v.pending && !v.capturing, Handle(h, v, raw, now, Start);
            && (start.reply == Ok <==> idle) &&
               (idle ==> start.v.pending && start.h.count == 0 && start.h.reason == NotStopped)
            && (!idle ==> start.v == v && start.h == h)
    ensures forall r :: r in {Stop, ForceSafe} ==>
              var o := Handle(h, v, raw, now, r);
              o.reply == Ok && !o.v.pending && !o.v.capturing && o.v.limit == v.limit
    ensures var idle, clear := !v.pending && !v.capturing, Handle(h, v, raw, now, Clear);
            && (clear.reply == Ok <==> idle) && (!idle ==> clear.v == v && clear.h == h)
            && (idle ==> clear.h.generation == (h.generation + 1) % 0x1_0000_0000 && clear.h.count == 0 == clear.v.count
                         && clear.h.limit == v.limit == clear.v.limit && clear.h.reason == NotStopped &&
                            !clear.h.running)
  {
  }

  /** A CONFIG is answered Ok exactly if it sets the limit. */
  lemma ConfigAnswers(h: Header, v: Vars, raw: u32, now: u32, limit: u32)
    ensures var o := Handle(h, v, raw, now, Config(limit));
            && (o.reply == Ok <==> 1 <= limit <= 1024 && !v.pending && !v.capturing)
            && (if o.reply == Ok then o.v == v.(limit := limit) && o.h == h.(limit := limit) else o.v == v && o.h == h)
  {
  }

  lemma {:induction false} DrainLimit(h: Header, v: Vars, raw: u32, rs: seq<Received>) returns (i: int)
    ensures -1 <= i < |rs| && NoneSets(h, v, raw, rs, i + 1)
    ensures if i >= 0 then Sets(h, v, raw, rs, i) && Drain(h, v, raw, rs).1.limit == rs[i].request.limit
            else Drain(h, v, raw, rs).1.limit == v.limit
  {
    if rs == [] {
      i := -1;
    } else {
      var rest, n := rs[..|rs| - 1], |rs| - 1;
      i := DrainLimit(h, v, raw, rest);
      forall k | 0 <= k < n ensures Sets(h, v, raw, rest, k) <==> Sets(h, v, raw, rs, k) {
        assert rest[..k] == rs[..k];
      }
      assert rs[..n] == rest;
      if Sets(h, v, raw, rs, n) {
        i := n;
      }
    }
  }

  lemma NextLimit(s: State, p: Pass) returns (k: int)
    requires Sane(s)
    ensures -1 <= k < |p.requests| && Spares(s, p, k + 1)
    ensures if k < 0 then Next(s, p).v.limit == s.v.limit
            else
              && !s.v.capturing && !s.v.pending && Sets(s.h, s.v, Masked(p.first.r31), p.requests, k)
              && Next(s, p).v.limit == p.requests[k].request.limit
  {
    hide Drain, Sets, Changes, NoneSets, Masked;
    k := -1;
    if !s.v.capturing && !s.v.pending {
      k := DrainLimit(s.h, s.v, Masked(p.first.r31), p.requests);
    }
  }

  /** Where the limit in force comes from: the last CONFIG that set one, request `i`
      of pass `j`, or else the capacity. */
  lemma {:induction false} LimitSince(memory: Header, first: Observed, passes: seq<Pass>, n: nat)
      returns (j: int, i: nat)
    requires n <= |passes|
    ensures -1 <= j < n && forall m :: j < m < n ==> Spares(After(memory, first, passes, m), passes[m], 0)
    ensures var s := After(memory, first, passes, n);
            if j < 0 then s.v.limit == 1024
            else
              var t, p := After(memory, first, passes, j), passes[j];
              && i < |p.requests| && !t.v.capturing && !t.v.pending
              && Sets(t.h, t.v, Masked(p.first.r31), p.requests, i) && Spares(t, p, i + 1)
              && s.v.limit == p.requests[i].request.limit
  {
    hide Drain, Sets, Changes, Spares, Masked, Next;
    if n == 0 {
      j, i := -1, 0;
    } else {
      var s, p := After(memory, first, passes, n - 1), passes[n - 1];
      j, i := LimitSince(memory, first, passes, n - 1);
      var k := NextLimit(s, p);
      if k >= 0 {
        j, i := n - 1, k;
      }
    }
  }

  /** The pass does not drain, or no request from number `from` on sets the limit. */
  predicate Spares(s: State, p: Pass, from: nat) {
    s.v.capturing || s.v.pending || NoneSets(s.h, s.v, Masked(p.first.r31), p.requests, from)
  }

  /** A pending start opens the window on the next pass; it publishes exactly the
      first `limit` changes once there are that many, and until then goes on. */
  lemma WindowPublishes(s: State, p: Pass)
    requires AtLoopTop(s) && s.v.pending
    ensures var n, all := Next(s, p), Changes(Masked(p.first.r31), p.samples);
            && n.h.initial == Masked(p.first.r31) && n.h.startTicks == p.first.now && !n.v.pending
            && n.v.capturing == (|all| < s.v.limit) && n.v.limit == s.v.limit
            && (!n.v.capturing ==>
                 && n.h.count == s.v.limit && n.ring[..n.h.count] == all[..s.v.limit]
                 && !n.h.running && n.h.reason == EventLimit && n.h.overflow == 0
                 && n.h.final == all[s.v.limit - 1].raw && n.h.stopTicks == all[s.v.limit - 1].timestamp)
  {
    hide PwmOnly, Masked, Changes, Chain;
    WindowKeeps(s, p.first, p.samples);
  }

  // ---- the host's view ----

  datatype Listed = Listed(index: nat, timestamp: u32, raw: u32, logical: u32, changed: u32)

  /** `raw_records`; None where `_validate` raises. */
  method RawRecords(h: Header, ring: seq<RawRecord>) returns (r: Option<seq<Listed>>)
    requires |ring| == CAPACITY
    ensures r.None? <==> h.magic != MAGIC || h.version != VERSION || h.count > CAPACITY
    ensures r.Some? ==>
              && |r.value| == h.count
              && forall k :: 0 <= k < h.count ==> r.value[k] == ListedAt(h.initial, ring, k)
  {
    hide Logical, Xor;
    if h.magic != MAGIC || h.version != VERSION || h.count > CAPACITY {
      return None;
    }
    var records: seq<Listed> := [];
    var count := if h.count < CAPACITY then h.count else CAPACITY;
    var previous := RawToLogical(h.initial);
    for index := 0 to count
      invariant |records| == index && previous == Logical(if index == 0 then h.initial else ring[index - 1].raw)
      invariant forall k :: 0 <= k < index ==> records[k] == ListedAt(h.initial, ring, k)
    {
      var logical := RawToLogical(ring[index].raw);
      records := records + [Listed(index, ring[index].timestamp, ring[index].raw, logical, Xor(logical, previous))];
      previous := logical;
    }
    return Some(records);
  }

  function ListedAt(initial: u32, ring: seq<RawRecord>, k: nat): Listed
    requires k < |ring|
  {
    var before := Logical(if k == 0 then initial else ring[k - 1].raw);
    Listed(k, ring[k].timestamp, ring[k].raw, Logical(ring[k].raw), Xor(Logical(ring[k].raw), before))
  }

  /** The remapping loses none of the six inputs. */
  lemma LogicalInjective(x: u32, y: u32)
    requires PwmOnly(x) && PwmOnly(y) && Logical(x) == Logical(y)
    ensures x == y
  {
    hide Bit;
    forall k: nat | k < 32 ensures Bit(x, k) <==> Bit(y, k) {
      if k in RAW_BITS {
        var j :| 0 <= j < 6 && RAW_BITS[j] == k;
        LogicalBit(x, j);
        LogicalBit(y, j);
      }
    }
    SameWord(x, y);
  }

  lemma LogicalBit(x: u32, j: nat)
    requires j < 6
    ensures Bit(Logical(x), j) <==> Bit(x, RAW_BITS[j])
  {
    hide Bit;
    assert HasBits(Logical(x), (k: nat) => k < 6 && Bit(x, RAW_BITS[k]));
  }

  lemma LogicalSix(x: u32)
    ensures StreamVersusOffline.SixBits(Logical(x))
  {
    hide Bit;
    assert HasBits(Logical(x), (k: nat) => k < 6 && Bit(x, RAW_BITS[k]));
  }

  lemma XorDiffers(x: u32, y: u32)
    requires x != y
    ensures Xor(x, y) != 0
  {
    hide Bit;
    if Xor(x, y) == 0 {
      forall k: nat | k < 32 ensures Bit(x, k) <==> Bit(y, k) {
        assert HasBits(Xor(x, y), (j: nat) => Bit(x, j) != Bit(y, j));
        ZeroBit(k);
      }
      SameWord(x, y);
    }
  }

  /** `raw_records` of a chain never yields an empty change mask, and the chain is
      the kind of trace for which streaming and offline analysis agree. */
  lemma NoEmptyChange(initial: u32, ring: seq<RawRecord>, count: nat)
    requires count <= |ring| && Chain(initial, ring[..count])
    ensures forall k :: 0 <= k < count ==> ListedAt(initial, ring, k).changed != 0
    ensures StreamVersusOffline.EdgeTrace(Logical(initial), Samples(ring[..count]))
  {
    hide PwmOnly, Logical, Xor, StreamVersusOffline.SixBits;
    var records := ring[..count];
    LogicalSix(initial);
    forall k | 0 <= k < count
      ensures ListedAt(initial, ring, k).changed != 0
      ensures StreamVersusOffline.SixBits(Samples(records)[k].logical)
      ensures EdgeAt(Logical(initial), Samples(records), k).before != Samples(records)[k].logical
    {
      var before := if k == 0 then initial else records[k - 1].raw;
      assert Link(initial, records, k);
      assert k > 0 ==> Link(initial, records, k - 1);
      LogicalSix(records[k].raw);
      if Logical(records[k].raw) == Logical(before) {
        LogicalInjective(records[k].raw, before);
      }
      XorDiffers(Logical(records[k].raw), Logical(before));
    }
  }

  /** End to end: any capture frozen at a loop top, analysed offline, agrees with
      a streaming capture fed the same edges: on every channel, on every pair's
      dead-time words and overlaps, and on the dead times themselves up to the
      turn-ons the offline analysis skips. */
  lemma FrozenAgreesWithStreaming(memory: Header, first: Observed, passes: seq<Pass>, n: nat, live: PwmStream.Stats,
                                  c: nat, p: nat, highToLow: bool)
    requires n <= |passes| && !After(memory, first, passes, n).v.capturing && c < 6 && p < 3
    requires StreamVersusOffline.Started(live, Logical(After(memory, first, passes, n).h.initial))
    ensures var s := After(memory, first, passes, n);
            && s.h.count <= |s.ring|
            && var trace := Samples(s.ring[..s.h.count]);
               && StreamVersusOffline.ChannelAgrees(StreamVersusOffline.Live(live, trace, |trace|).channels[c],
                                                    RawAnalysis.After(Logical(s.h.initial), trace, |trace|).channels[c])
               && PairsFit(live, Logical(s.h.initial), trace, p, highToLow)
  {
    hide StreamVersusOffline.ChannelAgrees, Logical, Chain, StreamVersusOffline.EdgeTrace, After, RawAnalysis.After,
        PairsFit;
    RecordsAreChanges(memory, first, passes, n);
    var s := After(memory, first, passes, n);
    NoEmptyChange(s.h.initial, s.ring, s.h.count);
    var trace := Samples(s.ring[..s.h.count]);
    StreamVersusOffline.ChannelsAgree(live, Logical(s.h.initial), trace, |trace|, c);
    PairsDoFit(live, Logical(s.h.initial), trace, p, highToLow);
  }

  /** What agrees about a pair over a whole trace. */
  ghost predicate PairsFit(live: PwmStream.Stats, initial: u32, trace: seq<Sample>, p: nat, highToLow: bool)
    requires p < 3 && live.Valid()
  {
    var n, side, other := |trace|, StreamVersusOffline.SideOf(p, highToLow), StreamVersusOffline.OtherOf(p, highToLow);
    var offline := StreamVersusOffline.OfflineDeadtimes(initial, trace, n, p, highToLow);
    var streamed := StreamVersusOffline.LiveDeadtimes(live, initial, trace, n, side, other);
    && StreamVersusOffline.PairAgrees(StreamVersusOffline.Live(live, trace, n).pairs[p],
                                      RawAnalysis.After(initial, trace, n).pairs[p],
                                      StreamVersusOffline.LiveDeadtimes(live, initial, trace, n, 2 * p + 1, 2 * p),
                                      StreamVersusOffline.LiveDeadtimes(live, initial, trace, n, 2 * p, 2 * p + 1))
    && Subsequence(offline, streamed)
    && (offline == streamed <==> forall k :: 0 <= k < n ==>
        !StreamVersusOffline.Skipped(initial, trace, k, side, other))
  }

  lemma PairsDoFit(live: PwmStream.Stats, initial: u32, trace: seq<Sample>, p: nat, highToLow: bool)
    requires p < 3 && StreamVersusOffline.Started(live, initial) && StreamVersusOffline.EdgeTrace(initial, trace)
    ensures PairsFit(live, initial, trace, p, highToLow)
  {
    hide StreamVersusOffline.PairAgrees, StreamVersusOffline.EdgeTrace, StreamVersusOffline.Skipped, Subsequence, Bit,
         StreamVersusOffline.Live, StreamVersusOffline.LiveDeadtimes, StreamVersusOffline.OfflineDeadtimes,
             RawAnalysis.After;
    StreamVersusOffline.PairsAgree(live, initial, trace, |trace|, p);
    StreamVersusOffline.DeadtimesAgree(live, initial, trace, |trace|, p, highToLow);
  }
}
