/** The PRU side of PWM capture: what an edge does to the live statistics, and
    the C routines that carry it out one shared word at a time. */
module PwmStream {
  import opened Words

  const RISE_SEEN: u32 := 1
  const FALL_SEEN: u32 := 2
  const PERIOD_VALID: u32 := 4
  const HIGH_VALID: u32 := 8
  const LOW_VALID: u32 := 16

  const DT_HL_VALID: u32 := 1
  const DT_LH_VALID: u32 := 2
  const OVERLAP_ACTIVE: u32 := 4
  /** Active and latched. */
  const OVERLAP_BITS: u32 := 12
  const VIOLATION_LATCHED: u32 := 16

  datatype Channel = Channel(
    period: u32, high: u32, low: u32, lastRise: u32, lastFall: u32, riseCount: u32, fallCount: u32, flags: u32)

  datatype Pair = Pair(
    hlTicks: u32, lhTicks: u32, hlCount: u32, lhCount: u32, overlapCount: u32, violationCount: u32, flags: u32)

  /** The summary part of the shared struct that an edge may change. */
  datatype Stats = Stats(
    running: u32, minDeadtime: u32, inputs: u32, changed: u32, lastTimestamp: u32, faults: u32,
    channels: seq<Channel>, pairs: seq<Pair>)
  {
    predicate Valid() { |channels| == 6 && |pairs| == 3 }
  }

  /** An edge as the six channels see it. */
  datatype Edge = Edge(timestamp: u32, before: u32, now: u32)
  {
    predicate Rises(c: nat) { Bit(now, c) && !Bit(before, c) }

    predicate Falls(c: nat) { !Bit(now, c) && Bit(before, c) }
  }

  /** Statistics of a freshly initialised struct. */
  function Fresh(minDeadtime: u32): (s: Stats)
    ensures s.Valid()
  {
    Stats(0, minDeadtime, 0, 0, 0, 0, seq(6, _ => Channel(0, 0, 0, 0, 0, 0, 0, 0)),
          seq(3, _ => Pair(0, 0, 0, 0, 0, 0, 0)))
  }

  function WithPeriod(ch: Channel, t: u32): Channel {
    if Bit(ch.flags, 0)
    then ch.(period := Minus(t, ch.lastRise), flags := Or(ch.flags, PERIOD_VALID)) else ch
  }

  function WithLow(ch: Channel, t: u32): Channel {
    if Bit(ch.flags, 1)
    then ch.(low := Minus(t, ch.lastFall), flags := Or(ch.flags, LOW_VALID)) else ch
  }

  function WithHigh(ch: Channel, t: u32): Channel {
    if Bit(ch.flags, 0)
    then ch.(high := Minus(t, ch.lastRise), flags := Or(ch.flags, HIGH_VALID)) else ch
  }

  function Risen(ch: Channel, t: u32): Channel {
    var a := WithLow(WithPeriod(ch, t), t);
    a.(lastRise := t, riseCount := Plus(a.riseCount, 1), flags := Or(a.flags, RISE_SEEN))
  }

  function Fallen(ch: Channel, t: u32): Channel {
    var a := WithHigh(ch, t);
    a.(lastFall := t, fallCount := Plus(a.fallCount, 1), flags := Or(a.flags, FALL_SEEN))
  }

  function ChannelEdge(ch: Channel, e: Edge, c: nat): Channel {
    if e.Rises(c) then Risen(ch, e.timestamp)
    else if e.Falls(c) then Fallen(ch, e.timestamp)
    else ch
  }

  datatype PairState = PairState(pair: Pair, faults: u32)

  function CountDeadtime(pair: Pair, highToLow: bool, ticks: u32): Pair {
    if highToLow
    then pair.(hlTicks := ticks, hlCount := Plus(pair.hlCount, 1), flags := Or(pair.flags, DT_HL_VALID))
    else pair.(lhTicks := ticks, lhCount := Plus(pair.lhCount, 1), flags := Or(pair.flags, DT_LH_VALID))
  }

  function RecordDeadtime(s: PairState, p: nat, minDeadtime: u32, highToLow: bool, ticks: u32): PairState
    requires p < 3
  {
    var a := CountDeadtime(s.pair, highToLow, ticks);
    if minDeadtime != 0 && ticks < minDeadtime then
      PairState(a.(violationCount := Plus(a.violationCount, 1), flags := Or(a.flags, VIOLATION_LATCHED)),
                Or(s.faults, Pow32(8 + p)))
    else PairState(a, s.faults)
  }

  /** `1u << k`. */
  function Pow32(k: nat): u32
    requires k < 32
  {
    FromBits((j: nat) => j == k)
  }

  /** The dead-time a turn-on of one side records, given the channel of the
      other side after this edge: none before the other side has ever turned
      off, and zero when both switch in the same edge. */
  function Deadtime(e: Edge, other: Channel, c: nat): Option<u32> {
    if e.Falls(c) then Some(0)
    else if Bit(other.flags, 1) then Some(Minus(e.timestamp, other.lastFall))
    else None
  }

  /** The turn-on of `side` against the `other` side of pair `p`. */
  function TurnedOn(s: PairState, p: nat, minDeadtime: u32, e: Edge, side: nat, other: nat, ch: Channel): PairState
    requires p < 3
  {
    var dt := Deadtime(e, ch, other);
    if e.Rises(side) && dt.Some? then RecordDeadtime(s, p, minDeadtime, side == 2 * p + 1, dt.value) else s
  }

  function PairEdge(s: PairState, p: nat, minDeadtime: u32, e: Edge, hi: Channel, lo: Channel): PairState
    requires p < 3
  {
    var a := TurnedOn(s, p, minDeadtime, e, 2 * p + 1, 2 * p, hi);
    var b := TurnedOn(a, p, minDeadtime, e, 2 * p, 2 * p + 1, lo);
    Overlap(b, p, Bit(e.now, 2 * p) && Bit(e.now, 2 * p + 1))
  }

  function Overlap(s: PairState, p: nat, overlapNow: bool): PairState
    requires p < 3
  {
    if overlapNow then
      var counted := if !Bit(s.pair.flags, 2) then s.pair.(overlapCount := Plus(s.pair.overlapCount, 1)) else s.pair;
      PairState(counted.(flags := Or(counted.flags, OVERLAP_BITS)), Or(s.faults, Pow32(p)))
    else PairState(s.pair.(flags := AndNot(s.pair.flags, OVERLAP_ACTIVE)), s.faults)
  }

  function ChannelsAfter(chs: seq<Channel>, e: Edge): (r: seq<Channel>)
    ensures |r| == |chs|
  {
    seq(|chs|, c requires 0 <= c < |chs| => ChannelEdge(chs[c], e, c))
  }

  /** Pair `p` and the fault word once pairs 0 to `p` have been processed. */
  function PairStateAfter(s: Stats, chs: seq<Channel>, e: Edge, p: nat): PairState
    requires s.Valid() && |chs| == 6 && p < 3
    decreases p, 1
  {
    PairEdge(PairState(s.pairs[p], FaultsBefore(s, chs, e, p)), p, s.minDeadtime, e, chs[2 * p], chs[2 * p + 1])
  }

  function FaultsBefore(s: Stats, chs: seq<Channel>, e: Edge, p: nat): u32
    requires s.Valid() && |chs| == 6 && p <= 3
    decreases p, 0
  {
    if p == 0 then s.faults else PairStateAfter(s, chs, e, p - 1).faults
  }

  function PairsAfter(s: Stats, chs: seq<Channel>, e: Edge): (r: seq<Pair>)
    requires s.Valid() && |chs| == 6
    ensures |r| == 3
  {
    seq(3, p requires 0 <= p < 3 => PairStateAfter(s, chs, e, p).pair)
  }

  /** `hil_pwm_capture_process`: a sample without a change, or while stopped,
      is ignored. */
  function Process(s: Stats, timestamp: u32, logical: u32): (r: Stats)
    requires s.Valid()
    ensures r.Valid()
  {
    var now := And(logical, 63);
    if s.running == 0 || Xor(now, s.inputs) == 0 then s
    else
      var e := Edge(timestamp, s.inputs, now);
      var chs := ChannelsAfter(s.channels, e);
      s.(inputs := now, changed := Xor(now, s.inputs), lastTimestamp := timestamp,
         channels := chs, pairs := PairsAfter(s, chs, e),
         faults := FaultsBefore(s, chs, e, 3))
  }

  function Start(s: Stats, timestamp: u32, logical: u32): Stats {
    s.(running := 1, inputs := And(logical, 63), changed := 0, lastTimestamp := timestamp)
  }
}

/** The writer: `struct hil_pwm_shared` in shared memory and the routines of
    pwm_capture_core.c. */
module PwmCapture {
  import opened Words
  import opened PwmShared
  import opened PwmStream

  function ChannelIn(m: Memory, c: nat): Channel
    requires c < 6
  {
    var at := ChannelAt(c);
    Channel(m[at], m[at + 1], m[at + 2], m[at + 3], m[at + 4], m[at + 5], m[at + 6], m[at + 7])
  }

  function PairIn(m: Memory, p: nat): Pair
    requires p < 3
  {
    var at := PairAt(p);
    Pair(m[at], m[at + 1], m[at + 2], m[at + 3], m[at + 4], m[at + 5], m[at + 6])
  }

  /** The statistics the summary words spell. */
  function StatsIn(m: Memory): (s: Stats)
    ensures s.Valid()
  {
    Stats(m[RUNNING], m[MIN_DEADTIME], m[INPUT_BITS], m[CHANGED_BITS], m[LAST_TIMESTAMP], m[FAULT_FLAGS],
          seq(6, c requires 0 <= c < 6 => ChannelIn(m, c)), seq(3, p requires 0 <= p < 3 => PairIn(m, p)))
  }

  class Capture {
    /** The shared struct, word by word. */
    var words: Memory
    /** The writes of the update in progress. */
    ghost var open: seq<Write>
    /** Memory when that update began. */
    ghost var base: Memory
    ghost var run: Run

    /** Between two calls. */
    ghost predicate Valid()
      reads this
    {
      ValidRun(run) && words == run.memories[|run.updates|]
    }

    /** In the middle of an update: memory is `base` with the writes so far. */
    ghost predicate Open()
      reads this
    {
      InBounds(open) && words == Apply(base, open)
    }

    method Store(at: nat, value: u32)
      requires Open() && at < TOTAL_WORDS && !HeaderWord(at)
      modifies this`words, this`open
      ensures Open() && words == old(words)[at := value] && open == old(open) + [Write(at, value)]
    {
      words := words[at := value];
      open := open + [Write(at, value)];
      assert open[..|open| - 1] == old(open);
    }

    /** `hil_pwm_capture_init` on fresh memory. */
    constructor (tickHz: u32, minDeadtime: u32)
      ensures Valid() && run.updates == []
      ensures StatsIn(words) == Fresh(minDeadtime)
    {
      var zero: Memory := seq(604, _ => 0);
      var m: Memory := zero[MAGIC := 0x314D5750][VERSION := 1][TOTAL_SIZE := 2416][TICK_HZ := tickHz];
      m := m[CHANNEL_COUNT := 6][PAIR_COUNT := 3][RING_CAPACITY := 128][MIN_DEADTIME := minDeadtime];
      words := m;
      run := Run([m], []);
      open := [];
      base := m;
      new;
      assert StatsIn(words).channels == Fresh(minDeadtime).channels;
    }

    method BeginUpdate()
      requires Valid()
      modifies this`words, this`open, this`base
      ensures Open() && base == old(words)
      ensures open == [Write(SEQ_LOCK, Plus(base[SEQ_LOCK], 1))]
      ensures words == base[SEQ_LOCK := Plus(base[SEQ_LOCK], 1)]
    {
      base := words;
      open := [];
      Store(SEQ_LOCK, Plus(words[SEQ_LOCK], 1));
    }

    /** `end_update`; the finished update joins the run. */
    method EndUpdate(ghost effect: Effect)
      requires Open() && ValidRun(run) && base == run.memories[|run.updates|]
      requires words[SEQ_LOCK] == Plus(base[SEQ_LOCK], 1)
      requires Bracketed(base, open + [Write(SEQ_LOCK, Plus(base[SEQ_LOCK], 2))])
      requires match effect
               case Quiet => NoRingWrite(open)
               case Pushes(e, record) => AnnouncesFirst(base, open, e) && PushesRecord(base, words, record)
      modifies this`words, this`open, this`run
      ensures Valid() && words == old(words)[SEQ_LOCK := Plus(base[SEQ_LOCK], 2)]
      ensures Grew(old(run), run, 1) && run.updates[|old(run.updates)|].effect == effect
    {
      Store(SEQ_LOCK, Plus(words[SEQ_LOCK], 1));
      PlusPlus(base[SEQ_LOCK]);
      ghost var update := Update(open, effect);
      assert ValidUpdate(base, update);
      run := Extend(run, update);
    }

    method StoreControl(at: nat, value: u32)
      requires Open() && RUNNING <= at <= LAST_TIMESTAMP && ControlOnly(base, open)
      modifies this`words, this`open
      ensures Open() && words == old(words)[at := value] && ControlOnly(base, open)
    {
      Store(at, value);
    }

    /** `end_update` of an update that pushed no edge. */
    method EndQuiet()
      requires Open() && ValidRun(run) && base == run.memories[|run.updates|]
      requires ControlOnly(base, open) && words[SEQ_LOCK] == Plus(base[SEQ_LOCK], 1)
      modifies this`words, this`open, this`run
      ensures Valid() && words == old(words)[SEQ_LOCK := Plus(base[SEQ_LOCK], 2)] && Grew(old(run), run, 1)
      ensures History(run.updates, |run.updates|) == old(History(run.updates, |run.updates|))
    {
      EndUpdate(Quiet);
      HistoryPrefix(old(run.updates), run.updates);
    }

    /** `hil_pwm_capture_start`. */
    method Start(timestamp: u32, logical: u32)
      requires Valid()
      modifies this
      ensures Valid() && Grew(old(run), run, 1)
      ensures History(run.updates, |run.updates|) == old(History(run.updates, |run.updates|))
      ensures StatsIn(words) == PwmStream.Start(StatsIn(old(words)), timestamp, logical)
    {
      hide Apply, Bit;
      BeginUpdate();
      StoreControl(RUNNING, 1);
      StoreControl(INPUT_BITS, And(logical, 63));
      StoreControl(CHANGED_BITS, 0);
      StoreControl(LAST_TIMESTAMP, timestamp);
      EndQuiet();
      SameChannels(old(words), words);
    }

    /** `hil_pwm_capture_stop`. */
    method Stop()
      requires Valid()
      modifies this
      ensures Valid() && Grew(old(run), run, 1)
      ensures History(run.updates, |run.updates|) == old(History(run.updates, |run.updates|))
      ensures StatsIn(words) == StatsIn(old(words)).(running := 0)
    {
      hide Apply, Bit;
      BeginUpdate();
      StoreControl(RUNNING, 0);
      EndQuiet();
      SameChannels(old(words), words);
    }

    /** `hil_pwm_capture_set_min_deadtime`. */
    method SetMinDeadtime(ticks: u32)
      requires Valid()
      modifies this
      ensures Valid() && Grew(old(run), run, 1)
      ensures History(run.updates, |run.updates|) == old(History(run.updates, |run.updates|))
      ensures StatsIn(words) == StatsIn(old(words)).(minDeadtime := ticks)
    {
      hide Apply, Bit;
      BeginUpdate();
      StoreControl(MIN_DEADTIME, ticks);
      EndQuiet();
      SameChannels(old(words), words);
    }

    /** One store into a channel or pair record or the fault word. */
    method StoreStat(at: nat, value: u32, ghost mark: nat)
      requires Open() && FAULT_FLAGS <= at < SUMMARY_WORDS && StatsOnly(open, mark)
      modifies this`words, this`open
      ensures Open() && words == old(words)[at := value]
      ensures StatsOnly(open, mark) && |open| > |old(open)| && open[..mark] == old(open)[..mark]
    {
      Store(at, value);
    }

    /** A guarded pair of stores: a measurement and its valid flag. */
    method Measure(at: nat, value: u32, flagsAt: nat, flag: u32, ghost mark: nat)
      requires Open() && 20 <= at < flagsAt < SUMMARY_WORDS && StatsOnly(open, mark)
      modifies this`words, this`open
      ensures Open() && words == old(words)[at := value][flagsAt := Or(old(words)[flagsAt], flag)]
      ensures StatsOnly(open, mark) && open[..mark] == old(open)[..mark]
    {
      StoreStat(at, value, mark);
      StoreStat(flagsAt, Or(words[flagsAt], flag), mark);
    }

    method MeasurePeriod(t: u32, c: nat, ghost mark: nat)
      requires Open() && c < 6 && StatsOnly(open, mark)
      modifies this`words, this`open
      ensures Open() && StatsOnly(open, mark) && open[..mark] == old(open)[..mark]
      ensures SameBut(old(words), words, ChannelAt(c), ChannelAt(c) + 8)
      ensures ChannelIn(words, c) == WithPeriod(ChannelIn(old(words), c), t)
    {
      hide Apply, Bit;
      var at := ChannelAt(c);
      if Bit(words[at + 7], 0) {
        Measure(at, Minus(t, words[at + 3]), at + 7, PERIOD_VALID, mark);
      }
    }

    method MeasureLow(t: u32, c: nat, ghost mark: nat)
      requires Open() && c < 6 && StatsOnly(open, mark)
      modifies this`words, this`open
      ensures Open() && StatsOnly(open, mark) && open[..mark] == old(open)[..mark]
      ensures SameBut(old(words), words, ChannelAt(c), ChannelAt(c) + 8)
      ensures ChannelIn(words, c) == WithLow(ChannelIn(old(words), c), t)
    {
      hide Apply, Bit;
      var at := ChannelAt(c);
      if Bit(words[at + 7], 1) {
        Measure(at + 2, Minus(t, words[at + 4]), at + 7, LOW_VALID, mark);
      }
    }

    method MeasureHigh(t: u32, c: nat, ghost mark: nat)
      requires Open() && c < 6 && StatsOnly(open, mark)
      modifies this`words, this`open
      ensures Open() && StatsOnly(open, mark) && open[..mark] == old(open)[..mark]
      ensures SameBut(old(words), words, ChannelAt(c), ChannelAt(c) + 8)
      ensures ChannelIn(words, c) == WithHigh(ChannelIn(old(words), c), t)
    {
      hide Apply, Bit;
      var at := ChannelAt(c);
      if Bit(words[at + 7], 0) {
        Measure(at + 1, Minus(t, words[at + 3]), at + 7, HIGH_VALID, mark);
      }
    }

    /** Timestamp, counter and seen flag of one edge of a channel. */
    method CountEdge(t: u32, timeAt: nat, countAt: nat, flagsAt: nat, flag: u32, ghost mark: nat)
      requires Open() && 20 <= timeAt < countAt < flagsAt < SUMMARY_WORDS && StatsOnly(open, mark)
      modifies this`words, this`open
      ensures Open() && StatsOnly(open, mark) && open[..mark] == old(open)[..mark]
      ensures words == old(words)[timeAt := t][countAt := Plus(old(words)[countAt],
                                                               1)][flagsAt := Or(old(words)[flagsAt], flag)]
    {
      hide Apply, Bit;
      StoreStat(timeAt, t, mark);
      StoreStat(countAt, Plus(words[countAt], 1), mark);
      StoreStat(flagsAt, Or(words[flagsAt], flag), mark);
    }

    /** The body of the channel loop of `hil_pwm_capture_process`. */
    method UpdateChannel(e: Edge, c: nat, ghost mark: nat)
      requires Open() && c < 6 && StatsOnly(open, mark)
      modifies this`words, this`open
      ensures Open() && StatsOnly(open, mark) && open[..mark] == old(open)[..mark]
      ensures SameBut(old(words), words, ChannelAt(c), ChannelAt(c) + 8)
      ensures ChannelIn(words, c) == ChannelEdge(ChannelIn(old(words), c), e, c)
    {
      hide Apply, Bit;
      var at := ChannelAt(c);
      if e.Rises(c) {
        MeasurePeriod(e.timestamp, c, mark);
        MeasureLow(e.timestamp, c, mark);
        CountEdge(e.timestamp, at + 3, at + 5, at + 7, RISE_SEEN, mark);
      }
      if e.Falls(c) {
        MeasureHigh(e.timestamp, c, mark);
        CountEdge(e.timestamp, at + 4, at + 6, at + 7, FALL_SEEN, mark);
      }
    }

    // ---- pairs ----

    method RecordDeadtime(p: nat, highToLow: bool, ticks: u32, ghost mark: nat)
      requires Open() && p < 3 && StatsOnly(open, mark)
      modifies this`words, this`open
      ensures Open() && StatsOnly(open, mark) && open[..mark] == old(open)[..mark]
      ensures PairOnly(old(words), words, p)
      ensures PairStateIn(words, p) ==
              PwmStream.RecordDeadtime(PairStateIn(old(words), p), p, old(words)[MIN_DEADTIME], highToLow, ticks)
    {
      hide Apply, Bit;
      CountDeadtime(p, highToLow, ticks, mark);
      if words[MIN_DEADTIME] != 0 && ticks < words[MIN_DEADTIME] {
        CountViolation(p, mark);
      }
    }

    method CountDeadtime(p: nat, highToLow: bool, ticks: u32, ghost mark: nat)
      requires Open() && p < 3 && StatsOnly(open, mark)
      modifies this`words, this`open
      ensures Open() && StatsOnly(open, mark) && open[..mark] == old(open)[..mark]
      ensures PairOnly(old(words), words, p) && words[FAULT_FLAGS] == old(words)[FAULT_FLAGS]
      ensures PairIn(words, p) == PwmStream.CountDeadtime(PairIn(old(words), p), highToLow, ticks)
    {
      hide Apply, Bit;
      var at := PairAt(p);
      if highToLow {
        CountEdge(ticks, at, at + 2, at + 6, DT_HL_VALID, mark);
      } else {
        CountEdge(ticks, at + 1, at + 3, at + 6, DT_LH_VALID, mark);
      }
    }

    method CountViolation(p: nat, ghost mark: nat)
      requires Open() && p < 3 && StatsOnly(open, mark)
      modifies this`words, this`open
      ensures Open() && StatsOnly(open, mark) && open[..mark] == old(open)[..mark]
      ensures var at := PairAt(p);
              words == old(words)[at + 5 := Plus(old(words)[at + 5], 1)][at +
                  6 := Or(old(words)[at + 6], VIOLATION_LATCHED)]
                         [FAULT_FLAGS := Or(old(words)[FAULT_FLAGS], Pow32(8 + p))]
    {
      hide Apply, Bit;
      var at := PairAt(p);
      StoreStat(at + 5, Plus(words[at + 5], 1), mark);
      StoreStat(at + 6, Or(words[at + 6], VIOLATION_LATCHED), mark);
      StoreStat(FAULT_FLAGS, Or(words[FAULT_FLAGS], Pow32(8 + p)), mark);
    }

    method MarkOverlap(p: nat, overlapNow: bool, ghost mark: nat)
      requires Open() && p < 3 && StatsOnly(open, mark)
      modifies this`words, this`open
      ensures Open() && StatsOnly(open, mark) && open[..mark] == old(open)[..mark]
      ensures PairOnly(old(words), words, p)
      ensures PairStateIn(words, p) == Overlap(PairStateIn(old(words), p), p, overlapNow)
    {
      hide Apply, Bit;
      var at := PairAt(p);
      if overlapNow {
        SetOverlap(p, mark);
      } else {
        StoreStat(at + 6, AndNot(words[at + 6], OVERLAP_ACTIVE), mark);
      }
    }

    method SetOverlap(p: nat, ghost mark: nat)
      requires Open() && p < 3 && StatsOnly(open, mark)
      modifies this`words, this`open
      ensures Open() && StatsOnly(open, mark) && open[..mark] == old(open)[..mark]
      ensures PairOnly(old(words), words, p)
      ensures PairStateIn(words, p) == Overlap(PairStateIn(old(words), p), p, true)
    {
      hide Apply, Bit;
      var at := PairAt(p);
      var flags := words[at + 6];
      if !Bit(flags, 2) {
        StoreStat(at + 4, Plus(words[at + 4], 1), mark);
      }
      StoreStat(at + 6, Or(flags, OVERLAP_BITS), mark);
      StoreStat(FAULT_FLAGS, Or(words[FAULT_FLAGS], Pow32(p)), mark);
    }

    /** One direction of the dead-time measurement. */
    method TurnOn(e: Edge, p: nat, side: nat, other: nat, ghost mark: nat)
      requires Open() && p < 3 && StatsOnly(open, mark)
      requires (side == 2 * p + 1 && other == 2 * p) || (side == 2 * p && other == 2 * p + 1)
      modifies this`words, this`open
      ensures Open() && StatsOnly(open, mark) && open[..mark] == old(open)[..mark]
      ensures PairOnly(old(words), words, p)
      ensures PairStateIn(words, p) ==
              TurnedOn(PairStateIn(old(words), p), p, old(words)[MIN_DEADTIME], e, side, other,
                       ChannelIn(old(words), other))
    {
      hide Apply, Bit;
      if e.Rises(side) {
        if e.Falls(other) {
          RecordDeadtime(p, side == 2 * p + 1, 0, mark);
        } else if Bit(words[ChannelAt(other) + 7], 1) {
          RecordDeadtime(p, side == 2 * p + 1, Minus(e.timestamp, words[ChannelAt(other) + 4]), mark);
        }
      }
    }

    /** The body of the pair loop of `hil_pwm_capture_process`. */
    method UpdatePair(e: Edge, p: nat, ghost mark: nat)
      requires Open() && p < 3 && StatsOnly(open, mark)
      modifies this`words, this`open
      ensures Open() && StatsOnly(open, mark) && open[..mark] == old(open)[..mark]
      ensures PairOnly(old(words), words, p)
      ensures PairStateIn(words, p) ==
              PairEdge(PairStateIn(old(words), p), p, old(words)[MIN_DEADTIME], e,
                       ChannelIn(old(words), 2 * p), ChannelIn(old(words), 2 * p + 1))
    {
      hide Apply, Bit;
      TurnOn(e, p, 2 * p + 1, 2 * p, mark);
      assert ChannelIn(words, 2 * p + 1) == ChannelIn(old(words), 2 * p + 1);
      assert words[MIN_DEADTIME] == old(words)[MIN_DEADTIME];
      TurnOn(e, p, 2 * p, 2 * p + 1, mark);
      MarkOverlap(p, Bit(e.now, 2 * p) && Bit(e.now, 2 * p + 1), mark);
    }

    /** `push_edge_record`. */
    method PushEdgeRecord(timestamp: u32, logical: u32, changed: u32) returns (ghost record: Record)
      requires Open() && words[RING_HEAD] < CAPACITY
      modifies this`words, this`open
      ensures Open() && PushesRecord(old(words), words, record)
      ensures record == Record(timestamp, logical, changed, old(words)[FAULT_FLAGS])
      ensures forall i :: 0 <= i < SUMMARY_WORDS && i != RING_HEAD && i != RING_COUNT ==> words[i] == old(words)[i]
      ensures RingOnly(old(open), open, old(words)[RING_HEAD])
    {
      hide Apply, Bit;
      var slot := words[RING_HEAD];
      FillSlot(slot, timestamp, logical, changed, words[FAULT_FLAGS]);
      record := Record(timestamp, logical, changed, old(words)[FAULT_FLAGS]);
      ghost var filled, log := words, open;
      PublishSlot(slot);
      SlotFilled(filled, words, slot);
      RingOnlyJoins(old(open), log, open, slot);
    }

    /** Move the head past `slot`. */
    method PublishSlot(slot: nat)
      requires Open() && slot < CAPACITY
      modifies this`words, this`open
      ensures Open() && RingOnly(old(open), open, slot)
      ensures words == old(words)[RING_HEAD := if slot + 1 >= CAPACITY then 0 else slot + 1]
                [RING_COUNT := if old(words)[RING_COUNT] < CAPACITY then Plus(old(words)[RING_COUNT], 1)
                 else old(words)[RING_COUNT]]
    {
      hide Apply, Bit;
      var next := slot + 1;
      if next >= CAPACITY {
        next := 0;
      }
      Store(RING_HEAD, next);
      if words[RING_COUNT] < CAPACITY {
        Store(RING_COUNT, Plus(words[RING_COUNT], 1));
      }
    }

    /** The four words of the record in slot `slot`. */
    method FillSlot(slot: nat, timestamp: u32, logical: u32, changed: u32, faults: u32)
      requires Open() && slot < CAPACITY
      modifies this`words, this`open
      ensures Open() && Slot(words, slot) == Record(timestamp, logical, changed, faults)
      ensures forall i :: 0 <= i < SUMMARY_WORDS ==> words[i] == old(words)[i]
      ensures RingOnly(old(open), open, slot)
    {
      hide Apply, Bit;
      var at := SlotAt(slot);
      Store(at, timestamp);
      Store(at + 1, logical);
      Store(at + 2, changed);
      Store(at + 3, faults);
    }

    /** `hil_pwm_capture_process`. */
    method Process(timestamp: u32, logical: u32)
      requires Valid()
      modifies this
      ensures Valid() && Grew(old(run), run, |Logged(old(words), words[FAULT_FLAGS], timestamp, logical)|)
      ensures StatsIn(words) == PwmStream.Process(StatsIn(old(words)), timestamp, logical)
      ensures History(run.updates, |run.updates|) ==
              old(History(run.updates, |run.updates|)) + Logged(old(words), words[FAULT_FLAGS], timestamp, logical)
    {
      hide Apply, Bit;
      if words[RUNNING] == 0 {
        return;
      }
      var now := And(logical, 63);
      var previous := words[INPUT_BITS];
      var changed := Xor(now, previous);
      if changed == 0 {
        return;
      }
      var e := Edge(timestamp, previous, now);
      RingAtBoundary(run, |run.updates|);
      ghost var before := words;
      AnnounceEdge(timestamp, now, changed);
      ghost var announced := words;
      UpdateStats(e);
      ghost var stats := words;
      FinishEdge(timestamp, now, changed);
      assert StatsIn(words) == PwmStream.Process(StatsIn(before), timestamp, logical) by {
        EdgeStats(before, announced, stats, words, timestamp, logical);
      }
    }

    /** The end of an edge update: push the record, close the bracket. */
    method FinishEdge(timestamp: u32, now: u32, changed: u32)
      requires Open() && StatsOnly(open, 5) && OpensEdge(base, open[..5])
      requires ValidRun(run) && base == run.memories[|run.updates|]
      requires words[RING_HEAD] == base[RING_HEAD] < CAPACITY && words[RING_COUNT] == base[RING_COUNT]
      requires words[SEQ_LOCK] == Plus(base[SEQ_LOCK], 1)
      modifies this`words, this`open, this`run
      ensures Valid() && Grew(old(run), run, 1)
      ensures RingClosed(old(words), words)
      ensures History(run.updates, |run.updates|) ==
              old(History(run.updates, |run.updates|)) + [Record(timestamp, now, changed, old(words)[FAULT_FLAGS])]
    {
      hide Apply, Bit;
      ghost var log := open;
      ghost var record := PushEdgeRecord(timestamp, now, changed);
      EdgeShape(base, log, open, base[RING_HEAD]);
      EndUpdate(Pushes(4, record));
      HistoryPrefix(old(run.updates), run.updates);
    }

    method UpdateStats(e: Edge)
      requires Open() && StatsOnly(open, 5)
      modifies this`words, this`open
      ensures Open() && StatsOnly(open, 5) && open[..5] == old(open)[..5]
      ensures StatsEdge(old(words), words, e)
    {
      hide Apply, Bit;
      UpdateChannels(e);
      ghost var channels := words;
      UpdatePairs(e);
      StatsUpdated(old(words), channels, words, e);
    }

    /** The header words of an edge update, `event_seq` last. */
    method AnnounceEdge(timestamp: u32, now: u32, changed: u32)
      requires Valid()
      modifies this`words, this`open, this`base
      ensures Open() && base == old(words) && OpensEdge(base, open)
      ensures words[SEQ_LOCK] == Plus(base[SEQ_LOCK], 1) && EdgeHeader(base, words, timestamp, now, changed)
    {
      hide Apply, Bit;
      BeginUpdate();
      Store(INPUT_BITS, now);
      Store(CHANGED_BITS, changed);
      Store(LAST_TIMESTAMP, timestamp);
      Store(EVENT_SEQ, Plus(words[EVENT_SEQ], 1));
    }

    method UpdateChannels(e: Edge)
      requires Open() && StatsOnly(open, 5)
      modifies this`words, this`open
      ensures Open() && StatsOnly(open, 5) && open[..5] == old(open)[..5]
      ensures SameBut(old(words), words, 20, 68)
      ensures StatsIn(words).channels == ChannelsAfter(StatsIn(old(words)).channels, e)
    {
      hide Apply, Bit;
      for c := 0 to 6
        invariant Open() && StatsOnly(open, 5) && open[..5] == old(open)[..5]
        invariant SameBut(old(words), words, 20, ChannelAt(c))
        invariant forall k :: 0 <= k < c ==> ChannelIn(words, k) == ChannelEdge(ChannelIn(old(words), k), e, k)
      {
        UpdateChannel(e, c, 5);
      }
    }

    method UpdatePairs(e: Edge)
      requires Open() && StatsOnly(open, 5)
      modifies this`words, this`open
      ensures Open() && StatsOnly(open, 5) && open[..5] == old(open)[..5]
      ensures PairsOnly(old(words), words, 3)
      ensures StatsIn(words).pairs == PairsAfter(StatsIn(old(words)), StatsIn(old(words)).channels, e)
      ensures words[FAULT_FLAGS] == FaultsBefore(StatsIn(old(words)), StatsIn(old(words)).channels, e, 3)
    {
      hide Apply, Bit;
      ghost var s := StatsIn(words);
      for p := 0 to 3
        invariant Open() && StatsOnly(open, 5) && open[..5] == old(open)[..5]
        invariant PairsOnly(old(words), words, p)
        invariant words[FAULT_FLAGS] == FaultsBefore(s, s.channels, e, p)
        invariant forall k :: 0 <= k < p ==> PairIn(words, k) == PairStateAfter(s, s.channels, e, k).pair
      {
        ghost var before := words;
        PairUntouched(old(words), words, p);
        UpdatePair(e, p, 5);
        assert PairStateIn(words, p) == PairStateAfter(s, s.channels, e, p);
        forall k | 0 <= k <= p ensures PairIn(words, k) == PairStateAfter(s, s.channels, e, k).pair {
          if k < p {
            OtherPairKept(before, words, p, k);
          }
        }
      }
    }
  }

  /** Only the records of the first `n` pairs and the fault word differ. */
  ghost predicate PairsOnly(a: Memory, b: Memory, n: nat) {
    forall i :: 0 <= i < TOTAL_WORDS && i != FAULT_FLAGS && !(68 <= i < PairAt(n)) ==> a[i] == b[i]
  }

  lemma PairUntouched(a: Memory, b: Memory, p: nat)
    requires p < 3 && PairsOnly(a, b, p)
    ensures PairIn(b, p) == StatsIn(a).pairs[p] && b[MIN_DEADTIME] == a[MIN_DEADTIME]
    ensures ChannelIn(b, 2 * p) == StatsIn(a).channels[2 * p] && ChannelIn(b, 2 * p + 1) ==
            StatsIn(a).channels[2 * p + 1]
  {
  }

  lemma SlotFilled(a: Memory, b: Memory, slot: nat)
    requires slot < CAPACITY && forall i :: SUMMARY_WORDS <= i < TOTAL_WORDS ==> a[i] == b[i]
    ensures Slot(b, slot) == Slot(a, slot)
  {
  }

  lemma RingOnlyJoins(a: seq<Write>, b: seq<Write>, c: seq<Write>, slot: nat)
    requires RingOnly(a, b, slot) && RingOnly(b, c, slot)
    ensures RingOnly(a, c, slot)
  {
    forall i | |a| <= i < |b| ensures c[i] == b[i] {
      assert c[..|b|][i] == c[i];
    }
  }

  /** Memory once the header words of an edge update are written. */
  ghost predicate EdgeHeader(base: Memory, m: Memory, timestamp: u32, now: u32, changed: u32) {
    && m[INPUT_BITS] == now && m[CHANGED_BITS] == changed && m[LAST_TIMESTAMP] == timestamp
    && forall i | 0 <= i < TOTAL_WORDS && i != SEQ_LOCK && i != INPUT_BITS && i != CHANGED_BITS
                  && i != LAST_TIMESTAMP && i != EVENT_SEQ :: m[i] == base[i]
  }

  /** Memory once the channels and pairs are updated. */
  ghost predicate StatsEdge(a: Memory, b: Memory, e: Edge) {
    var s := StatsIn(a);
    var chs := ChannelsAfter(s.channels, e);
    && StatsIn(b).channels == chs && StatsIn(b).pairs == PairsAfter(s, chs, e)
    && b[FAULT_FLAGS] == FaultsBefore(s, chs, e, 3)
    && forall i :: 0 <= i < TOTAL_WORDS && i != FAULT_FLAGS && !(20 <= i < 92) ==> a[i] == b[i]
  }

  /** Pushing the record and closing the bracket leave the statistics alone. */
  ghost predicate RingClosed(a: Memory, b: Memory) {
    forall i :: 0 <= i < SUMMARY_WORDS && i != SEQ_LOCK && i != RING_HEAD && i != RING_COUNT ==> b[i] == a[i]
  }

  lemma StatsUpdated(a: Memory, mid: Memory, b: Memory, e: Edge)
    requires SameBut(a, mid, 20, 68) && StatsIn(mid).channels == ChannelsAfter(StatsIn(a).channels, e)
    requires PairsOnly(mid, b, 3) && StatsIn(b).pairs == PairsAfter(StatsIn(mid), StatsIn(mid).channels, e)
    requires b[FAULT_FLAGS] == FaultsBefore(StatsIn(mid), StatsIn(mid).channels, e, 3)
    ensures StatsEdge(a, b, e)
  {
    assert StatsIn(mid).pairs == StatsIn(a).pairs;
    SameFaults(StatsIn(mid), StatsIn(a), StatsIn(mid).channels, e);
    assert StatsIn(b).channels == StatsIn(mid).channels;
  }

  lemma OtherPairKept(a: Memory, b: Memory, p: nat, k: nat)
    requires k < p < 3 && PairOnly(a, b, p)
    ensures PairIn(a, k) == PairIn(b, k)
  {
  }

  /** The statistics spelled by memory before and after an edge update. */
  lemma EdgeStats(base: Memory, announced: Memory, stats: Memory, after: Memory, timestamp: u32, logical: u32)
    requires StatsIn(base).running != 0 && Xor(And(logical, 63), base[INPUT_BITS]) != 0
    requires EdgeHeader(base, announced, timestamp, And(logical, 63), Xor(And(logical, 63), base[INPUT_BITS]))
    requires StatsEdge(announced, stats, Edge(timestamp, base[INPUT_BITS], And(logical, 63)))
    requires RingClosed(stats, after)
    ensures StatsIn(after) == PwmStream.Process(StatsIn(base), timestamp, logical)
  {
    var e := Edge(timestamp, base[INPUT_BITS], And(logical, 63));
    SameChannels(base, announced);
    SameChannels(stats, after);
    SameFaults(StatsIn(announced), StatsIn(base), ChannelsAfter(StatsIn(base).channels, e), e);
  }

  /** The pair loop reads no more of the statistics than these fields. */
  lemma SameFaults(a: Stats, b: Stats, chs: seq<Channel>, e: Edge)
    requires a.Valid() && b.Valid() && |chs| == 6
    requires a.pairs == b.pairs && a.faults == b.faults && a.minDeadtime == b.minDeadtime
    ensures PairsAfter(a, chs, e) == PairsAfter(b, chs, e) && FaultsBefore(a, chs, e, 3) == FaultsBefore(b, chs, e, 3)
  {
    SamePairState(a, b, chs, e, 0);
    SamePairState(a, b, chs, e, 1);
    SamePairState(a, b, chs, e, 2);
  }

  lemma {:induction false} SamePairState(a: Stats, b: Stats, chs: seq<Channel>, e: Edge, p: nat)
    requires a.Valid() && b.Valid() && |chs| == 6 && p < 3
    requires a.pairs == b.pairs && a.faults == b.faults && a.minDeadtime == b.minDeadtime
    ensures PairStateAfter(a, chs, e, p) == PairStateAfter(b, chs, e, p)
  {
    if p == 0 {
    } else {
      SamePairState(a, b, chs, e, p - 1);
    }
  }

  /** The bracket and announcement order of a whole edge update. */
  lemma EdgeShape(base: Memory, log: seq<Write>, all: seq<Write>, head: nat)
    requires StatsOnly(log, 5) && OpensEdge(base, log[..5]) && RingOnly(log, all, head)
    requires head == base[RING_HEAD] < CAPACITY
    ensures Bracketed(base, all + [Write(SEQ_LOCK, Plus(base[SEQ_LOCK], 2))])
    ensures AnnouncesFirst(base, all, 4)
  {
    assert all[..5] == log[..5];
    assert forall i :: 0 <= i < 5 ==> all[i] == all[..5][i];
    forall i | 5 <= i < |all| ensures all[i].at != SEQ_LOCK && all[i].at != EVENT_SEQ {
      if i < |log| {
        assert all[i] == log[i];
      }
    }
  }

  /** The records a sample adds to the ring. */
  function Logged(m: Memory, faults: u32, timestamp: u32, logical: u32): seq<Record> {
    if m[RUNNING] == 0 || Xor(And(logical, 63), m[INPUT_BITS]) == 0 then []
    else [Record(timestamp, And(logical, 63), Xor(And(logical, 63), m[INPUT_BITS]), faults)]
  }

  /** The five writes that open an edge update. */
  ghost predicate OpensEdge(base: Memory, writes: seq<Write>) {
    && |writes| == 5 && writes[0] == Write(SEQ_LOCK, Plus(base[SEQ_LOCK], 1))
    && writes[1].at == INPUT_BITS && writes[2].at == CHANGED_BITS && writes[3].at == LAST_TIMESTAMP
    && writes[4] == Write(EVENT_SEQ, Plus(base[EVENT_SEQ], 1))
  }

  /** Since `log`, only the slot `head` and the ring bookkeeping were written. */
  ghost predicate RingOnly(log: seq<Write>, longer: seq<Write>, head: nat) {
    log <= longer &&
    forall i :: |log| <= i < |longer| ==>
      longer[i].at == RING_HEAD || longer[i].at == RING_COUNT || SlotAt(head) <= longer[i].at < SlotAt(head) + 4
  }

  function PairStateIn(m: Memory, p: nat): PairState
    requires p < 3
  {
    PairState(PairIn(m, p), m[FAULT_FLAGS])
  }

  /** Only the record of pair `p` and the fault word differ. */
  ghost predicate PairOnly(a: Memory, b: Memory, p: nat) {
    forall i :: 0 <= i < TOTAL_WORDS && i != FAULT_FLAGS && !(PairAt(p) <= i < PairAt(p) + 8) ==> a[i] == b[i]
  }

  ghost predicate ControlOnly(base: Memory, writes: seq<Write>) {
    && |writes| >= 1 && writes[0] == Write(SEQ_LOCK, Plus(base[SEQ_LOCK], 1))
    && forall i :: 1 <= i < |writes| ==> RUNNING <= writes[i].at <= LAST_TIMESTAMP
  }

  /** From write `mark` on, only statistics words are written. */
  ghost predicate StatsOnly(writes: seq<Write>, mark: nat) {
    mark <= |writes| && forall i :: mark <= i < |writes| ==> FAULT_FLAGS <= writes[i].at < SUMMARY_WORDS
  }

  /** `a` and `b` agree outside words `[from, to)`. */
  ghost predicate SameBut(a: Memory, b: Memory, from: nat, to: nat) {
    forall i :: 0 <= i < TOTAL_WORDS && !(from <= i < to) ==> a[i] == b[i]
  }

  lemma PlusPlus(x: u32)
    ensures Plus(Plus(x, 1), 1) == Plus(x, 2)
  {
    PlusWrap(x + 1, 1);
  }

  /** `longer` is `run` with `n` more updates. */
  ghost predicate Grew(run: Run, longer: Run, n: nat) {
    |longer.updates| == |run.updates| + n && run.updates <= longer.updates && run.memories <= longer.memories
  }

  ghost function Extend(run: Run, update: Update): (r: Run)
    requires ValidRun(run) && ValidUpdate(run.memories[|run.updates|], update)
    ensures ValidRun(r) && r.updates == run.updates + [update] && run.memories <= r.memories
    ensures r.memories[|r.updates|] == Apply(run.memories[|run.updates|], update.writes)
  {
    var longer := Run(run.memories + [Apply(run.memories[|run.updates|], update.writes)], run.updates + [update]);
    assert forall n :: 0 <= n < |longer.updates| ==> ValidStep(longer, n) by {
      forall n | 0 <= n < |longer.updates| ensures ValidStep(longer, n) {
        if n < |run.updates| {
          assert ValidStep(run, n);
        }
      }
    }
    longer
  }

  /** One more quiet update pushes nothing, an edge update its record. */
  lemma HistoryPrefix(us: seq<Update>, longer: seq<Update>)
    requires |longer| == |us| + 1 && longer[..|us|] == us
    ensures History(longer, |longer|) ==
            History(us, |us|) + (if longer[|us|].effect.Quiet? then [] else [longer[|us|].effect.record])
  {
    SameHistory(us, longer, |us|);
  }

  lemma {:induction false} SameHistory(us: seq<Update>, longer: seq<Update>, n: nat)
    requires n <= |us| <= |longer| && longer[..|us|] == us
    ensures History(longer, n) == History(us, n)
  {
    if n == 0 {
    } else {
      SameHistory(us, longer, n - 1);
      assert longer[..|us|][n - 1] == longer[n - 1];
    }
  }

  lemma SameChannels(a: Memory, b: Memory)
    requires forall i :: 20 <= i < 92 ==> a[i] == b[i]
    ensures StatsIn(a).channels == StatsIn(b).channels && StatsIn(a).pairs == StatsIn(b).pairs
  {
    forall c: nat | c < 6 ensures ChannelIn(a, c) == ChannelIn(b, c) {
    }
    forall p: nat | p < 3 ensures PairIn(a, p) == PairIn(b, p) {
    }
  }
}
