/** Offline analysis of a frozen raw capture (hil_raw_shared.py). */
module RawAnalysis {
  import opened Words
  import opened PwmStream

  /** Which R31 bit carries logical input `k`. */
  const RAW_BITS: seq<nat> := [1, 2, 3, 5, 14, 15]

  function Logical(raw: u32): u32 {
    FromBits((k: nat) => k < 6 && Bit(raw, RAW_BITS[k]))
  }

  /** `raw_to_logical`. */
  method RawToLogical(raw: u32) returns (logical: u32)
    ensures logical == Logical(raw)
  {
    logical := 0;
    forall k: nat ensures !Bit(0, k) { ZeroBit(k); }
    for index := 0 to 6
      invariant forall k: nat :: k < 32 ==> (Bit(logical, k) <==> k < index && Bit(raw, RAW_BITS[k]))
    {
      if Bit(raw, RAW_BITS[index]) {
        logical := Or(logical, Pow32(index));
      }
    }
    SameWord(logical, Logical(raw));
  }

  datatype RawRecord = RawRecord(timestamp: u32, raw: u32)

  /** One captured edge after the logical remapping. */
  datatype Sample = Sample(timestamp: u32, logical: u32)

  function Samples(ring: seq<RawRecord>): (r: seq<Sample>)
    ensures |r| == |ring|
  {
    seq(|ring|, i requires 0 <= i < |ring| => Sample(ring[i].timestamp, Logical(ring[i].raw)))
  }

  /** The edge at position `k` of a trace that starts from `initial`. */
  function EdgeAt(initial: u32, trace: seq<Sample>, k: nat): Edge
    requires k < |trace|
  {
    Edge(trace[k].timestamp, if k == 0 then initial else trace[k - 1].logical, trace[k].logical)
  }

  datatype ChannelLists = ChannelLists(
    riseLast: Option<u32>, fallLast: Option<u32>,
    periods: seq<u32>, highs: seq<u32>, lows: seq<u32>, rises: nat, falls: nat)

  datatype PairLists = PairLists(
    pendingHl: Option<u32>, pendingLh: Option<u32>, deadHl: seq<u32>, deadLh: seq<u32>, overlaps: nat, active: bool)

  datatype Analysis = Analysis(channels: seq<ChannelLists>, pairs: seq<PairLists>)
  {
    predicate Valid() { |channels| == 6 && |pairs| == 3 }
  }

  const NO_CHANNEL := ChannelLists(None, None, [], [], [], 0, 0)
  const NO_PAIR := PairLists(None, None, [], [], 0, false)

  /** `_append_delta`. */
  function Appended(list: seq<u32>, now: u32, previous: Option<u32>): seq<u32> {
    match previous case None => list case Some(p) => list + [Minus(now, p)]
  }

  function ChannelStep(a: ChannelLists, e: Edge, c: nat): ChannelLists {
    var t := e.timestamp;
    if e.Rises(c) then
      a.(periods := Appended(a.periods, t, a.riseLast), lows := Appended(a.lows, t, a.fallLast),
         riseLast := Some(t), rises := a.rises + 1)
    else if e.Falls(c) then
      a.(highs := Appended(a.highs, t, a.riseLast), fallLast := Some(t), falls := a.falls + 1)
    else a
  }

  /** What a fall of the other side leaves pending when the turn-on is decided. */
  function Armed(pending: Option<u32>, e: Edge, other: nat): Option<u32> {
    if e.Falls(other) then Some(e.timestamp) else pending
  }

  function PairStep(a: PairLists, e: Edge, p: nat): PairLists {
    var hl := Armed(a.pendingHl, e, 2 * p);
    var lh := Armed(a.pendingLh, e, 2 * p + 1);
    var overlapNow := Bit(e.now, 2 * p) && Bit(e.now, 2 * p + 1);
    PairLists(
      if e.Rises(2 * p + 1) then None else hl,
      if e.Rises(2 * p) then None else lh,
      if e.Rises(2 * p + 1) then Appended(a.deadHl, e.timestamp, hl) else a.deadHl,
      if e.Rises(2 * p) then Appended(a.deadLh, e.timestamp, lh) else a.deadLh,
      if overlapNow && !a.active then a.overlaps + 1 else a.overlaps,
      overlapNow)
  }

  function Step(a: Analysis, e: Edge): (r: Analysis)
    requires a.Valid()
    ensures r.Valid()
  {
    Analysis(seq(6, c requires 0 <= c < 6 => ChannelStep(a.channels[c], e, c)),
             seq(3, p requires 0 <= p < 3 => PairStep(a.pairs[p], e, p)))
  }

  /** The analysis of the first `n` samples. */
  function After(initial: u32, trace: seq<Sample>, n: nat): (r: Analysis)
    requires n <= |trace|
    ensures r.Valid()
  {
    if n == 0 then Analysis(seq(6, _ => NO_CHANNEL), seq(3, _ => NO_PAIR))
    else Step(After(initial, trace, n - 1), EdgeAt(initial, trace, n - 1))
  }

  /** The analysis of a whole capture. */
  function Analyzed(initialRaw: u32, ring: seq<RawRecord>): Analysis {
    After(Logical(initialRaw), Samples(ring), |ring|)
  }

  /** `raw_records` and the loops of `analyze_raw_capture`. */
  method AnalyzeRawCapture(initialRaw: u32, ring: seq<RawRecord>) returns (r: Analysis)
    ensures r == Analyzed(initialRaw, ring)
  {
    var chs: seq<ChannelLists> := seq(6, _ => NO_CHANNEL);
    var prs: seq<PairLists> := seq(3, _ => NO_PAIR);
    var initial := RawToLogical(initialRaw);
    var previous := initial;
    ghost var trace := Samples(ring);
    for index := 0 to |ring|
      invariant previous == if index == 0 then initial else trace[index - 1].logical
      invariant |chs| == 6 && |prs| == 3 && Analysis(chs, prs) == After(initial, trace, index)
    {
      var state := RawToLogical(ring[index].raw);
      var e := Edge(ring[index].timestamp, previous, state);
      chs := AnalyzeChannels(chs, e);
      prs := AnalyzePairs(prs, e);
      previous := state;
    }
    r := Analysis(chs, prs);
  }

  method AnalyzeChannels(before: seq<ChannelLists>, e: Edge) returns (chs: seq<ChannelLists>)
    requires |before| == 6
    ensures chs == seq(6, c requires 0 <= c < 6 => ChannelStep(before[c], e, c))
  {
    chs := before;
    var t := e.timestamp;
    for c := 0 to 6
      invariant |chs| == 6
      invariant forall k :: 0 <= k < 6 ==> chs[k] == if k < c then ChannelStep(before[k], e, k) else before[k]
    {
      var a := chs[c];
      if e.Rises(c) {
        a := a.(periods := Appended(a.periods, t, a.riseLast));
        a := a.(lows := Appended(a.lows, t, a.fallLast));
        a := a.(riseLast := Some(t));
        a := a.(rises := a.rises + 1);
      }
      if e.Falls(c) {
        a := a.(highs := Appended(a.highs, t, a.riseLast));
        a := a.(fallLast := Some(t));
        a := a.(falls := a.falls + 1);
      }
      chs := chs[c := a];
    }
  }

  method AnalyzePairs(before: seq<PairLists>, e: Edge) returns (prs: seq<PairLists>)
    requires |before| == 3
    ensures prs == seq(3, p requires 0 <= p < 3 => PairStep(before[p], e, p))
  {
    prs := before;
    var t := e.timestamp;
    for p := 0 to 3
      invariant |prs| == 3
      invariant forall k :: 0 <= k < 3 ==> prs[k] == if k < p then PairStep(before[k], e, k) else before[k]
    {
      var a := prs[p];
      var hi := 2 * p;
      var lo := hi + 1;
      if e.Falls(hi) {
        a := a.(pendingHl := Some(t));
      }
      if e.Rises(lo) {
        if a.pendingHl.Some? {
          a := a.(deadHl := a.deadHl + [Minus(t, a.pendingHl.value)]);
        }
        a := a.(pendingHl := None);
      }
      if e.Falls(lo) {
        a := a.(pendingLh := Some(t));
      }
      if e.Rises(hi) {
        if a.pendingLh.Some? {
          a := a.(deadLh := a.deadLh + [Minus(t, a.pendingLh.value)]);
        }
        a := a.(pendingLh := None);
      }
      var overlapNow := Bit(e.now, hi) && Bit(e.now, lo);
      if overlapNow && !a.active {
        a := a.(overlaps := a.overlaps + 1);
      }
      a := a.(active := overlapNow);
      prs := prs[p := a];
    }
  }
}

/** Streaming capture on the PRU and offline analysis on Linux agree. */
module StreamVersusOffline {
  import opened Words
  import opened PwmStream
  import opened RawAnalysis
  import opened Sublists

  /** A trace of real changes of the six logical inputs. */
  ghost predicate EdgeTrace(initial: u32, trace: seq<Sample>) {
    SixBits(initial) &&
    forall k :: 0 <= k < |trace| ==> SixBits(trace[k].logical) && EdgeAt(initial, trace, k).before != trace[k].logical
  }

  ghost predicate SixBits(x: u32) {
    forall k: nat :: k < 32 && Bit(x, k) ==> k < 6
  }

  /** The live statistics once `n` edges of the trace were processed. */
  function Live(s: Stats, trace: seq<Sample>, n: nat): (r: Stats)
    requires s.Valid() && n <= |trace|
    ensures r.Valid()
  {
    if n == 0 then s else Process(Live(s, trace, n - 1), trace[n - 1].timestamp, trace[n - 1].logical)
  }

  /** A fresh struct, started with inputs `initial`. */
  ghost predicate Started(s: Stats, initial: u32) {
    && s.Valid() && s.running != 0 && s.inputs == initial && s.faults == 0
    && (forall c :: 0 <= c < 6 ==> s.channels[c] == Channel(0, 0, 0, 0, 0, 0, 0, 0))
    && (forall p :: 0 <= p < 3 ==> s.pairs[p] == Pair(0, 0, 0, 0, 0, 0, 0))
  }

  /** That is what `hil_pwm_capture_init` followed by `hil_pwm_capture_start`
      leaves behind. */
  lemma InitAndStart(minDeadtime: u32, timestamp: u32, initial: u32)
    requires SixBits(initial)
    ensures Started(Start(Fresh(minDeadtime), timestamp, initial), initial)
  {
    MaskKeeps(initial);
  }

  lemma MaskBit(k: nat)
    ensures Bit(63, k) <==> k < 6
  {
    if k < 6 {
      assert Bit(63, 0) && Bit(63, 1) && Bit(63, 2) && Bit(63, 3) && Bit(63, 4) && Bit(63, 5);
    } else {
      assert Bit(63, k) == Bit(31, k - 1) == Bit(15, k - 2) == Bit(7, k - 3) == Bit(3, k - 4) == Bit(1, k - 5) ==
          Bit(0, k - 6);
      ZeroBit(k - 6);
    }
  }

  lemma MaskKeeps(x: u32)
    requires SixBits(x)
    ensures And(x, 63) == x
  {
    forall k: nat | k < 32 ensures Bit(And(x, 63), k) <==> Bit(x, k) {
      MaskBit(k);
    }
    SameWord(And(x, 63), x);
  }

  lemma XorZero(x: u32, y: u32)
    ensures Xor(x, y) == 0 <==> x == y
  {
    if x == y {
      forall k: nat | k < 32 ensures Bit(Xor(x, y), k) <==> Bit(0, k) { ZeroBit(k); }
      SameWord(Xor(x, y), 0);
    } else if Xor(x, y) == 0 {
      forall k: nat | k < 32 ensures Bit(x, k) <==> Bit(y, k) {
        ZeroBit(k);
        assert Bit(Xor(x, y), k) <==> Bit(x, k) != Bit(y, k);
      }
      SameWord(x, y);
    }
  }

  lemma ProcessEdge(s: Stats, timestamp: u32, logical: u32)
    requires s.Valid() && s.running != 0 && SixBits(logical) && s.inputs != logical
    ensures var e := Edge(timestamp, s.inputs, logical);
            var r := Process(s, timestamp, logical);
            && r.running != 0 && r.inputs == logical && r.minDeadtime == s.minDeadtime
            && r.channels == ChannelsAfter(s.channels, e)
            && r.pairs == PairsAfter(s, r.channels, e)
  {
    MaskKeeps(logical);
    XorZero(logical, s.inputs);
  }

  /** On an edge trace every sample is processed, as the edge of that trace. */
  lemma {:induction false} LiveStep(s: Stats, initial: u32, trace: seq<Sample>, n: nat)
    requires Started(s, initial) && EdgeTrace(initial, trace) && n < |trace|
    ensures var before := Live(s, trace, n);
            var after := Live(s, trace, n + 1);
            var e := EdgeAt(initial, trace, n);
            && before.running != 0 && before.inputs == e.before
            && after.running != 0 && after.inputs == e.now
            && after.channels == ChannelsAfter(before.channels, e)
            && after.pairs == PairsAfter(before, after.channels, e)
  {
    if n == 0 {
    } else {
      LiveStep(s, initial, trace, n - 1);
    }
    assert EdgeAt(initial, trace, n).before != trace[n].logical;
    ProcessEdge(Live(s, trace, n), trace[n].timestamp, trace[n].logical);
  }

  // ---- channels ----

  ghost predicate LastIs(valid: bool, value: u32, list: seq<u32>) {
    (valid <==> list != []) && (list != [] ==> value == list[|list| - 1])
  }

  ghost predicate SeenIs(seen: bool, value: u32, last: Option<u32>) {
    (seen <==> last.Some?) && (last.Some? ==> value == last.value)
  }

  /** The live words of a channel are the last elements of its offline lists. */
  ghost predicate ChannelAgrees(ch: Channel, a: ChannelLists) {
    && SeenIs(Bit(ch.flags, 0), ch.lastRise, a.riseLast) && SeenIs(Bit(ch.flags, 1), ch.lastFall, a.fallLast)
    && LastIs(Bit(ch.flags, 2), ch.period, a.periods)
    && LastIs(Bit(ch.flags, 3), ch.high, a.highs)
    && LastIs(Bit(ch.flags, 4), ch.low, a.lows)
    && ch.riseCount == Wrap(a.rises) && ch.fallCount == Wrap(a.falls)
  }

  /** The single bits of the flag constants. */
  ghost predicate FlagBit(k: nat) {
    (Bit(1, k) <==> k == 0) && (Bit(2, k) <==> k == 1) && (Bit(4, k) <==> k == 2) && (Bit(8, k) <==> k == 3) &&
    (Bit(16, k) <==> k == 4) && !Bit(0, k) && (Bit(12, k) <==> k == 2 || k == 3)
  }

  lemma FlagBits()
    ensures forall k: nat :: k < 5 ==> FlagBit(k)
  {
    assert FlagBit(0) && FlagBit(1) && FlagBit(2) && FlagBit(3) && FlagBit(4);
    forall k: nat | k < 5 ensures FlagBit(k) {
      assert k == 0 || k == 1 || k == 2 || k == 3 || k == 4;
    }
  }

  /** Setting flag `flag`, whose only bit is `j`. */
  lemma OrSets(x: u32, flag: u32, j: nat)
    requires j < 5 && flag == [1, 2, 4, 8, 16][j]
    ensures forall k: nat :: k < 5 ==> (Bit(Or(x, flag), k) <==> Bit(x, k) || k == j)
  {
    FlagBits();
    forall k: nat | k < 5 ensures Bit(Or(x, flag), k) <==> Bit(x, k) || k == j {
      assert FlagBit(k);
    }
  }

  lemma NoFlags()
    ensures forall k: nat :: k < 5 ==> !Bit(0, k)
  {
    forall k: nat ensures !Bit(0, k) { ZeroBit(k); }
  }

  lemma RiseAgrees(ch: Channel, a: ChannelLists, e: Edge, c: nat)
    requires ChannelAgrees(ch, a) && e.Rises(c)
    ensures ChannelAgrees(Risen(ch, e.timestamp), ChannelStep(a, e, c))
  {
    var b := WithPeriod(ch, e.timestamp);
    var d := WithLow(b, e.timestamp);
    OrSets(ch.flags, PERIOD_VALID, 2);
    OrSets(b.flags, LOW_VALID, 4);
    OrSets(d.flags, RISE_SEEN, 0);
    PlusWrap(a.rises, 1);
  }

  lemma FallAgrees(ch: Channel, a: ChannelLists, e: Edge, c: nat)
    requires ChannelAgrees(ch, a) && e.Falls(c)
    ensures ChannelAgrees(Fallen(ch, e.timestamp), ChannelStep(a, e, c))
  {
    var b := WithHigh(ch, e.timestamp);
    OrSets(ch.flags, HIGH_VALID, 3);
    OrSets(b.flags, FALL_SEEN, 1);
    PlusWrap(a.falls, 1);
  }

  lemma EdgeAgrees(ch: Channel, a: ChannelLists, e: Edge, c: nat)
    requires ChannelAgrees(ch, a)
    ensures ChannelAgrees(ChannelEdge(ch, e, c), ChannelStep(a, e, c))
  {
    if e.Rises(c) {
      RiseAgrees(ch, a, e, c);
    } else if e.Falls(c) {
      FallAgrees(ch, a, e, c);
    }
  }

  lemma StartAgrees(ch: Channel)
    requires ch == Channel(0, 0, 0, 0, 0, 0, 0, 0)
    ensures ChannelAgrees(ch, NO_CHANNEL)
  {
    NoFlags();
  }

  /** At every point of every edge trace, each live period, high and low time
      is the last one the offline lists hold, valid exactly when there is one,
      and the edge counts agree modulo 2^32. */
  lemma {:induction false} ChannelsAgree(s: Stats, initial: u32, trace: seq<Sample>, n: nat, c: nat)
    requires Started(s, initial) && EdgeTrace(initial, trace) && n <= |trace| && c < 6
    ensures ChannelAgrees(Live(s, trace, n).channels[c], After(initial, trace, n).channels[c])
  {
    hide Bit, Process, Step, ChannelAgrees;
    if n == 0 {
      StartAgrees(s.channels[c]);
    } else {
      ChannelsAgree(s, initial, trace, n - 1, c);
      ChannelSteps(s, initial, trace, n, c);
      EdgeAgrees(Live(s, trace, n - 1).channels[c], After(initial, trace, n - 1).channels[c],
                 EdgeAt(initial, trace, n - 1), c);
    }
  }

  lemma ChannelSteps(s: Stats, initial: u32, trace: seq<Sample>, n: nat, c: nat)
    requires Started(s, initial) && EdgeTrace(initial, trace) && 0 < n <= |trace| && c < 6
    ensures Live(s, trace, n).channels[c] ==
            ChannelEdge(Live(s, trace, n - 1).channels[c], EdgeAt(initial, trace, n - 1), c)
    ensures After(initial, trace, n).channels[c] ==
            ChannelStep(After(initial, trace, n - 1).channels[c], EdgeAt(initial, trace, n - 1), c)
  {
    hide Bit, Process, EdgeTrace, ChannelEdge, ChannelStep, PairStateAfter, PairStep;
    LiveStep(s, initial, trace, n - 1);
  }

  lemma PairSteps(s: Stats, initial: u32, trace: seq<Sample>, n: nat, p: nat)
    requires Started(s, initial) && EdgeTrace(initial, trace) && 0 < n <= |trace| && p < 3
    ensures Live(s, trace, n).pairs[p] ==
            PairStateAfter(Live(s, trace, n - 1), Live(s, trace, n).channels, EdgeAt(initial, trace, n - 1), p).pair
    ensures After(initial, trace, n).pairs[p] ==
            RawAnalysis.PairStep(After(initial, trace, n - 1).pairs[p], EdgeAt(initial, trace, n - 1), p)
  {
    hide Bit, Process, EdgeTrace, ChannelEdge, ChannelStep, PairStateAfter, PairStep;
    LiveStep(s, initial, trace, n - 1);
  }

  // ---- dead-times and overlap ----

  /** The dead-times the live capture recorded for turn-ons of `side` against
      falls of `other`, oldest first. */
  function LiveDeadtimes(s: Stats, initial: u32, trace: seq<Sample>, n: nat, side: nat, other: nat): seq<u32>
    requires s.Valid() && n <= |trace| && side < 6 && other < 6
  {
    if n == 0 then []
    else
      LiveDeadtimes(s, initial, trace, n - 1, side, other) +
      NewDeadtime(EdgeAt(initial, trace, n - 1), Live(s, trace, n).channels[other], side, other)
  }

  /** The offline list for the same direction. */
  function OfflineDeadtimes(initial: u32, trace: seq<Sample>, n: nat, p: nat, highToLow: bool): seq<u32>
    requires n <= |trace| && p < 3
  {
    if highToLow then After(initial, trace, n).pairs[p].deadHl else After(initial, trace, n).pairs[p].deadLh
  }

  function Pending(initial: u32, trace: seq<Sample>, n: nat, p: nat, highToLow: bool): Option<u32>
    requires n <= |trace| && p < 3
  {
    if highToLow then After(initial, trace, n).pairs[p].pendingHl else After(initial, trace, n).pairs[p].pendingLh
  }

  function SideOf(p: nat, highToLow: bool): nat { if highToLow then 2 * p + 1 else 2 * p }

  function OtherOf(p: nat, highToLow: bool): nat { if highToLow then 2 * p else 2 * p + 1 }

  ghost predicate PairAgrees(pair: Pair, a: PairLists, deadHl: seq<u32>, deadLh: seq<u32>) {
    && Summarises(Bit(pair.flags, 0), pair.hlTicks, pair.hlCount, deadHl)
    && Summarises(Bit(pair.flags, 1), pair.lhTicks, pair.lhCount, deadLh)
    && (Bit(pair.flags, 2) <==> a.active) && pair.overlapCount == Wrap(a.overlaps)
  }

  ghost predicate Summarises(valid: bool, ticks: u32, count: u32, list: seq<u32>) {
    LastIs(valid, ticks, list) && count == Wrap(|list|)
  }

  lemma SummaryGrows(valid: bool, ticks: u32, count: u32, list: seq<u32>, more: u32)
    requires Summarises(valid, ticks, count, list)
    ensures Summarises(true, more, Plus(count, 1), list + [more])
  {
    PlusWrap(|list|, 1);
  }

  lemma CountAgrees(pair: Pair, highToLow: bool, ticks: u32, a: PairLists, deadHl: seq<u32>, deadLh: seq<u32>)
    requires PairAgrees(pair, a, deadHl, deadLh)
    ensures PairAgrees(CountDeadtime(pair, highToLow, ticks), a,
                       if highToLow then deadHl + [ticks] else deadHl, if highToLow then deadLh else deadLh + [ticks])
  {
    if highToLow {
      OrSets(pair.flags, DT_HL_VALID, 0);
      SummaryGrows(Bit(pair.flags, 0), pair.hlTicks, pair.hlCount, deadHl, ticks);
    } else {
      OrSets(pair.flags, DT_LH_VALID, 1);
      SummaryGrows(Bit(pair.flags, 1), pair.lhTicks, pair.lhCount, deadLh, ticks);
    }
  }

  /** Recording a dead-time; a violation changes none of these words. */
  lemma RecordAgrees(s: PairState, p: nat, minDeadtime: u32, highToLow: bool, ticks: u32, a: PairLists,
                     deadHl: seq<u32>, deadLh: seq<u32>)
    requires p < 3 && PairAgrees(s.pair, a, deadHl, deadLh)
    ensures PairAgrees(RecordDeadtime(s, p, minDeadtime, highToLow, ticks).pair, a,
                       if highToLow then deadHl + [ticks] else deadHl, if highToLow then deadLh else deadLh + [ticks])
  {
    CountAgrees(s.pair, highToLow, ticks, a, deadHl, deadLh);
    var b := CountDeadtime(s.pair, highToLow, ticks);
    OrSets(b.flags, VIOLATION_LATCHED, 4);
  }

  lemma OverlapAgrees(s: PairState, p: nat, overlapNow: bool, a: PairLists, deadHl: seq<u32>, deadLh: seq<u32>)
    requires p < 3 && PairAgrees(s.pair, a, deadHl, deadLh)
    ensures PairAgrees(Overlap(s, p, overlapNow).pair,
                       a.(overlaps := if overlapNow && !a.active then a.overlaps + 1
                          else a.overlaps, active := overlapNow),
                       deadHl, deadLh)
  {
    FlagBits();
    PlusWrap(a.overlaps, 1);
  }

  lemma TurnOnAgrees(s: PairState, p: nat, minDeadtime: u32, e: Edge, highToLow: bool, ch: Channel, a: PairLists,
                     deadHl: seq<u32>, deadLh: seq<u32>)
    requires p < 3 && PairAgrees(s.pair, a, deadHl, deadLh)
    ensures var more := NewDeadtime(e, ch, SideOf(p, highToLow), OtherOf(p, highToLow));
            PairAgrees(TurnedOn(s, p, minDeadtime, e, SideOf(p, highToLow), OtherOf(p, highToLow), ch).pair, a,
                       if highToLow then deadHl + more else deadHl, if highToLow then deadLh else deadLh + more)
  {
    var dt := Deadtime(e, ch, OtherOf(p, highToLow));
    if e.Rises(SideOf(p, highToLow)) && dt.Some? {
      RecordAgrees(s, p, minDeadtime, highToLow, dt.value, a, deadHl, deadLh);
    } else {
      assert deadHl + [] == deadHl && deadLh + [] == deadLh;
    }
  }

  /** What an edge adds to the live dead-times of one direction. */
  function NewDeadtime(e: Edge, ch: Channel, side: nat, other: nat): seq<u32> {
    var dt := Deadtime(e, ch, other);
    if e.Rises(side) && dt.Some? then [dt.value] else []
  }

  lemma PairEdgeAgrees(s: PairState, p: nat, minDeadtime: u32, e: Edge, hi: Channel, lo: Channel, a: PairLists,
                       deadHl: seq<u32>, deadLh: seq<u32>)
    requires p < 3 && PairAgrees(s.pair, a, deadHl, deadLh)
    ensures PairAgrees(PairEdge(s, p, minDeadtime, e, hi, lo).pair, RawAnalysis.PairStep(a, e, p),
                       deadHl + NewDeadtime(e, hi, 2 * p + 1, 2 * p), deadLh + NewDeadtime(e, lo, 2 * p, 2 * p + 1))
  {
    hide Bit, Summarises, NewDeadtime, TurnedOn, Overlap;
    var deadHl' := deadHl + NewDeadtime(e, hi, 2 * p + 1, 2 * p);
    var deadLh' := deadLh + NewDeadtime(e, lo, 2 * p, 2 * p + 1);
    TurnOnAgrees(s, p, minDeadtime, e, true, hi, a, deadHl, deadLh);
    var s1 := TurnedOn(s, p, minDeadtime, e, 2 * p + 1, 2 * p, hi);
    TurnOnAgrees(s1, p, minDeadtime, e, false, lo, a, deadHl', deadLh);
    var s2 := TurnedOn(s1, p, minDeadtime, e, 2 * p, 2 * p + 1, lo);
    OverlapAgrees(s2, p, Bit(e.now, 2 * p) && Bit(e.now, 2 * p + 1), a, deadHl', deadLh');
  }

  /** The live dead-time words are the last live dead-times, and the overlap
      counts agree with the offline ones modulo 2^32. */
  lemma {:induction false} PairsAgree(s: Stats, initial: u32, trace: seq<Sample>, n: nat, p: nat)
    requires Started(s, initial) && EdgeTrace(initial, trace) && n <= |trace| && p < 3
    ensures PairAgrees(Live(s, trace, n).pairs[p], After(initial, trace, n).pairs[p],
                       LiveDeadtimes(s, initial, trace, n, 2 * p + 1, 2 * p),
                           LiveDeadtimes(s, initial, trace, n, 2 * p, 2 * p + 1))
  {
    hide Bit, Process, Step, PairAgrees, PairStep, PairStateAfter, EdgeTrace;
    if n == 0 {
      StartPairAgrees(s.pairs[p]);
    } else {
      PairsAgree(s, initial, trace, n - 1, p);
      PairSteps(s, initial, trace, n, p);
      PairStateAgrees(Live(s, trace, n - 1), Live(s, trace, n).channels, EdgeAt(initial, trace, n - 1), p,
                      After(initial, trace, n - 1).pairs[p],
                      LiveDeadtimes(s, initial, trace, n - 1, 2 * p + 1, 2 * p),
                          LiveDeadtimes(s, initial, trace, n - 1, 2 * p, 2 * p + 1));
    }
  }

  lemma StartPairAgrees(pair: Pair)
    requires pair == Pair(0, 0, 0, 0, 0, 0, 0)
    ensures PairAgrees(pair, NO_PAIR, [], [])
  {
    NoFlags();
  }

  lemma PairStateAgrees(s: Stats, chs: seq<Channel>, e: Edge, p: nat, a: PairLists, deadHl: seq<u32>, deadLh: seq<u32>)
    requires s.Valid() && |chs| == 6 && p < 3 && PairAgrees(s.pairs[p], a, deadHl, deadLh)
    ensures PairAgrees(PairStateAfter(s, chs, e, p).pair, RawAnalysis.PairStep(a, e, p),
                       deadHl + NewDeadtime(e, chs[2 * p], 2 * p + 1, 2 * p),
                       deadLh + NewDeadtime(e, chs[2 * p + 1], 2 * p, 2 * p + 1))
  {
    PairEdgeAgrees(PairState(s.pairs[p], FaultsBefore(s, chs, e, p)), p, s.minDeadtime, e, chs[2 * p], chs[2 * p + 1],
                   a, deadHl, deadLh);
  }

  /** Before edge `k`, `other` fell and `side` has not been turned on since. */
  ghost predicate FellSince(initial: u32, trace: seq<Sample>, k: nat, side: nat, other: nat)
    requires k <= |trace|
  {
    exists j :: 0 <= j < k && EdgeAt(initial, trace, j).Falls(other) &&
                forall i :: j <= i < k ==> !EdgeAt(initial, trace, i).Rises(side)
  }

  ghost predicate FellBefore(initial: u32, trace: seq<Sample>, k: nat, other: nat)
    requires k <= |trace|
  {
    exists j :: 0 <= j < k && EdgeAt(initial, trace, j).Falls(other)
  }

  /** Edge `k` turns `side` on although `other`, which did fall at some time,
      has not fallen since the previous turn-on: the offline analysis skips it. */
  ghost predicate Skipped(initial: u32, trace: seq<Sample>, k: nat, side: nat, other: nat)
    requires k < |trace|
  {
    var e := EdgeAt(initial, trace, k);
    e.Rises(side) && !e.Falls(other) && FellBefore(initial, trace, k, other) &&
        !FellSince(initial, trace, k, side, other)
  }

  lemma FellStep(initial: u32, trace: seq<Sample>, k: nat, side: nat, other: nat)
    requires k < |trace|
    ensures var e := EdgeAt(initial, trace, k);
            && (FellSince(initial, trace, k + 1, side, other) <==>
                 !e.Rises(side) && (e.Falls(other) || FellSince(initial, trace, k, side, other)))
            && (FellBefore(initial, trace, k + 1, other) <==> e.Falls(other) || FellBefore(initial, trace, k, other))
  {
    var e := EdgeAt(initial, trace, k);
    if FellSince(initial, trace, k + 1, side, other) {
      var j :| 0 <= j < k + 1 && EdgeAt(initial, trace, j).Falls(other) &&
               forall i :: j <= i < k + 1 ==> !EdgeAt(initial, trace, i).Rises(side);
      assert !EdgeAt(initial, trace, k).Rises(side);
    }
    if !e.Rises(side) && FellSince(initial, trace, k, side, other) {
      var j :| 0 <= j < k && EdgeAt(initial, trace, j).Falls(other) &&
               forall i :: j <= i < k ==> !EdgeAt(initial, trace, i).Rises(side);
      assert forall i :: j <= i < k + 1 ==> !EdgeAt(initial, trace, i).Rises(side);
    }
  }

  lemma NothingFell(initial: u32, trace: seq<Sample>, side: nat, other: nat)
    ensures !FellSince(initial, trace, 0, side, other) && !FellBefore(initial, trace, 0, other)
  {
  }

  /** What the offline pending slot means. */
  lemma {:induction false} PendingMeans(initial: u32, trace: seq<Sample>, n: nat, p: nat, highToLow: bool)
    requires n <= |trace| && p < 3
    ensures Pending(initial, trace, n, p, highToLow).Some? <==>
            FellSince(initial, trace, n, SideOf(p, highToLow), OtherOf(p, highToLow))
    ensures Pending(initial, trace, n, p, highToLow).Some? ==>
            After(initial, trace, n).channels[OtherOf(p, highToLow)].fallLast ==
                Pending(initial, trace, n, p, highToLow)
    ensures After(initial, trace, n).channels[OtherOf(p, highToLow)].fallLast.Some? <==>
            FellBefore(initial, trace, n, OtherOf(p, highToLow))
  {
    hide Bit, FellSince, FellBefore;
    if n == 0 {
      NothingFell(initial, trace, SideOf(p, highToLow), OtherOf(p, highToLow));
    } else {
      PendingMeans(initial, trace, n - 1, p, highToLow);
      FellStep(initial, trace, n - 1, SideOf(p, highToLow), OtherOf(p, highToLow));
    }
  }

  /** For every edge trace, the offline dead-times are the live ones with some
      left out, and they are the same list if and only if no turn-on is skipped:
      each turn-on of one side follows a turn-off of the other since the
      previous turn-on. */
  lemma {:induction false} DeadtimesAgree(s: Stats, initial: u32, trace: seq<Sample>, n: nat, p: nat, highToLow: bool)
    requires Started(s, initial) && EdgeTrace(initial, trace) && n <= |trace| && p < 3
    ensures var live := LiveDeadtimes(s, initial, trace, n, SideOf(p, highToLow), OtherOf(p, highToLow));
            var offline := OfflineDeadtimes(initial, trace, n, p, highToLow);
            && Subsequence(offline, live)
            && (offline == live <==> forall k :: 0 <= k < n ==>
                !Skipped(initial, trace, k, SideOf(p, highToLow), OtherOf(p, highToLow)))
  {
    hide *;
    if n == 0 {
      NoDeadtimes(s, initial, trace, p, highToLow);
    } else {
      DeadtimesAgree(s, initial, trace, n - 1, p, highToLow);
      DeadtimeStep(s, initial, trace, n - 1, p, highToLow);
    }
  }

  lemma NoDeadtimes(s: Stats, initial: u32, trace: seq<Sample>, p: nat, highToLow: bool)
    requires Started(s, initial) && p < 3
    ensures LiveDeadtimes(s, initial, trace, 0, SideOf(p, highToLow), OtherOf(p, highToLow)) == []
    ensures OfflineDeadtimes(initial, trace, 0, p, highToLow) == [] && Subsequence<u32>([], [])
  {
  }

  /** Appending to two lists one of which is a subsequence of the other. */
  lemma AppendAgree(a: seq<u32>, b: seq<u32>, x: seq<u32>, y: seq<u32>)
    requires Subsequence(a, b) && |y| <= 1 && (x == [] || x == y)
    ensures Subsequence(a + x, b + y)
    ensures a + x == b + y <==> a == b && x == y
  {
    hide Subsequence;
    SubsequenceShorter(a, b);
    if y != [] {
      SubsequenceGrows(a, b, y[0]);
      assert y == [y[0]];
    }
    if x == [] {
      assert a + x == a;
    }
    if y == [] {
      assert b + y == b;
    }
    if a + x == b + y {
      assert |a| + |x| == |b| + |y|;
      if |x| == |y| {
        assert (a + x)[..|a|] == a && (b + y)[..|b|] == b;
      }
    }
  }

  /** What an edge adds to the offline dead-times of one direction. */
  function NewOffline(initial: u32, trace: seq<Sample>, n: nat, p: nat, highToLow: bool): seq<u32>
    requires n < |trace| && p < 3
  {
    var e := EdgeAt(initial, trace, n);
    var pending := Armed(Pending(initial, trace, n, p, highToLow), e, OtherOf(p, highToLow));
    if e.Rises(SideOf(p, highToLow)) && pending.Some? then [Minus(e.timestamp, pending.value)] else []
  }

  lemma OfflineGrows(initial: u32, trace: seq<Sample>, n: nat, p: nat, highToLow: bool)
    requires n < |trace| && p < 3
    ensures OfflineDeadtimes(initial, trace, n + 1, p, highToLow) ==
            OfflineDeadtimes(initial, trace, n, p, highToLow) + NewOffline(initial, trace, n, p, highToLow)
  {
  }

  /** The offline analysis sees a dead-time exactly when the live capture does
      and the turn-on is not skipped. */
  lemma NewAgree(s: Stats, initial: u32, trace: seq<Sample>, n: nat, p: nat, highToLow: bool)
    requires Started(s, initial) && EdgeTrace(initial, trace) && n < |trace| && p < 3
    ensures var side, other := SideOf(p, highToLow), OtherOf(p, highToLow);
            var live := NewDeadtime(EdgeAt(initial, trace, n), Live(s, trace, n + 1).channels[other], side, other);
            var offline := NewOffline(initial, trace, n, p, highToLow);
            && (offline == [] || offline == live)
            && (offline == live <==> !Skipped(initial, trace, n, side, other))
  {
    hide Bit, Process, Step, Live, After;
    var other := OtherOf(p, highToLow);
    var e := EdgeAt(initial, trace, n);
    ChannelsAgree(s, initial, trace, n + 1, other);
    FallRemembered(initial, trace, n, other);
    PendingMeans(initial, trace, n, p, highToLow);
    OneDeadtime(e, Live(s, trace, n + 1).channels[other], other, After(initial, trace, n).channels[other].fallLast,
                Pending(initial, trace, n, p, highToLow));
  }

  lemma OneDeadtime(e: Edge, ch: Channel, other: nat, fallLast: Option<u32>, pending: Option<u32>)
    requires SeenIs(Bit(ch.flags, 1), ch.lastFall, Armed(fallLast, e, other))
    requires pending.Some? ==> fallLast == pending
    ensures Deadtime(e, ch, other).Some? <==> e.Falls(other) || fallLast.Some?
    ensures Armed(pending, e, other).Some? ==>
              Deadtime(e, ch, other) == Some(Minus(e.timestamp, Armed(pending, e, other).value))
  {
    WrapDistance(e.timestamp, e.timestamp);
  }

  lemma FallRemembered(initial: u32, trace: seq<Sample>, n: nat, c: nat)
    requires n < |trace| && c < 6
    ensures After(initial, trace, n + 1).channels[c].fallLast ==
            Armed(After(initial, trace, n).channels[c].fallLast, EdgeAt(initial, trace, n), c)
  {
  }

  lemma DeadtimeStep(s: Stats, initial: u32, trace: seq<Sample>, n: nat, p: nat, highToLow: bool)
    requires Started(s, initial) && EdgeTrace(initial, trace) && n < |trace| && p < 3
    requires Subsequence(OfflineDeadtimes(initial, trace, n, p, highToLow),
                         LiveDeadtimes(s, initial, trace, n, SideOf(p, highToLow), OtherOf(p, highToLow)))
    ensures var side, other := SideOf(p, highToLow), OtherOf(p, highToLow);
            var live := LiveDeadtimes(s, initial, trace, n, side, other);
            var live' := LiveDeadtimes(s, initial, trace, n + 1, side, other);
            var offline := OfflineDeadtimes(initial, trace, n, p, highToLow);
            var offline' := OfflineDeadtimes(initial, trace, n + 1, p, highToLow);
            && Subsequence(offline', live')
            && (offline' == live' <==> offline == live && !Skipped(initial, trace, n, side, other))
  {
    var side, other := SideOf(p, highToLow), OtherOf(p, highToLow);
    OfflineGrows(initial, trace, n, p, highToLow);
    NewAgree(s, initial, trace, n, p, highToLow);
    AppendAgree(OfflineDeadtimes(initial, trace, n, p, highToLow), LiveDeadtimes(s, initial, trace, n, side, other),
                NewOffline(initial, trace, n, p, highToLow),
                NewDeadtime(EdgeAt(initial, trace, n), Live(s, trace, n + 1).channels[other], side, other));
  }
}

/** The fault evidence of the live capture: dead-time violations and overlaps. */
module FaultEvidence {
  import opened Words
  import opened PwmStream
  import opened RawAnalysis
  import opened StreamVersusOffline

  /** How many dead-times are shorter than a minimum; zero switches the test off. */
  function Below(minimum: u32, list: seq<u32>): nat {
    if list == [] || minimum == 0 then 0
    else Below(minimum, list[..|list| - 1]) + if list[|list| - 1] < minimum then 1 else 0
  }

  lemma BelowMore(minimum: u32, list: seq<u32>, ticks: u32)
    ensures Below(minimum, list + [ticks]) == Below(minimum, list) + if minimum != 0 && ticks < minimum then 1 else 0
  {
    assert (list + [ticks])[..|list|] == list;
  }

  /** A pair's evidence: the count and latch of its dead-times below the minimum,
      the latch of its overlaps, and its two bits of the fault word. */
  ghost predicate Tells(s: PairState, p: nat, short: nat, overlaps: nat) {
    && s.pair.violationCount == Wrap(short) && (Bit(s.pair.flags, 4) <==> short > 0)
    && (Bit(s.pair.flags, 3) <==> overlaps > 0)
    && (Bit(s.faults, 8 + p) <==> short > 0) && (Bit(s.faults, p) <==> overlaps > 0)
  }

  lemma RecordTells(s: PairState, p: nat, minimum: u32, highToLow: bool, ticks: u32, short: nat, overlaps: nat)
    requires p < 3 && Tells(s, p, short, overlaps)
    ensures Tells(RecordDeadtime(s, p, minimum, highToLow, ticks), p,
                  short + (if minimum != 0 && ticks < minimum then 1 else 0), overlaps)
    ensures Bit(RecordDeadtime(s, p, minimum, highToLow, ticks).pair.flags, 2) == Bit(s.pair.flags, 2)
  {
    hide Bit;
    OrSets(s.pair.flags, if highToLow then DT_HL_VALID else DT_LH_VALID, if highToLow then 0 else 1);
    OrSets(CountDeadtime(s.pair, highToLow, ticks).flags, VIOLATION_LATCHED, 4);
    PlusWrap(short, 1);
  }

  lemma OverlapTells(s: PairState, p: nat, now: bool, short: nat, overlaps: nat)
    requires p < 3 && Tells(s, p, short, overlaps) && (Bit(s.pair.flags, 2) ==> overlaps > 0)
    ensures Tells(Overlap(s, p, now), p, short, if now && !Bit(s.pair.flags, 2) then overlaps + 1 else overlaps)
  {
    hide Bit;
    FlagBits();
    assert FlagBit(3) && FlagBit(4);
  }

  /** A pair leaves the other pairs' bits of the fault word alone. */
  lemma OthersKeep(s: PairState, q: nat, minimum: u32, e: Edge, hi: Channel, lo: Channel, k: nat)
    requires q < 3 && k < 32 && k != q && k != 8 + q
    ensures Bit(PairEdge(s, q, minimum, e, hi, lo).faults, k) <==> Bit(s.faults, k)
  {
    hide Bit;
  }

  /** One turn-on. */
  lemma SideTells(s: PairState, p: nat, minimum: u32, e: Edge, highToLow: bool, ch: Channel, list: seq<u32>, rest: nat,
                  overlaps: nat)
    requires p < 3 && Tells(s, p, Below(minimum, list) + rest, overlaps)
    ensures var n := TurnedOn(s, p, minimum, e, SideOf(p, highToLow), OtherOf(p, highToLow), ch);
            && Tells(n, p, Below(minimum, list + NewDeadtime(e, ch, SideOf(p, highToLow), OtherOf(p, highToLow))) +
                     rest, overlaps)
            && Bit(n.pair.flags, 2) == Bit(s.pair.flags, 2)
  {
    hide Bit, Below, Tells, RecordDeadtime;
    var dt := Deadtime(e, ch, OtherOf(p, highToLow));
    if e.Rises(SideOf(p, highToLow)) && dt.Some? {
      BelowMore(minimum, list, dt.value);
      RecordTells(s, p, minimum, highToLow, dt.value, Below(minimum, list) + rest, overlaps);
    } else {
      assert list + [] == list;
    }
  }

  lemma EdgeParts(s: PairState, p: nat, minimum: u32, e: Edge, hi: Channel, lo: Channel, a: PairLists)
    requires p < 3
    ensures SideOf(p, true) == 2 * p + 1 == OtherOf(p, false) && SideOf(p, false) == 2 * p == OtherOf(p, true)
    ensures var both := Bit(e.now, 2 * p) && Bit(e.now, 2 * p + 1);
            var b := RawAnalysis.PairStep(a, e, p);
            && PairEdge(s, p, minimum, e, hi, lo) ==
               Overlap(TurnedOn(TurnedOn(s, p, minimum, e, 2 * p + 1, 2 * p, hi), p, minimum, e, 2 * p, 2 * p + 1,
                                lo), p, both)
            && b.active == both && b.overlaps == if both && !a.active then a.overlaps + 1 else a.overlaps
  {
    hide Bit, TurnedOn, Overlap;
  }

  lemma EdgeTells(s: PairState, p: nat, minimum: u32, e: Edge, hi: Channel, lo: Channel, hl: seq<u32>, lh: seq<u32>,
                  a: PairLists)
    requires p < 3 && Tells(s, p, Below(minimum, hl) + Below(minimum, lh), a.overlaps)
    requires (Bit(s.pair.flags, 2) <==> a.active) && (a.active ==> a.overlaps > 0)
    ensures var n, b := PairEdge(s, p, minimum, e, hi, lo), RawAnalysis.PairStep(a, e, p);
            && Tells(n, p, Below(minimum, hl + NewDeadtime(e, hi, 2 * p + 1, 2 * p)) +
                           Below(minimum, lh + NewDeadtime(e, lo, 2 * p, 2 * p + 1)), b.overlaps)
            && (b.active ==> b.overlaps > 0)
  {
    hide *;
    EdgeParts(s, p, minimum, e, hi, lo, a);
    SideTells(s, p, minimum, e, true, hi, hl, Below(minimum, lh), a.overlaps);
    var s1 := TurnedOn(s, p, minimum, e, 2 * p + 1, 2 * p, hi);
    SideTells(s1, p, minimum, e, false, lo, lh, Below(minimum, hl + NewDeadtime(e, hi, 2 * p + 1, 2 * p)), a.overlaps);
    var s2 := TurnedOn(s1, p, minimum, e, 2 * p, 2 * p + 1, lo);
    OverlapTells(s2, p, Bit(e.now, 2 * p) && Bit(e.now, 2 * p + 1),
                 Below(minimum, hl + NewDeadtime(e, hi, 2 * p + 1, 2 * p)) +
                 Below(minimum, lh + NewDeadtime(e, lo, 2 * p, 2 * p + 1)), a.overlaps);
  }

  /** Pair `p`'s bits of the fault word are those it found and left itself. */
  lemma OwnBits(s: Stats, chs: seq<Channel>, e: Edge, p: nat)
    requires s.Valid() && |chs| == 6 && p < 3
    ensures var found, left, all := FaultsBefore(s, chs, e, p), PairStateAfter(s, chs, e, p).faults,
            FaultsBefore(s, chs, e, 3);
            && (Bit(found, p) <==> Bit(s.faults, p)) && (Bit(found, 8 + p) <==> Bit(s.faults, 8 + p))
            && (Bit(all, p) <==> Bit(left, p)) && (Bit(all, 8 + p) <==> Bit(left, 8 + p))
  {
    hide Bit, PairEdge;
    if p == 0 {
      Later(s, chs, e, 1, 0);
      Later(s, chs, e, 2, 0);
    } else if p == 1 {
      Later(s, chs, e, 0, 1);
      Later(s, chs, e, 2, 1);
    } else {
      Later(s, chs, e, 0, 2);
      Later(s, chs, e, 1, 2);
    }
  }

  lemma Later(s: Stats, chs: seq<Channel>, e: Edge, q: nat, p: nat)
    requires s.Valid() && |chs| == 6 && p < 3 && q < 3 && p != q
    ensures var found, left := FaultsBefore(s, chs, e, q), PairStateAfter(s, chs, e, q).faults;
            (Bit(left, p) <==> Bit(found, p)) && (Bit(left, 8 + p) <==> Bit(found, 8 + p))
    ensures FaultsBefore(s, chs, e, q + 1) == PairStateAfter(s, chs, e, q).faults && FaultsBefore(s, chs, e, 0) ==
            s.faults
  {
    hide Bit, PairEdge;
    var found := PairState(s.pairs[q], FaultsBefore(s, chs, e, q));
    OthersKeep(found, q, s.minDeadtime, e, chs[2 * q], chs[2 * q + 1], p);
    OthersKeep(found, q, s.minDeadtime, e, chs[2 * q], chs[2 * q + 1], 8 + p);
  }

  lemma NothingYet(s: Stats, initial: u32, p: nat)
    requires Started(s, initial) && p < 3
    ensures Tells(PairState(s.pairs[p], s.faults), p, 0, 0)
  {
    forall k: nat ensures !Bit(0, k) { ZeroBit(k); }
  }

  /** For every edge trace and every minimum dead-time: the violation count is the
      number of recorded dead-times below the minimum, modulo 2^32; the violation
      latch and fault bit of a pair are up exactly if there was one, and the overlap
      latch and fault bit exactly if its switches were ever on together. */
  lemma {:induction false} EvidenceExact(s: Stats, initial: u32, trace: seq<Sample>, n: nat, p: nat)
    requires Started(s, initial) && EdgeTrace(initial, trace) && n <= |trace| && p < 3
    ensures var live, offline := Live(s, trace, n), RawAnalysis.After(initial, trace, n).pairs[p];
            && Tells(PairState(live.pairs[p], live.faults), p,
                     Below(s.minDeadtime, LiveDeadtimes(s, initial, trace, n, 2 * p + 1, 2 * p)) +
                     Below(s.minDeadtime, LiveDeadtimes(s, initial, trace, n, 2 * p, 2 * p + 1)), offline.overlaps)
            && (offline.active ==> offline.overlaps > 0) && live.minDeadtime == s.minDeadtime
  {
    hide Bit, Process, PairStateAfter, PairEdge, PairStep, Tells, EdgeTrace, NewDeadtime, FaultsBefore, ChannelStep,
        PairAgrees;
    if n == 0 {
      NothingYet(s, initial, p);
    } else {
      EvidenceExact(s, initial, trace, n - 1, p);
      EvidenceStep(s, initial, trace, n - 1, p);
    }
  }

  lemma EvidenceStep(s: Stats, initial: u32, trace: seq<Sample>, n: nat, p: nat)
    requires Started(s, initial) && EdgeTrace(initial, trace) && n < |trace| && p < 3
    requires var live, offline := Live(s, trace, n), RawAnalysis.After(initial, trace, n).pairs[p];
             && Tells(PairState(live.pairs[p], live.faults), p,
                      Below(s.minDeadtime, LiveDeadtimes(s, initial, trace, n, 2 * p + 1, 2 * p)) +
                      Below(s.minDeadtime, LiveDeadtimes(s, initial, trace, n, 2 * p, 2 * p + 1)), offline.overlaps)
             && (offline.active ==> offline.overlaps > 0) && live.minDeadtime == s.minDeadtime
    ensures var live, offline := Live(s, trace, n + 1), RawAnalysis.After(initial, trace, n + 1).pairs[p];
            && Tells(PairState(live.pairs[p], live.faults), p,
                     Below(s.minDeadtime, LiveDeadtimes(s, initial, trace, n + 1, 2 * p + 1, 2 * p)) +
                     Below(s.minDeadtime, LiveDeadtimes(s, initial, trace, n + 1, 2 * p, 2 * p + 1)), offline.overlaps)
            && (offline.active ==> offline.overlaps > 0) && live.minDeadtime == s.minDeadtime
  {
    hide Bit, Process, PairEdge, PairStep, EdgeTrace, NewDeadtime, FaultsBefore, ChannelStep, Below;
    var before, after, e := Live(s, trace, n), Live(s, trace, n + 1), EdgeAt(initial, trace, n);
    LiveStep(s, initial, trace, n);
    EdgeFaults(s, initial, trace, n);
    PairSteps(s, initial, trace, n + 1, p);
    PairsAgree(s, initial, trace, n, p);
    OwnBits(before, after.channels, e, p);
    var found := PairState(before.pairs[p], FaultsBefore(before, after.channels, e, p));
    EdgeTells(found, p, s.minDeadtime, e, after.channels[2 * p], after.channels[2 * p + 1],
              LiveDeadtimes(s, initial, trace, n, 2 * p + 1, 2 * p),
                  LiveDeadtimes(s, initial, trace, n, 2 * p, 2 * p + 1),
              RawAnalysis.After(initial, trace, n).pairs[p]);
  }

  lemma EdgeFaults(s: Stats, initial: u32, trace: seq<Sample>, n: nat)
    requires Started(s, initial) && EdgeTrace(initial, trace) && n < |trace|
    ensures var before, after := Live(s, trace, n), Live(s, trace, n + 1);
            && after.faults == FaultsBefore(before, after.channels, EdgeAt(initial, trace, n), 3)
            && after.minDeadtime == before.minDeadtime
  {
    hide FaultsBefore, PairsAfter;
    LiveStep(s, initial, trace, n);
    var before := Live(s, trace, n);
    assert EdgeAt(initial, trace, n).before != trace[n].logical;
    MaskKeeps(trace[n].logical);
    XorZero(trace[n].logical, before.inputs);
  }

  /** The summary's own words for the last edge: its time, the inputs after it, and
      which of the six changed. */
  lemma LastEdge(s: Stats, initial: u32, trace: seq<Sample>, n: nat, k: nat)
    requires Started(s, initial) && EdgeTrace(initial, trace) && 0 < n <= |trace| && k < 32
    ensures var live, e := Live(s, trace, n), EdgeAt(initial, trace, n - 1);
            && live.lastTimestamp == e.timestamp && live.inputs == e.now && live.running == s.running
            && (Bit(live.changed, k) <==> Bit(e.now, k) != Bit(e.before, k))
  {
    hide FaultsBefore, PairsAfter, Bit;
    LiveStep(s, initial, trace, n - 1);
    var before := Live(s, trace, n - 1);
    StillRunning(s, initial, trace, n - 1);
    assert EdgeAt(initial, trace, n - 1).before != trace[n - 1].logical;
    MaskKeeps(trace[n - 1].logical);
    XorZero(trace[n - 1].logical, before.inputs);
    assert HasBits(Xor(trace[n - 1].logical, before.inputs), (j: nat) =>
                   Bit(trace[n - 1].logical, j) != Bit(before.inputs, j));
  }

  lemma {:induction false} StillRunning(s: Stats, initial: u32, trace: seq<Sample>, n: nat)
    requires Started(s, initial) && EdgeTrace(initial, trace) && n <= |trace|
    ensures Live(s, trace, n).running == s.running
  {
    hide FaultsBefore, PairsAfter, ChannelsAfter, Bit, Xor, And;
    if n == 0 {
    } else {
      StillRunning(s, initial, trace, n - 1);
    }
  }
}
