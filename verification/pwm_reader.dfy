/** The lock-free Linux reader: it copies the shared memory one word at a time
    while the PRU goes on writing, and decides from `seq_lock` and `event_seq`
    alone whether what it copied can be returned. */
module PwmReader {
  import opened Words
  import opened PwmShared

  lemma NextWrite(m: Memory, writes: seq<Write>, k: nat)
    requires k < |writes| && forall w :: w in writes ==> w.at < TOTAL_WORDS
    ensures Apply(m, writes[..k + 1]) == Apply(m, writes[..k])[writes[k].at := writes[k].value]
    ensures Apply(m, writes[..0]) == m
  {
    assert writes[..k + 1][..k] == writes[..k];
  }

  /** The mapped window. Before every word the reader fetches, the writer may
      make any number of its remaining word writes. */
  class Window {
    const run: Run
    var now: Instant
    var words: Memory

    ghost predicate Valid()
      reads this
    {
      ValidRun(run) && InRun(run.updates, now) && words == At(run, now)
    }

    constructor (run: Run)
      requires ValidRun(run)
      ensures Valid() && this.run == run && now == Instant(0, 0)
    {
      this.run := run;
      now := Instant(0, 0);
      words := run.memories[0];
    }

    /** The writer makes its next word write. */
    method Advance()
      requires Valid() && now.done < |run.updates|
      modifies this
      ensures Valid() && NotAfter(old(now), now)
    {
      assert ValidStep(run, now.done);
      var u := run.updates[now.done];
      var w := u.writes[now.within];
      NextWrite(run.memories[now.done], u.writes, now.within);
      words := words[w.at := w.value];
      if now.within + 1 == |u.writes| {
        assert u.writes[..now.within + 1] == u.writes;
        now := Instant(now.done + 1, 0);
      } else {
        now := Instant(now.done, now.within + 1);
      }
    }

    /** `_u32(mapped, at)`. */
    method Read32(at: nat) returns (value: u32)
      requires Valid() && at < TOTAL_WORDS
      modifies this
      ensures Valid() && NotAfter(old(now), now) && value == At(run, now)[at]
    {
      var steps: nat := *;
      while steps > 0 && now.done < |run.updates|
        invariant Valid() && NotAfter(old(now), now)
        decreases steps
      {
        Advance();
        steps := steps - 1;
      }
      value := words[at];
    }
  }

  /** `value` was in word `at` at instant `t`, which lies between `from` and `to`. */
  ghost predicate Seen(r: Run, from: Instant, to: Instant, at: nat, value: u32, t: Instant)
    requires ValidRun(r) && at < TOTAL_WORDS
  {
    InRun(r.updates, t) && NotAfter(from, t) && NotAfter(t, to) && At(r, t)[at] == value
  }

  /** `blob[from : from + len] = mapped[from : from + len]`, with the instant
      at which each word was fetched. */
  method CopyWords(w: Window, blob: array<u32>, from: nat, len: nat, ghost times: seq<Instant>)
    returns (ghost when: seq<Instant>)
    requires w.Valid() && blob.Length == TOTAL_WORDS && from + len <= TOTAL_WORDS && |times| == TOTAL_WORDS
    modifies w, blob
    ensures w.Valid() && NotAfter(old(w.now), w.now) && |when| == TOTAL_WORDS
    ensures forall a :: 0 <= a < TOTAL_WORDS && !(from <= a < from + len) ==>
            blob[a] == old(blob[a]) && when[a] == times[a]
    ensures forall a :: from <= a < from + len ==> Seen(w.run, old(w.now), w.now, a, blob[a], when[a])
  {
    when := times;
    for i := 0 to len
      invariant w.Valid() && NotAfter(old(w.now), w.now) && |when| == TOTAL_WORDS
      invariant forall a :: 0 <= a < TOTAL_WORDS && !(from <= a < from + i) ==>
                blob[a] == old(blob[a]) && when[a] == times[a]
      invariant forall a :: from <= a < from + i ==> Seen(w.run, old(w.now), w.now, a, blob[a], when[a])
    {
      var value := w.Read32(from + i);
      blob[from + i] := value;
      when := when[from + i := w.now];
    }
  }

  /** Slot `slot` is one of the `count` slots from `start` on, wrapping. */
  predicate InWindow(slot: nat, start: nat, count: nat) {
    start <= slot < start + count || slot + CAPACITY < start + count
  }

  ghost predicate SlotSeen(r: Run, from: Instant, to: Instant, slot: nat, blob: seq<u32>, when: seq<Instant>)
    requires ValidRun(r) && slot < CAPACITY && |blob| == TOTAL_WORDS && |when| == TOTAL_WORDS
  {
    forall a :: SlotAt(slot) <= a < SlotAt(slot) + 4 ==> Seen(r, from, to, a, blob[a], when[a])
  }

  method CopyRingWindow(w: Window, blob: array<u32>, startSlot: nat, recordCount: nat, ghost times: seq<Instant>)
    returns (ghost when: seq<Instant>)
    requires w.Valid() && blob.Length == TOTAL_WORDS && startSlot < CAPACITY && recordCount <= CAPACITY &&
            |times| == TOTAL_WORDS
    modifies w, blob
    ensures w.Valid() && NotAfter(old(w.now), w.now) && |when| == TOTAL_WORDS
    ensures blob[..SUMMARY_WORDS] == old(blob[..SUMMARY_WORDS])
    ensures forall slot: nat :: slot < CAPACITY && InWindow(slot, startSlot, recordCount) ==>
              SlotSeen(w.run, old(w.now), w.now, slot, blob[..], when)
  {
    when := times;
    if recordCount <= 0 {
      return;
    }
    var firstCount := Min(recordCount, CAPACITY - startSlot);
    when := CopyWords(w, blob, SlotAt(startSlot), 4 * firstCount, when);
    var secondCount := recordCount - firstCount;
    if secondCount != 0 {
      when := CopyWords(w, blob, SUMMARY_WORDS, 4 * secondCount, when);
    }
  }

  /** What `read_consistent_snapshot_from_buffer` returns or raises. */
  datatype Outcome =
    | Snapshot(blob: seq<u32>)
    | BadArgument
    | BadHeader
    | FullRingWhileRunning
    | Unstable

  function EmitCount(summary: seq<u32>, ringLimit: int): nat
    requires |summary| >= SUMMARY_WORDS
  {
    Max(0, Min(Min(summary[RING_COUNT], CAPACITY), ringLimit))
  }

  function StartSlot(summary: seq<u32>, emit: nat): nat
    requires |summary| >= SUMMARY_WORDS
  {
    (summary[RING_HEAD] as int - emit) % CAPACITY
  }

  /** The `recent_edges` of `snapshot_to_dict`. */
  function RecentEdges(blob: Memory, ringLimit: int): seq<Record> {
    var emit := EmitCount(blob, ringLimit);
    var start := StartSlot(blob, emit);
    seq(emit, k requires 0 <= k < emit => Slot(blob, (start + k) % CAPACITY))
  }

  /** The snapshot is the state published at boundary `frozen`: every summary
      word at once, and the newest records of that moment in order. */
  ghost predicate Published(r: Run, frozen: nat, blob: seq<u32>, ringLimit: int)
    requires ValidRun(r)
  {
    && frozen <= |r.updates| && |blob| == TOTAL_WORDS
    && blob[..SUMMARY_WORDS] == r.memories[frozen][..SUMMARY_WORDS]
    && var history := History(r.updates, frozen);
       var emit := Max(0, Min(Min(|history|, CAPACITY), ringLimit));
       RecentEdges(blob, ringLimit) == history[|history| - emit..]
  }

  /** Words copied between two equal even readings of the lock. */
  lemma SummaryIsOneState(r: Run, s: Instant, t: Instant, blob: seq<u32>, when: seq<Instant>)
    requires ValidRun(r) && InRun(r.updates, s) && InRun(r.updates, t) && NotAfter(s, t)
    requires t.done - s.done < 0x8000_0000
    requires At(r, s)[SEQ_LOCK] == At(r, t)[SEQ_LOCK] && At(r, s)[SEQ_LOCK] % 2 == 0
    requires |blob| == TOTAL_WORDS && |when| == TOTAL_WORDS
    requires forall a :: 0 <= a < SUMMARY_WORDS ==> Seen(r, s, t, a, blob[a], when[a])
    ensures s == t == Instant(s.done, 0)
    ensures blob[..SUMMARY_WORDS] == r.memories[s.done][..SUMMARY_WORDS]
    ensures GoodHeader(blob)
  {
    LockFreezes(r, s, t);
    forall a | 0 <= a < SUMMARY_WORDS ensures blob[a] == r.memories[s.done][a] {
      assert Seen(r, s, t, a, blob[a], when[a]);
      assert when[a] == s;
    }
    HeaderStays(r, s.done);
  }

  lemma ModIs(x: int, q: int, m: int)
    requires x == CAPACITY * q + m && 0 <= m < CAPACITY
    ensures x % CAPACITY == m
  {
  }

  lemma SlotOf(n: nat, emit: nat, k: nat)
    requires k < emit <= n && emit <= CAPACITY
    ensures ((n % CAPACITY - emit) % CAPACITY + k) % CAPACITY == (n - emit + k) % CAPACITY
    ensures InWindow((n - emit + k) % CAPACITY, (n % CAPACITY - emit) % CAPACITY, emit)
  {
    var h, q := n % CAPACITY, n / CAPACITY;
    var start := if h >= emit then h - emit else h - emit + CAPACITY;
    ModIs(h - emit, if h >= emit then 0 else -1, start);
    var slot := if start + k < CAPACITY then start + k else start + k - CAPACITY;
    ModIs(start + k, if start + k < CAPACITY then 0 else 1, slot);
    ModIs(n - emit + k, (if h >= emit then q else q - 1) + (if start + k < CAPACITY then 0 else 1), slot);
  }

  /** One record of the window, assembled from four words read at different
      instants, is the record pushed. */
  lemma RecordWhole(r: Run, frozen: nat, start: Instant, now: Instant, emit: nat, i: nat, blob: seq<u32>,
                    when: seq<Instant>)
    requires ValidRun(r) && InRun(r.updates, now) && frozen <= |r.updates| && now.done - frozen < 0x8000_0000
    requires NotAfter(Instant(frozen, 0), start)
    requires emit <= |History(r.updates, frozen)| && emit <= CAPACITY
    requires Minus(At(r, now)[EVENT_SEQ], r.memories[frozen][EVENT_SEQ]) <= CAPACITY - emit
    requires |History(r.updates, frozen)| - emit <= i < |History(r.updates, frozen)|
    requires |blob| == TOTAL_WORDS && |when| == TOTAL_WORDS
    requires SlotSeen(r, start, now, i % CAPACITY, blob, when)
    ensures Slot(blob, i % CAPACITY) == History(r.updates, frozen)[i]
  {
    var a := SlotAt(i % CAPACITY);
    assert Seen(r, start, now, a, blob[a], when[a]) && Seen(r, start, now, a + 1, blob[a + 1], when[a + 1]);
    assert Seen(r, start, now, a + 2, blob[a + 2], when[a + 2]) && Seen(r, start, now, a + 3, blob[a + 3], when[a + 3]);
    WindowIntact(r, frozen, when[a], now, emit, i);
    WindowIntact(r, frozen, when[a + 1], now, emit, i);
    WindowIntact(r, frozen, when[a + 2], now, emit, i);
    WindowIntact(r, frozen, when[a + 3], now, emit, i);
  }

  lemma SameSummary(a: seq<u32>, b: seq<u32>)
    requires |a| == |b| == TOTAL_WORDS && a[..SUMMARY_WORDS] == b[..SUMMARY_WORDS]
    ensures forall i :: 0 <= i < SUMMARY_WORDS ==> a[i] == b[i]
  {
    forall i | 0 <= i < SUMMARY_WORDS ensures a[i] == b[i] {
      assert a[..SUMMARY_WORDS][i] == b[..SUMMARY_WORDS][i];
    }
  }

  lemma SummaryAgrees(r: Run, n: nat, summary: seq<u32>)
    requires ValidRun(r) && n <= |r.updates| && |summary| == TOTAL_WORDS
    requires summary[..SUMMARY_WORDS] == r.memories[n][..SUMMARY_WORDS]
    ensures summary[RUNNING] == r.memories[n][RUNNING]
    ensures summary[RING_COUNT] == Min(|History(r.updates, n)|, CAPACITY)
    ensures summary[RING_HEAD] == |History(r.updates, n)| % CAPACITY
    ensures summary[EVENT_SEQ] == r.memories[n][EVENT_SEQ]
  {
    SameSummary(summary, r.memories[n]);
    RingAtBoundary(r, n);
  }

  lemma WindowIsHistory(r: Run, frozen: nat, start: Instant, now: Instant, ringLimit: int, blob: seq<u32>,
                        when: seq<Instant>)
    requires ValidRun(r) && InRun(r.updates, now) && frozen <= |r.updates| && now.done - frozen < 0x8000_0000
    requires NotAfter(Instant(frozen, 0), start)
    requires |blob| == TOTAL_WORDS && |when| == TOTAL_WORDS
    requires blob[..SUMMARY_WORDS] == r.memories[frozen][..SUMMARY_WORDS]
    requires var emit := EmitCount(blob, ringLimit);
             emit > 0 ==>
             && Minus(At(r, now)[EVENT_SEQ], blob[EVENT_SEQ]) <= CAPACITY - emit
             && forall slot: nat :: slot < CAPACITY && InWindow(slot, StartSlot(blob, emit), emit) ==>
                  SlotSeen(r, start, now, slot, blob, when)
    ensures Published(r, frozen, blob, ringLimit)
  {
    hide ValidRun, At, InWindow, SlotSeen, History, StartSlot, Slot, InRun;
    SummaryAgrees(r, frozen, blob);
    var history := History(r.updates, frozen);
    var emit := EmitCount(blob, ringLimit);
    var edges := RecentEdges(blob, ringLimit);
    forall k | 0 <= k < emit ensures edges[k] == history[|history| - emit + k] {
      EdgeIsHistory(r, frozen, start, now, emit, k, blob, when);
    }
    assert edges == history[|history| - emit..];
  }

  lemma EdgeIsHistory(r: Run, frozen: nat, start: Instant, now: Instant, emit: nat, k: nat, blob: seq<u32>,
                      when: seq<Instant>)
    requires ValidRun(r) && InRun(r.updates, now) && frozen <= |r.updates| && now.done - frozen < 0x8000_0000
    requires NotAfter(Instant(frozen, 0), start)
    requires |blob| == TOTAL_WORDS && |when| == TOTAL_WORDS &&
            blob[RING_HEAD] == |History(r.updates, frozen)| % CAPACITY
    requires k < emit <= |History(r.updates, frozen)| && emit <= CAPACITY
    requires Minus(At(r, now)[EVENT_SEQ], r.memories[frozen][EVENT_SEQ]) <= CAPACITY - emit
    requires forall slot: nat :: slot < CAPACITY && InWindow(slot, StartSlot(blob, emit), emit) ==>
               SlotSeen(r, start, now, slot, blob, when)
    ensures Slot(blob, (StartSlot(blob, emit) + k) % CAPACITY) ==
            History(r.updates, frozen)[|History(r.updates, frozen)| - emit + k]
  {
    hide ValidRun, History, SlotSeen, InWindow, Slot, At, Minus;
    SlotOf(|History(r.updates, frozen)|, emit, k);
    RecordWhole(r, frozen, start, now, emit, |History(r.updates, frozen)| - emit + k, blob, when);
  }

  lemma WidenWindow(r: Run, from: Instant, to: Instant, later: Instant, start: nat, count: nat, blob: seq<u32>,
                    when: seq<Instant>)
    requires ValidRun(r) && NotAfter(to, later) && |blob| == TOTAL_WORDS && |when| == TOTAL_WORDS
    requires forall slot: nat :: slot < CAPACITY && InWindow(slot, start, count) ==>
            SlotSeen(r, from, to, slot, blob, when)
    ensures forall slot: nat :: slot < CAPACITY && InWindow(slot, start, count) ==>
            SlotSeen(r, from, later, slot, blob, when)
  {
    forall slot: nat | slot < CAPACITY && InWindow(slot, start, count)
      ensures SlotSeen(r, from, later, slot, blob, when)
    {
      forall a | SlotAt(slot) <= a < SlotAt(slot) + 4 ensures Seen(r, from, later, a, blob[a], when[a]) {
        assert Seen(r, from, to, a, blob[a], when[a]);
      }
    }
  }

  ghost predicate Few(s: Instant, t: Instant) {
    t.done - s.done < 0x8000_0000
  }

  /** The seqlock part of an attempt: `ok` unless it has to be repeated, which is so
      exactly if an update was open at the first lock reading or the writer had
      written again by the last one. */
  method CopySummary(w: Window, blob: array<u32>)
    returns (ok: bool, ghost s: Instant, ghost when: seq<Instant>)
    requires w.Valid() && blob.Length == TOTAL_WORDS
    modifies w, blob
    ensures w.Valid() && InRun(w.run.updates, s) && NotAfter(old(w.now), s) && NotAfter(s, w.now) &&
            |when| == TOTAL_WORDS
    ensures !ok ==> s.within > 0 || s != w.now
    ensures ok && Few(s, w.now) ==>
              && s == w.now == Instant(s.done, 0)
              && blob[..SUMMARY_WORDS] == w.run.memories[s.done][..SUMMARY_WORDS]
              && GoodHeader(blob[..])
  {
    ok := false;
    when := seq(TOTAL_WORDS, _ => Instant(0, 0));
    var seq0 := w.Read32(SEQ_LOCK);
    s := w.now;
    LockCounts(w.run, s);
    if seq0 % 2 == 1 {
      return;
    }
    when := CopyWords(w, blob, 0, SUMMARY_WORDS, when);
    ghost var copied := w.now;
    var seq1 := w.Read32(SEQ_LOCK);
    if seq0 != blob[SEQ_LOCK] || seq0 != seq1 || seq1 % 2 == 1 {
      if s == w.now {
        assert Seen(w.run, s, copied, SEQ_LOCK, blob[SEQ_LOCK], when[SEQ_LOCK]);
      }
      return;
    }
    ok := true;
    if Few(s, w.now) {
      forall a | 0 <= a < SUMMARY_WORDS ensures Seen(w.run, s, w.now, a, blob[..][a], when[a]) {
        assert Seen(w.run, s, copied, a, blob[a], when[a]);
      }
      SummaryIsOneState(w.run, s, w.now, blob[..], when);
    }
  }

  /** One attempt: when it first read the lock, when it last read it, and when it
      ended. */
  datatype Try = Try(began: Instant, copied: Instant, ended: Instant)

  ghost predicate InOrder(r: Run, from: Instant, t: Try, to: Instant) {
    && InRun(r.updates, t.began) && InRun(r.updates, t.ended)
    && NotAfter(from, t.began) && NotAfter(t.began, t.copied) && NotAfter(t.copied, t.ended) && NotAfter(t.ended, to)
  }

  /** The lock was open at the start of the attempt or moved before its end. */
  predicate Disturbed(t: Try) {
    t.began.within > 0 || t.began != t.copied
  }

  ghost function Emits(r: Run, frozen: nat, ringLimit: int): nat
    requires ValidRun(r) && frozen <= |r.updates|
  {
    Max(0, Min(Min(|History(r.updates, frozen)|, CAPACITY), ringLimit))
  }

  /** All 128 records are asked for while the capture is running. */
  ghost predicate Refused(r: Run, frozen: nat, ringLimit: int)
    requires ValidRun(r) && frozen <= |r.updates|
  {
    r.memories[frozen][RUNNING] != 0 && |History(r.updates, frozen)| >= CAPACITY && ringLimit >= CAPACITY
  }

  /** More edges were announced during the attempt than the ring has room for
      beside the records asked for. */
  ghost predicate Overrun(r: Run, frozen: nat, ended: Instant, ringLimit: int)
    requires ValidRun(r) && frozen <= |r.updates| && InRun(r.updates, ended)
  {
    && Emits(r, frozen, ringLimit) > 0
    && Announced(r.updates, ended) - |History(r.updates, frozen)| > CAPACITY - Emits(r, frozen, ringLimit)
  }

  ghost predicate Fails(r: Run, t: Try, ringLimit: int)
    requires ValidRun(r) && InRun(r.updates, t.began) && InRun(r.updates, t.ended)
  {
    Disturbed(t) || (!Refused(r, t.began.done, ringLimit) && Overrun(r, t.began.done, t.ended, ringLimit))
  }

  /** What an attempt answers, exactly: it fails, refuses, or returns the state
      published at the boundary where it began. */
  ghost predicate Justified(r: Run, o: Outcome, t: Try, ringLimit: int)
    requires ValidRun(r) && InRun(r.updates, t.began) && InRun(r.updates, t.ended)
  {
    var frozen := t.began.done;
    && (o == Unstable <==> Fails(r, t, ringLimit))
    && (o == FullRingWhileRunning <==> !Fails(r, t, ringLimit) && Refused(r, frozen, ringLimit))
    && (o.Snapshot? <==> !Fails(r, t, ringLimit) && !Refused(r, frozen, ringLimit))
    && (o.Snapshot? ==> Published(r, frozen, o.blob, ringLimit))
  }

  /** `event_seq` has moved on by as many edges as were announced. */
  lemma AdvancedBy(r: Run, frozen: nat, ended: Instant)
    requires ValidRun(r) && frozen <= |r.updates| && InRun(r.updates, ended) && NotAfter(Instant(frozen, 0), ended)
    requires Few(Instant(frozen, 0), ended)
    ensures Minus(At(r, ended)[EVENT_SEQ], r.memories[frozen][EVENT_SEQ]) ==
            Announced(r.updates, ended) - |History(r.updates, frozen)|
  {
    var start := Instant(frozen, 0);
    EventSeqCounts(r, start);
    EventSeqCounts(r, ended);
    AnnouncedGrows(r.updates, start, ended);
    WrapDistance(Announced(r.updates, start), Announced(r.updates, ended));
  }

  lemma EmitsAs(r: Run, frozen: nat, summary: seq<u32>, ringLimit: int)
    requires ValidRun(r) && frozen <= |r.updates| && |summary| >= SUMMARY_WORDS
    requires summary[RUNNING] == r.memories[frozen][RUNNING]
    requires summary[RING_COUNT] == Min(|History(r.updates, frozen)|, CAPACITY)
    ensures EmitCount(summary, ringLimit) == Emits(r, frozen, ringLimit)
    ensures Refused(r, frozen, ringLimit) <==> summary[RUNNING] != 0 && EmitCount(summary, ringLimit) >= CAPACITY
  {
    hide ValidRun, History;
  }

  /** One pass of the retry loop; `Unstable` is its `continue`. */
  method Attempt(w: Window, ringLimit: int) returns (r: Outcome, ghost t: Try)
    requires w.Valid() && ringLimit >= 0
    modifies w
    ensures w.Valid() && InOrder(w.run, old(w.now), t, w.now) && t.ended == w.now
    ensures r != BadArgument
    ensures Few(t.began, w.now) ==> Justified(w.run, r, t, ringLimit)
  {
    hide ValidRun, At, Published, SlotSeen, InWindow, History, Announced;
    var blob := new u32[TOTAL_WORDS](_ => 0);
    var ok;
    ghost var began, when;
    ok, began, when := CopySummary(w, blob);
    ghost var copied := w.now;
    t := Try(began, copied, w.now);
    if !ok {
      return Unstable, t;
    }
    ghost var summary := blob[..];
    if Few(began, copied) {
      SummaryAgrees(w.run, began.done, summary);
      EmitsAs(w.run, began.done, summary, ringLimit);
    }
    if !GoodHeader(blob[..]) {
      return BadHeader, t;
    }
    var ringCount := Min(blob[RING_COUNT], CAPACITY);
    var emitCount := Min(ringCount, ringLimit);
    if emitCount == 0 {
      if Few(began, copied) {
        WindowIsHistory(w.run, began.done, copied, copied, ringLimit, summary, when);
      }
      return Snapshot(blob[..]), t;
    }
    if blob[RUNNING] != 0 && emitCount >= CAPACITY {
      return FullRingWhileRunning, t;
    }
    var startSlot := StartSlot(blob[..], emitCount);
    when := CopyRingWindow(w, blob, startSlot, emitCount, when);
    ghost var windowEnd := w.now;
    var eventSeqAfter := w.Read32(EVENT_SEQ);
    t := Try(began, copied, w.now);
    SameSummary(summary, blob[..]);
    var advanced := Minus(eventSeqAfter, blob[EVENT_SEQ]);
    if Few(began, w.now) {
      AdvancedBy(w.run, began.done, w.now);
    }
    if advanced > CAPACITY - emitCount {
      return Unstable, t;
    }
    if Few(began, w.now) {
      WidenWindow(w.run, copied, windowEnd, w.now, startSlot, emitCount, blob[..], when);
      WindowIsHistory(w.run, began.done, copied, w.now, ringLimit, blob[..], when);
    }
    return Snapshot(blob[..]), t;
  }

  /** When the attempt before number `k` ended. */
  function EndBefore(tries: seq<Try>, from: Instant, k: nat): Instant
    requires k <= |tries|
  {
    if k == 0 then from else tries[k - 1].ended
  }

  /** Attempt `k` begins after the one before and, unless it is the last, failed. */
  ghost predicate Tried(run: Run, tries: seq<Try>, from: Instant, to: Instant, ringLimit: int, k: nat)
    requires ValidRun(run) && k < |tries|
  {
    && InOrder(run, EndBefore(tries, from, k), tries[k], to)
    && (k < |tries| - 1 && Few(tries[k].began, tries[k].ended) ==> Fails(run, tries[k], ringLimit))
  }

  /** The attempts of one call, in order: all but the last failed, and the last
      gave the answer. */
  ghost predicate Attempted(run: Run, tries: seq<Try>, from: Instant, to: Instant, o: Outcome, ringLimit: int)
    requires ValidRun(run)
  {
    && tries != [] && o != BadArgument
    && (forall k :: 0 <= k < |tries| ==> Tried(run, tries, from, to, ringLimit, k))
    && InRun(run.updates, tries[|tries| - 1].began) && InRun(run.updates, tries[|tries| - 1].ended)
    && var last := tries[|tries| - 1];
       (Few(last.began, last.ended) ==> Justified(run, o, last, ringLimit))
  }

  lemma {:induction false} IdleTries(run: Run, tries: seq<Try>, at: Instant, ringLimit: int, k: nat)
    requires ValidRun(run) && k < |tries|
    requires forall i :: 0 <= i < |tries| ==> Tried(run, tries, at, at, ringLimit, i)
    ensures tries[k] == Try(at, at, at)
  {
    hide ValidRun, Fails;
    assert Tried(run, tries, at, at, ringLimit, k);
    if k == 0 {
    } else {
      IdleTries(run, tries, at, ringLimit, k - 1);
    }
  }

  lemma IdleNeverFails(run: Run, at: Instant, ringLimit: int)
    requires ValidRun(run) && InRun(run.updates, at) && at.within == 0
    ensures !Fails(run, Try(at, at, at), ringLimit)
  {
    hide ValidRun, History;
  }

  /** A writer that is between updates and makes no step fails no attempt. */
  lemma IdleAnswers(run: Run, tries: seq<Try>, at: Instant, o: Outcome, ringLimit: int)
    requires ValidRun(run) && InRun(run.updates, at) && at.within == 0
    requires Attempted(run, tries, at, at, o, ringLimit)
    ensures |tries| == 1 && o != Unstable
    ensures if Refused(run, at.done, ringLimit) then o == FullRingWhileRunning
            else o.Snapshot? && Published(run, at.done, o.blob, ringLimit)
  {
    hide ValidRun, Published, History, Refused, Fails;
    IdleNeverFails(run, at, ringLimit);
    IdleTries(run, tries, at, ringLimit, 0);
    IdleTries(run, tries, at, ringLimit, |tries| - 1);
    assert Tried(run, tries, at, at, ringLimit, 0);
  }

  lemma OneMoreTry(run: Run, tries: seq<Try>, from: Instant, before: Instant, t: Try, o: Outcome, ringLimit: int)
    requires ValidRun(run) && InOrder(run, before, t, t.ended) && o != BadArgument
    requires Few(t.began, t.ended) ==> Justified(run, o, t, ringLimit)
    requires if tries == [] then before == from
             else Attempted(run, tries, from, before, Unstable, ringLimit) && tries[|tries| - 1].ended == before
    ensures Attempted(run, tries + [t], from, t.ended, o, ringLimit)
  {
    hide ValidRun, Published, Fails;
    forall k | 0 <= k < |tries + [t]| ensures Tried(run, tries + [t], from, t.ended, ringLimit, k) {
      if k < |tries| {
        assert Tried(run, tries, from, before, ringLimit, k);
      }
    }
  }

  /** `read_consistent_snapshot_from_buffer`. Whatever the writer does between two
      fetches, every attempt that spans fewer than 2^31 updates answers exactly what
      `Justified` says: the first that does not fail decides, and `Unstable` means
      that all of them failed. With an idle writer none fails. */
  method ReadConsistentSnapshot(w: Window, retries: int, ringLimit: int)
    returns (r: Outcome, ghost began: Instant, ghost tries: seq<Try>)
    requires w.Valid()
    modifies w
    ensures w.Valid() && NotAfter(old(w.now), w.now)
    ensures r == BadArgument <==> retries <= 0 || ringLimit < 0
    ensures r != BadArgument ==>
              && Attempted(w.run, tries, old(w.now), w.now, r, ringLimit) && |tries| <= retries
              && tries[|tries| - 1].began == began && tries[|tries| - 1].ended == w.now
              && (r == Unstable ==> |tries| == retries)
    ensures r != BadArgument && w.now == old(w.now) && w.now.within == 0 ==>
              if Refused(w.run, w.now.done, ringLimit) then r == FullRingWhileRunning
              else r.Snapshot? && Published(w.run, w.now.done, r.blob, ringLimit)
  {
    hide ValidRun, Published, History, Refused, Justified, Fails, At;
    began, tries := w.now, [];
    if retries <= 0 {
      return BadArgument, began, tries;
    }
    if ringLimit < 0 {
      return BadArgument, began, tries;
    }
    ghost var start := w.now;
    r := Unstable;
    for attempt := 0 to retries
      invariant w.Valid() && NotAfter(start, w.now) && |tries| == attempt && r == Unstable
      invariant attempt == 0 ==> w.now == start
      invariant attempt > 0 ==> Attempted(w.run, tries, start, w.now, Unstable, ringLimit)
      invariant attempt > 0 ==> tries[attempt - 1].began == began && tries[attempt - 1].ended == w.now
    {
      ghost var t;
      ghost var before := w.now;
      r, t := Attempt(w, ringLimit);
      OneMoreTry(w.run, tries, start, before, t, r, ringLimit);
      began, tries := t.began, tries + [t];
      if r != Unstable {
        break;
      }
    }
    if w.now == start && w.now.within == 0 {
      IdleAnswers(w.run, tries, start, r, ringLimit);
    }
  }
}
