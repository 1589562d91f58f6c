/** The memory the PRU shares with Linux, word by word: the layout of
    `struct hil_pwm_shared`, the writer's updates as lists of single word
    writes, and what the memory holds at every instant between two writes. */
module PwmShared {
  import opened Words

  const MAGIC := 0
  const VERSION := 1
  const TOTAL_SIZE := 2
  const SEQ_LOCK := 3
  const TICK_HZ := 4
  const CHANNEL_COUNT := 5
  const PAIR_COUNT := 6
  const RING_CAPACITY := 7
  const RUNNING := 8
  const MIN_DEADTIME := 9
  const INPUT_BITS := 10
  const CHANGED_BITS := 11
  const LAST_TIMESTAMP := 12
  const EVENT_SEQ := 13
  const RING_HEAD := 14
  const RING_COUNT := 15
  const FAULT_FLAGS := 16

  const SUMMARY_WORDS := 92
  const TOTAL_WORDS := 604
  const CAPACITY := 128

  type Memory = m: seq<u32> | |m| == 604 witness seq(604, _ => 0)

  datatype Write = Write(at: nat, value: u32)

  datatype Record = Record(timestamp: u32, logical: u32, changed: u32, faults: u32)

  function ChannelAt(channel: nat): nat { 20 + 8 * channel }

  function PairAt(pair: nat): nat { 68 + 8 * pair }

  function SlotAt(slot: nat): nat { 92 + 4 * slot }

  function Slot(m: Memory, slot: nat): Record
    requires slot < CAPACITY
  {
    Record(m[SlotAt(slot)], m[SlotAt(slot) + 1], m[SlotAt(slot) + 2], m[SlotAt(slot) + 3])
  }

  function Apply(m: Memory, writes: seq<Write>): Memory
    requires forall w :: w in writes ==> w.at < TOTAL_WORDS
  {
    if writes == [] then m
    else
      var last := writes[|writes| - 1];
      Apply(m, writes[..|writes| - 1])[last.at := last.value]
  }

  /** The header words that `_validate_snapshot` compares. */
  predicate HeaderWord(at: nat) {
    at == MAGIC || at == VERSION || at == TOTAL_SIZE || at == CHANNEL_COUNT || at == PAIR_COUNT || at == RING_CAPACITY
  }

  predicate GoodHeader(m: seq<u32>)
    requires |m| >= 92
  {
    m[MAGIC] == 0x314D5750 && m[VERSION] == 1 && m[TOTAL_SIZE] == 2416 &&
    m[CHANNEL_COUNT] == 6 && m[PAIR_COUNT] == 3 && m[RING_CAPACITY] == 128
  }

  /** What one update does besides live statistics: nothing, or it announces
      an edge by raising `event_seq` at write number `announced` and pushes
      its record. */
  datatype Effect = Quiet | Pushes(announced: nat, record: Record)

  datatype Update = Update(writes: seq<Write>, effect: Effect)

  /** The sequence lock protocol: the first and the last write of an update
      raise the lock, no other write touches it. */
  ghost predicate Bracketed(m: Memory, writes: seq<Write>) {
    && |writes| >= 2
    && writes[0] == Write(SEQ_LOCK, Plus(m[SEQ_LOCK], 1))
    && writes[|writes| - 1] == Write(SEQ_LOCK, Plus(m[SEQ_LOCK], 2))
    && (forall i :: 0 < i < |writes| - 1 ==> writes[i].at != SEQ_LOCK)
  }

  predicate InBounds(writes: seq<Write>) {
    forall i :: 0 <= i < |writes| ==> writes[i].at < TOTAL_WORDS && !HeaderWord(writes[i].at)
  }

  predicate NoRingWrite(writes: seq<Write>) {
    forall i :: 0 <= i < |writes| ==>
      writes[i].at < SUMMARY_WORDS && writes[i].at != EVENT_SEQ && writes[i].at != RING_HEAD &&
          writes[i].at != RING_COUNT
  }

  /** An edge update raises `event_seq` once, before its first ring write, and
      writes no slot but the one `ring_head` names. */
  ghost predicate AnnouncesFirst(m: Memory, writes: seq<Write>, e: nat) {
    && e < |writes| && writes[e] == Write(EVENT_SEQ, Plus(m[EVENT_SEQ], 1))
    && (forall i :: 0 <= i < |writes| && i != e ==> writes[i].at != EVENT_SEQ)
    && m[RING_HEAD] < CAPACITY
    && (forall i :: 0 <= i < |writes| && writes[i].at >= SUMMARY_WORDS ==>
         e < i && SlotAt(m[RING_HEAD]) <= writes[i].at < SlotAt(m[RING_HEAD]) + 4)
  }

  ghost predicate PushesRecord(m: Memory, after: Memory, record: Record) {
    && m[RING_HEAD] < CAPACITY
    && Slot(after, m[RING_HEAD]) == record
    && after[RING_HEAD] == (if m[RING_HEAD] + 1 >= CAPACITY then 0 else m[RING_HEAD] + 1)
    && after[RING_COUNT] == (if m[RING_COUNT] < CAPACITY then Plus(m[RING_COUNT], 1) else m[RING_COUNT])
  }

  ghost predicate ValidUpdate(m: Memory, u: Update) {
    && InBounds(u.writes)
    && Bracketed(m, u.writes)
    && match u.effect
       case Quiet => NoRingWrite(u.writes)
       case Pushes(e, record) => AnnouncesFirst(m, u.writes, e) && PushesRecord(m, Apply(m, u.writes), record)
  }

  /** A run of the writer: its updates and the memory at every boundary. */
  datatype Run = Run(memories: seq<Memory>, updates: seq<Update>)

  ghost predicate ValidRun(r: Run) {
    && |r.memories| == |r.updates| + 1
    && Initial(r.memories[0])
    && forall n :: 0 <= n < |r.updates| ==> ValidStep(r, n)
  }

  ghost predicate ValidStep(r: Run, n: nat)
    requires n < |r.updates| && |r.memories| == |r.updates| + 1
  {
    ValidUpdate(r.memories[n], r.updates[n]) && r.memories[n + 1] == Apply(r.memories[n], r.updates[n].writes)
  }

  /** `hil_pwm_capture_init`: everything zero but the header, the tick rate and
      the threshold. */
  ghost predicate Initial(m: Memory) {
    GoodHeader(m) && m[SEQ_LOCK] == 0 && m[EVENT_SEQ] == 0 && m[RING_HEAD] == 0 && m[RING_COUNT] == 0
  }

  /** Every record pushed by the first `n` updates, oldest first. */
  function History(us: seq<Update>, n: nat): seq<Record>
    requires n <= |us|
  {
    if n == 0 then []
    else History(us, n - 1) + (match us[n - 1].effect case Quiet => [] case Pushes(_, record) => [record])
  }

  /** A moment of the run: `done` whole updates and `within` writes of the
      next one have reached memory. */
  datatype Instant = Instant(done: nat, within: nat)

  predicate InRun(us: seq<Update>, t: Instant) {
    t.done <= |us| && (t.within == 0 || (t.done < |us| && t.within < |us[t.done].writes|))
  }

  predicate NotAfter(s: Instant, t: Instant) {
    s.done < t.done || (s.done == t.done && s.within <= t.within)
  }

  ghost function At(r: Run, t: Instant): Memory
    requires ValidRun(r) && InRun(r.updates, t)
  {
    if t.within == 0 then r.memories[t.done]
    else
      assert ValidStep(r, t.done);
      Apply(r.memories[t.done], r.updates[t.done].writes[..t.within])
  }

  /** How many edges `event_seq` has announced at instant `t`. */
  function Announced(us: seq<Update>, t: Instant): nat
    requires InRun(us, t)
  {
    |History(us, t.done)| +
    if t.within > 0 && us[t.done].effect.Pushes? && us[t.done].effect.announced < t.within then 1 else 0
  }

  lemma {:induction false} ApplyKeeps(m: Memory, writes: seq<Write>, at: nat)
    requires forall w :: w in writes ==> w.at < TOTAL_WORDS
    requires at < TOTAL_WORDS && forall i :: 0 <= i < |writes| ==> writes[i].at != at
    ensures Apply(m, writes)[at] == m[at]
  {
    if writes == [] {
    } else {
      ApplyKeeps(m, writes[..|writes| - 1], at);
    }
  }

  /** The last write to a word decides its value. */
  lemma {:induction false} ApplyLast(m: Memory, writes: seq<Write>, i: nat)
    requires forall w :: w in writes ==> w.at < TOTAL_WORDS
    requires i < |writes| && forall j :: i < j < |writes| ==> writes[j].at != writes[i].at
    ensures Apply(m, writes)[writes[i].at] == writes[i].value
  {
    if i + 1 == |writes| {
    } else {
      ApplyLast(m, writes[..|writes| - 1], i);
    }
  }

  // ---- What the shared words tell at every instant ----

  lemma LockWithin(m: Memory, u: Update, k: nat)
    requires ValidUpdate(m, u) && 0 < k < |u.writes|
    ensures Apply(m, u.writes[..k])[SEQ_LOCK] == Plus(m[SEQ_LOCK], 1)
    ensures Apply(m, u.writes)[SEQ_LOCK] == Plus(m[SEQ_LOCK], 2)
  {
    ApplyLast(m, u.writes[..k], 0);
    ApplyLast(m, u.writes, |u.writes| - 1);
  }

  /** The lock counts update boundaries: twice the finished updates, plus one
      while an update is open. */
  lemma {:induction false} LockCounts(r: Run, t: Instant)
    requires ValidRun(r) && InRun(r.updates, t)
    ensures At(r, t)[SEQ_LOCK] == Wrap(2 * t.done + if t.within > 0 then 1 else 0)
    decreases t.done, t.within
  {
    if t.within > 0 {
      LockCounts(r, Instant(t.done, 0));
      assert ValidStep(r, t.done);
      LockWithin(r.memories[t.done], r.updates[t.done], t.within);
      PlusWrap(2 * t.done, 1);
    } else if t.done > 0 {
      LockCounts(r, Instant(t.done - 1, 0));
      assert ValidStep(r, t.done - 1);
      LockWithin(r.memories[t.done - 1], r.updates[t.done - 1], 1);
      PlusWrap(2 * (t.done - 1), 2);
    }
  }

  lemma {:induction false} HeaderStays(r: Run, n: nat)
    requires ValidRun(r) && n <= |r.updates|
    ensures GoodHeader(r.memories[n])
  {
    if n == 0 {
    } else {
      HeaderStays(r, n - 1);
      assert ValidStep(r, n - 1);
      forall at: nat | at < TOTAL_WORDS && HeaderWord(at) ensures r.memories[n][at] == r.memories[n - 1][at] {
        ApplyKeeps(r.memories[n - 1], r.updates[n - 1].writes, at);
      }
    }
  }

  /** Ring bookkeeping at an update boundary: head, count and `event_seq` are
      determined by how many edges were pushed, and the newest 128 records sit
      in their slots. */
  ghost predicate RingHolds(m: Memory, history: seq<Record>) {
    && m[RING_HEAD] == |history| % CAPACITY
    && m[RING_COUNT] == Min(|history|, CAPACITY)
    && m[EVENT_SEQ] == Wrap(|history|)
    && forall i :: Max(0, |history| - CAPACITY) <= i < |history| ==> Slot(m, i % CAPACITY) == history[i]
  }

  lemma SlotKept(m: Memory, u: Update, k: nat, slot: nat)
    requires ValidUpdate(m, u) && k <= |u.writes| && slot < CAPACITY
    requires u.effect.Pushes? && u.effect.announced < k ==> slot != m[RING_HEAD]
    ensures Slot(Apply(m, u.writes[..k]), slot) == Slot(m, slot)
  {
    ApplyKeeps(m, u.writes[..k], SlotAt(slot));
    ApplyKeeps(m, u.writes[..k], SlotAt(slot) + 1);
    ApplyKeeps(m, u.writes[..k], SlotAt(slot) + 2);
    ApplyKeeps(m, u.writes[..k], SlotAt(slot) + 3);
  }

  lemma QuietKeepsRing(m: Memory, u: Update, history: seq<Record>)
    requires ValidUpdate(m, u) && RingHolds(m, history) && u.effect.Quiet?
    ensures RingHolds(Apply(m, u.writes), history)
  {
    ApplyKeeps(m, u.writes, EVENT_SEQ);
    ApplyKeeps(m, u.writes, RING_HEAD);
    ApplyKeeps(m, u.writes, RING_COUNT);
    assert u.writes[..|u.writes|] == u.writes;
    forall slot: nat | slot < CAPACITY ensures Slot(Apply(m, u.writes), slot) == Slot(m, slot) {
      SlotKept(m, u, |u.writes|, slot);
    }
  }

  lemma AnnounceWithin(m: Memory, u: Update, k: nat)
    requires ValidUpdate(m, u) && k <= |u.writes|
    ensures Apply(m, u.writes[..k])[EVENT_SEQ] ==
            if u.effect.Pushes? && u.effect.announced < k then Plus(m[EVENT_SEQ], 1) else m[EVENT_SEQ]
  {
    if u.effect.Pushes? && u.effect.announced < k {
      ApplyLast(m, u.writes[..k], u.effect.announced);
    } else {
      ApplyKeeps(m, u.writes[..k], EVENT_SEQ);
    }
  }

  lemma PushedCounters(m: Memory, after: Memory, record: Record, n: nat)
    requires PushesRecord(m, after, record)
    requires m[RING_HEAD] == n % CAPACITY && m[RING_COUNT] == Min(n, CAPACITY)
    ensures after[RING_HEAD] == (n + 1) % CAPACITY && after[RING_COUNT] == Min(n + 1, CAPACITY)
  {
  }

  lemma PushExtendsRing(m: Memory, u: Update, history: seq<Record>)
    requires ValidUpdate(m, u) && RingHolds(m, history) && u.effect.Pushes?
    ensures RingHolds(Apply(m, u.writes), history + [u.effect.record])
  {
    var grown := history + [u.effect.record];
    assert Apply(m, u.writes)[EVENT_SEQ] == Wrap(|grown|) by {
      assert u.writes[..|u.writes|] == u.writes;
      AnnounceWithin(m, u, |u.writes|);
      PlusWrap(|history|, 1);
    }
    PushedCounters(m, Apply(m, u.writes), u.effect.record, |history|);
    forall i | Max(0, |grown| - CAPACITY) <= i < |grown|
      ensures Slot(Apply(m, u.writes), i % CAPACITY) == grown[i]
    {
      PushedSlot(m, u, history, i);
    }
  }

  lemma SlotsApart(i: nat, n: nat)
    requires 0 < n - i < CAPACITY
    ensures i % CAPACITY != n % CAPACITY
  {
  }

  lemma PushedSlot(m: Memory, u: Update, history: seq<Record>, i: nat)
    requires ValidUpdate(m, u) && RingHolds(m, history) && u.effect.Pushes?
    requires Max(0, |history| + 1 - CAPACITY) <= i <= |history|
    ensures Slot(Apply(m, u.writes), i % CAPACITY) == (history + [u.effect.record])[i]
  {
    if i < |history| {
      assert u.writes[..|u.writes|] == u.writes;
      SlotsApart(i, |history|);
      SlotKept(m, u, |u.writes|, i % CAPACITY);
    }
  }

  lemma {:induction false} RingAtBoundary(r: Run, n: nat)
    requires ValidRun(r) && n <= |r.updates|
    ensures RingHolds(r.memories[n], History(r.updates, n))
  {
    if n == 0 {
    } else {
      RingAtBoundary(r, n - 1);
      assert ValidStep(r, n - 1);
      if r.updates[n - 1].effect.Quiet? {
        QuietKeepsRing(r.memories[n - 1], r.updates[n - 1], History(r.updates, n - 1));
      } else {
        PushExtendsRing(r.memories[n - 1], r.updates[n - 1], History(r.updates, n - 1));
      }
    }
  }

  /** `event_seq` never lags behind the ring: at every instant it counts the
      announced edges. */
  lemma EventSeqCounts(r: Run, t: Instant)
    requires ValidRun(r) && InRun(r.updates, t)
    ensures At(r, t)[EVENT_SEQ] == Wrap(Announced(r.updates, t))
  {
    RingAtBoundary(r, t.done);
    if t.within > 0 {
      assert ValidStep(r, t.done);
      AnnounceWithin(r.memories[t.done], r.updates[t.done], t.within);
      PlusWrap(|History(r.updates, t.done)|, 1);
    }
  }

  lemma SlotWithin(m: Memory, u: Update, k: nat, history: seq<Record>, i: nat)
    requires ValidUpdate(m, u) && RingHolds(m, history) && k <= |u.writes| && i < |history|
    requires |history| + (if u.effect.Pushes? && u.effect.announced < k then 1 else 0) - CAPACITY <= i
    ensures Slot(Apply(m, u.writes[..k]), i % CAPACITY) == history[i]
  {
    if u.effect.Pushes? && u.effect.announced < k {
      SlotsApart(i, |history|);
    }
    SlotKept(m, u, k, i % CAPACITY);
  }

  /** A finished record stays in its slot until 128 newer edges have been
      announced, even in the middle of an update. */
  lemma RecordStays(r: Run, t: Instant, i: nat)
    requires ValidRun(r) && InRun(r.updates, t)
    requires i < |History(r.updates, t.done)| && Announced(r.updates, t) - CAPACITY <= i
    ensures Slot(At(r, t), i % CAPACITY) == History(r.updates, t.done)[i]
  {
    RingAtBoundary(r, t.done);
    if t.within > 0 {
      assert ValidStep(r, t.done);
      SlotWithin(r.memories[t.done], r.updates[t.done], t.within, History(r.updates, t.done), i);
    }
  }

  lemma {:induction false} HistoryGrows(us: seq<Update>, a: nat, b: nat)
    requires a <= b <= |us|
    ensures History(us, a) <= History(us, b)
    ensures |History(us, b)| - |History(us, a)| <= b - a
  {
    if a == b {
    } else {
      HistoryGrows(us, a, b - 1);
    }
  }

  lemma AnnouncedGrows(us: seq<Update>, s: Instant, t: Instant)
    requires InRun(us, s) && InRun(us, t) && NotAfter(s, t)
    ensures Announced(us, s) <= Announced(us, t)
    ensures History(us, s.done) <= History(us, t.done)
    ensures Announced(us, t) - |History(us, s.done)| <= t.done - s.done + 1
  {
    HistoryGrows(us, s.done, t.done);
    if s.done < t.done {
      HistoryGrows(us, s.done + 1, t.done);
    }
  }

  // ---- The two facts the lock-free reader relies on ----

  /** An even lock that reads the same twice, with fewer than 2^31 updates in
      between, proves that no write happened in between. */
  lemma LockFreezes(r: Run, s: Instant, t: Instant)
    requires ValidRun(r) && InRun(r.updates, s) && InRun(r.updates, t) && NotAfter(s, t)
    requires t.done - s.done < 0x8000_0000
    requires At(r, s)[SEQ_LOCK] == At(r, t)[SEQ_LOCK] && At(r, s)[SEQ_LOCK] % 2 == 0
    ensures s == t && s.within == 0
  {
    LockCounts(r, s);
    LockCounts(r, t);
    WrapDistance(2 * s.done + (if s.within > 0 then 1 else 0), 2 * t.done + (if t.within > 0 then 1 else 0));
  }

  /** The re-check of `event_seq`: as long as at most 128 - `emit` edges were
      announced since boundary `frozen`, every one of the `emit` newest records
      of that boundary could be read intact at any instant up to now. */
  lemma WindowIntact(r: Run, frozen: nat, read: Instant, now: Instant, emit: nat, i: nat)
    requires ValidRun(r) && InRun(r.updates, read) && InRun(r.updates, now) && frozen <= |r.updates|
    requires NotAfter(Instant(frozen, 0), read) && NotAfter(read, now)
    requires now.done - frozen < 0x8000_0000
    requires emit <= |History(r.updates, frozen)| && emit <= CAPACITY
    requires Minus(At(r, now)[EVENT_SEQ], r.memories[frozen][EVENT_SEQ]) <= CAPACITY - emit
    requires |History(r.updates, frozen)| - emit <= i < |History(r.updates, frozen)|
    ensures Slot(At(r, read), i % CAPACITY) == History(r.updates, frozen)[i]
  {
    var start := Instant(frozen, 0);
    EventSeqCounts(r, start);
    EventSeqCounts(r, now);
    AnnouncedGrows(r.updates, start, now);
    AnnouncedGrows(r.updates, start, read);
    AnnouncedGrows(r.updates, read, now);
    WrapDistance(Announced(r.updates, start), Announced(r.updates, now));
    RecordStays(r, read, i);
  }
}
