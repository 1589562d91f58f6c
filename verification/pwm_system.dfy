/** Writer and reader together: whatever calls the PRU makes and however the
    reader's word accesses fall between its writes, a returned snapshot is the
    outcome of some prefix of the calls. */
module PwmSystem {
  import opened Words
  import opened PwmShared
  import opened PwmCapture
  import opened PwmReader
  import PwmStream

  datatype Call =
    | Start(timestamp: u32, logical: u32)
    | Stop
    | SetMinDeadtime(ticks: u32)
    | Process(timestamp: u32, logical: u32)

  /** What the calls so far amount to: the statistics and every record, oldest
      first. */
  datatype Account = Account(stats: PwmStream.Stats, history: seq<Record>)

  /** The record of a sample: one for a change while running. */
  function RecordOf(s: PwmStream.Stats, faults: u32, timestamp: u32, logical: u32): seq<Record> {
    if s.running == 0 || Xor(And(logical, 63), s.inputs) == 0 then []
    else [Record(timestamp, And(logical, 63), Xor(And(logical, 63), s.inputs), faults)]
  }

  function AfterCall(a: Account, c: Call): (r: Account)
    requires a.stats.Valid()
    ensures r.stats.Valid()
  {
    match c
    case Start(t, logical) => a.(stats := PwmStream.Start(a.stats, t, logical))
    case Stop => a.(stats := a.stats.(running := 0))
    case SetMinDeadtime(ticks) => a.(stats := a.stats.(minDeadtime := ticks))
    case Process(t, logical) =>
      var n := PwmStream.Process(a.stats, t, logical);
      Account(n, a.history + RecordOf(a.stats, n.faults, t, logical))
  }

  function AfterCalls(minDeadtime: u32, calls: seq<Call>, n: nat): (a: Account)
    requires n <= |calls|
    ensures a.stats.Valid()
  {
    if n == 0 then Account(PwmStream.Fresh(minDeadtime), [])
    else AfterCall(AfterCalls(minDeadtime, calls, n - 1), calls[n - 1])
  }

  /** What memory shows at update boundary `b` of a run. */
  ghost function Shown(run: Run, b: nat): Account
    requires b <= |run.updates| && |run.memories| == |run.updates| + 1
  {
    Account(StatsIn(run.memories[b]), History(run.updates, b))
  }

  /** After the first `n` calls: `at[m]` is the boundary that call `m` has led to,
      no call makes more than one update, and there is no other boundary. */
  ghost predicate Performed(run: Run, minDeadtime: u32, calls: seq<Call>, n: nat, at: seq<nat>)
    requires n <= |calls|
  {
    && ValidRun(run) && |at| == n + 1 && at[0] == 0 && at[n] == |run.updates|
    && (forall m :: 0 <= m < n ==> at[m] <= at[m + 1] <= at[m] + 1)
    && forall m :: 0 <= m <= n ==> Tells(run, minDeadtime, calls, m, at[m])
  }

  ghost predicate Tells(run: Run, minDeadtime: u32, calls: seq<Call>, m: nat, b: nat)
    requires m <= |calls| && |run.memories| == |run.updates| + 1
  {
    b <= |run.updates| && Shown(run, b) == AfterCalls(minDeadtime, calls, m)
  }

  lemma StillTells(run: Run, longer: Run, k: nat, minDeadtime: u32, calls: seq<Call>, m: nat, b: nat)
    requires ValidRun(run) && ValidRun(longer) && Grew(run, longer, k)
    requires m <= |calls| && Tells(run, minDeadtime, calls, m, b)
    ensures Tells(longer, minDeadtime, calls, m, b)
  {
    hide ValidStep, Initial, AfterCalls, StatsIn;
    SameHistory(run.updates, longer.updates, b);
  }

  /** One call more. */
  lemma PerformedStep(run: Run, longer: Run, k: nat, minDeadtime: u32, calls: seq<Call>, n: nat, at: seq<nat>)
    requires n < |calls| && Performed(run, minDeadtime, calls, n, at) && ValidRun(longer) && Grew(run, longer, k) &&
            k <= 1
    requires Shown(longer, |longer.updates|) == AfterCall(Shown(run, |run.updates|), calls[n])
    ensures Performed(longer, minDeadtime, calls, n + 1, at + [|longer.updates|])
  {
    hide ValidStep, Initial, StatsIn, AfterCall, Tells;
    var more := at + [|longer.updates|];
    assert ValidRun(run) && |run.memories| == |run.updates| + 1;
    forall m | 0 <= m <= n + 1 ensures Tells(longer, minDeadtime, calls, m, more[m]) {
      if m <= n {
        StillTells(run, longer, k, minDeadtime, calls, m, at[m]);
      } else {
        TellsNext(run, longer, minDeadtime, calls, n);
      }
    }
  }

  lemma TellsNext(run: Run, longer: Run, minDeadtime: u32, calls: seq<Call>, n: nat)
    requires n < |calls| && ValidRun(run) && ValidRun(longer) && Tells(run, minDeadtime, calls, n, |run.updates|)
    requires Shown(longer, |longer.updates|) == AfterCall(Shown(run, |run.updates|), calls[n])
    ensures Tells(longer, minDeadtime, calls, n + 1, |longer.updates|)
  {
    hide ValidStep, Initial, StatsIn, AfterCall;
  }

  /** The PRU's side: initialise and make the calls. */
  method Perform(calls: seq<Call>, tickHz: u32, minDeadtime: u32) returns (c: Capture, ghost at: seq<nat>)
    ensures fresh(c) && c.Valid() && Performed(c.run, minDeadtime, calls, |calls|, at)
  {
    hide ValidStep, Initial, StatsIn, AfterCall, Performed;
    c := new Capture(tickHz, minDeadtime);
    at := [0];
    PerformedNone(c.run, minDeadtime, calls);
    for n := 0 to |calls|
      invariant fresh(c) && c.Valid() && Performed(c.run, minDeadtime, calls, n, at)
    {
      ghost var before := c.run;
      ghost var k := PerformOne(c, calls[n]);
      PerformedStep(before, c.run, k, minDeadtime, calls, n, at);
      at := at + [|c.run.updates|];
    }
  }

  method PerformOne(c: Capture, call: Call) returns (ghost k: nat)
    requires c.Valid()
    modifies c
    ensures c.Valid() && k <= 1 && Grew(old(c.run), c.run, k)
    ensures Shown(c.run, |c.run.updates|) == AfterCall(old(Shown(c.run, |c.run.updates|)), call)
  {
    hide ValidStep, Initial, StatsIn, PwmStream.Process, History, ValidRun, Xor, And;
    ghost var was, history := c.words, History(c.run.updates, |c.run.updates|);
    Boundary(c.run);
    match call {
      case Start(t, logical) =>
        c.Start(t, logical);
        k := 1;
      case Stop =>
        c.Stop();
        k := 1;
      case SetMinDeadtime(ticks) =>
        c.SetMinDeadtime(ticks);
        k := 1;
      case Process(t, logical) =>
        c.Process(t, logical);
        SameRecord(was, c.words[FAULT_FLAGS], t, logical);
        FaultWord(c.words);
        k := |RecordOf(StatsIn(was), c.words[FAULT_FLAGS], t, logical)|;
    }
    Boundary(c.run);
  }

  lemma Boundary(run: Run)
    requires ValidRun(run)
    ensures |run.memories| == |run.updates| + 1
  {
  }

  lemma SameRecord(m: Memory, faults: u32, timestamp: u32, logical: u32)
    ensures Logged(m, faults, timestamp, logical) == RecordOf(StatsIn(m), faults, timestamp, logical)
    ensures |RecordOf(StatsIn(m), faults, timestamp, logical)| <= 1
  {
    hide Xor, And;
  }

  lemma FaultWord(m: Memory)
    ensures StatsIn(m).faults == m[FAULT_FLAGS]
  {
  }

  lemma PerformedNone(run: Run, minDeadtime: u32, calls: seq<Call>)
    requires ValidRun(run) && run.updates == [] && StatsIn(run.memories[0]) == PwmStream.Fresh(minDeadtime)
    ensures Performed(run, minDeadtime, calls, 0, [0])
  {
    hide StatsIn, ValidStep, Initial;
    assert Tells(run, minDeadtime, calls, 0, 0);
  }

  /** Every boundary is one that some prefix of the calls has led to. */
  lemma {:induction false} BoundaryIsPrefix(run: Run, minDeadtime: u32, calls: seq<Call>, n: nat, at: seq<nat>,
                                            b: nat) returns (m: nat)
    requires n <= |calls| && Performed(run, minDeadtime, calls, n, at) && b <= at[n]
    ensures m <= n && at[m] == b && Tells(run, minDeadtime, calls, m, b) && (at[n] == b ==> m == n)
  {
    hide Tells, ValidRun;
    Boundary(run);
    m := Reached(at, n, b);
    assert Tells(run, minDeadtime, calls, m, at[m]);
  }

  lemma {:induction false} Reached(at: seq<nat>, n: nat, b: nat) returns (m: nat)
    requires n < |at| && at[0] == 0 && b <= at[n]
    requires forall m :: 0 <= m < n ==> at[m] <= at[m + 1] <= at[m] + 1
    ensures m <= n && at[m] == b && (at[n] == b ==> m == n)
  {
    if at[n] == b {
      m := n;
    } else {
      m := Reached(at, n - 1, b);
    }
  }

  /** The summary words alone determine the statistics. */
  lemma SameStats(a: Memory, b: Memory)
    requires a[..SUMMARY_WORDS] == b[..SUMMARY_WORDS]
    ensures StatsIn(a) == StatsIn(b)
  {
    forall k | 0 <= k < SUMMARY_WORDS ensures a[k] == b[k] {
      assert a[..SUMMARY_WORDS][k] == b[..SUMMARY_WORDS][k];
    }
    assert StatsIn(a).channels == StatsIn(b).channels;
    assert StatsIn(a).pairs == StatsIn(b).pairs;
  }

  /** A snapshot shows the first `m` calls: their statistics, and the newest
      records of their history, in order. */
  ghost predicate ShowsCalls(blob: seq<u32>, ringLimit: int, minDeadtime: u32, calls: seq<Call>, m: nat)
    requires m <= |calls|
  {
    && |blob| == TOTAL_WORDS
    && var a := AfterCalls(minDeadtime, calls, m);
       var emit := Max(0, Min(Min(|a.history|, CAPACITY), ringLimit));
       StatsIn(blob) == a.stats && RecentEdges(blob, ringLimit) == a.history[|a.history| - emit..]
  }

  lemma PublishedIsPrefix(run: Run, minDeadtime: u32, calls: seq<Call>, at: seq<nat>, frozen: nat, blob: seq<u32>,
                          ringLimit: int)
    returns (m: nat)
    requires Performed(run, minDeadtime, calls, |calls|, at) && Published(run, frozen, blob, ringLimit)
    ensures m <= |calls| && at[m] == frozen && ShowsCalls(blob, ringLimit, minDeadtime, calls, m)
    ensures at[|calls|] == frozen ==> m == |calls|
  {
    hide StatsIn, ValidRun, RecentEdges, AfterCalls;
    Boundary(run);
    m := BoundaryIsPrefix(run, minDeadtime, calls, |calls|, at, frozen);
    SameStats(blob, run.memories[frozen]);
  }

  /** The last instant of a run: the writer has finished. */
  ghost predicate Finished(run: Run, t: Instant) {
    t == Instant(|run.updates|, 0)
  }

  /** The full ring is asked for while the capture is still running. */
  ghost predicate AsksTooMuch(minDeadtime: u32, calls: seq<Call>, m: nat, ringLimit: int)
    requires m <= |calls|
  {
    var a := AfterCalls(minDeadtime, calls, m);
    a.stats.running != 0 && |a.history| >= CAPACITY && ringLimit >= CAPACITY
  }

  lemma RefusedAs(run: Run, minDeadtime: u32, calls: seq<Call>, at: seq<nat>, ringLimit: int)
    requires Performed(run, minDeadtime, calls, |calls|, at)
    ensures Refused(run, |run.updates|, ringLimit) <==> AsksTooMuch(minDeadtime, calls, |calls|, ringLimit)
  {
    hide ValidRun, AfterCalls, History;
    Boundary(run);
    assert Tells(run, minDeadtime, calls, |calls|, at[|calls|]);
  }

  /** The joint theorem: over the run of any sequence of calls, such as `Perform`
      leaves behind, and for every interleaving of the reader's word accesses with
      the writer's word writes, a snapshot the reader returns shows the statistics
      and the newest records of the first `m` calls for some `m`, as long as fewer
      than 2^31 updates start during the attempt. Once the writer has finished, the
      first attempt returns all of the calls, unless it asks for too much. */
  method ReadDuring(w: Window, ghost minDeadtime: u32, ghost calls: seq<Call>, ghost at: seq<nat>, retries: int,
                    ringLimit: int)
    returns (r: Outcome, ghost began: Instant, ghost m: nat)
    requires w.Valid() && Performed(w.run, minDeadtime, calls, |calls|, at)
    modifies w
    ensures w.Valid() && m <= |calls|
    ensures r.Snapshot? && Few(began, w.now) ==>
            ShowsCalls(r.blob, ringLimit, minDeadtime, calls, m) && at[m] == began.done
    ensures |calls| < 0x8000_0000 ==> Few(began, w.now)
    ensures retries > 0 && ringLimit >= 0 && Finished(w.run, old(w.now)) ==>
              if AsksTooMuch(minDeadtime, calls, |calls|, ringLimit) then r == FullRingWhileRunning
              else r.Snapshot? && m == |calls|
  {
    hide StatsIn, ValidRun, RecentEdges, AfterCalls, Published, Performed, ShowsCalls, At, Refused, AsksTooMuch,
        Attempted;
    PerformedLength(w.run, minDeadtime, calls, at);
    RefusedAs(w.run, minDeadtime, calls, at, ringLimit);
    ghost var tries;
    ghost var start := w.now;
    r, began, tries := ReadConsistentSnapshot(w, retries, ringLimit);
    if r != BadArgument {
      LastTry(w.run, tries, start, w.now, r, ringLimit);
      if Finished(w.run, start) {
        NothingFollows(w.run, start, w.now);
        NothingFollows(w.run, start, began);
        PerformedEnds(w.run, minDeadtime, calls, at);
      }
    }
    m := 0;
    if r.Snapshot? && Few(began, w.now) {
      m := PublishedIsPrefix(w.run, minDeadtime, calls, at, began.done, r.blob, ringLimit);
    }
  }

  lemma NothingFollows(run: Run, t: Instant, later: Instant)
    requires Finished(run, t) && InRun(run.updates, later) && NotAfter(t, later)
    ensures later == t
  {
  }

  lemma PerformedEnds(run: Run, minDeadtime: u32, calls: seq<Call>, at: seq<nat>)
    requires Performed(run, minDeadtime, calls, |calls|, at)
    ensures |at| == |calls| + 1 && at[|calls|] == |run.updates|
  {
  }

  lemma LastTry(run: Run, tries: seq<Try>, from: Instant, to: Instant, o: Outcome, ringLimit: int)
    requires ValidRun(run) && Attempted(run, tries, from, to, o, ringLimit)
    ensures var t := tries[|tries| - 1];
            && NotAfter(from, t.began) && NotAfter(t.began, to) && InRun(run.updates, t.began)
            && (o.Snapshot? && Few(t.began, t.ended) ==> Published(run, t.began.done, o.blob, ringLimit))
  {
    hide ValidRun, Published, Fails, Refused;
    TriedAfter(run, tries, from, to, ringLimit, |tries| - 1);
  }

  lemma PerformedLength(run: Run, minDeadtime: u32, calls: seq<Call>, at: seq<nat>)
    requires Performed(run, minDeadtime, calls, |calls|, at)
    ensures |run.updates| <= |calls|
  {
    hide Tells, ValidRun;
    AtMost(at, |calls|);
  }

  lemma {:induction false} TriedAfter(run: Run, tries: seq<Try>, from: Instant, to: Instant, ringLimit: int, k: nat)
    requires ValidRun(run) && k < |tries|
    requires forall i :: 0 <= i < |tries| ==> Tried(run, tries, from, to, ringLimit, i)
    ensures InOrder(run, from, tries[k], to)
  {
    hide ValidRun, Fails;
    assert Tried(run, tries, from, to, ringLimit, k);
    if k == 0 {
    } else {
      TriedAfter(run, tries, from, to, ringLimit, k - 1);
    }
  }

  lemma {:induction false} AtMost(at: seq<nat>, n: nat)
    requires n < |at| && at[0] == 0 && forall m :: 0 <= m < n ==> at[m] <= at[m + 1] <= at[m] + 1
    ensures at[n] <= n
  {
    if n == 0 {
    } else {
      AtMost(at, n - 1);
    }
  }
}
