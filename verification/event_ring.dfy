/** The circular event memory that hil_event_queue.v and hil_axi_event_fifo.v
    share: four memories, two pointers, a level and the last accepted
    timestamp. */
module EventRing {
  import opened Words

  datatype Event = Event(timestamp: nat, mask: u32, value: u32, id: u32)

  const NO_EVENT := Event(0, 0, 0, 0)

  datatype Pointers = Pointers(write: nat, read: nat, count: nat, last: nat)

  datatype Ring = Ring(mem: seq<Event>, p: Pointers)

  /** `(dio & ~mask) | (value & mask)`. */
  function Masked(dio: u32, mask: u32, value: u32): u32 {
    FromBits((k: nat) => if Bit(mask, k) then Bit(value, k) else Bit(dio, k))
  }

  /** Index of the `k`-th stored event of a ring that starts at `read`. */
  function Slot(depth: nat, read: nat, k: nat): nat {
    if read + k < depth then read + k else read + k - depth
  }

  predicate Sane(depth: nat, r: Ring) {
    && depth >= 1 && |r.mem| == depth
    && r.p.read < depth && r.p.count <= depth && r.p.write == Slot(depth, r.p.read, r.p.count)
  }

  function Contents(depth: nat, r: Ring): (c: seq<Event>)
    requires Sane(depth, r)
    ensures |c| == r.p.count
  {
    seq(r.p.count, k requires 0 <= k < r.p.count => r.mem[Slot(depth, r.p.read, k)])
  }

  predicate Sorted(c: seq<Event>) {
    forall i, j :: 0 <= i < j < |c| ==> c[i].timestamp <= c[j].timestamp
  }

  ghost predicate Valid(depth: nat, r: Ring) {
    && Sane(depth, r) && Sorted(Contents(depth, r))
    && r.p.last == if r.p.count == 0 then 0 else Contents(depth, r)[r.p.count - 1].timestamp
  }

  function Head(depth: nat, r: Ring): Event
    requires Sane(depth, r)
  {
    if r.p.count == 0 then NO_EVENT else r.mem[r.p.read]
  }

  function Bump(depth: nat, pointer: nat): nat {
    if pointer + 1 == depth then 0 else pointer + 1
  }

  predicate OrderOk(p: Pointers, e: Event) {
    p.count == 0 || e.timestamp >= p.last
  }

  predicate Accepts(depth: nat, p: Pointers, push: bool, e: Event) {
    push && p.count < depth && OrderOk(p, e)
  }

  /** The pointer registers after one clock without clear. */
  function NextPointers(depth: nat, p: Pointers, push: bool, e: Event, pop: bool): Pointers {
    var accepted, popped := Accepts(depth, p, push, e), pop && p.count > 0;
    Pointers(
      if accepted then Bump(depth, p.write) else p.write,
      if popped then Bump(depth, p.read) else p.read,
      if accepted && !popped then p.count + 1 else if popped && !accepted then p.count - 1 else p.count,
      if accepted then e.timestamp else if popped && p.count == 1 then 0 else p.last)
  }

  function RingNext(depth: nat, r: Ring, push: bool, e: Event, pop: bool): Ring
    requires Sane(depth, r)
  {
    Ring(if Accepts(depth, r.p, push, e) then r.mem[r.p.write := e] else r.mem,
         NextPointers(depth, r.p, push, e, pop))
  }

  function Cleared(r: Ring): Ring {
    Ring(r.mem, Pointers(0, 0, 0, 0))
  }

  /** A queue of events as its users see it. */
  function AfterClock(depth: nat, c: seq<Event>, push: bool, e: Event, pop: bool): seq<Event> {
    (if pop && c != [] then c[1..] else c) + (if Takes(depth, c, push, e) then [e] else [])
  }

  predicate Takes(depth: nat, c: seq<Event>, push: bool, e: Event) {
    push && |c| < depth && (c == [] || e.timestamp >= c[|c| - 1].timestamp)
  }

  lemma SaneStep(depth: nat, r: Ring, push: bool, e: Event, pop: bool)
    requires Sane(depth, r)
    ensures Sane(depth, RingNext(depth, r, push, e, pop))
  {
  }

  /** The circular memory refines a plain sequence, for every depth and every
      combination of push and pop; what it accepts stays ordered by time. */
  lemma Refines(depth: nat, r: Ring, push: bool, e: Event, pop: bool)
    requires Valid(depth, r)
    ensures var n := RingNext(depth, r, push, e, pop);
            && Valid(depth, n)
            && Contents(depth, n) == AfterClock(depth, Contents(depth, r), push, e, pop)
            && (Accepts(depth, r.p, push, e) <==> Takes(depth, Contents(depth, r), push, e))
    ensures Head(depth, r) == if Contents(depth, r) == [] then NO_EVENT else Contents(depth, r)[0]
  {
    SaneStep(depth, r, push, e, pop);
    var n := RingNext(depth, r, push, e, pop);
    var c, after := Contents(depth, r), AfterClock(depth, Contents(depth, r), push, e, pop);
    forall k | 0 <= k < n.p.count ensures Contents(depth, n)[k] == after[k] {
      StoredAt(depth, r, push, e, pop, k);
    }
    assert Contents(depth, n) == after;
    SortedAfter(depth, c, push, e, pop);
  }

  lemma StoredAt(depth: nat, r: Ring, push: bool, e: Event, pop: bool, k: nat)
    requires Sane(depth, r) && Sane(depth, RingNext(depth, r, push, e, pop))
    requires Accepts(depth, r.p, push, e) <==> Takes(depth, Contents(depth, r), push, e)
    requires k < RingNext(depth, r, push, e, pop).p.count
    ensures |AfterClock(depth, Contents(depth, r), push, e, pop)| == RingNext(depth, r, push, e, pop).p.count
    ensures Contents(depth, RingNext(depth, r, push, e, pop))[k] ==
            AfterClock(depth, Contents(depth, r), push, e, pop)[k]
  {
    var n := RingNext(depth, r, push, e, pop);
    var was := if pop && r.p.count > 0 then k + 1 else k;
    if was < r.p.count {
      assert Slot(depth, n.p.read, k) == Slot(depth, r.p.read, was);
      assert Accepts(depth, r.p, push, e) ==> Slot(depth, r.p.read, was) != r.p.write;
    } else {
      assert Slot(depth, n.p.read, k) == r.p.write;
    }
  }

  lemma SortedAfter(depth: nat, c: seq<Event>, push: bool, e: Event, pop: bool)
    requires Sorted(c)
    ensures Sorted(AfterClock(depth, c, push, e, pop))
  {
    var rest := if pop && c != [] then c[1..] else c;
    assert Sorted(rest);
    if Takes(depth, c, push, e) {
      forall i | 0 <= i < |rest| ensures rest[i].timestamp <= e.timestamp {
        assert c[|c| - 1].timestamp <= e.timestamp;
      }
    }
  }

  lemma ClearedValid(depth: nat, r: Ring)
    requires depth >= 1 && |r.mem| == depth
    ensures Valid(depth, Cleared(r)) && Contents(depth, Cleared(r)) == []
  {
  }
}

/** Digital outputs, bit by bit over a run. */
module OutputBits {
  import opened Words
  import opened EventRing

  /** What one clock does to the outputs: keep them, force them to the safe value,
      or write the masked bits of an event. */
  datatype Action = Hold | Force(safe: u32) | Write(mask: u32, value: u32)

  /** Whether an action decides output bit `k`, and what it makes it. */
  predicate Decides(a: Action, k: nat) {
    a.Force? || (a.Write? && Bit(a.mask, k))
  }

  predicate Given(a: Action, k: nat) {
    if a.Force? then Bit(a.safe, k) else a.Write? && Bit(a.value, k)
  }

  predicate Acts(before: u32, a: Action, after: u32) {
    forall k: nat :: k < 32 ==> (Bit(after, k) <==> if Decides(a, k) then Given(a, k) else Bit(before, k))
  }

  ghost predicate Follows(outs: seq<u32>, actions: seq<Action>) {
    |outs| == |actions| + 1 && forall j :: 0 <= j < |actions| ==> Acts(outs[j], actions[j], outs[j + 1])
  }

  lemma MaskedActs(dio: u32, mask: u32, value: u32)
    ensures Acts(dio, Write(mask, value), Masked(dio, mask, value))
  {
  }

  lemma HoldActs(dio: u32)
    ensures Acts(dio, Hold, dio)
  {
  }

  lemma ForceActs(dio: u32, safe: u32)
    ensures Acts(dio, Force(safe), safe)
  {
  }

  lemma FollowsOneMore(outs: seq<u32>, actions: seq<Action>, a: Action, out: u32)
    requires Follows(outs, actions) && Acts(outs[|actions|], a, out)
    ensures Follows(outs + [out], actions + [a])
  {
    hide Acts;
  }

  /** Every output bit shows what the last action that decided it gave, and keeps
      what it was before the run if there is none. */
  lemma {:induction false} LastDecides(outs: seq<u32>, actions: seq<Action>, n: nat, k: nat) returns (j: int)
    requires Follows(outs, actions) && n < |outs| && k < 32
    ensures -1 <= j < n && forall i :: j < i < n ==> !Decides(actions[i], k)
    ensures j >= 0 ==> Decides(actions[j], k) && (Bit(outs[n], k) <==> Given(actions[j], k))
    ensures j < 0 ==> (Bit(outs[n], k) <==> Bit(outs[0], k))
  {
    hide Bit, Decides, Given;
    if n == 0 {
      j := -1;
    } else {
      assert Acts(outs[n - 1], actions[n - 1], outs[n]);
      if Decides(actions[n - 1], k) {
        j := n - 1;
      } else {
        j := LastDecides(outs, actions, n - 1, k);
      }
    }
  }
}

/** Sticky flags over a run. */
module Latches {
  /** A flag that is set and cleared by clocks; setting wins. */
  ghost predicate Latched(flags: seq<bool>, sets: seq<bool>, clears: seq<bool>) {
    && |flags| == |sets| + 1 == |clears| + 1
    && forall j :: 0 <= j < |sets| ==> flags[j + 1] == (sets[j] || (flags[j] && !clears[j]))
  }

  lemma LatchedOneMore(flags: seq<bool>, sets: seq<bool>, clears: seq<bool>, happens: bool, clear: bool, flag: bool)
    requires Latched(flags, sets, clears) && flag == (happens || (flags[|sets|] && !clear))
    ensures Latched(flags + [flag], sets + [happens], clears + [clear])
  {
  }

  /** It is up exactly if it has been set since it was last cleared. */
  ghost predicate SetSince(flags: seq<bool>, sets: seq<bool>, clears: seq<bool>, n: nat)
    requires |flags| == |sets| + 1 == |clears| + 1 && n < |flags|
  {
    || (exists j :: 0 <= j < n && sets[j] && forall i :: j < i < n ==> !clears[i])
    || (flags[0] && forall i :: 0 <= i < n ==> !clears[i])
  }

  lemma {:induction false} UpWhenSet(flags: seq<bool>, sets: seq<bool>, clears: seq<bool>, n: nat)
    requires Latched(flags, sets, clears) && n < |flags|
    ensures flags[n] <==> SetSince(flags, sets, clears, n)
  {
    if n == 0 {
    } else {
      UpWhenSet(flags, sets, clears, n - 1);
      if flags[n] && !sets[n - 1] && !(flags[0] && forall i :: 0 <= i < n - 1 ==> !clears[i]) {
        var j :| 0 <= j < n - 1 && sets[j] && forall i :: j < i < n - 1 ==> !clears[i];
        assert forall i :: j < i < n ==> !clears[i];
      }
    }
  }
}

/** What became of accepted events. */
module EventFates {
  import opened EventRing

  datatype Fate = Applied(event: Event, at: nat) | Flushed(event: Event)

  function Events(log: seq<Fate>): (r: seq<Event>)
    ensures |r| == |log|
  {
    seq(|log|, k requires 0 <= k < |log| => log[k].event)
  }

  function AllFlushed(c: seq<Event>): (r: seq<Fate>)
    ensures |r| == |c|
  {
    seq(|c|, k requires 0 <= k < |c| => Flushed(c[k]))
  }

  predicate NeverEarly(log: seq<Fate>) {
    forall k :: 0 <= k < |log| && log[k].Applied? ==> log[k].at >= log[k].event.timestamp
  }

  lemma Regroup(accepted: seq<Event>, more: seq<Event>, log: seq<Fate>, fates: seq<Fate>, before: seq<Event>,
                after: seq<Event>)
    requires accepted == Events(log) + before && before + more == Events(fates) + after
    ensures accepted + more == Events(log + fates) + after
    ensures NeverEarly(log) && NeverEarly(fates) ==> NeverEarly(log + fates)
  {
    assert Events(log + fates) == Events(log) + Events(fates);
    assert accepted + more == Events(log) + (before + more);
  }
}

/** hil_event_queue.v: the ring with a flush and sticky error latches. */
module EventQueue {
  import opened Words
  import opened EventRing

  datatype Queue = Queue(ring: Ring, overflow: bool, orderError: bool)

  datatype Inputs = Inputs(clear: bool, clearErrors: bool, push: bool, event: Event, pop: bool)

  function QueueNext(depth: nat, q: Queue, i: Inputs): Queue
    requires Sane(depth, q.ring)
  {
    var refused := !i.clear && i.push;
    var full := q.ring.p.count >= depth;
    Queue(
      if i.clear then Cleared(q.ring) else RingNext(depth, q.ring, i.push, i.event, i.pop),
      (refused && full) || (q.overflow && !i.clearErrors),
      (refused && !full && !OrderOk(q.ring.p, i.event)) || (q.orderError && !i.clearErrors))
  }

  /** Nothing is lost silently: an event pushed without a flush is either the
      newest one in the queue or has raised a latch that says why. */
  lemma RefusalLatched(depth: nat, q: Queue, i: Inputs)
    requires Valid(depth, q.ring) && i.push && !i.clear
    ensures var c, n := Contents(depth, q.ring), QueueNext(depth, q, i);
            && Valid(depth, n.ring)
            && if |c| < depth && (c == [] || i.event.timestamp >= c[|c| - 1].timestamp)
               then Contents(depth, n.ring) != [] && Contents(depth, n.ring)[|Contents(depth, n.ring)| - 1] == i.event
               else if |c| == depth then n.overflow else n.orderError
  {
    Refines(depth, q.ring, i.push, i.event, i.pop);
  }

  class HilEventQueue {
    const depth: nat
    var mem: array<Event>
    var p: Pointers
    var overflow: bool
    var orderError: bool

    function State(): Queue
      reads this, mem
    {
      Queue(Ring(mem[..], p), overflow, orderError)
    }

    constructor (depth: nat)
      requires depth >= 1
      ensures this.depth == depth && fresh(mem) && Valid(depth, State().ring)
      ensures State() == Queue(Ring(mem[..], Pointers(0, 0, 0, 0)), false, false)
    {
      this.depth := depth;
      mem := new Event[depth](_ => NO_EVENT);
      p, overflow, orderError := Pointers(0, 0, 0, 0), false, false;
    }

    method Clock(i: Inputs)
      requires Sane(depth, State().ring)
      modifies this, mem
      ensures mem == old(mem) && State() == QueueNext(depth, old(State()), i)
    {
      var full := p.count >= depth;
      var pushOrderOk := p.count == 0 || i.event.timestamp >= p.last;
      var acceptPush := i.push && !full && pushOrderOk;
      var acceptPop := i.pop && p.count != 0;
      var n := p;
      if i.clearErrors {
        overflow, orderError := false, false;
      }
      if i.clear {
        n := Pointers(0, 0, 0, 0);
      } else {
        if i.push {
          if full {
            overflow := true;
          } else if !pushOrderOk {
            orderError := true;
          } else {
            mem[p.write] := i.event;
            n := n.(write := if p.write == depth - 1 then 0 else p.write + 1, last := i.event.timestamp);
          }
        }
        if acceptPop {
          n := n.(read := if p.read == depth - 1 then 0 else p.read + 1);
          if !acceptPush && p.count == 1 {
            n := n.(last := 0);
          }
        }
        n := n.(count := if acceptPush && !acceptPop then p.count + 1
                else if acceptPop && !acceptPush then p.count - 1 else p.count);
      }
      p := n;
    }
  }
}
