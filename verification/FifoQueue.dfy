/** The lock-protected regions of the FIFO scheduler's queue (src/scheduler.rs).

    Each region runs under the queue lock, so it is one atomic step of the
    protocol in `Fifo`. Its meaning is a function on the value `Queue`; the
    class `SharedQueue` holds the fields of `FifoQueue` and is proved to do
    exactly that, with the ring buffer of `Ring` as its storage. */
module FifoQueue {
  import opened Prelude

  /** A queued event. `index` is its place in the accept order and names its ticket. */
  datatype Job<+E> = Job(event: E, index: nat)

  /** The fields of `FifoQueue`; a waiter is named by its completion. */
  datatype Queue<+E> = Queue(events: seq<Job<E>>, draining: bool, terminated: bool, room: seq<nat>)

  /** What the locked part of `offer` decided. */
  datatype Verdict<+E> =
    | Closed                  // the machine no longer runs events
    | Full                    // busy, and no slot left
    | Queued                  // busy: the drainer will run it
    | Behind(older: Job<E>)   // idle with events left over: drain, starting with the oldest
    | Direct                  // idle and empty: drain, starting with this event

  /** Registers a waiter once. */
  function Register(room: seq<nat>, waiter: Option<nat>): seq<nat> {
    if waiter.Some? && waiter.value !in room then room + [waiter.value] else room
  }

  function Without(room: seq<nat>, waiter: nat): (r: seq<nat>)
    ensures waiter !in r
    ensures forall c :: c in r <==> c in room && c != waiter
    ensures Distinct(room) ==> Distinct(r)
  {
    if room == [] then []
    else if room[0] == waiter then Without(room[1..], waiter)
    else
      var rest := Without(room[1..], waiter);
      assert Distinct(room) ==> Distinct(room[1..]) && room[0] !in rest;
      [room[0]] + rest
  }

  function Offer<E>(q: Queue<E>, capacity: nat, job: Job<E>, waiter: Option<nat>): (r: (Queue<E>, Verdict<E>))
  {
    if q.terminated then
      (q, Closed)
    else if q.draining then
      if |q.events| == capacity
      then (q.(room := Register(q.room, waiter)), Full)
      else (q.(events := q.events + [job]), Queued)
    else if q.events != [] then
      (q.(draining := true, events := q.events[1..] + [job]), Behind(q.events[0]))
    else
      (q.(draining := true), Direct)
  }

  /** One turn of the drain loop: publish `terminated`, take the next event and all waiters. */
  function TakeNext<E>(q: Queue<E>, terminated: bool): (r: (Queue<E>, Option<Job<E>>, seq<nat>))
  {
    if q.events == []
    then (Queue([], false, terminated, []), None, q.room)
    else (Queue(q.events[1..], q.draining, terminated, []), Some(q.events[0]), q.room)
  }

  /** The unwinding drainer's turn: hand draining on, and strand everything if the machine closed. */
  function HandOff<E>(q: Queue<E>, terminated: bool): (r: (Queue<E>, seq<nat>, seq<Job<E>>))
  {
    var closed := q.terminated || terminated;
    if closed
    then (Queue([], false, closed, []), q.room, q.events)
    else (Queue(q.events, false, closed, []), q.room, [])
  }
}

/** The class form of the same regions. */
module FifoCell {
  import opened Prelude
  import opened FifoQueue
  import Ring

  class SharedQueue<E> {
    const events: Ring.EventQueue<Job<E>>
    var draining: bool
    var terminated: bool
    var room: seq<nat>

    ghost predicate Valid()
      reads this, events, events.events
    {
      events.Valid() && events.capacity > 0
    }

    ghost function View(): Queue<E>
      requires Valid()
      reads this, events, events.events
    {
      Queue(events.Contents(), draining, terminated, room)
    }

    constructor (capacity: nat, max: nat, terminated: bool)
      requires 0 < capacity <= max
      ensures Valid() && fresh(events) && fresh(events.events) && events.capacity == capacity
      ensures View() == Queue([], false, terminated, [])
    {
      events := new Ring.EventQueue(capacity, max);
      draining, this.terminated, room := false, terminated, [];
    }

    /** `offer` up to the point where it releases the queue lock; `lost` means
        that a `defer` into a ring with a free slot failed. */
    method Offer(job: Job<E>, waiter: Option<nat>) returns (verdict: Verdict<E>, lost: bool)
      requires Valid()
      modifies this, events, events.events
      ensures Valid() && !lost
      ensures (View(), verdict) == FifoQueue.Offer(old(View()), events.capacity, job, waiter)
      ensures verdict.Closed? <==> old(terminated)
      ensures verdict.Full? <==> !old(terminated) && old(draining) && |old(events.Contents())| == events.capacity
      ensures verdict.Queued? ==> events.Contents() == old(events.Contents()) + [job]
    {
      lost := false;
      if terminated {
        return Closed, false;
      }
      if draining {
        if events.len == events.capacity {
          if waiter.Some? {
            var known := false;
            for i := 0 to |room|
              invariant known <==> waiter.value in room[..i]
            {
              if room[i] == waiter.value {
                known := true;
              }
            }
            assert room[..|room|] == room;
            if !known {
              room := room + [waiter.value];
            }
          }
          return Full, false;
        }
        var ok := events.Defer(job);
        if !ok {
          return Closed, true;
        }
        return Queued, false;
      }
      draining := true;
      var older := events.Pop();
      if older.Some? {
        var ok := events.Defer(job);
        lost := !ok;
        return Behind(older.value), lost;
      }
      return Direct, false;
    }

    /** The locked part of one turn of the `drain` loop. */
    method TakeNext(terminated: bool) returns (next: Option<Job<E>>, waiting: seq<nat>)
      requires Valid()
      modifies this, events, events.events
      ensures Valid()
      ensures (View(), next, waiting) == FifoQueue.TakeNext(old(View()), terminated)
    {
      this.terminated := terminated;
      next := events.Pop();
      if next.None? {
        draining := false;
      }
      waiting := room;
      room := [];
    }

    /** The locked part of `Unwinding::drop`. */
    method HandOff(terminated: bool) returns (waiting: seq<nat>, stranded: seq<Job<E>>)
      requires Valid()
      modifies this, events, events.events
      ensures Valid()
      ensures (View(), waiting, stranded) == FifoQueue.HandOff(old(View()), terminated)
    {
      draining := false;
      this.terminated := this.terminated || terminated;
      stranded := [];
      if this.terminated {
        ghost var all := events.Contents();
        var next := events.Pop();
        while next.Some?
          invariant Valid()
          invariant stranded <= all
          invariant next.Some? ==> stranded + [next.value] <= all && events.Contents() == all[|stranded| + 1..]
          invariant next.None? ==> stranded == all && events.Contents() == []
          invariant this.terminated && !draining && room == old(room)
          decreases events.len, next.Some?
        {
          stranded := stranded + [next.value];
          next := events.Pop();
        }
      }
      waiting := room;
      room := [];
    }

    /** `forget`: withdraws a registration. */
    method Forget(waiter: nat)
      requires Valid()
      modifies this`room
      ensures Valid() && View() == old(View()).(room := Without(old(room), waiter))
    {
      var kept: seq<nat> := [];
      var i := 0;
      ghost var all := room;
      while i < |room|
        invariant 0 <= i <= |room| && room == all
        invariant Without(all, waiter) == kept + Without(all[i..], waiter)
      {
        assert all[i..][1..] == all[i + 1..];
        if room[i] != waiter {
          kept := kept + [room[i]];
        }
        i := i + 1;
      }
      assert all[i..] == [];
      room := kept;
    }
  }
}
