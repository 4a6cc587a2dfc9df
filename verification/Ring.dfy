/** The bounded two-ended ring buffer of src/utility.rs (`EventQueue`).

    `Push`, `Unshift`, `Shift` are the sequence-level meaning of `defer`,
    `process` and `pop`; the class is the array ring, and every method is
    proved against them. */
module Ring {
  import opened Prelude

  /** Meaning of `defer`: append at the tail, or `None` for `QueueFull`. */
  function Push<E>(capacity: nat, s: seq<E>, event: E): (r: Option<seq<E>>)
    ensures r.Some? <==> |s| != capacity && capacity != 0
  {
    if |s| == capacity || capacity == 0 then None else Some(s + [event])
  }

  /** Meaning of `process`: put at the head, or `None` for `QueueFull`. */
  function Unshift<E>(capacity: nat, s: seq<E>, event: E): (r: Option<seq<E>>)
    ensures r.Some? <==> |s| != capacity && capacity != 0
  {
    if |s| == capacity || capacity == 0 then None else Some([event] + s)
  }

  /** `usize::saturating_add` and `usize::saturating_sub` on a machine whose largest `usize` is `max`. */
  function SaturatingAdd(a: nat, b: nat, max: nat): nat {
    if a + b <= max then a + b else max
  }

  function SaturatingSub(a: nat, b: nat): nat {
    if b <= a then a - b else 0
  }

  /** Where `defer` puts an event, computed without adding two large values. */
  function Tail(capacity: nat, max: nat, head: nat, len: nat): nat {
    if head >= SaturatingSub(capacity, len)
    then SaturatingSub(head, SaturatingSub(capacity, len))
    else SaturatingAdd(head, len, max)
  }

  /** It is the slot `len` behind the head, and no saturating operation of the ring saturates. */
  lemma TailIsSlot(capacity: nat, max: nat, head: nat, len: nat)
    requires head < capacity <= max && len < capacity
    ensures Tail(capacity, max, head, len) == (if head + len < capacity then head + len else head + len - capacity)
    ensures Tail(capacity, max, head, len) == (head + len) % capacity
    ensures SaturatingSub(capacity, len) == capacity - len && SaturatingAdd(len, 1, max) == len + 1
    ensures if head >= capacity - len then SaturatingSub(head, capacity - len) == head - (capacity - len)
            else SaturatingAdd(head, len, max) == head + len
    ensures SaturatingAdd(head, 1, max) == head + 1 && SaturatingSub(capacity, 1) == capacity - 1
  {
    if head + len >= capacity {
      Wrap(head + len - capacity, capacity);
    }
  }

  lemma Wrap(k: nat, n: nat)
    requires k < n
    ensures (k + n) % n == k
  {
  }

  // ---- Any sequence of operations ---------------------------------------------------------

  datatype Op<+E> = Defer(event: E) | Process(event: E) | Pop | Clear

  datatype Reply<+E> = Queued | QueueFull | Popped(event: Option<E>) | Cleared

  function Step<E>(capacity: nat, s: seq<E>, op: Op<E>): (seq<E>, Reply<E>) {
    match op
    case Defer(e) => (match Push(capacity, s, e) case None => (s, QueueFull) case Some(s') => (s', Queued))
    case Process(e) => (match Unshift(capacity, s, e) case None => (s, QueueFull) case Some(s') => (s', Queued))
    case Pop => if s == [] then (s, Popped(None)) else (s[1..], Popped(Some(s[0])))
    case Clear => ([], Cleared)
  }

  function Steps<E>(capacity: nat, s: seq<E>, ops: seq<Op<E>>): (r: (seq<E>, seq<Reply<E>>))
    ensures |r.1| == |ops|
    decreases |ops|
  {
    if ops == [] then (s, [])
    else
      var (s1, reply) := Step(capacity, s, ops[0]);
      var (s2, replies) := Steps(capacity, s1, ops[1..]);
      (s2, [reply] + replies)
  }

  function AcceptedBy<E>(op: Op<E>, reply: Reply<E>): seq<E> {
    if reply.Queued? && (op.Defer? || op.Process?) then [op.event] else []
  }

  function TakenBy<E>(reply: Reply<E>): seq<E> {
    if reply.Popped? && reply.event.Some? then [reply.event.value] else []
  }

  /** The events that a run queued, in order. */
  function Accepted<E>(ops: seq<Op<E>>, replies: seq<Reply<E>>): seq<E>
    requires |ops| == |replies|
  {
    if ops == [] then [] else AcceptedBy(ops[0], replies[0]) + Accepted(ops[1..], replies[1..])
  }

  /** The events that a run popped, in order. */
  function Taken<E>(replies: seq<Reply<E>>): seq<E> {
    if replies == [] then [] else TakenBy(replies[0]) + Taken(replies[1..])
  }

  lemma StepConserves<E>(capacity: nat, s: seq<E>, op: Op<E>)
    ensures var (s1, reply) := Step(capacity, s, op);
            && (|s| <= capacity ==> |s1| <= capacity)
            && (op.Defer? || op.Pop? ==> s + AcceptedBy(op, reply) == TakenBy(reply) + s1)
            && (!op.Clear? ==> multiset(s) + multiset(AcceptedBy(op, reply)) == multiset(TakenBy(reply)) + multiset(s1))
  {
    if op.Pop? && s != [] {
      assert s == [s[0]] + s[1..];
    }
  }

  /** Two balanced steps make a balanced run. */
  lemma Chain<E>(s: seq<E>, a: seq<E>, accepted: seq<E>, t: seq<E>, s1: seq<E>, taken: seq<E>, s2: seq<E>)
    requires s + a == t + s1 && s1 + accepted == taken + s2
    ensures s + (a + accepted) == (t + taken) + s2
  {
    assert s + (a + accepted) == (s + a) + accepted == t + (s1 + accepted) == t + (taken + s2) == (t + taken) + s2;
  }

  lemma ChainBags<E>(s: seq<E>, a: seq<E>, accepted: seq<E>, t: seq<E>, s1: seq<E>, taken: seq<E>, s2: seq<E>)
    requires multiset(s) + multiset(a) == multiset(t) + multiset(s1)
    requires multiset(s1) + multiset(accepted) == multiset(taken) + multiset(s2)
    ensures multiset(s) + multiset(a + accepted) == multiset(t + taken) + multiset(s2)
  {
    var before, middle, after := multiset(s), multiset(s1), multiset(s2);
    assert multiset(a + accepted) == multiset(a) + multiset(accepted);
    assert multiset(t + taken) == multiset(t) + multiset(taken);
    assert before + (multiset(a) + multiset(accepted)) == (before + multiset(a)) + multiset(accepted);
    assert (multiset(t) + middle) + multiset(accepted) == multiset(t) + (middle + multiset(accepted));
    assert multiset(t) + (multiset(taken) + after) == (multiset(t) + multiset(taken)) + after;
  }

  /** Used with `defer` and `pop` alone, the queue is first in, first out. */
  lemma {:induction false} RunsAreFifo<E>(capacity: nat, s: seq<E>, ops: seq<Op<E>>)
    requires |s| <= capacity && forall i :: 0 <= i < |ops| ==> ops[i].Defer? || ops[i].Pop?
    ensures var (s', replies) := Steps(capacity, s, ops);
            |s'| <= capacity && s + Accepted(ops, replies) == Taken(replies) + s'
    decreases |ops|
  {
    if ops != [] {
      StepConserves(capacity, s, ops[0]);
      var (s1, reply) := Step(capacity, s, ops[0]);
      RunsAreFifo(capacity, s1, ops[1..]);
      var (s2, replies) := Steps(capacity, s1, ops[1..]);
      assert ([reply] + replies)[1..] == replies;
      Chain(s, AcceptedBy(ops[0], reply), Accepted(ops[1..], replies), TakenBy(reply), s1, Taken(replies), s2);
    }
  }

  /** Without `clear` no event is lost or doubled. */
  lemma {:induction false} RunsConserve<E>(capacity: nat, s: seq<E>, ops: seq<Op<E>>)
    requires |s| <= capacity && forall i :: 0 <= i < |ops| ==> !ops[i].Clear?
    ensures var (s', replies) := Steps(capacity, s, ops);
            && |s'| <= capacity
            && multiset(s) + multiset(Accepted(ops, replies)) == multiset(Taken(replies)) + multiset(s')
    decreases |ops|
  {
    if ops != [] {
      StepConserves(capacity, s, ops[0]);
      var (s1, reply) := Step(capacity, s, ops[0]);
      RunsConserve(capacity, s1, ops[1..]);
      var (s2, replies) := Steps(capacity, s1, ops[1..]);
      assert ([reply] + replies)[1..] == replies;
      ChainBags(s, AcceptedBy(ops[0], reply), Accepted(ops[1..], replies), TakenBy(reply), s1, Taken(replies), s2);
    }
  }

  class EventQueue<E> {
    const capacity: nat
    /** The largest `usize`. */
    const max: nat
    const events: array<Option<E>>
    var head: nat
    var len: nat

    /** The slot that holds the `i`-th oldest event. */
    ghost function Slot(i: nat): (k: nat)
      requires head < capacity && i <= capacity
      reads this`head
      ensures k < capacity
    {
      if head + i < capacity then head + i else head + i - capacity
    }

    lemma SlotIsModular(i: nat)
      requires head < capacity && i <= capacity
      ensures Slot(i) == (head + i) % capacity
    {
      if head + i >= capacity {
        Wrap(head + i - capacity, capacity);
      }
    }

    /** How far slot `k` lies behind the head. */
    ghost function Offset(k: nat): nat
      requires head < capacity && k < capacity
      reads this`head
    {
      if k >= head then k - head else k + capacity - head
    }

    /** Exactly the `len` slots from `head` on hold an event. */
    ghost predicate Valid()
      reads this, events
    {
      && events.Length == capacity <= max
      && len <= capacity
      && head <= capacity
      && (capacity > 0 ==> head < capacity)
      && (forall k: nat :: k < capacity ==> (events[k].Some? <==> Offset(k) < len))
    }

    ghost function Contents(): (s: seq<E>)
      requires Valid()
      reads this, events
      ensures |s| == len <= capacity
    {
      seq(len, i requires 0 <= i < len && Valid() reads this, events => events[Slot(i)].value)
    }

    constructor (capacity: nat, max: nat)
      requires capacity <= max
      ensures Valid() && fresh(events) && this.capacity == capacity && this.max == max && Contents() == []
    {
      this.capacity := capacity;
      this.max := max;
      events := new Option<E>[capacity](_ => None);
      head, len := 0, 0;
    }

    method Defer(event: E) returns (ok: bool)
      requires Valid()
      modifies this`len, events
      ensures Valid()
      ensures match Push(capacity, old(Contents()), event)
              case None => !ok && Contents() == old(Contents())
              case Some(s) => ok && Contents() == s
    {
      if len == capacity || capacity == 0 {
        return false;
      }
      var tail := Tail(capacity, max, head, len);
      TailIsSlot(capacity, max, head, len);
      if tail >= events.Length {
        return false;
      }
      assert tail == Slot(len);
      ghost var was := Contents();
      events[tail] := Some(event);
      len := SaturatingAdd(len, 1, max);
      assert forall k: nat :: k < capacity ==> (events[k].Some? <==> Offset(k) < len);
      assert forall i: nat :: i < |was| ==> Slot(i) != tail;
      assert Contents() == was + [event];
      ok := true;
    }

    method Process(event: E) returns (ok: bool)
      requires Valid()
      modifies this, events
      ensures Valid()
      ensures match Unshift(capacity, old(Contents()), event)
              case None => !ok && Contents() == old(Contents())
              case Some(s) => ok && Contents() == s
    {
      if len == capacity || capacity == 0 {
        return false;
      }
      var newHead := if head == 0 then SaturatingSub(capacity, 1) else SaturatingSub(head, 1);
      if newHead >= events.Length {
        return false;
      }
      ghost var was := Contents();
      ghost var oldHead := head;
      head := newHead;
      events[newHead] := Some(event);
      len := SaturatingAdd(len, 1, max);
      assert forall k: nat :: k < capacity ==> (events[k].Some? <==> Offset(k) < len);
      assert forall i: nat :: 0 < i < len ==>
        Slot(i) == (if oldHead + (i - 1) < capacity then oldHead + (i - 1) else oldHead + (i - 1) - capacity);
      assert Contents() == [event] + was;
      ok := true;
    }

    method Pop() returns (event: Option<E>)
      requires Valid()
      modifies this, events
      ensures Valid()
      ensures if old(Contents()) == []
              then event == None && Contents() == []
              else event == Some(old(Contents())[0]) && Contents() == old(Contents())[1..]
    {
      if len == 0 {
        return None;
      }
      if head >= events.Length {
        return None;
      }
      event := events[head];
      if event.None? {
        return None;
      }
      ghost var was := Contents();
      ghost var oldHead := head;
      events[head] := None;
      head := if head == SaturatingSub(capacity, 1) then 0 else SaturatingAdd(head, 1, max);
      len := SaturatingSub(len, 1);
      assert forall k: nat :: k < capacity ==> (events[k].Some? <==> Offset(k) < len);
      assert forall i: nat :: i < len ==>
        Slot(i) == (if oldHead + (i + 1) < capacity then oldHead + (i + 1) else oldHead + (i + 1) - capacity);
      assert Contents() == was[1..];
    }

    /** Any run of operations answers, and leaves the ring, like the run on the sequence. */
    method Run(ops: seq<Op<E>>) returns (replies: seq<Reply<E>>)
      requires Valid()
      modifies this, events
      ensures Valid() && (Contents(), replies) == Steps(capacity, old(Contents()), ops)
    {
      replies := [];
      var i := 0;
      ghost var all := Steps(capacity, Contents(), ops);
      assert ops[0..] == ops && [] + all.1 == all.1;
      while i < |ops|
        invariant i <= |ops| && Valid()
        invariant var (s, rest) := Steps(capacity, Contents(), ops[i..]); (s, replies + rest) == all
      {
        assert ops[i..][0] == ops[i] && ops[i..][1..] == ops[i + 1..];
        ghost var before := Contents();
        var reply := Apply(ops[i]);
        ghost var rest := Steps(capacity, Contents(), ops[i + 1..]).1;
        assert Steps(capacity, before, ops[i..]).1 == [reply] + rest;
        assert replies + ([reply] + rest) == (replies + [reply]) + rest;
        replies := replies + [reply];
        i := i + 1;
      }
      assert replies + [] == replies;
    }

    method Apply(op: Op<E>) returns (reply: Reply<E>)
      requires Valid()
      modifies this, events
      ensures Valid() && (Contents(), reply) == Step(capacity, old(Contents()), op)
    {
      match op {
        case Defer(e) =>
          var ok := this.Defer(e);
          reply := if ok then Queued else QueueFull;
        case Process(e) =>
          var ok := this.Process(e);
          reply := if ok then Queued else QueueFull;
        case Pop =>
          var event := this.Pop();
          reply := Popped(event);
        case Clear =>
          this.Clear();
          reply := Cleared;
      }
    }

    method Clear()
      requires Valid()
      modifies this, events
      ensures Valid() && Contents() == []
    {
      var next := Pop();
      while next.Some?
        invariant Valid()
        invariant next.None? ==> Contents() == []
        decreases len, next.Some?
      {
        next := Pop();
      }
    }
  }
}
