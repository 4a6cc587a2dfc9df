/** Order, conservation, single consumer and closing: what every step of the
    FIFO scheduler keeps about the queue, the drainer and the machine. */
module FifoOrder {
  import opened Prelude
  import opened FifoQueue
  import opened Fifo

  // ---- Sequential runs --------------------------------------------------------

  lemma RunAllExtend<M, E>(sys: Sys<M, E>, p: Sequential<M>, log: seq<E>, k: nat)
    requires k < |log|
    ensures RunAll(sys, p, log[..k + 1]) == RunOne(sys, RunAll(sys, p, log[..k]), log[k])
  {
    assert log[..k + 1][..k] == log[..k];
  }

  lemma {:induction false} ClosedRun<M, E>(sys: Sys<M, E>, p: Sequential<M>, log: seq<E>, k: nat)
    requires k <= |log| && RunAll(sys, p, log[..k]).closed
    ensures RunAll(sys, p, log) ==
            RunAll(sys, p, log[..k]).(results := RunAll(sys, p, log[..k]).results + Refusals(|log| - k))
    decreases |log|
  {
    if k == |log| {
      assert log[..k] == log;
      assert RunAll(sys, p, log).results + Refusals(0) == RunAll(sys, p, log).results;
    } else {
      var shorter := log[..|log| - 1];
      assert shorter[..k] == log[..k];
      ClosedRun(sys, p, shorter, k);
      assert Refusals(|log| - k) == Refusals(|log| - 1 - k) + [false];
    }
  }

  // ---- The invariant ----------------------------------------------------------

  predicate IsStarting<E>(pc: Pc<E>) {
    pc.Enter? || pc.Stepping? || (pc.Wake? && pc.next.Some?)
  }

  /** The event taken from the queue whose step has not finished. */
  function InFlight<E>(pc: Option<Pc<E>>): nat {
    if pc.Some? && IsStarting(pc.value) then 1 else 0
  }

  function JobOf<E>(pc: Pc<E>): Job<E>
    requires IsStarting(pc)
  {
    match pc
    case Enter(job, _) => job
    case Stepping(job) => job
    case Wake(_, next, _) => next.value
  }

  /** The drainer's program counter. */
  function HolderPc<M, E>(s: State<M, E>): Option<Pc<E>> {
    if s.h.holder.Some? && s.h.holder.value in s.calls && s.calls[s.h.holder.value].Draining?
    then Some(s.calls[s.h.holder.value].drain.pc) else None
  }

  /** What the drainer's local variables know, by program counter. */
  ghost predicate PcKnows<M, E>(sys: Sys<M, E>, machine: M, q: Queue<E>, pc: Option<Pc<E>>, done: seq<bool>,
                                closed: bool) {
    match pc
    case None => q.terminated == closed && (closed ==> q.events == [])
    case Some(Enter(_, t)) => t == closed && (q.terminated ==> closed)
    case Some(Stepping(_)) => !closed && !q.terminated
    case Some(Settle(job, b, t)) =>
      t == closed && (q.terminated ==> closed) && |done| == job.index + 1 && b == done[job.index]
    case Some(Turn(t)) => t == closed && (q.terminated ==> closed)
    case Some(Wake(_, next, t)) => next.Some? && t == closed == q.terminated
    case Some(Panicking(job)) =>
      closed == sys.isTerminated(machine) && !q.terminated && |done| == job.index + 1 && !done[job.index]
    case Some(Inspect) => closed == sys.isTerminated(machine) && !q.terminated
    case Some(Release(t)) => t == closed && !q.terminated
    case Some(Strand(_, _)) => false
  }

  /** The accept log is the finished events, the event in flight, then the ring. */
  ghost predicate Conserved<E>(q: Queue<E>, pc: Option<Pc<E>>, log: seq<E>, done: seq<bool>) {
    var k := |done| + InFlight(pc);
    && k + |q.events| == |log|
    && (forall i {:trigger q.events[i]} :: 0 <= i < |q.events| ==> q.events[i] == Job(log[k + i], k + i))
    && (pc.Some? && IsStarting(pc.value) ==> JobOf(pc.value) == Job(log[|done|], |done|))
  }

  ghost predicate Ordered<M, E>(sys: Sys<M, E>, p: Sequential<M>, machine: M, q: Queue<E>, pc: Option<Pc<E>>,
                                log: seq<E>, done: seq<bool>) {
    && |q.events| <= sys.capacity
    && q.draining == pc.Some?
    && Conserved(q, pc, log, done)
    && var run := RunAll(sys, p, log[..|done|]);
    && run.machine == machine
    && run.results == done
    && PcKnows(sys, machine, q, pc, done, run.closed)
  }

  /** One caller at most is inside `drain`, and it is the one that set `draining`. */
  ghost predicate OneHolder<M, E>(s: State<M, E>) {
    && (s.h.holder.Some? ==> s.h.holder.value in s.calls && IsActive(s.calls[s.h.holder.value]))
    && (forall c :: c in s.calls && IsActive(s.calls[c]) ==> s.h.holder == Some(c))
  }

  ghost predicate OrderInv<M, E>(sys: Sys<M, E>, p: Sequential<M>, s: State<M, E>) {
    && p.results == []
    && sys.capacity > 0
    && s.calls.Keys <= s.h.submitted.Keys
    && |s.h.callers| == |s.h.log|
    && OneHolder(s)
    && Ordered(sys, p, s.machine, s.queue, HolderPc(s), s.h.log, s.h.done)
  }

  // ---- The steps on the ordered part ------------------------------------------

  lemma OfferOrdered<M, E>(sys: Sys<M, E>, p: Sequential<M>, machine: M, q: Queue<E>, pc: Option<Pc<E>>,
                           log: seq<E>, done: seq<bool>, event: E, waiter: Option<nat>)
    requires sys.capacity > 0
    requires Ordered(sys, p, machine, q, pc, log, done)
    ensures var job := Job(event, |log|);
            var (q', verdict) := FifoQueue.Offer(q, sys.capacity, job, waiter);
            match verdict
            case Closed => q' == q && RunAll(sys, p, log[..|done|]).closed
            case Full => Ordered(sys, p, machine, q', pc, log, done)
            case Queued => Ordered(sys, p, machine, q', pc, log + [event], done)
            case Behind(older) => Ordered(sys, p, machine, q', Some(Enter(older, false)), log + [event], done)
            case Direct => Ordered(sys, p, machine, q', Some(Enter(job, false)), log + [event], done)
  {
    assert (log + [event])[..|done|] == log[..|done|];
    assert log[..|done|] == log || |done| < |log|;
  }

  lemma EnterOrdered<M, E>(sys: Sys<M, E>, p: Sequential<M>, machine: M, q: Queue<E>, job: Job<E>, t: bool,
                           log: seq<E>, done: seq<bool>)
    requires Ordered(sys, p, machine, q, Some(Enter(job, t)), log, done)
    ensures if t then Ordered(sys, p, machine, q, Some(Settle(job, false, true)), log, done + [false])
            else Ordered(sys, p, machine, q, Some(Stepping(job)), log, done)
  {
    RunAllExtend(sys, p, log, |done|);
  }

  lemma ReturnOrdered<M, E>(sys: Sys<M, E>, p: Sequential<M>, machine: M, q: Queue<E>, job: Job<E>, log: seq<E>,
                            done: seq<bool>)
    requires Ordered(sys, p, machine, q, Some(Stepping(job)), log, done)
    ensures match sys.step(machine, job.event)
            case Returned(m, b) => Ordered(sys, p, m, q, Some(Settle(job, b, sys.isTerminated(m))), log, done + [b])
            case Panicked(m) => Ordered(sys, p, m, q, Some(Panicking(job)), log, done + [false])
  {
    RunAllExtend(sys, p, log, |done|);
  }

  lemma TurnOrdered<M, E>(sys: Sys<M, E>, p: Sequential<M>, machine: M, q: Queue<E>, t: bool, log: seq<E>,
                          done: seq<bool>)
    requires Ordered(sys, p, machine, q, Some(Turn(t)), log, done)
    ensures var (q', next, room) := TakeNext(q, t);
            && Ordered(sys, p, machine, q', if next.Some? then Some(Wake(room, next, t)) else None, log, done)
  {
    var (q', next, room) := TakeNext(q, t);
    if next.Some? {
      assert forall i {:trigger q'.events[i]} :: 0 <= i < |q'.events| ==> q'.events[i] == q.events[i + 1];
    }
  }

  lemma ReleaseOrdered<M, E>(sys: Sys<M, E>, p: Sequential<M>, machine: M, q: Queue<E>, t: bool, log: seq<E>,
                             done: seq<bool>)
    requires Ordered(sys, p, machine, q, Some(Release(t)), log, done)
    ensures var (q', room, stranded) := HandOff(q, t);
            Ordered(sys, p, machine, q', None, log, done + Refusals(|stranded|))
  {
    if t {
      ClosedRun(sys, p, log, |done|);
      assert log[..|log|] == log;
    } else {
      assert done + Refusals(0) == done;
    }
  }

  // ---- The steps on the state ---------------------------------------------------

  /** A caller outside the active part of `drain` changes nothing that is ordered. */
  lemma BystanderKeeps<M, E>(sys: Sys<M, E>, p: Sequential<M>, s: State<M, E>, s': State<M, E>, c: nat)
    requires OrderInv(sys, p, s)
    requires c in s.calls ==> !IsActive(s.calls[c])
    requires s'.calls.Keys - {c} == s.calls.Keys - {c}
    requires forall d :: d in s.calls && d in s'.calls && d != c ==> s'.calls[d] == s.calls[d]
    requires s'.calls.Keys <= s'.h.submitted.Keys
    requires c in s'.calls ==> !IsActive(s'.calls[c])
    requires s'.machine == s.machine && s'.queue.(room := s.queue.room) == s.queue
    requires s'.h.log == s.h.log && s'.h.callers == s.h.callers && s'.h.done == s.h.done && s'.h.holder == s.h.holder
    ensures OrderInv(sys, p, s')
  {
    forall d | d in s'.calls && IsActive(s'.calls[d])
      ensures s'.h.holder == Some(d)
    {
      assert d in s'.calls.Keys - {c};
    }
    if s.h.holder.Some? {
      assert s.h.holder.value in s.calls.Keys - {c};
    }
    assert HolderPc(s') == HolderPc(s);
  }

  /** The drainer moves on; `pc'` is where it is now, `None` once it let go. */
  lemma HolderKeeps<M, E>(sys: Sys<M, E>, p: Sequential<M>, s: State<M, E>, s': State<M, E>, c: nat,
                          pc': Option<Pc<E>>)
    requires OrderInv(sys, p, s)
    requires forall d :: d in s.calls && d != c ==> !IsActive(s.calls[d])
    requires s'.h.submitted == s.h.submitted && |s'.h.callers| == |s'.h.log|
    requires c in s.calls && c in s'.calls && s'.calls == s.calls[c := s'.calls[c]] && s'.calls[c].Draining?
    requires pc'.Some? ==> IsActive(s'.calls[c]) && s'.calls[c].drain.pc == pc'.value && s'.h.holder == Some(c)
    requires pc'.None? ==> !IsActive(s'.calls[c]) && s'.h.holder == None
    requires Ordered(sys, p, s'.machine, s'.queue, pc', s'.h.log, s'.h.done)
    ensures OrderInv(sys, p, s')
  {
    assert HolderPc(s') == pc';
  }

  lemma OfferKeepsOrder<M, E>(sys: Sys<M, E>, p: Sequential<M>, s: State<M, E>, c: nat)
    requires OrderInv(sys, p, s) && c in s.calls && s.calls[c].Offering?
    ensures OrderInv(sys, p, OfferStep(sys, s, c))
  {
    var call := s.calls[c];
    var waiter := if call.kind.Poll? then Some(c) else None;
    OfferOrdered(sys, p, s.machine, s.queue, HolderPc(s), s.h.log, s.h.done, call.event, waiter);
    var s' := OfferStep(sys, s, c);
    var (q, verdict) := FifoQueue.Offer(s.queue, sys.capacity, Job(call.event, |s.h.log|), waiter);
    match verdict {
      case Closed => RefusalKeepsOrder(sys, p, s, c);
      case Full => RefusalKeepsOrder(sys, p, s, c);
      case Queued => assert HolderPc(s') == HolderPc(s);
      case Behind(older) => OfferDrains(sys, p, s, c, older, q);
      case Direct => OfferDrains(sys, p, s, c, Job(call.event, |s.h.log|), q);
    }
  }

  lemma RefusalKeepsOrder<M, E>(sys: Sys<M, E>, p: Sequential<M>, s: State<M, E>, c: nat)
    requires OrderInv(sys, p, s) && c in s.calls && s.calls[c].Offering?
    requires s.queue.terminated || (s.queue.draining && |s.queue.events| == sys.capacity)
    ensures OrderInv(sys, p, OfferStep(sys, s, c))
  {
    BystanderKeeps(sys, p, s, OfferStep(sys, s, c), c);
  }

  /** The caller found the cell idle and becomes the drainer. */
  lemma OfferDrains<M, E>(sys: Sys<M, E>, p: Sequential<M>, s: State<M, E>, c: nat, job: Job<E>, q: Queue<E>)
    requires OrderInv(sys, p, s) && c in s.calls && s.calls[c].Offering? && !s.queue.terminated && !s.queue.draining
    requires q == FifoQueue.Offer(s.queue, sys.capacity, Job(s.calls[c].event, |s.h.log|), None).0
    requires job == if s.queue.events == [] then Job(s.calls[c].event, |s.h.log|) else s.queue.events[0]
    requires Ordered(sys, p, s.machine, q, Some(Enter(job, false)), s.h.log + [s.calls[c].event], s.h.done)
    ensures OrderInv(sys, p, OfferStep(sys, s, c))
  {
    HolderKeeps(sys, p, s, OfferStep(sys, s, c), c, Some(Enter(job, false)));
  }

  lemma CallWakerKeepsOrder<M, E>(sys: Sys<M, E>, p: Sequential<M>, s: State<M, E>, c: nat)
    requires OrderInv(sys, p, s) && c in s.calls && s.calls[c].Draining? && s.calls[c].drain.hand.Some?
    ensures OrderInv(sys, p, DrainStep(sys, s, c))
  {
    var s' := DrainStep(sys, s, c);
    if IsActive(s.calls[c]) {
      HolderKeeps(sys, p, s, s', c, HolderPc(s));
    } else {
      BystanderKeeps(sys, p, s, s', c);
    }
  }

  lemma SettleKeepsOrder<M, E>(sys: Sys<M, E>, p: Sequential<M>, s: State<M, E>, c: nat)
    requires OrderInv(sys, p, s) && c in s.calls && s.calls[c].Draining? && s.calls[c].drain.hand.None? &&
             s.calls[c].drain.pc.Settle?
    ensures OrderInv(sys, p, DrainStep(sys, s, c))
  {
    HolderKeeps(sys, p, s, DrainStep(sys, s, c), c, Some(Turn(s.calls[c].drain.pc.terminated)));
  }

  lemma PanickingKeepsOrder<M, E>(sys: Sys<M, E>, p: Sequential<M>, s: State<M, E>, c: nat)
    requires OrderInv(sys, p, s) && c in s.calls && s.calls[c].Draining? && s.calls[c].drain.hand.None? &&
             s.calls[c].drain.pc.Panicking?
    ensures OrderInv(sys, p, DrainStep(sys, s, c))
  {
    HolderKeeps(sys, p, s, DrainStep(sys, s, c), c, Some(Inspect));
  }

  lemma WakeKeepsOrder<M, E>(sys: Sys<M, E>, p: Sequential<M>, s: State<M, E>, c: nat, d: Drain<E>, kind: Kind)
    requires OrderInv(sys, p, s) && c in s.calls && s.calls[c] == Draining(d, kind) && d.pc.Wake? && d.pc.next.Some?
    ensures OrderInv(sys, p, WakeStep(s, c, d, kind))
  {
    assert IsActive(s.calls[c]);
    WakeGoesOn(s, c, d, kind);
    var s' := WakeStep(s, c, d, kind);
    HolderKeeps(sys, p, s, s', c, Some(s'.calls[c].drain.pc));
  }

  /** A drainer with a next event wakes one more waiter or starts that event. */
  lemma WakeGoesOn<M, E>(s: State<M, E>, c: nat, d: Drain<E>, kind: Kind)
    requires d.pc.Wake? && d.pc.next.Some?
    ensures var s' := WakeStep(s, c, d, kind);
            && s'.machine == s.machine && s'.queue == s.queue && s'.h == s.h
            && c in s'.calls && s'.calls == s.calls[c := s'.calls[c]] && s'.calls[c].Draining?
            && (var pc := s'.calls[c].drain.pc;
                || pc == Enter(d.pc.next.value, d.pc.terminated)
                || (pc.Wake? && pc.next == d.pc.next && pc.terminated == d.pc.terminated))
  {
  }

  lemma TurnKeepsOrder<M, E>(sys: Sys<M, E>, p: Sequential<M>, s: State<M, E>, c: nat, d: Drain<E>, kind: Kind)
    requires OrderInv(sys, p, s) && c in s.calls && s.calls[c] == Draining(d, kind) && d.pc.Turn?
    ensures OrderInv(sys, p, TakeTurn(s, c, d, kind))
  {
    var s' := TakeTurn(s, c, d, kind);
    assert IsActive(s.calls[c]);
    TurnOrdered(sys, p, s.machine, s.queue, d.pc.terminated, s.h.log, s.h.done);
    HolderKeeps(sys, p, s, s', c, if s'.h.holder.None? then None else Some(s'.calls[c].drain.pc));
  }

  lemma ReleaseKeepsOrder<M, E>(sys: Sys<M, E>, p: Sequential<M>, s: State<M, E>, c: nat, d: Drain<E>, kind: Kind)
    requires OrderInv(sys, p, s) && c in s.calls && s.calls[c] == Draining(d, kind) && d.pc.Release?
    ensures OrderInv(sys, p, ReleaseStep(s, c, d, kind))
  {
    assert IsActive(s.calls[c]);
    ReleaseOrdered(sys, p, s.machine, s.queue, d.pc.terminated, s.h.log, s.h.done);
    HolderKeeps(sys, p, s, ReleaseStep(s, c, d, kind), c, None);
  }

  lemma ActiveKeepsOrder<M, E>(sys: Sys<M, E>, p: Sequential<M>, s: State<M, E>, c: nat)
    requires OrderInv(sys, p, s) && c in s.calls && s.calls[c].Draining? && s.calls[c].drain.hand.None? &&
             IsActive(s.calls[c])
    ensures OrderInv(sys, p, DrainStep(sys, s, c))
  {
    var d := s.calls[c].drain;
    var s' := DrainStep(sys, s, c);
    match d.pc {
      case Settle(_, _, _) => SettleKeepsOrder(sys, p, s, c);
      case Panicking(_) => PanickingKeepsOrder(sys, p, s, c);
      case Wake(_, _, _) => WakeKeepsOrder(sys, p, s, c, d, s.calls[c].kind);
      case Enter(job, t) =>
        EnterOrdered(sys, p, s.machine, s.queue, job, t, s.h.log, s.h.done);
        HolderKeeps(sys, p, s, s', c, Some(s'.calls[c].drain.pc));
      case Stepping(job) =>
        ReturnOrdered(sys, p, s.machine, s.queue, job, s.h.log, s.h.done);
        HolderKeeps(sys, p, s, s', c, Some(s'.calls[c].drain.pc));
      case Turn(t) => TurnKeepsOrder(sys, p, s, c, d, s.calls[c].kind);
      case Release(t) => ReleaseKeepsOrder(sys, p, s, c, d, s.calls[c].kind);
      case Inspect =>
        HolderKeeps(sys, p, s, s', c, Some(s'.calls[c].drain.pc));
    }
  }

  /** After the drainer let go it only wakes and resolves. */
  lemma TrailingKeepsOrder<M, E>(sys: Sys<M, E>, p: Sequential<M>, s: State<M, E>, c: nat)
    requires OrderInv(sys, p, s) && c in s.calls && s.calls[c].Draining? && s.calls[c].drain.hand.None? &&
             !IsActive(s.calls[c])
    ensures OrderInv(sys, p, DrainStep(sys, s, c))
  {
    TrailingTouchesNothing(sys, s, c);
    DrainFrame(sys, s, c);
    BystanderKeeps(sys, p, s, DrainStep(sys, s, c), c);
  }

  lemma TrailingTouchesNothing<M, E>(sys: Sys<M, E>, s: State<M, E>, c: nat)
    requires c in s.calls && s.calls[c].Draining? && s.calls[c].drain.hand.None? && !IsActive(s.calls[c])
    ensures var s' := DrainStep(sys, s, c);
            && s'.machine == s.machine && s'.queue == s.queue
            && s'.h.log == s.h.log && s'.h.callers == s.h.callers && s'.h.done == s.h.done && s'.h.holder == s.h.holder
            && (c in s'.calls ==> !IsActive(s'.calls[c]))
  {
  }

  lemma BeginKeepsOrder<M, E>(sys: Sys<M, E>, p: Sequential<M>, s: State<M, E>, c: nat, event: E, kind: Kind)
    requires OrderInv(sys, p, s) && c !in s.h.submitted
    ensures OrderInv(sys, p, BeginStep(s, c, event, kind))
  {
    BystanderKeeps(sys, p, s, BeginStep(s, c, event, kind), c);
  }

  lemma ForgetKeepsOrder<M, E>(sys: Sys<M, E>, p: Sequential<M>, s: State<M, E>, c: nat)
    requires OrderInv(sys, p, s) && c in s.calls && s.calls[c].Returning?
    ensures OrderInv(sys, p, ForgetStep(s, c))
  {
    BystanderKeeps(sys, p, s, ForgetStep(s, c), c);
  }

  lemma PollKeepsOrder<M, E>(sys: Sys<M, E>, p: Sequential<M>, s: State<M, E>, c: nat, waker: nat)
    requires OrderInv(sys, p, s) && c in s.calls && s.calls[c].Idle?
    ensures OrderInv(sys, p, PollStep(s, c, waker))
  {
    BystanderKeeps(sys, p, s, PollStep(s, c, waker), c);
  }

  lemma AskKeepsOrder<M, E>(sys: Sys<M, E>, p: Sequential<M>, s: State<M, E>, c: nat)
    requires OrderInv(sys, p, s) && c in s.calls && s.calls[c].Asking?
    ensures OrderInv(sys, p, AskStep(s, c))
  {
    BystanderKeeps(sys, p, s, AskStep(s, c), c);
  }

  lemma DropKeepsOrder<M, E>(sys: Sys<M, E>, p: Sequential<M>, s: State<M, E>, c: nat)
    requires OrderInv(sys, p, s) && c in s.calls && s.calls[c].Idle?
    ensures OrderInv(sys, p, DropStep(s, c))
  {
    BystanderKeeps(sys, p, s, DropStep(s, c), c);
  }

  lemma DrainKeepsOrder<M, E>(sys: Sys<M, E>, p: Sequential<M>, s: State<M, E>, c: nat)
    requires OrderInv(sys, p, s) && c in s.calls && s.calls[c].Draining?
    ensures OrderInv(sys, p, DrainStep(sys, s, c))
  {
    if s.calls[c].drain.hand.Some? {
      CallWakerKeepsOrder(sys, p, s, c);
    } else if IsActive(s.calls[c]) {
      ActiveKeepsOrder(sys, p, s, c);
    } else {
      TrailingKeepsOrder(sys, p, s, c);
    }
  }
}
