/** The FIFO scheduler (src/scheduler.rs) as a step system.

    A run is a sequence of `Act`s. Every region that the source executes under
    the queue lock, the machine lock, a ticket's lock or a waiter's lock is one
    act; between two acts of one caller any other caller may act, so a run is
    an arbitrary interleaving. Callers are named by the completion they work
    for, and a caller that re-enters the machine from inside a step is just
    one more caller acting while the step runs. */
module Fifo {
  import opened Prelude
  import opened FifoQueue

  // ---- The machine and its sequential meaning -------------------------------

  /** A step returns or panics; both leave a machine behind. */
  datatype Outcome<+M> = Returned(machine: M, accepted: bool) | Panicked(machine: M)

  /** `SyncMachineStep::step`, `Terminated::is_terminated` and the queue bound. */
  datatype Sys<!M, !E> = Sys(capacity: nat, step: (M, E) -> Outcome<M>, isTerminated: M -> bool)

  datatype Sequential<+M> = Sequential(machine: M, closed: bool, results: seq<bool>)

  /** One event run to completion by a caller that owns the machine. A
      panicking event counts as refused, and a closed machine refuses. */
  function RunOne<M, E>(sys: Sys<M, E>, p: Sequential<M>, event: E): Sequential<M> {
    if p.closed then
      p.(results := p.results + [false])
    else
      match sys.step(p.machine, event)
      case Returned(m, accepted) => Sequential(m, sys.isTerminated(m), p.results + [accepted])
      case Panicked(m) => Sequential(m, sys.isTerminated(m), p.results + [false])
  }

  /** The events of `log`, one after the other. */
  function RunAll<M, E>(sys: Sys<M, E>, p: Sequential<M>, log: seq<E>): (r: Sequential<M>)
    ensures |r.results| == |p.results| + |log|
  {
    if log == [] then p
    else RunOne(sys, RunAll(sys, p, log[..|log| - 1]), log[|log| - 1])
  }

  // ---- State ----------------------------------------------------------------

  /** A task's waker, stored for the completion `who`. */
  datatype Hand = Hand(who: nat, waker: nat)

  datatype Ticket = Ticket(accepted: Option<bool>, waker: Option<Hand>, owner: nat)

  /** Why a completion reports what it reports: its event ran (or was
      stranded) at a place in the accept order, it was refused because the
      machine had closed, or its poll unwound from a panicking step. */
  datatype Origin = Ran(index: nat) | Refused | Unwound
  datatype Answer = Answer(accepted: bool, origin: Origin)

  datatype Kind = Submit | TrySubmit | Poll

  /** What `offer` returns to its caller when it drained. */
  datatype Kont = OwnResult(index: nat) | OwnTicket(index: nat)

  datatype Pc<+E> =
    | Enter(job: Job<E>, terminated: bool)                    // Pending::run: about to take the machine lock
    | Stepping(job: Job<E>)                                   // the step runs under the machine lock
    | Settle(job: Job<E>, accepted: bool, terminated: bool)   // the step returned; Pending still holds the ticket
    | Turn(terminated: bool)                                  // about to take the queue lock
    | Wake(room: seq<nat>, next: Option<Job<E>>, terminated: bool)
    | Panicking(job: Job<E>)                                  // Pending::drop
    | Inspect                                                 // Unwinding::drop reads is_terminated
    | Release(terminated: bool)                               // Unwinding::drop takes the queue lock
    | Strand(tickets: seq<nat>, room: seq<nat>)               // then resolves and wakes

  /** A caller inside `drain`. `hand` is a waker it has taken and is about to call. */
  datatype Drain<+E> = Drain(pc: Pc<E>, hand: Option<Hand>, first: Option<bool>, kont: Kont)

  datatype Reply = ReplyDone(answer: Answer) | ReplyQueued(ticket: nat)

  /** `FifoWait`; `Ticketed` is its `Queued`. */
  datatype Wait<+E> = Done(answer: Answer) | Ticketed(ticket: nat) | Room(event: E)

  datatype Call<+E> =
    | Offering(event: E, kind: Kind)      // about to take the queue lock in `offer`
    | Draining(drain: Drain<E>, kind: Kind)
    | Returning(reply: Reply)             // in `poll`, about to `forget`
    | Asking(ticket: nat)                 // in `poll`, about to ask the ticket
    | Idle(wait: Wait<E>)                 // a completion between polls

  /** What happened so far; no step reads it. */
  datatype History<+E> = History(
    log: seq<E>,                // accepted events, in the order `offer` accepted them
    callers: seq<nat>,          // the completions they were accepted for
    done: seq<bool>,            // results of the finished events, a prefix of `log`
    holder: Option<nat>,        // the caller that set `draining` and still has it
    strander: Option<nat>,      // the caller that still has stranded tickets to resolve
    submitted: map<nat, E>,     // the event of every completion ever asked for
    last: map<nat, nat>,        // the waker of each completion's latest poll
    woken: set<nat>,            // completions woken since their latest poll began
    ready: map<nat, Answer>)    // what polls have returned

  datatype State<+M, +E> = State(
    machine: M,
    queue: Queue<E>,
    tickets: map<nat, Ticket>,
    waiters: map<nat, Option<nat>>,
    calls: map<nat, Call<E>>,
    h: History<E>)

  /** `FifoScheduler::cell`: a machine whose start failed is closed. */
  function Init<M, E>(sys: Sys<M, E>, machine: M, started: bool): State<M, E> {
    State(machine, Queue([], false, !started || sys.isTerminated(machine), []), map[], map[], map[],
          History([], [], [], None, None, map[], map[], {}, map[]))
  }

  function Start<M, E>(sys: Sys<M, E>, machine: M, started: bool): Sequential<M> {
    Sequential(machine, !started || sys.isTerminated(machine), [])
  }

  // ---- Steps ----------------------------------------------------------------

  datatype Act<+E> =
    | Begin(who: nat, event: E, kind: Kind)   // a call of submit or try_submit arrives
    | Offer(who: nat)
    | Drain(who: nat)                         // the next region of a draining caller
    | Forget(who: nat)
    | PollStart(who: nat, waker: nat)
    | Ask(who: nat)
    | Drop(who: nat)

  predicate IsActive<E>(call: Call<E>) {
    call.Draining? &&
    match call.drain.pc
    case Wake(_, next, _) => next.Some?
    case Strand(_, _) => false
    case _ => true
  }

  predicate MachineFree<M, E>(s: State<M, E>) {
    forall c :: c in s.calls ==> !(s.calls[c].Draining? && s.calls[c].drain.pc.Stepping?)
  }

  predicate Enabled<M, E>(s: State<M, E>, act: Act<E>) {
    match act
    case Begin(c, _, kind) => c !in s.h.submitted && !kind.Poll?
    case Offer(c) => c in s.calls && s.calls[c].Offering?
    case Drain(c) =>
      c in s.calls && s.calls[c].Draining? &&
      var d := s.calls[c].drain;
      (d.hand.None? && (d.pc.Inspect? || (d.pc.Enter? && !d.pc.terminated)) ==> MachineFree(s))
    case Forget(c) => c in s.calls && s.calls[c].Returning?
    case PollStart(c, _) => c in s.calls && s.calls[c].Idle?
    case Ask(c) => c in s.calls && s.calls[c].Asking?
    case Drop(c) => c in s.calls && s.calls[c].Idle?
  }

  function Put<M, E>(s: State<M, E>, c: nat, call: Call<E>): State<M, E> {
    s.(calls := s.calls[c := call])
  }

  function Gone<M, E>(s: State<M, E>, c: nat): State<M, E> {
    s.(calls := s.calls - {c})
  }

  /** `offer` returned to `submit`, `try_submit` or `poll`. */
  function Reached<M, E>(s: State<M, E>, c: nat, kind: Kind, reply: Reply): State<M, E> {
    Put(s, c, if kind.Poll? then Returning(reply)
              else match reply
                   case ReplyDone(a) => Idle(Done(a))
                   case ReplyQueued(t) => Idle(Ticketed(t)))
  }

  function BeginStep<M, E>(s: State<M, E>, c: nat, event: E, kind: Kind): State<M, E> {
    Put(s, c, Offering(event, kind)).(h := s.h.(submitted := s.h.submitted[c := event]))
  }

  function OfferStep<M, E>(sys: Sys<M, E>, s: State<M, E>, c: nat): State<M, E>
    requires c in s.calls && s.calls[c].Offering?
  {
    var call := s.calls[c];
    var index := |s.h.log|;
    var job := Job(call.event, index);
    var (q, verdict) := FifoQueue.Offer(s.queue, sys.capacity, job, if call.kind.Poll? then Some(c) else None);
    var s1 := s.(queue := q);
    match verdict
    case Closed => Reached(s1, c, call.kind, ReplyDone(Answer(false, Refused)))
    case Full =>
      if call.kind.TrySubmit? then Gone(s1, c)
      else Put(s1, c, Idle(Room(call.event))).(waiters := if c in s.waiters then s.waiters else s.waiters[c := None])
    case Queued =>
      Reached(Accept(s1, c, call.event, true), c, call.kind, ReplyQueued(index))
    case Behind(older) =>
      var s2 := Accept(s1, c, call.event, true);
      Put(s2, c, Draining(Drain.Drain(Enter(older, false), None, None, OwnTicket(index)), call.kind))
      .(h := s2.h.(holder := Some(c)))
    case Direct =>
      var s2 := Accept(s1, c, call.event, false);
      Put(s2, c, Draining(Drain.Drain(Enter(job, false), None, None, OwnResult(index)), call.kind))
      .(h := s2.h.(holder := Some(c)))
  }

  /** The event joins the accept order; it gets a ticket unless its caller runs it at once. */
  function Accept<M, E>(s: State<M, E>, c: nat, event: E, ticket: bool): State<M, E> {
    s.(tickets := if ticket then s.tickets[|s.h.log| := Ticket(None, None, c)] else s.tickets,
       h := s.h.(log := s.h.log + [event], callers := s.h.callers + [c]))
  }

  /** `Ticket::resolve`: the resolver takes the ticket's waker. */
  function Resolve<M, E>(s: State<M, E>, ticket: nat, accepted: bool): (State<M, E>, Option<Hand>) {
    if ticket in s.tickets
    then (s.(tickets := s.tickets[ticket := s.tickets[ticket].(accepted := Some(accepted), waker := None)]),
          s.tickets[ticket].waker)
    else (s, None)
  }

  /** `Waiter::wake` up to the call of the waker it takes. */
  function TakeWaker<M, E>(s: State<M, E>, waiter: nat): (State<M, E>, Option<Hand>) {
    if waiter in s.waiters && s.waiters[waiter].Some?
    then (s.(waiters := s.waiters[waiter := None]), Some(Hand(waiter, s.waiters[waiter].value)))
    else (s, None)
  }

  function Finish<M, E>(s: State<M, E>, results: seq<bool>): State<M, E> {
    s.(h := s.h.(done := s.h.done + results))
  }

  function Refusals(n: nat): (r: seq<bool>)
    ensures |r| == n && forall i :: 0 <= i < n ==> !r[i]
  {
    seq(n, _ => false)
  }

  function DrainStep<M, E>(sys: Sys<M, E>, s: State<M, E>, c: nat): State<M, E>
    requires c in s.calls && s.calls[c].Draining?
  {
    var d := s.calls[c].drain;
    var kind := s.calls[c].kind;
    if d.hand.Some? then CallWaker(s, c, d, kind)
    else match d.pc
    case Enter(job, terminated) =>
      if terminated
      then Put(Finish(s, [false]), c, Draining(d.(pc := Settle(job, false, true)), kind))
      else Put(s, c, Draining(d.(pc := Stepping(job)), kind))
    case Stepping(job) => ReturnFromStep(sys, s, c, d, kind)
    case Settle(job, accepted, terminated) =>
      var (s1, hand) := Resolve(s, job.index, accepted);
      var first := if d.first.None? then Some(accepted) else d.first;
      Put(s1, c, Draining(Drain.Drain(Turn(terminated), hand, first, d.kont), kind))
    case Turn(terminated) => TakeTurn(s, c, d, kind)
    case Wake(room, next, terminated) => WakeStep(s, c, d, kind)
    case Panicking(job) =>
      var (s1, hand) := Resolve(s, job.index, false);
      Put(s1, c, Draining(Drain.Drain(Inspect, hand, d.first, d.kont), kind))
    case Inspect => Put(s, c, Draining(d.(pc := Release(sys.isTerminated(s.machine))), kind))
    case Release(terminated) => ReleaseStep(s, c, d, kind)
    case Strand(tickets, room) => StrandStep(s, c, d, kind)
  }

  /** `waker.wake()`, outside every lock. It counts for the completion only if
      it is the waker of its latest poll. */
  function CallWaker<M, E>(s: State<M, E>, c: nat, d: Drain<E>, kind: Kind): State<M, E>
    requires d.hand.Some?
  {
    var hand := d.hand.value;
    var reached := hand.who in s.h.last && s.h.last[hand.who] == hand.waker;
    Put(s, c, Draining(d.(hand := None), kind))
    .(h := s.h.(woken := if reached then s.h.woken + {hand.who} else s.h.woken))
  }

  function ReturnFromStep<M, E>(sys: Sys<M, E>, s: State<M, E>, c: nat, d: Drain<E>, kind: Kind): State<M, E>
    requires d.pc.Stepping?
  {
    match sys.step(s.machine, d.pc.job.event)
    case Returned(m, accepted) =>
      Put(Finish(s.(machine := m), [accepted]), c,
          Draining(d.(pc := Settle(d.pc.job, accepted, sys.isTerminated(m))), kind))
    case Panicked(m) =>
      Put(Finish(s.(machine := m), [false]), c, Draining(d.(pc := Panicking(d.pc.job)), kind))
  }

  function TakeTurn<M, E>(s: State<M, E>, c: nat, d: Drain<E>, kind: Kind): State<M, E>
    requires d.pc.Turn?
  {
    var (q, next, room) := TakeNext(s.queue, d.pc.terminated);
    Put(s.(queue := q), c, Draining(d.(pc := Wake(room, next, d.pc.terminated)), kind))
    .(h := s.h.(holder := if next.None? then None else s.h.holder))
  }

  function WakeStep<M, E>(s: State<M, E>, c: nat, d: Drain<E>, kind: Kind): State<M, E>
    requires d.pc.Wake?
  {
    var Wake(room, next, terminated) := d.pc;
    if room != [] then
      var (s1, hand) := TakeWaker(s, room[0]);
      Put(s1, c, Draining(d.(pc := Wake(room[1..], next, terminated), hand := hand), kind))
    else if next.Some? then
      Put(s, c, Draining(d.(pc := Enter(next.value, terminated)), kind))
    else
      Reached(s, c, kind,
              match d.kont
              case OwnTicket(t) => ReplyQueued(t)
              case OwnResult(i) => ReplyDone(Answer(d.first.Some? && d.first.value, Ran(i))))
  }

  function ReleaseStep<M, E>(s: State<M, E>, c: nat, d: Drain<E>, kind: Kind): State<M, E>
    requires d.pc.Release?
  {
    var (q, room, stranded) := HandOff(s.queue, d.pc.terminated);
    var tickets := seq(|stranded|, i requires 0 <= i < |stranded| => stranded[i].index);
    Put(s.(queue := q), c, Draining(d.(pc := Strand(tickets, room)), kind))
    .(h := s.h.(done := s.h.done + Refusals(|stranded|), holder := None,
                strander := if stranded == [] then s.h.strander else Some(c)))
  }

  function StrandStep<M, E>(s: State<M, E>, c: nat, d: Drain<E>, kind: Kind): State<M, E>
    requires d.pc.Strand?
  {
    var Strand(tickets, room) := d.pc;
    if tickets != [] then
      var (s1, hand) := Resolve(s, tickets[0], false);
      Put(s1, c, Draining(d.(pc := Strand(tickets[1..], room), hand := hand), kind))
      .(h := s.h.(strander := if |tickets| == 1 then None else s.h.strander))
    else if room != [] then
      var (s1, hand) := TakeWaker(s, room[0]);
      Put(s1, c, Draining(d.(pc := Strand([], room[1..]), hand := hand), kind))
    else if kind.Poll? then
      // `poll` replaced the state by `Done(false)` before it called `offer`.
      Put(s, c, Idle(Done(Answer(false, Unwound))))
    else
      Gone(s, c)
  }

  function ForgetStep<M, E>(s: State<M, E>, c: nat): State<M, E>
    requires c in s.calls && s.calls[c].Returning?
  {
    var s1 := s.(queue := s.queue.(room := Without(s.queue.room, c)));
    match s.calls[c].reply
    case ReplyDone(a) => Put(s1, c, Idle(Done(a))).(h := s.h.(ready := s.h.ready[c := a]))
    case ReplyQueued(t) => Put(s1, c, Asking(t))
  }

  function PollStep<M, E>(s: State<M, E>, c: nat, waker: nat): State<M, E>
    requires c in s.calls && s.calls[c].Idle?
  {
    var polled := s.h.(last := s.h.last[c := waker], woken := s.h.woken - {c});
    match s.calls[c].wait
    case Done(a) => s.(h := polled.(ready := s.h.ready[c := a]))
    case Ticketed(t) => Put(s, c, Asking(t)).(h := polled)
    case Room(event) => Put(s, c, Offering(event, Poll)).(h := polled, waiters := s.waiters[c := Some(waker)])
  }

  /** `Ticket::poll`. */
  function AskStep<M, E>(s: State<M, E>, c: nat): State<M, E>
    requires c in s.calls && s.calls[c].Asking?
  {
    var t := s.calls[c].ticket;
    var s1 := Put(s, c, Idle(Ticketed(t)));
    if t !in s.tickets then s1
    else match s.tickets[t].accepted
    case Some(b) => s1.(h := s.h.(ready := s.h.ready[c := Answer(b, Ran(t))]))
    case None =>
      if c in s.h.last
      then s1.(tickets := s.tickets[t := s.tickets[t].(waker := Some(Hand(c, s.h.last[c])))])
      else s1
  }

  function DropStep<M, E>(s: State<M, E>, c: nat): State<M, E>
    requires c in s.calls && s.calls[c].Idle?
  {
    Gone(if s.calls[c].wait.Room? then s.(queue := s.queue.(room := Without(s.queue.room, c))) else s, c)
  }

  function Apply<M, E>(sys: Sys<M, E>, s: State<M, E>, act: Act<E>): State<M, E>
    requires Enabled(s, act)
  {
    match act
    case Begin(c, event, kind) => BeginStep(s, c, event, kind)
    case Offer(c) => OfferStep(sys, s, c)
    case Drain(c) => DrainStep(sys, s, c)
    case Forget(c) => ForgetStep(s, c)
    case PollStart(c, waker) => PollStep(s, c, waker)
    case Ask(c) => AskStep(s, c)
    case Drop(c) => DropStep(s, c)
  }

  /** `trace` is a run: it starts in an initial state and every act was enabled. */
  ghost predicate IsRun<M, E>(sys: Sys<M, E>, machine: M, started: bool, acts: seq<Act<E>>, trace: seq<State<M, E>>) {
    && |trace| == |acts| + 1
    && trace[0] == Init(sys, machine, started)
    && forall i :: 0 <= i < |acts| ==> Enabled(trace[i], acts[i]) && trace[i + 1] == Apply(sys, trace[i], acts[i])
  }

  // ---- Frames -------------------------------------------------------------------

  /** Only the acting caller's own call and answer change. */
  ghost predicate OnlyActor<M, E>(s: State<M, E>, s': State<M, E>, c: nat) {
    && (forall d :: d in s'.calls && d != c ==> d in s.calls && s'.calls[d] == s.calls[d])
    && (forall d :: d in s.calls && d != c ==> d in s'.calls && s'.calls[d] == s.calls[d])
    && s'.h.submitted == s.h.submitted
  }

  /** A drain region also leaves what completions reported, and the waiting list
      either untouched or empty. */
  ghost predicate DrainFrames<M, E>(s: State<M, E>, s': State<M, E>, c: nat) {
    && OnlyActor(s, s', c)
    && s'.h.ready == s.h.ready && s'.h.last == s.h.last && s'.h.log == s.h.log && s'.h.callers == s.h.callers
    && s.h.woken <= s'.h.woken
    && (s'.queue == s.queue || s'.queue.room == [])
    && s'.tickets.Keys == s.tickets.Keys && s'.waiters.Keys == s.waiters.Keys
  }

  lemma OfferFrame<M, E>(sys: Sys<M, E>, s: State<M, E>, c: nat)
    requires c in s.calls && s.calls[c].Offering?
    ensures OnlyActor(s, OfferStep(sys, s, c), c) && OfferStep(sys, s, c).h.ready == s.h.ready
  {
    var s' := OfferStep(sys, s, c);
    assert s'.calls - {c} == s.calls - {c};
  }

  lemma WakeFrame<M, E>(s: State<M, E>, c: nat, d: Drain<E>, kind: Kind)
    requires d.pc.Wake?
    ensures DrainFrames(s, WakeStep(s, c, d, kind), c)
  {
  }

  lemma StrandFrame<M, E>(s: State<M, E>, c: nat, d: Drain<E>, kind: Kind)
    requires d.pc.Strand?
    ensures DrainFrames(s, StrandStep(s, c, d, kind), c)
  {
  }

  lemma TurnFrame<M, E>(s: State<M, E>, c: nat, d: Drain<E>, kind: Kind)
    requires d.pc.Turn?
    ensures DrainFrames(s, TakeTurn(s, c, d, kind), c)
  {
  }

  lemma ReleaseFrame<M, E>(s: State<M, E>, c: nat, d: Drain<E>, kind: Kind)
    requires d.pc.Release?
    ensures DrainFrames(s, ReleaseStep(s, c, d, kind), c)
  {
  }

  lemma ReturnFrame<M, E>(sys: Sys<M, E>, s: State<M, E>, c: nat, d: Drain<E>, kind: Kind)
    requires d.pc.Stepping?
    ensures DrainFrames(s, ReturnFromStep(sys, s, c, d, kind), c)
  {
  }

  lemma CallFrame<M, E>(s: State<M, E>, c: nat, d: Drain<E>, kind: Kind)
    requires d.hand.Some?
    ensures DrainFrames(s, CallWaker(s, c, d, kind), c)
  {
  }

  lemma DrainFrame<M, E>(sys: Sys<M, E>, s: State<M, E>, c: nat)
    requires c in s.calls && s.calls[c].Draining?
    ensures DrainFrames(s, DrainStep(sys, s, c), c)
  {
    var d, kind := s.calls[c].drain, s.calls[c].kind;
    if d.hand.Some? {
      CallFrame(s, c, d, kind);
    } else {
      match d.pc {
        case Turn(_) => TurnFrame(s, c, d, kind);
        case Release(_) => ReleaseFrame(s, c, d, kind);
        case Stepping(_) => ReturnFrame(sys, s, c, d, kind);
        case Wake(_, _, _) => WakeFrame(s, c, d, kind);
        case Strand(_, _) => StrandFrame(s, c, d, kind);
        case _ =>
      }
    }
  }
}
