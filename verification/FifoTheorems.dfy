/** What the FIFO scheduler promises, over every interleaving. */
module FifoTheorems {
  import opened Prelude
  import opened FifoQueue
  import opened Fifo
  import opened FifoOrder
  import opened FifoTickets
  import opened FifoWakeups

  ghost predicate Inv<M, E>(sys: Sys<M, E>, p: Sequential<M>, s: State<M, E>) {
    && OrderInv(sys, p, s)
    && TicketInv(s)
    && AnswerInv(s)
    && RoomInv(s)
    && WakeInv(s)
  }

  lemma InitInv<M, E>(sys: Sys<M, E>, machine: M, started: bool)
    requires sys.capacity > 0
    ensures Inv(sys, Start(sys, machine, started), Init(sys, machine, started))
  {
    var s := Init(sys, machine, started);
    assert s.h.log[..|s.h.done|] == [];
  }

  lemma OfferKeepsInv<M, E>(sys: Sys<M, E>, p: Sequential<M>, s: State<M, E>, c: nat)
    requires Inv(sys, p, s) && c in s.calls && s.calls[c].Offering?
    ensures Inv(sys, p, OfferStep(sys, s, c))
  {
    OrderGivesLayout(sys, p, s);
    assert CallOk(s, c, s.calls[c]);
    OfferKeepsOrder(sys, p, s, c);
    OfferKeepsTickets(sys, s, c);
    OfferKeepsAnswers(sys, s, c);
    OfferKeepsRoom(sys, s, c);
    OfferKeepsWatch(sys, s, c);
  }

  lemma DrainKeepsInv<M, E>(sys: Sys<M, E>, p: Sequential<M>, s: State<M, E>, c: nat)
    requires Inv(sys, p, s) && c in s.calls && s.calls[c].Draining?
    ensures Inv(sys, p, DrainStep(sys, s, c))
  {
    OrderGivesLayout(sys, p, s);
    if s.calls[c].drain.pc.Turn? {
      TurnKeepsClosed(sys, p, s, c);
    }
    DrainKeepsOrder(sys, p, s, c);
    DrainKeepsTickets(sys, s, c);
    DrainKeepsAnswers(sys, s, c);
    DrainKeepsRoom(sys, s, c);
    DrainKeepsWatch(sys, s, c);
  }

  lemma BeginKeepsInv<M, E>(sys: Sys<M, E>, p: Sequential<M>, s: State<M, E>, c: nat, event: E, kind: Kind)
    requires Inv(sys, p, s) && c !in s.h.submitted && !kind.Poll?
    ensures Inv(sys, p, BeginStep(s, c, event, kind))
  {
    BeginKeepsOrder(sys, p, s, c, event, kind);
    OutsiderKeepsTickets(s, BeginStep(s, c, event, kind), c);
    BeginKeepsAnswers(s, c, event, kind);
    OtherKeepsRoom(sys, s, Begin(c, event, kind));
    BeginKeepsWatch(s, c, event, kind);
  }

  lemma ForgetKeepsInv<M, E>(sys: Sys<M, E>, p: Sequential<M>, s: State<M, E>, c: nat)
    requires Inv(sys, p, s) && c in s.calls && s.calls[c].Returning?
    ensures Inv(sys, p, ForgetStep(s, c))
  {
    ForgetKeepsOrder(sys, p, s, c);
    OutsiderKeepsTickets(s, ForgetStep(s, c), c);
    ForgetKeepsAnswers(s, c);
    ForgetKeepsRoom(s, c);
    ForgetKeepsWatch(s, c);
  }

  lemma PollKeepsInv<M, E>(sys: Sys<M, E>, p: Sequential<M>, s: State<M, E>, c: nat, waker: nat)
    requires Inv(sys, p, s) && c in s.calls && s.calls[c].Idle?
    ensures Inv(sys, p, PollStep(s, c, waker))
  {
    PollKeepsOrder(sys, p, s, c, waker);
    PollKeepsTickets(s, c, waker);
    PollKeepsAnswers(s, c, waker);
    OtherKeepsRoom(sys, s, PollStart(c, waker));
    PollKeepsWatch(s, c, waker);
  }

  lemma AskKeepsInv<M, E>(sys: Sys<M, E>, p: Sequential<M>, s: State<M, E>, c: nat)
    requires Inv(sys, p, s) && c in s.calls && s.calls[c].Asking?
    ensures Inv(sys, p, AskStep(s, c))
  {
    var t := s.calls[c].ticket;
    assert CallOk(s, c, s.calls[c]);
    forall w | HoldsTicket(s, w, t)
      ensures w == c
    {
      assert CallOk(s, w, s.calls[w]);
    }
    AskKeepsOrder(sys, p, s, c);
    AskKeepsTickets(s, c);
    AskKeepsAnswers(s, c);
    OtherKeepsRoom(sys, s, Ask(c));
    AskKeepsWatch(s, c);
  }

  lemma DropKeepsInv<M, E>(sys: Sys<M, E>, p: Sequential<M>, s: State<M, E>, c: nat)
    requires Inv(sys, p, s) && c in s.calls && s.calls[c].Idle?
    ensures Inv(sys, p, DropStep(s, c))
  {
    DropKeepsOrder(sys, p, s, c);
    OutsiderKeepsTickets(s, DropStep(s, c), c);
    DropKeepsAnswers(s, c);
    DropKeepsRoom(s, c);
    DropKeepsWatch(s, c);
  }

  /** Every act keeps the invariant. */
  lemma StepKeepsInv<M, E>(sys: Sys<M, E>, p: Sequential<M>, s: State<M, E>, act: Act<E>)
    requires Inv(sys, p, s) && Enabled(s, act)
    ensures Inv(sys, p, Apply(sys, s, act))
  {
    match act {
      case Begin(c, event, kind) => BeginKeepsInv(sys, p, s, c, event, kind);
      case Offer(c) => OfferKeepsInv(sys, p, s, c);
      case Drain(c) => DrainKeepsInv(sys, p, s, c);
      case Forget(c) => ForgetKeepsInv(sys, p, s, c);
      case PollStart(c, waker) => PollKeepsInv(sys, p, s, c, waker);
      case Ask(c) => AskKeepsInv(sys, p, s, c);
      case Drop(c) => DropKeepsInv(sys, p, s, c);
    }
  }

  /** Every state of every run satisfies the invariant. */
  lemma {:induction false} RunKeepsInv<M, E>(sys: Sys<M, E>, machine: M, started: bool,
                                             acts: seq<Act<E>>, trace: seq<State<M, E>>, i: nat)
    requires sys.capacity > 0 && IsRun(sys, machine, started, acts, trace) && i <= |acts|
    ensures Inv(sys, Start(sys, machine, started), trace[i])
  {
    if i == 0 {
      InitInv(sys, machine, started);
    } else {
      RunKeepsInv(sys, machine, started, acts, trace, i - 1);
      StepKeepsInv(sys, Start(sys, machine, started), trace[i - 1], acts[i - 1]);
    }
  }

  // ---- Refinement -----------------------------------------------------------------------

  lemma {:induction false} PrefixResults<M, E>(sys: Sys<M, E>, p: Sequential<M>, log: seq<E>, k: nat)
    requires k <= |log|
    ensures RunAll(sys, p, log[..k]).results == RunAll(sys, p, log).results[..|p.results| + k]
    decreases |log|
  {
    if k == |log| {
      assert log[..k] == log;
    } else {
      var shorter := log[..|log| - 1];
      assert shorter[..k] == log[..k];
      PrefixResults(sys, p, shorter, k);
    }
  }

  /** One owner of the machine that runs the accepted events in accept order. */
  function Reference<M, E>(sys: Sys<M, E>, machine: M, started: bool, log: seq<E>): (r: Sequential<M>)
    ensures |r.results| == |log|
  {
    RunAll(sys, Start(sys, machine, started), log)
  }

  /** Whatever the interleaving, the finished events are a prefix of the accept
      order, their results and the machine are those of the sequential run, and
      every ticket and every answer a poll has given says what that run says:
      an event that panicked or came after closing was refused. */
  lemma FifoRefinesSequential<M, E>(sys: Sys<M, E>, machine: M, started: bool,
                                    acts: seq<Act<E>>, trace: seq<State<M, E>>, i: nat)
    requires sys.capacity > 0 && IsRun(sys, machine, started, acts, trace) && i <= |acts|
    ensures var s := trace[i];
            var all := Reference(sys, machine, started, s.h.log);
            && |s.h.done| <= |s.h.log|
            && s.h.done == all.results[..|s.h.done|]
            && s.machine == Reference(sys, machine, started, s.h.log[..|s.h.done|]).machine
            && (forall t :: t in s.tickets && s.tickets[t].accepted.Some? ==>
                  t < |s.h.log| && s.tickets[t].accepted.value == all.results[t])
            && (forall c :: c in s.h.ready && s.h.ready[c].origin.Ran? ==>
                  var k := s.h.ready[c].origin.index;
                  && AcceptedFor(s, c, k)
                  && s.h.ready[c].accepted == all.results[k])
            && (forall c :: c in s.h.ready && !s.h.ready[c].origin.Ran? ==> !s.h.ready[c].accepted)
  {
    var s := trace[i];
    var p := Start(sys, machine, started);
    RunKeepsInv(sys, machine, started, acts, trace, i);
    PrefixResults(sys, p, s.h.log, |s.h.done|);
    assert forall k :: 0 <= k < |s.h.done| ==> s.h.done[k] == Reference(sys, machine, started, s.h.log).results[k];
    forall c | c in s.h.ready
      ensures AnswerOk(s, c, s.h.ready[c])
    {
    }
  }

  /** At rest, with nothing queued, the machine has run exactly the accept order. */
  lemma IdleIsSequential<M, E>(sys: Sys<M, E>, machine: M, started: bool,
                               acts: seq<Act<E>>, trace: seq<State<M, E>>, i: nat)
    requires sys.capacity > 0 && IsRun(sys, machine, started, acts, trace) && i <= |acts|
    requires !trace[i].queue.draining && trace[i].queue.events == []
    ensures var all := Reference(sys, machine, started, trace[i].h.log);
            && trace[i].machine == all.machine
            && trace[i].h.done == all.results
            && trace[i].queue.terminated == all.closed
  {
    RunKeepsInv(sys, machine, started, acts, trace, i);
    assert trace[i].h.log[..|trace[i].h.done|] == trace[i].h.log;
  }

  // ---- Conservation ------------------------------------------------------------------------

  /** The events waiting in the ring, oldest first. */
  function Waiting<E>(q: Queue<E>): (r: seq<E>)
    ensures |r| == |q.events|
  {
    seq(|q.events|, i requires 0 <= i < |q.events| => q.events[i].event)
  }

  /** The accept log is the finished events, at most one event in flight, and
      then the ring in order. */
  lemma EventsConserved<M, E>(sys: Sys<M, E>, machine: M, started: bool,
                              acts: seq<Act<E>>, trace: seq<State<M, E>>, i: nat)
    requires sys.capacity > 0 && IsRun(sys, machine, started, acts, trace) && i <= |acts|
    ensures var s := trace[i];
            var k := |s.h.done| + InFlight(HolderPc(s));
            && InFlight(HolderPc(s)) <= 1
            && |s.queue.events| <= sys.capacity
            && k <= |s.h.log|
            && s.h.log[k..] == Waiting(s.queue)
            && (InFlight(HolderPc(s)) == 1 ==> JobOf(HolderPc(s).value).event == s.h.log[|s.h.done|])
  {
    RunKeepsInv(sys, machine, started, acts, trace, i);
    OrderGivesLayout(sys, Start(sys, machine, started), trace[i]);
    RingIsSuffix(trace[i].queue, HolderPc(trace[i]), trace[i].h.log, trace[i].h.done);
  }

  lemma RingIsSuffix<E>(q: Queue<E>, pc: Option<Pc<E>>, log: seq<E>, done: seq<bool>)
    requires Conserved(q, pc, log, done)
    ensures log[|done| + InFlight(pc)..] == Waiting(q)
  {
    var k := |done| + InFlight(pc);
    assert forall j :: 0 <= j < |q.events| ==> Waiting(q)[j] == q.events[j].event == log[k + j];
  }

  /** A ticket is unresolved exactly while its event is in the ring or in
      flight, while `Pending` holds it, or while it is stranded; and it is in
      only one of these places. */
  lemma TicketsConserved<M, E>(sys: Sys<M, E>, machine: M, started: bool,
                               acts: seq<Act<E>>, trace: seq<State<M, E>>, i: nat, t: nat)
    requires sys.capacity > 0 && IsRun(sys, machine, started, acts, trace) && i <= |acts|
    requires t in trace[i].tickets
    ensures var s := trace[i];
            var inLine := t >= |s.h.done|;
            var pending := Pending(HolderPc(s)) == Some(t);
            var stranded := t in Stranded(s);
            && (s.tickets[t].accepted.None? <==> inLine || pending || stranded)
            && !(inLine && pending) && !(inLine && stranded) && !(pending && stranded)
  {
    RunKeepsInv(sys, machine, started, acts, trace, i);
    OrderGivesLayout(sys, Start(sys, machine, started), trace[i]);
    OnePlace(trace[i], t);
  }

  lemma OnePlace<M, E>(s: State<M, E>, t: nat)
    requires TicketInv(s) && Layout(s) && t in s.tickets
    ensures !(t >= |s.h.done| && Pending(HolderPc(s)) == Some(t))
    ensures !(t >= |s.h.done| && t in Stranded(s))
    ensures !(Pending(HolderPc(s)) == Some(t) && t in Stranded(s))
  {
    if t in Stranded(s) {
      assert s.h.strander.Some? && !s.queue.draining;
    }
  }

  /** The ticket the next region of `c` would resolve. */
  function AboutToResolve<M, E>(s: State<M, E>, c: nat): Option<nat> {
    if c in s.calls && s.calls[c].Draining? && s.calls[c].drain.hand.None? then
      match s.calls[c].drain.pc
      case Settle(job, _, _) => Some(job.index)
      case Panicking(job) => Some(job.index)
      case Strand(tickets, _) => if tickets == [] then None else Some(tickets[0])
      case _ => None
    else None
  }

  /** A ticket is resolved once: whoever resolves it finds it unresolved, and its value stays. */
  lemma ResolvedOnce<M, E>(sys: Sys<M, E>, machine: M, started: bool,
                           acts: seq<Act<E>>, trace: seq<State<M, E>>, i: nat, t: nat)
    requires sys.capacity > 0 && IsRun(sys, machine, started, acts, trace) && i < |acts|
    requires t in trace[i].tickets
    ensures acts[i].Drain? && AboutToResolve(trace[i], acts[i].who) == Some(t) ==> trace[i].tickets[t].accepted.None?
    ensures t in trace[i + 1].tickets
    ensures trace[i].tickets[t].accepted.Some? ==> trace[i + 1].tickets[t].accepted == trace[i].tickets[t].accepted
  {
    var s := trace[i];
    var p := Start(sys, machine, started);
    RunKeepsInv(sys, machine, started, acts, trace, i);
    RunKeepsInv(sys, machine, started, acts, trace, i + 1);
    StepGrows(sys, p, s, acts[i]);
    if acts[i].Drain? && AboutToResolve(s, acts[i].who) == Some(t) {
      ResolverFindsOpen(s, acts[i].who, t);
    }
  }

  lemma ResolverFindsOpen<M, E>(s: State<M, E>, c: nat, t: nat)
    requires TicketInv(s) && OneHolder(s) && AboutToResolve(s, c) == Some(t) && t in s.tickets
    ensures s.tickets[t].accepted.None?
  {
    if s.calls[c].drain.pc.Strand? {
      assert StrandList(s.calls[c])[0] == t;
    } else {
      assert IsActive(s.calls[c]);
    }
  }

  // ---- Exactly once -----------------------------------------------------------------------

  /** A completion that still has its event in hand has not had it accepted. */
  predicate HasEvent<E>(call: Call<E>) {
    call.Offering? || (call.Idle? && call.wait.Room?)
  }

  predicate WasRefused<E>(call: Call<E>) {
    match call
    case Returning(ReplyDone(a)) => a.origin.Refused?
    case Idle(Done(a)) => a.origin.Refused?
    case _ => false
  }

  /** The completion has given its event up for good. */
  predicate GaveUp<E>(call: Call<E>) {
    call.Asking? || (call.Idle? && !call.wait.Room?)
  }

  ghost predicate OnceInv<M, E>(s: State<M, E>) {
    && |s.h.callers| == |s.h.log|
    && s.calls.Keys <= s.h.submitted.Keys
    && (forall c :: c in s.calls && WasRefused(s.calls[c]) ==> c !in s.h.callers)
    && (forall c :: c in s.h.ready ==>
          && c in s.h.submitted
          && (s.h.ready[c].origin.Refused? ==> c !in s.h.callers)
          && (c in s.calls ==> GaveUp(s.calls[c])))
    && Distinct(s.h.callers)
    && (forall c :: c in s.h.callers ==> c in s.h.submitted)
    && (forall c :: c in s.calls && HasEvent(s.calls[c]) ==> c !in s.h.callers)
    && (forall k :: 0 <= k < |s.h.callers| && s.h.callers[k] in s.h.submitted ==>
       s.h.log[k] == s.h.submitted[s.h.callers[k]])
  }

  lemma OfferKeepsOnce<M, E>(sys: Sys<M, E>, s: State<M, E>, c: nat)
    requires OnceInv(s) && c in s.calls && s.calls[c].Offering? && CallOk(s, c, s.calls[c])
    ensures OnceInv(OfferStep(sys, s, c))
  {
    OfferFrame(sys, s, c);
    OfferGivesUpEvent(sys, s, c);
  }

  /** Accepting an event takes it out of the completion's hands. */
  lemma OfferGivesUpEvent<M, E>(sys: Sys<M, E>, s: State<M, E>, c: nat)
    requires c in s.calls && s.calls[c].Offering?
    ensures var s' := OfferStep(sys, s, c);
            || (s'.h.callers == s.h.callers && s'.h.log == s.h.log)
            || (&& s'.h.callers == s.h.callers + [c] && s'.h.log == s.h.log + [s.calls[c].event]
                && c in s'.calls && !HasEvent(s'.calls[c]))
  {
  }

  lemma DrainKeepsOnce<M, E>(sys: Sys<M, E>, s: State<M, E>, c: nat)
    requires OnceInv(s) && c in s.calls && s.calls[c].Draining?
    ensures OnceInv(DrainStep(sys, s, c))
  {
    DrainFrame(sys, s, c);
    DrainStaysOrReturns(sys, s, c);
  }

  /** Every other step leaves the accept order alone. */
  lemma OthersAcceptNothing<M, E>(sys: Sys<M, E>, s: State<M, E>, act: Act<E>)
    requires Enabled(s, act) && !act.Offer? && !act.Drain?
    ensures var s' := Apply(sys, s, act);
            && s'.h.callers == s.h.callers && s'.h.log == s.h.log
            && (forall d :: d in s'.calls && d != act.who ==> d in s.calls && s'.calls[d] == s.calls[d])
            && (forall d :: d in s'.h.ready && d != act.who ==> d in s.h.ready && s'.h.ready[d] == s.h.ready[d])
            && s'.h.submitted == if act.Begin? then s.h.submitted[act.who := act.event] else s.h.submitted
  {
    assert Apply(sys, s, act).calls - {act.who} == s.calls - {act.who};
  }

  lemma OtherKeepsOnce<M, E>(sys: Sys<M, E>, s: State<M, E>, act: Act<E>)
    requires OnceInv(s) && Enabled(s, act) && !act.Offer? && !act.Drain?
    ensures OnceInv(Apply(sys, s, act))
  {
    OthersAcceptNothing(sys, s, act);
    OtherGivesUpEvent(sys, s, act);
    OthersStaySubmitted(sys, s, act);
  }

  lemma OthersStaySubmitted<M, E>(sys: Sys<M, E>, s: State<M, E>, act: Act<E>)
    requires OnceInv(s) && Enabled(s, act) && !act.Offer? && !act.Drain?
    ensures var s' := Apply(sys, s, act);
            && s'.calls.Keys <= s'.h.submitted.Keys
            && (forall c :: c in s'.h.ready ==> c in s'.h.submitted)
  {
  }

  /** The acting completion keeps its event, or has given it up and says why. */
  lemma OtherGivesUpEvent<M, E>(sys: Sys<M, E>, s: State<M, E>, act: Act<E>)
    requires OnceInv(s) && Enabled(s, act) && !act.Offer? && !act.Drain?
    ensures var s' := Apply(sys, s, act); var c := act.who;
            && (c in s'.calls && (HasEvent(s'.calls[c]) || WasRefused(s'.calls[c])) ==> c !in s.h.callers)
            && (c in s'.h.ready ==>
                  && (s'.h.ready[c].origin.Refused? ==> c !in s.h.callers)
                  && (c in s'.calls ==> GaveUp(s'.calls[c])))
  {
  }

  /** No event runs twice: every completion is accepted at most once, and the
      accept order holds exactly the events it was asked to run. */
  lemma {:induction false} AcceptedOnce<M, E>(sys: Sys<M, E>, machine: M, started: bool,
                                              acts: seq<Act<E>>, trace: seq<State<M, E>>, i: nat)
    requires sys.capacity > 0 && IsRun(sys, machine, started, acts, trace) && i <= |acts|
    ensures OnceInv(trace[i])
  {
    if i > 0 {
      AcceptedOnce(sys, machine, started, acts, trace, i - 1);
      RunKeepsInv(sys, machine, started, acts, trace, i - 1);
      var s := trace[i - 1];
      match acts[i - 1] {
        case Offer(c) =>
          assert CallOk(s, c, s.calls[c]);
          OfferKeepsOnce(sys, s, c);
        case Drain(c) => DrainKeepsOnce(sys, s, c);
        case act => OtherKeepsOnce(sys, s, act);
      }
    }
  }

  // ---- Single consumer, no deadlock ------------------------------------------------------------

  /** `draining` holds exactly when one caller is inside `drain` or unwinding
      from it, and never more than one is. */
  lemma SingleConsumer<M, E>(sys: Sys<M, E>, machine: M, started: bool,
                             acts: seq<Act<E>>, trace: seq<State<M, E>>, i: nat)
    requires sys.capacity > 0 && IsRun(sys, machine, started, acts, trace) && i <= |acts|
    ensures var s := trace[i];
            && (s.queue.draining <==> exists c :: c in s.calls && IsActive(s.calls[c]))
            && (forall c, d :: c in s.calls && d in s.calls && IsActive(s.calls[c]) && IsActive(s.calls[d]) ==> c == d)
  {
    RunKeepsInv(sys, machine, started, acts, trace, i);
  }

  /** An event offered from inside a step, or by anyone while a step runs, is
      only queued or reported full; it never drains, and it is reported full exactly
      if as many accepted events as the queue can hold wait behind the one that runs. */
  lemma OfferInsideAStepOnlyQueues<M, E>(sys: Sys<M, E>, machine: M, started: bool,
                                         acts: seq<Act<E>>, trace: seq<State<M, E>>, i: nat, c: nat, d: nat)
    requires sys.capacity > 0 && IsRun(sys, machine, started, acts, trace) && i <= |acts|
    requires c in trace[i].calls && trace[i].calls[c].Offering?
    requires d in trace[i].calls && trace[i].calls[d].Draining? && trace[i].calls[d].drain.pc.Stepping?
    ensures VerdictOf(sys, trace[i], c).Queued? || VerdictOf(sys, trace[i], c).Full?
    ensures VerdictOf(sys, trace[i], c).Full? <==> |trace[i].h.log| == |trace[i].h.done| + 1 + sys.capacity
  {
    RunKeepsInv(sys, machine, started, acts, trace, i);
    assert IsActive(trace[i].calls[d]);
    assert HolderPc(trace[i]) == Some(trace[i].calls[d].drain.pc);
  }

  /** What the call of completion `c` does next. */
  function NextAct<M, E>(s: State<M, E>, c: nat): Act<E>
    requires c in s.calls
  {
    match s.calls[c]
    case Offering(_, _) => Act.Offer(c)
    case Draining(_, _) => Act.Drain(c)
    case Returning(_) => Forget(c)
    case Asking(_) => Ask(c)
    case Idle(_) => Drop(c)
  }

  /** No deadlock: every call can always take its next step. In particular the
      machine lock is free whenever a drainer wants it. */
  lemma NoDeadlock<M, E>(sys: Sys<M, E>, machine: M, started: bool,
                         acts: seq<Act<E>>, trace: seq<State<M, E>>, i: nat, c: nat)
    requires sys.capacity > 0 && IsRun(sys, machine, started, acts, trace) && i <= |acts|
    requires c in trace[i].calls
    ensures Enabled(trace[i], NextAct(trace[i], c))
  {
    RunKeepsInv(sys, machine, started, acts, trace, i);
    var s := trace[i];
    if s.calls[c].Draining? && (s.calls[c].drain.pc.Inspect? || s.calls[c].drain.pc.Enter?) {
      assert IsActive(s.calls[c]);
      assert forall d :: d in s.calls && s.calls[d].Draining? && s.calls[d].drain.pc.Stepping? ==> IsActive(s.calls[d]);
    }
  }

  /** How many more regions caller `c` can pass before its `drain` is over, if nobody else acts. */
  function Fuel<M, E>(s: State<M, E>, c: nat): nat {
    if c !in s.calls || !s.calls[c].Draining? then 0
    else
      var d := s.calls[c].drain;
      var waiting := 2 * |s.queue.room| + 8 * |s.queue.events|;
      (if d.hand.Some? then 1 else 0) +
      match d.pc
      case Enter(_, _) => 7 + waiting
      case Stepping(_) => 6 + waiting
      case Settle(_, _, _) => 5 + waiting
      case Turn(_) => 3 + waiting
      case Wake(room, next, _) => 2 * |room| + (if next.Some? then 8 + waiting else 1)
      case Panicking(_) => 5 + waiting
      case Inspect => 3 + waiting
      case Release(_) => 2 + waiting
      case Strand(tickets, room) => 1 + 2 * |tickets| + 2 * |room|
  }

  lemma QueueBurnsFuel<M, E>(sys: Sys<M, E>, s: State<M, E>, c: nat, d: Drain<E>, kind: Kind)
    requires c in s.calls && s.calls[c] == Draining(d, kind) && d.hand.None?
    ensures d.pc.Turn? ==> Fuel(TakeTurn(s, c, d, kind), c) < Fuel(s, c)
    ensures d.pc.Release? ==> Fuel(ReleaseStep(s, c, d, kind), c) < Fuel(s, c)
    ensures d.pc.Stepping? ==> Fuel(ReturnFromStep(sys, s, c, d, kind), c) < Fuel(s, c)
  {
  }

  lemma WakeBurnsFuel<M, E>(s: State<M, E>, c: nat, d: Drain<E>, kind: Kind)
    requires c in s.calls && s.calls[c] == Draining(d, kind) && d.hand.None?
    ensures d.pc.Wake? ==> Fuel(WakeStep(s, c, d, kind), c) < Fuel(s, c)
    ensures d.pc.Strand? ==> Fuel(StrandStep(s, c, d, kind), c) < Fuel(s, c)
  {
  }

  lemma DrainBurnsFuel<M, E>(sys: Sys<M, E>, s: State<M, E>, c: nat)
    requires c in s.calls && s.calls[c].Draining?
    ensures Fuel(DrainStep(sys, s, c), c) < Fuel(s, c)
  {
    var d, kind := s.calls[c].drain, s.calls[c].kind;
    if d.hand.None? {
      QueueBurnsFuel(sys, s, c, d, kind);
      WakeBurnsFuel(s, c, d, kind);
    }
  }

  /** A drain ends: left alone, a caller passes at most `Fuel` regions. */
  lemma {:induction false} DrainEnds<M, E>(sys: Sys<M, E>, c: nat, trace: seq<State<M, E>>)
    requires |trace| > 0
    requires forall i :: 0 <= i < |trace| - 1 ==>
      c in trace[i].calls && trace[i].calls[c].Draining? && trace[i + 1] == DrainStep(sys, trace[i], c)
    ensures |trace| - 1 <= Fuel(trace[0], c)
  {
    if |trace| > 1 {
      DrainBurnsFuel(sys, trace[0], c);
      DrainEnds(sys, c, trace[1..]);
    }
  }

  // ---- Closing --------------------------------------------------------------------------------------

  /** Some finished step reported terminated, or the start failed. */
  predicate Finished<M, E>(sys: Sys<M, E>, p: Sequential<M>, s: State<M, E>) {
    |s.h.done| <= |s.h.log| && RunAll(sys, p, s.h.log[..|s.h.done|]).closed
  }

  /** `s'` is at least as closed as `s`, and if the machine had finished it is
      untouched and nobody runs a step. */
  ghost predicate StaysClosed<M, E>(sys: Sys<M, E>, p: Sequential<M>, s: State<M, E>, s': State<M, E>) {
    && (s.queue.terminated ==> s'.queue.terminated)
    && (Finished(sys, p, s) ==> Finished(sys, p, s') && s'.machine == s.machine && MachineFree(s'))
  }

  lemma StepStaysClosed<M, E>(sys: Sys<M, E>, p: Sequential<M>, s: State<M, E>, act: Act<E>)
    requires Inv(sys, p, s) && Enabled(s, act)
    ensures StaysClosed(sys, p, s, Apply(sys, s, act))
  {
    StepGrows(sys, p, s, act);
    StepKeepsInv(sys, p, s, act);
    FinishedStays(sys, p, s, Apply(sys, s, act));
    FinishedIsFree(sys, p, Apply(sys, s, act));
  }

  lemma StaysClosedTransitive<M, E>(sys: Sys<M, E>, p: Sequential<M>, s: State<M, E>, s1: State<M, E>,
                                    s2: State<M, E>)
    requires StaysClosed(sys, p, s, s1) && StaysClosed(sys, p, s1, s2)
    ensures StaysClosed(sys, p, s, s2)
  {
  }

  lemma StartsClosed<M, E>(sys: Sys<M, E>, machine: M, started: bool,
                           acts: seq<Act<E>>, trace: seq<State<M, E>>, i: nat)
    requires sys.capacity > 0 && IsRun(sys, machine, started, acts, trace) && i <= |acts|
    ensures StaysClosed(sys, Start(sys, machine, started), trace[i], trace[i])
  {
    RunKeepsInv(sys, machine, started, acts, trace, i);
    FinishedIsFree(sys, Start(sys, machine, started), trace[i]);
  }

  lemma NextStaysClosed<M, E>(sys: Sys<M, E>, machine: M, started: bool,
                              acts: seq<Act<E>>, trace: seq<State<M, E>>, i: nat)
    requires sys.capacity > 0 && IsRun(sys, machine, started, acts, trace) && i < |acts|
    ensures StaysClosed(sys, Start(sys, machine, started), trace[i], trace[i + 1])
  {
    RunKeepsInv(sys, machine, started, acts, trace, i);
    StepStaysClosed(sys, Start(sys, machine, started), trace[i], acts[i]);
  }

  ghost predicate EachStaysClosed<M, E>(sys: Sys<M, E>, p: Sequential<M>, trace: seq<State<M, E>>) {
    && (forall k: nat :: k < |trace| ==> StaysClosed(sys, p, trace[k], trace[k]))
    && (forall k: nat :: k < |trace| - 1 ==> StaysClosed(sys, p, trace[k], trace[k + 1]))
  }

  lemma {:induction false} StaysClosedAlong<M, E>(sys: Sys<M, E>, p: Sequential<M>, trace: seq<State<M, E>>,
                                                  i: nat, j: nat)
    requires EachStaysClosed(sys, p, trace) && i <= j < |trace|
    ensures StaysClosed(sys, p, trace[i], trace[j])
    decreases j
  {
    if i < j {
      StaysClosedAlong(sys, p, trace, i, j - 1);
      StaysClosedTransitive(sys, p, trace[i], trace[j - 1], trace[j]);
    }
  }

  /** Closing is permanent, and once the machine has finished no step runs and
      the machine stays as it is. */
  lemma ClosingIsPermanent<M, E>(sys: Sys<M, E>, machine: M, started: bool,
                                 acts: seq<Act<E>>, trace: seq<State<M, E>>, i: nat, j: nat)
    requires sys.capacity > 0 && IsRun(sys, machine, started, acts, trace) && i <= j <= |acts|
    ensures StaysClosed(sys, Start(sys, machine, started), trace[i], trace[j])
  {
    var p := Start(sys, machine, started);
    assert EachStaysClosed(sys, p, trace) by {
      forall k: nat | k < |trace|
        ensures StaysClosed(sys, p, trace[k], trace[k])
      {
        StartsClosed(sys, machine, started, acts, trace, k);
      }
      forall k: nat | k < |trace| - 1
        ensures StaysClosed(sys, p, trace[k], trace[k + 1])
      {
        NextStaysClosed(sys, machine, started, acts, trace, k);
      }
    }
    StaysClosedAlong(sys, p, trace, i, j);
  }

  /** At rest the cell is closed exactly when the machine has finished, and then
      nothing is left in its ring: a step that panicked into `X` strands nothing. */
  lemma RestingCell<M, E>(sys: Sys<M, E>, machine: M, started: bool,
                          acts: seq<Act<E>>, trace: seq<State<M, E>>, i: nat)
    requires sys.capacity > 0 && IsRun(sys, machine, started, acts, trace) && i <= |acts|
    requires !trace[i].queue.draining
    ensures trace[i].queue.terminated <==> Finished(sys, Start(sys, machine, started), trace[i])
    ensures trace[i].queue.terminated ==> trace[i].queue.events == []
  {
    RunKeepsInv(sys, machine, started, acts, trace, i);
  }

  lemma FinishedIsFree<M, E>(sys: Sys<M, E>, p: Sequential<M>, s: State<M, E>)
    requires OrderInv(sys, p, s)
    ensures Finished(sys, p, s) ==> MachineFree(s)
  {
    if Finished(sys, p, s) {
      assert forall d :: d in s.calls && s.calls[d].Draining? && s.calls[d].drain.pc.Stepping? ==> IsActive(s.calls[d]);
    }
  }

  lemma FinishedStays<M, E>(sys: Sys<M, E>, p: Sequential<M>, s: State<M, E>, s': State<M, E>)
    requires OrderInv(sys, p, s) && OrderInv(sys, p, s') && Grows(s, s')
    ensures Finished(sys, p, s) ==> Finished(sys, p, s') && s'.machine == s.machine
  {
    var log' := s'.h.log[..|s'.h.done|];
    assert log'[..|s.h.done|] == s.h.log[..|s.h.done|];
    if Finished(sys, p, s) {
      ClosedRun(sys, p, log', |s.h.done|);
    }
  }

  // ---- Wake-ups -----------------------------------------------------------------------------------------

  /** No wake-up is lost. A completion whose latest poll returned pending was
      woken since, or a caller is about to call that poll's waker, or it is
      registered (and then someone is draining) or on a drainer's list, or its
      waker sits in a ticket that someone still has to resolve. */
  lemma NoLostWakeup<M, E>(sys: Sys<M, E>, machine: M, started: bool,
                           acts: seq<Act<E>>, trace: seq<State<M, E>>, i: nat, c: nat)
    requires sys.capacity > 0 && IsRun(sys, machine, started, acts, trace) && i <= |acts|
    requires c in trace[i].calls && trace[i].calls[c].Idle? && c in trace[i].h.last && c !in trace[i].h.ready
    ensures var s := trace[i];
            match s.calls[c].wait
            case Done(_) => true
            case Room(_) =>
              || Notified(s, c)
              || (&& c in s.waiters && s.waiters[c] == Some(s.h.last[c])
                  && ((c in s.queue.room && s.queue.draining) || AboutToWake(s, c)))
            case Ticketed(t) => Notified(s, c) || (Installed(s, c, t) && Owed(s, t))
  {
    RunKeepsInv(sys, machine, started, acts, trace, i);
    assert Watch(trace[i], c, trace[i].calls[c]);
  }

  /** Registrations are few and live: no duplicates, only completions waiting
      for room, and only while someone drains. */
  lemma RoomIsLive<M, E>(sys: Sys<M, E>, machine: M, started: bool,
                         acts: seq<Act<E>>, trace: seq<State<M, E>>, i: nat)
    requires sys.capacity > 0 && IsRun(sys, machine, started, acts, trace) && i <= |acts|
    ensures RoomInv(trace[i])
  {
    RunKeepsInv(sys, machine, started, acts, trace, i);
  }
}
