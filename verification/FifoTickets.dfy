/** Tickets and answers: every accepted event's ticket is resolved exactly once,
    with the result of the sequential run, and every answer a completion gives
    is accounted for. */
module FifoTickets {
  import opened Prelude
  import opened FifoQueue
  import opened Fifo
  import opened FifoOrder

  // ---- What only grows ----------------------------------------------------------

  ghost predicate Grows<M, E>(s: State<M, E>, s': State<M, E>) {
    && s.h.log <= s'.h.log
    && s.h.done <= s'.h.done
    && s.h.callers <= s'.h.callers
    && (forall t :: t in s.tickets ==>
          && t in s'.tickets
          && s'.tickets[t].owner == s.tickets[t].owner
          && (s.tickets[t].accepted.Some? ==> s'.tickets[t].accepted.Some?))
    && (forall c :: c in s.h.submitted ==> c in s'.h.submitted && s'.h.submitted[c] == s.h.submitted[c])
    && (s.queue.terminated ==> s'.queue.terminated)
  }

  lemma OfferGrows<M, E>(sys: Sys<M, E>, s: State<M, E>, c: nat)
    requires (forall t :: t in s.tickets ==> t < |s.h.log|) && c in s.calls && s.calls[c].Offering?
    ensures Grows(s, OfferStep(sys, s, c))
  {
  }

  /** The drainer never publishes an older `terminated` over a newer one. */
  lemma TurnKeepsClosed<M, E>(sys: Sys<M, E>, p: Sequential<M>, s: State<M, E>, c: nat)
    requires OrderInv(sys, p, s) && c in s.calls && s.calls[c].Draining? && s.calls[c].drain.pc.Turn?
    ensures s.queue.terminated ==> s.calls[c].drain.pc.terminated
  {
    assert IsActive(s.calls[c]);
  }

  /** The regions of `drain` that touch the queue or the machine. */
  lemma QueueRegionsGrow<M, E>(sys: Sys<M, E>, s: State<M, E>, c: nat, d: Drain<E>, kind: Kind)
    requires d.pc.Turn? && s.queue.terminated ==> d.pc.terminated
    ensures d.pc.Turn? ==> Grows(s, TakeTurn(s, c, d, kind))
    ensures d.pc.Release? ==> Grows(s, ReleaseStep(s, c, d, kind))
    ensures d.pc.Stepping? ==> Grows(s, ReturnFromStep(sys, s, c, d, kind))
  {
  }

  /** The regions of `drain` that only wake and resolve. */
  lemma WakeRegionsGrow<M, E>(s: State<M, E>, c: nat, d: Drain<E>, kind: Kind)
    ensures d.pc.Wake? ==> Grows(s, WakeStep(s, c, d, kind))
    ensures d.hand.Some? ==> Grows(s, CallWaker(s, c, d, kind))
  {
  }

  lemma StrandGrows<M, E>(s: State<M, E>, c: nat, d: Drain<E>, kind: Kind)
    requires d.pc.Strand?
    ensures Grows(s, StrandStep(s, c, d, kind))
  {
  }

  lemma DrainGrows<M, E>(sys: Sys<M, E>, s: State<M, E>, c: nat)
    requires c in s.calls && s.calls[c].Draining?
    requires s.calls[c].drain.pc.Turn? && s.queue.terminated ==> s.calls[c].drain.pc.terminated
    ensures Grows(s, DrainStep(sys, s, c))
  {
    QueueRegionsGrow(sys, s, c, s.calls[c].drain, s.calls[c].kind);
    WakeRegionsGrow(s, c, s.calls[c].drain, s.calls[c].kind);
    if s.calls[c].drain.pc.Strand? {
      StrandGrows(s, c, s.calls[c].drain, s.calls[c].kind);
    }
  }

  lemma OtherGrows<M, E>(sys: Sys<M, E>, s: State<M, E>, act: Act<E>)
    requires Enabled(s, act) && !act.Drain? && !act.Offer?
    ensures Grows(s, Apply(sys, s, act))
  {
  }

  lemma StepGrows<M, E>(sys: Sys<M, E>, p: Sequential<M>, s: State<M, E>, act: Act<E>)
    requires OrderInv(sys, p, s) && TicketsExist(s) && Enabled(s, act)
    ensures Grows(s, Apply(sys, s, act))
  {
    match act {
      case Offer(c) => OfferGrows(sys, s, c);
      case Drain(c) =>
        if s.calls[c].drain.pc.Turn? {
          TurnKeepsClosed(sys, p, s, c);
        }
        DrainGrows(sys, s, c);
      case _ => OtherGrows(sys, s, act);
    }
  }

  // ---- Tickets --------------------------------------------------------------------

  function StrandList<E>(call: Call<E>): seq<nat> {
    if call.Draining? && call.drain.pc.Strand? then call.drain.pc.tickets else []
  }

  /** The ticket held by the drainer's `Pending` after its step finished. */
  function Pending<E>(pc: Option<Pc<E>>): Option<nat> {
    match pc
    case Some(Settle(job, _, _)) => Some(job.index)
    case Some(Panicking(job)) => Some(job.index)
    case _ => None
  }

  function Stranded<M, E>(s: State<M, E>): seq<nat> {
    if s.h.strander.Some? && s.h.strander.value in s.calls then StrandList(s.calls[s.h.strander.value]) else []
  }

  /** Someone still has to resolve ticket `t`: it waits in the ring or is being
      stepped, `Pending` holds it, or the unwinding drainer took it along. */
  predicate Owed<M, E>(s: State<M, E>, t: nat) {
    || t >= |s.h.done|
    || Pending(HolderPc(s)) == Some(t)
    || t in Stranded(s)
  }

  ghost predicate TicketsExist<M, E>(s: State<M, E>) {
    && (forall t :: t in s.tickets ==>
          && t < |s.h.log|
          && s.tickets[t].owner in s.h.submitted
          && s.h.log[t] == s.h.submitted[s.tickets[t].owner]
          && t < |s.h.callers| && s.h.callers[t] == s.tickets[t].owner)
    && (forall job :: job in s.queue.events ==> job.index in s.tickets)
  }

  ghost predicate ResolvedRight<M, E>(s: State<M, E>) {
    forall t :: t in s.tickets && s.tickets[t].accepted.Some? ==>
      t < |s.h.done| && s.tickets[t].accepted.value == s.h.done[t]
  }

  ghost predicate UnresolvedOwed<M, E>(s: State<M, E>) {
    forall t :: t in s.tickets ==> (s.tickets[t].accepted.None? <==> Owed(s, t))
  }

  ghost predicate OneStrander<M, E>(s: State<M, E>) {
    && (forall c :: c in s.calls && StrandList(s.calls[c]) != [] ==> s.h.strander == Some(c))
    && (s.h.strander.Some? ==>
       s.h.strander.value in s.calls && Stranded(s) != [] && s.queue.terminated && !s.queue.draining)
    && Distinct(Stranded(s))
    && (forall t :: t in Stranded(s) ==> t in s.tickets && t < |s.h.done| && !s.h.done[t])
  }

  ghost predicate TicketInv<M, E>(s: State<M, E>) {
    TicketsExist(s) && ResolvedRight(s) && UnresolvedOwed(s) && OneStrander(s)
  }

  /** A step that resolves nothing, finishes nothing and strands nothing. */
  lemma QuietKeepsTickets<M, E>(s: State<M, E>, s': State<M, E>)
    requires TicketInv(s)
    requires s'.tickets.Keys == s.tickets.Keys
    requires forall t :: t in s.tickets ==>
      s'.tickets[t].accepted == s.tickets[t].accepted && s'.tickets[t].owner == s.tickets[t].owner
    requires s'.h.log == s.h.log && s'.h.callers == s.h.callers && s'.h.done == s.h.done &&
             s'.h.strander == s.h.strander
    requires s.h.submitted.Keys <= s'.h.submitted.Keys
    requires forall c :: c in s.h.submitted ==> s'.h.submitted[c] == s.h.submitted[c]
    requires s.queue.terminated ==> s'.queue.terminated
    requires s.h.strander.Some? ==> !s'.queue.draining
    requires forall j :: j in s'.queue.events ==> j in s.queue.events
    requires Pending(HolderPc(s')) == Pending(HolderPc(s))
    requires forall c :: c in s'.calls && StrandList(s'.calls[c]) != [] ==>
             c in s.calls && StrandList(s.calls[c]) == StrandList(s'.calls[c])
    requires s.h.strander.Some? && s.h.strander.value in s.calls ==>
      s.h.strander.value in s'.calls &&
          StrandList(s'.calls[s.h.strander.value]) == StrandList(s.calls[s.h.strander.value])
    ensures TicketInv(s')
  {
    assert Stranded(s') == Stranded(s);
  }

  /** The part of the order invariant the ticket proofs use. */
  ghost predicate Layout<M, E>(s: State<M, E>) {
    && OneHolder(s)
    && s.calls.Keys <= s.h.submitted.Keys
    && |s.h.callers| == |s.h.log|
    && s.queue.draining == HolderPc(s).Some?
    && Conserved(s.queue, HolderPc(s), s.h.log, s.h.done)
    && (match HolderPc(s)
        case Some(Settle(job, b, _)) => |s.h.done| == job.index + 1 && b == s.h.done[job.index]
        case Some(Panicking(job)) => |s.h.done| == job.index + 1 && !s.h.done[job.index]
        case Some(Release(_)) => !s.queue.terminated
        case _ => true)
  }

  lemma OrderGivesLayout<M, E>(sys: Sys<M, E>, p: Sequential<M>, s: State<M, E>)
    requires OrderInv(sys, p, s)
    ensures Layout(s)
  {
  }

  /** A newly accepted event; `ticket` says whether it waits for its caller. */
  lemma AcceptKeepsTickets<M, E>(s: State<M, E>, s': State<M, E>, c: nat, ticket: bool)
    requires TicketInv(s) && |s.h.done| <= |s.h.log| == |s.h.callers| && c in s.h.submitted &&
             s'.h.callers == s.h.callers + [c]
    requires s'.h.log == s.h.log + [s.h.submitted[c]] && s'.h.done == s.h.done && s'.h.strander == s.h.strander
    requires s'.h.submitted == s.h.submitted && s'.queue.terminated == s.queue.terminated
    requires s'.queue.draining == s.queue.draining || s.h.strander == None
    requires s'.tickets == if ticket then s.tickets[|s.h.log| := Ticket(None, None, c)] else s.tickets
    requires forall j :: j in s'.queue.events ==> j in s.queue.events || (ticket && j.index == |s.h.log|)
    requires Pending(HolderPc(s')) == Pending(HolderPc(s))
    requires c in s.calls && StrandList(s.calls[c]) == []
    requires c in s'.calls && StrandList(s'.calls[c]) == [] && s'.calls == s.calls[c := s'.calls[c]]
    ensures TicketInv(s')
  {
    assert Stranded(s') == Stranded(s);
  }

  function VerdictOf<M, E>(sys: Sys<M, E>, s: State<M, E>, c: nat): Verdict<E>
    requires c in s.calls && s.calls[c].Offering?
  {
    var job := Job(s.calls[c].event, |s.h.log|);
    FifoQueue.Offer(s.queue, sys.capacity, job, if s.calls[c].kind.Poll? then Some(c) else None).1
  }

  lemma RefusalKeepsTickets<M, E>(sys: Sys<M, E>, s: State<M, E>, c: nat)
    requires TicketInv(s) && c in s.calls && s.calls[c].Offering? && !IsActive(s.calls[c]) && OneHolder(s)
    requires VerdictOf(sys, s, c).Closed? || VerdictOf(sys, s, c).Full?
    ensures TicketInv(OfferStep(sys, s, c))
  {
    QuietKeepsTickets(s, OfferStep(sys, s, c));
  }

  lemma OfferKeepsTickets<M, E>(sys: Sys<M, E>, s: State<M, E>, c: nat)
    requires Layout(s) && TicketInv(s) && c in s.calls && s.calls[c].Offering?
    requires s.h.submitted[c] == s.calls[c].event
    ensures TicketInv(OfferStep(sys, s, c))
  {
    match VerdictOf(sys, s, c) {
      case Closed => RefusalKeepsTickets(sys, s, c);
      case Full => RefusalKeepsTickets(sys, s, c);
      case Direct => DirectKeepsTickets(sys, s, c);
      case _ => QueuedKeepsTickets(sys, s, c);
    }
  }

  lemma DirectKeepsTickets<M, E>(sys: Sys<M, E>, s: State<M, E>, c: nat)
    requires Layout(s) && TicketInv(s) && c in s.calls && s.calls[c].Offering?
    requires s.h.submitted[c] == s.calls[c].event && VerdictOf(sys, s, c).Direct?
    ensures TicketInv(OfferStep(sys, s, c))
  {
    AcceptKeepsTickets(s, OfferStep(sys, s, c), c, false);
  }

  lemma QueuedKeepsTickets<M, E>(sys: Sys<M, E>, s: State<M, E>, c: nat)
    requires Layout(s) && TicketInv(s) && c in s.calls && s.calls[c].Offering?
    requires s.h.submitted[c] == s.calls[c].event && (VerdictOf(sys, s, c).Queued? || VerdictOf(sys, s, c).Behind?)
    ensures TicketInv(OfferStep(sys, s, c))
  {
    AcceptKeepsTickets(s, OfferStep(sys, s, c), c, true);
  }

  lemma CallWakerKeepsTickets<M, E>(s: State<M, E>, c: nat, d: Drain<E>, kind: Kind)
    requires TicketInv(s) && c in s.calls && s.calls[c] == Draining(d, kind) && d.hand.Some?
    ensures TicketInv(CallWaker(s, c, d, kind))
  {
    QuietKeepsTickets(s, CallWaker(s, c, d, kind));
  }

  /** The event in flight finishes: its ticket, if any, is now held by `Pending`. */
  lemma FinishKeepsTickets<M, E>(s: State<M, E>, s': State<M, E>, c: nat)
    requires Layout(s) && TicketInv(s) && c in s.calls && s.calls[c].Draining? && s.h.holder == Some(c)
    requires IsStarting(s.calls[c].drain.pc)
    requires s'.tickets == s.tickets && s'.queue == s.queue && s'.h.log == s.h.log && s'.h.callers == s.h.callers &&
             s'.h.submitted == s.h.submitted
    requires s.h.done <= s'.h.done && |s'.h.done| == |s.h.done| + 1
    requires s'.h.strander == s.h.strander && s'.h.holder == s.h.holder
    requires c in s'.calls && s'.calls == s.calls[c := s'.calls[c]] && s'.calls[c].Draining?
    requires Pending(Some(s'.calls[c].drain.pc)) == Some(|s.h.done|)
    ensures TicketInv(s')
  {
    assert Pending(HolderPc(s)) == None;
    assert Stranded(s') == Stranded(s);
    assert forall t :: t in s.tickets && t in Stranded(s) ==> t < |s.h.done|;
  }

  lemma EnterKeepsTickets<M, E>(sys: Sys<M, E>, s: State<M, E>, c: nat)
    requires Layout(s) && TicketInv(s) && c in s.calls && s.calls[c].Draining?
    requires s.calls[c].drain.hand.None? && s.calls[c].drain.pc.Enter?
    ensures TicketInv(DrainStep(sys, s, c))
  {
    var s' := DrainStep(sys, s, c);
    assert IsActive(s.calls[c]);
    if s.calls[c].drain.pc.terminated {
      FinishKeepsTickets(s, s', c);
    } else {
      QuietKeepsTickets(s, s');
    }
  }

  lemma ReturnKeepsTickets<M, E>(sys: Sys<M, E>, s: State<M, E>, c: nat, d: Drain<E>, kind: Kind)
    requires Layout(s) && TicketInv(s) && c in s.calls && s.calls[c] == Draining(d, kind) && d.pc.Stepping?
    ensures TicketInv(ReturnFromStep(sys, s, c, d, kind))
  {
    assert IsActive(s.calls[c]);
    ReturnMoves(sys, s, c, d, kind);
    FinishKeepsTickets(s, ReturnFromStep(sys, s, c, d, kind), c);
  }

  /** A step that ends finishes one event, whose ticket `Pending` holds. */
  lemma ReturnMoves<M, E>(sys: Sys<M, E>, s: State<M, E>, c: nat, d: Drain<E>, kind: Kind)
    requires d.pc.Stepping?
    ensures var s' := ReturnFromStep(sys, s, c, d, kind);
            && s'.tickets == s.tickets && s'.queue == s.queue
            && s'.h == s.h.(done := s'.h.done) && s.h.done <= s'.h.done && |s'.h.done| == |s.h.done| + 1
            && c in s'.calls && s'.calls == s.calls[c := s'.calls[c]] && s'.calls[c].Draining?
            && Pending(Some(s'.calls[c].drain.pc)) == Some(d.pc.job.index)
  {
  }

  /** `Pending` resolves its ticket, on return or while unwinding. */
  lemma ResolveKeepsTickets<M, E>(s: State<M, E>, s': State<M, E>, c: nat, b: bool)
    requires Layout(s) && TicketInv(s) && c in s.calls && s.calls[c].Draining? && s.h.holder == Some(c)
    requires Pending(Some(s.calls[c].drain.pc)).Some?
    requires s'.tickets == Resolve(s, Pending(Some(s.calls[c].drain.pc)).value, b).0.tickets
    requires b == s.h.done[Pending(Some(s.calls[c].drain.pc)).value]
    requires s'.queue == s.queue && s'.h == s.h
    requires c in s'.calls && s'.calls == s.calls[c := s'.calls[c]] && s'.calls[c].Draining?
    requires Pending(Some(s'.calls[c].drain.pc)) == None && StrandList(s'.calls[c]) == []
    ensures TicketInv(s')
  {
    assert Pending(HolderPc(s)) == Some(|s.h.done| - 1);
    assert Pending(HolderPc(s')) == None;
    assert Stranded(s') == Stranded(s);
    assert s.h.strander == None;
  }

  /** `TakeTurn`, `WakeStep` and reading `is_terminated` touch no ticket. */
  lemma TurnKeepsTickets<M, E>(s: State<M, E>, c: nat, d: Drain<E>, kind: Kind)
    requires Layout(s) && TicketInv(s) && c in s.calls && s.calls[c] == Draining(d, kind)
    requires d.pc.Turn? && (s.queue.terminated ==> d.pc.terminated)
    ensures TicketInv(TakeTurn(s, c, d, kind))
  {
    assert IsActive(s.calls[c]);
    QuietKeepsTickets(s, TakeTurn(s, c, d, kind));
  }

  lemma WakeKeepsTickets<M, E>(s: State<M, E>, c: nat, d: Drain<E>, kind: Kind)
    requires OneHolder(s) && TicketInv(s) && c in s.calls && s.calls[c] == Draining(d, kind) && d.pc.Wake?
    ensures TicketInv(WakeStep(s, c, d, kind))
  {
    WakeMoves(s, c, d, kind);
    if d.pc.next.None? {
      assert HolderPc(WakeStep(s, c, d, kind)) == HolderPc(s);
    }
    QuietKeepsTickets(s, WakeStep(s, c, d, kind));
  }

  lemma WakeMoves<M, E>(s: State<M, E>, c: nat, d: Drain<E>, kind: Kind)
    requires d.pc.Wake?
    ensures var s' := WakeStep(s, c, d, kind);
            && s'.tickets == s.tickets && s'.queue == s.queue && s'.h == s.h
            && c in s'.calls && s'.calls == s.calls[c := s'.calls[c]] && StrandList(s'.calls[c]) == []
            && (s'.calls[c].Draining? ==> Pending(Some(s'.calls[c].drain.pc)) == None)
            && (d.pc.next.Some? ==> s'.calls[c].Draining?)
  {
  }

  lemma ReleaseKeepsTickets<M, E>(s: State<M, E>, c: nat, d: Drain<E>, kind: Kind)
    requires Layout(s) && TicketInv(s) && c in s.calls && s.calls[c] == Draining(d, kind) && d.pc.Release?
    ensures TicketInv(ReleaseStep(s, c, d, kind))
  {
    var s' := ReleaseStep(s, c, d, kind);
    assert IsActive(s.calls[c]);
    assert s.h.strander == None;
    var stranded := HandOff(s.queue, d.pc.terminated).2;
    if stranded == [] {
      assert s'.h.done == s.h.done;
      QuietKeepsTickets(s, s');
    } else {
      StrandingKeepsTickets(s, s', c, |s.h.done|);
    }
  }

  /** All of the ring is stranded: its tickets, in order, are the unfinished ones. */
  lemma StrandingKeepsTickets<M, E>(s: State<M, E>, s': State<M, E>, c: nat, k: nat)
    requires TicketInv(s) && s.h.strander == None && Pending(HolderPc(s)) == None
    requires |s.h.done| == k < |s.h.log| && s'.h.log == s.h.log && s'.h.callers == s.h.callers &&
             s'.h.done == s.h.done + Refusals(|s.h.log| - k)
    requires s'.tickets == s.tickets && s'.h.submitted == s.h.submitted
    requires |s.queue.events| == |s.h.log| - k &&
             (forall i :: 0 <= i < |s.queue.events| ==> s.queue.events[i].index == k + i)
    requires s'.queue.events == [] && !s'.queue.draining && s'.queue.terminated
    requires s'.h.holder == None && s'.h.strander == Some(c)
    requires c in s.calls && c in s'.calls && s'.calls == s.calls[c := s'.calls[c]]
    requires StrandList(s'.calls[c]) ==
             seq(|s.queue.events|, i requires 0 <= i < |s.queue.events| => s.queue.events[i].index)
    ensures TicketInv(s')
  {
    var list := Stranded(s');
    assert forall i :: 0 <= i < |list| ==> list[i] == k + i;
    forall t | t in s'.tickets
      ensures s'.tickets[t].accepted.None? <==> Owed(s', t)
    {
      if k <= t {
        assert list[t - k] == t;
      }
    }
    forall t | t in list
      ensures t in s'.tickets && t < |s'.h.done| && !s'.h.done[t]
    {
      var i :| 0 <= i < |list| && list[i] == t;
      assert s.queue.events[i] in s.queue.events;
    }
  }

  lemma StrandKeepsTickets<M, E>(s: State<M, E>, c: nat, d: Drain<E>, kind: Kind)
    requires Layout(s) && TicketInv(s) && c in s.calls && s.calls[c] == Draining(d, kind) && d.pc.Strand?
    ensures TicketInv(StrandStep(s, c, d, kind))
  {
    var s' := StrandStep(s, c, d, kind);
    var list := d.pc.tickets;
    assert !IsActive(s.calls[c]);
    assert HolderPc(s') == HolderPc(s);
    if list == [] {
      StrandWakeKeepsTickets(s, c, d, kind);
    } else {
      assert s.h.strander == Some(c) && HolderPc(s) == None;
      StrandOneKeepsTickets(s, s', c, list);
    }
  }

  lemma StrandWakeKeepsTickets<M, E>(s: State<M, E>, c: nat, d: Drain<E>, kind: Kind)
    requires TicketInv(s) && OneHolder(s) && c in s.calls && s.calls[c] == Draining(d, kind) && d.pc.Strand? &&
             d.pc.tickets == []
    ensures TicketInv(StrandStep(s, c, d, kind))
  {
    assert !IsActive(s.calls[c]);
    StrandWakeMoves(s, c, d, kind);
    assert HolderPc(StrandStep(s, c, d, kind)) == HolderPc(s);
    QuietKeepsTickets(s, StrandStep(s, c, d, kind));
  }

  lemma StrandWakeMoves<M, E>(s: State<M, E>, c: nat, d: Drain<E>, kind: Kind)
    requires d.pc.Strand? && d.pc.tickets == []
    ensures var s' := StrandStep(s, c, d, kind);
            && s'.tickets == s.tickets && s'.queue == s.queue && s'.h == s.h
            && s'.calls - {c} == s.calls - {c}
            && (c in s'.calls ==> !IsActive(s'.calls[c]) && StrandList(s'.calls[c]) == [])
  {
  }

  /** The first stranded ticket is resolved to `false`. */
  lemma StrandOneKeepsTickets<M, E>(s: State<M, E>, s': State<M, E>, c: nat, list: seq<nat>)
    requires TicketInv(s) && HolderPc(s) == None && HolderPc(s') == None && list != []
    requires c in s.calls && StrandList(s.calls[c]) == list && s.h.strander == Some(c)
    requires c in s'.calls && StrandList(s'.calls[c]) == list[1..] && s'.calls == s.calls[c := s'.calls[c]]
    requires s'.tickets == Resolve(s, list[0], false).0.tickets && s'.queue == s.queue
    requires s'.h == s.h.(strander := if |list| == 1 then None else s.h.strander)
    ensures TicketInv(s')
  {
    assert Stranded(s) == list == [list[0]] + list[1..];
    assert Stranded(s') == list[1..];
    OneLessOwed(s, s', list);
  }

  lemma OneLessOwed<M, E>(s: State<M, E>, s': State<M, E>, list: seq<nat>)
    requires TicketsExist(s) && ResolvedRight(s) && UnresolvedOwed(s) && HolderPc(s) == None && HolderPc(s') == None
    requires list != [] && Distinct(list) && Stranded(s) == list && Stranded(s') == list[1..]
    requires forall t :: t in list ==> t in s.tickets && t < |s.h.done| && !s.h.done[t]
    requires s'.tickets == Resolve(s, list[0], false).0.tickets && s'.queue == s.queue
    requires s'.h.log == s.h.log && s'.h.done == s.h.done && s'.h.callers == s.h.callers &&
             s'.h.submitted == s.h.submitted
    ensures TicketsExist(s') && ResolvedRight(s') && UnresolvedOwed(s')
  {
    assert list == [list[0]] + list[1..];
  }

  lemma DrainKeepsTickets<M, E>(sys: Sys<M, E>, s: State<M, E>, c: nat)
    requires Layout(s) && TicketInv(s) && c in s.calls && s.calls[c].Draining?
    requires s.calls[c].drain.pc.Turn? && s.queue.terminated ==> s.calls[c].drain.pc.terminated
    ensures TicketInv(DrainStep(sys, s, c))
  {
    var d, kind := s.calls[c].drain, s.calls[c].kind;
    if d.hand.Some? {
      CallWakerKeepsTickets(s, c, d, kind);
    } else {
      match d.pc {
        case Enter(_, _) => EnterKeepsTickets(sys, s, c);
        case Stepping(_) => ReturnKeepsTickets(sys, s, c, d, kind);
        case Settle(_, b, _) => ResolveKeepsTickets(s, DrainStep(sys, s, c), c, b);
        case Panicking(_) => ResolveKeepsTickets(s, DrainStep(sys, s, c), c, false);
        case Turn(_) => TurnKeepsTickets(s, c, d, kind);
        case Wake(_, _, _) => WakeKeepsTickets(s, c, d, kind);
        case Inspect => QuietKeepsTickets(s, DrainStep(sys, s, c));
        case Release(_) => ReleaseKeepsTickets(s, c, d, kind);
        case Strand(_, _) => StrandKeepsTickets(s, c, d, kind);
      }
    }
  }

  /** A caller outside `drain` settles no ticket. */
  lemma OutsiderKeepsTickets<M, E>(s: State<M, E>, s': State<M, E>, c: nat)
    requires TicketInv(s) && OneHolder(s)
    requires c in s.calls ==> !s.calls[c].Draining?
    requires c in s'.calls ==> !s'.calls[c].Draining?
    requires forall d :: d in s.calls && d != c ==> d in s'.calls && s'.calls[d] == s.calls[d]
    requires forall d :: d in s'.calls && d != c ==> d in s.calls
    requires s'.queue.(room := s.queue.room) == s.queue
    requires s'.tickets.Keys == s.tickets.Keys
    requires forall t :: t in s.tickets ==>
      s'.tickets[t].accepted == s.tickets[t].accepted && s'.tickets[t].owner == s.tickets[t].owner
    requires s'.h.log == s.h.log && s'.h.callers == s.h.callers && s'.h.done == s.h.done &&
             s'.h.strander == s.h.strander && s'.h.holder == s.h.holder
    requires forall d :: d in s.h.submitted ==> d in s'.h.submitted && s'.h.submitted[d] == s.h.submitted[d]
    ensures TicketInv(s')
  {
    assert HolderPc(s') == HolderPc(s);
    QuietKeepsTickets(s, s');
  }

  lemma PollKeepsTickets<M, E>(s: State<M, E>, c: nat, waker: nat)
    requires TicketInv(s) && OneHolder(s) && c in s.calls && s.calls[c].Idle?
    ensures TicketInv(PollStep(s, c, waker))
  {
    OutsiderKeepsTickets(s, PollStep(s, c, waker), c);
  }

  lemma AskKeepsTickets<M, E>(s: State<M, E>, c: nat)
    requires TicketInv(s) && OneHolder(s) && c in s.calls && s.calls[c].Asking?
    ensures TicketInv(AskStep(s, c))
  {
    OutsiderKeepsTickets(s, AskStep(s, c), c);
  }

  // ---- Answers ----------------------------------------------------------------------

  /** The `i`-th accepted event is the one of completion `c`. */
  ghost predicate AcceptedFor<M, E>(s: State<M, E>, c: nat, i: nat) {
    && i < |s.h.log| && i < |s.h.callers| && s.h.callers[i] == c
    && c in s.h.submitted && s.h.log[i] == s.h.submitted[c]
  }

  /** An answer given for completion `c` is accounted for. */
  ghost predicate AnswerOk<M, E>(s: State<M, E>, c: nat, a: Answer) {
    c in s.h.submitted &&
    match a.origin
    case Ran(i) => i < |s.h.done| && a.accepted == s.h.done[i] && AcceptedFor(s, c, i)
    case Refused => !a.accepted && s.queue.terminated
    case Unwound => !a.accepted
  }

  ghost predicate TicketOf<M, E>(s: State<M, E>, c: nat, t: nat) {
    t in s.tickets && s.tickets[t].owner == c
  }

  ghost predicate DrainOk<M, E>(s: State<M, E>, c: nat, d: Drain<E>) {
    match d.kont
    case OwnTicket(t) => TicketOf(s, c, t)
    case OwnResult(i) =>
      && AcceptedFor(s, c, i)
      && (d.first.Some? ==> i < |s.h.done| && d.first.value == s.h.done[i])
      && (d.first.None? ==>
            match d.pc
            case Enter(job, _) => job.index == i
            case Stepping(job) => job.index == i
            case Settle(job, _, _) => job.index == i
            case Turn(_) => false
            case Wake(_, _, _) => false
            case _ => true)
  }

  ghost predicate CallOk<M, E>(s: State<M, E>, c: nat, call: Call<E>) {
    c in s.h.submitted &&
    match call
    case Offering(event, _) => event == s.h.submitted[c]
    case Draining(d, _) => DrainOk(s, c, d)
    case Returning(ReplyDone(a)) => AnswerOk(s, c, a)
    case Returning(ReplyQueued(t)) => TicketOf(s, c, t)
    case Asking(t) => TicketOf(s, c, t)
    case Idle(Done(a)) => AnswerOk(s, c, a)
    case Idle(Ticketed(t)) => TicketOf(s, c, t)
    case Idle(Room(event)) => event == s.h.submitted[c]
  }

  ghost predicate AnswerInv<M, E>(s: State<M, E>) {
    && (forall c :: c in s.calls ==> CallOk(s, c, s.calls[c]))
    && (forall c :: c in s.h.ready ==> AnswerOk(s, c, s.h.ready[c]))
  }

  lemma GrowthKeepsCall<M, E>(s: State<M, E>, s': State<M, E>, c: nat, call: Call<E>)
    requires Grows(s, s') && CallOk(s, c, call)
    ensures CallOk(s', c, call)
  {
  }

  lemma GrowthKeepsAnswer<M, E>(s: State<M, E>, s': State<M, E>, c: nat, a: Answer)
    requires Grows(s, s') && AnswerOk(s, c, a)
    ensures AnswerOk(s', c, a)
  {
  }

  /** Only `c` changed, and what changed is accounted for. */
  lemma OneCallKeepsAnswers<M, E>(s: State<M, E>, s': State<M, E>, c: nat)
    requires AnswerInv(s) && Grows(s, s')
    requires forall d :: d in s'.calls && d != c ==> d in s.calls && s'.calls[d] == s.calls[d]
    requires c in s'.calls ==> CallOk(s', c, s'.calls[c])
    requires forall d :: d in s'.h.ready && d != c ==> d in s.h.ready && s'.h.ready[d] == s.h.ready[d]
    requires c in s'.h.ready && (c !in s.h.ready || s'.h.ready[c] != s.h.ready[c]) ==> AnswerOk(s', c, s'.h.ready[c])
    ensures AnswerInv(s')
  {
    forall d | d in s'.calls
      ensures CallOk(s', d, s'.calls[d])
    {
      if d != c {
        GrowthKeepsCall(s, s', d, s.calls[d]);
      }
    }
    forall d | d in s'.h.ready
      ensures AnswerOk(s', d, s'.h.ready[d])
    {
      if d in s.h.ready && s'.h.ready[d] == s.h.ready[d] {
        GrowthKeepsAnswer(s, s', d, s.h.ready[d]);
      }
    }
  }

  lemma OfferKeepsAnswers<M, E>(sys: Sys<M, E>, s: State<M, E>, c: nat)
    requires AnswerInv(s) && TicketsExist(s) && |s.h.callers| == |s.h.log| && c in s.calls && s.calls[c].Offering?
    ensures AnswerInv(OfferStep(sys, s, c))
  {
    OfferGrows(sys, s, c);
    OfferKeepsOwn(sys, s, c);
    OfferFrame(sys, s, c);
    OneCallKeepsAnswers(s, OfferStep(sys, s, c), c);
  }

  /** What `offer` leaves its caller with. */
  lemma OfferKeepsOwn<M, E>(sys: Sys<M, E>, s: State<M, E>, c: nat)
    requires c in s.calls && s.calls[c].Offering? && CallOk(s, c, s.calls[c]) && |s.h.callers| == |s.h.log|
    ensures var s' := OfferStep(sys, s, c); c in s'.calls ==> CallOk(s', c, s'.calls[c])
  {
    var s' := OfferStep(sys, s, c);
    match VerdictOf(sys, s, c) {
      case Closed =>
      case Full =>
      case Queued => assert TicketOf(s', c, |s.h.log|);
      case Behind(_) => assert TicketOf(s', c, |s.h.log|);
      case Direct => assert AcceptedFor(s', c, |s.h.log|);
    }
  }

  lemma DrainKeepsAnswers<M, E>(sys: Sys<M, E>, s: State<M, E>, c: nat)
    requires AnswerInv(s) && Layout(s) && c in s.calls && s.calls[c].Draining?
    requires s.calls[c].drain.pc.Turn? && s.queue.terminated ==> s.calls[c].drain.pc.terminated
    ensures AnswerInv(DrainStep(sys, s, c))
  {
    var s' := DrainStep(sys, s, c);
    DrainGrows(sys, s, c);
    DrainFrame(sys, s, c);
    if c in s'.calls {
      DrainKeepsOwn(sys, s, c);
    }
    OneCallKeepsAnswers(s, s', c);
  }

  /** The drainer moved on without learning or losing its own result. */
  lemma MovingKeepsOwn<M, E>(s: State<M, E>, s': State<M, E>, c: nat, d: Drain<E>, d': Drain<E>)
    requires DrainOk(s, c, d) && Grows(s, s') && d'.kont == d.kont && d'.first == d.first
    requires d.first.None? ==>
      || d'.pc.Panicking? || d'.pc.Inspect? || d'.pc.Release? || d'.pc.Strand?
      || (d.pc.Enter? && d'.pc.Stepping? && d'.pc.job == d.pc.job)
      || (d.pc.Enter? && d'.pc.Settle? && d'.pc.job == d.pc.job)
      || (d.pc.Stepping? && d'.pc.Settle? && d'.pc.job == d.pc.job)
      || d'.pc == d.pc
      || d.pc.Wake? || d.pc.Turn?
    ensures DrainOk(s', c, d')
  {
  }

  /** The first event of a drain settles: its caller now knows its own result. */
  lemma SettleKeepsOwn<M, E>(sys: Sys<M, E>, s: State<M, E>, c: nat, d: Drain<E>, kind: Kind)
    requires c in s.calls && s.calls[c] == Draining(d, kind) && DrainOk(s, c, d) && Layout(s)
    requires d.hand.None? && d.pc.Settle?
    ensures DrainOk(DrainStep(sys, s, c), c, DrainStep(sys, s, c).calls[c].drain)
  {
    assert IsActive(s.calls[c]);
  }

  /** A finished drain reports the result it learnt. */
  lemma WakeKeepsOwn<M, E>(s: State<M, E>, c: nat, d: Drain<E>, kind: Kind)
    requires c in s.calls && s.calls[c] == Draining(d, kind) && DrainOk(s, c, d) && c in s.h.submitted
    requires d.pc.Wake? && Grows(s, WakeStep(s, c, d, kind))
    ensures CallOk(WakeStep(s, c, d, kind), c, WakeStep(s, c, d, kind).calls[c])
  {
    var s' := WakeStep(s, c, d, kind);
    if s'.calls[c].Draining? {
      MovingKeepsOwn(s, s', c, d, s'.calls[c].drain);
    }
  }

  /** What the drainer knows about its own result is still right after its next region. */
  lemma DrainKeepsOwn<M, E>(sys: Sys<M, E>, s: State<M, E>, c: nat)
    requires c in s.calls && s.calls[c].Draining? && CallOk(s, c, s.calls[c]) && Layout(s)
    requires c in DrainStep(sys, s, c).calls && Grows(s, DrainStep(sys, s, c))
    ensures CallOk(DrainStep(sys, s, c), c, DrainStep(sys, s, c).calls[c])
  {
    var s', d, kind := DrainStep(sys, s, c), s.calls[c].drain, s.calls[c].kind;
    if d.hand.None? && d.pc.Settle? {
      SettleKeepsOwn(sys, s, c, d, kind);
    } else if d.hand.None? && d.pc.Wake? {
      WakeKeepsOwn(s, c, d, kind);
    } else if s'.calls[c].Draining? {
      DrainPath(sys, s, c);
      MovingKeepsOwn(s, s', c, d, s'.calls[c].drain);
    } else {
      DrainUnwinds(sys, s, c);
    }
  }

  /** Where a drainer can be next. */
  lemma DrainPath<M, E>(sys: Sys<M, E>, s: State<M, E>, c: nat)
    requires c in s.calls && s.calls[c].Draining?
    requires s.calls[c].drain.hand.None? ==> !s.calls[c].drain.pc.Settle? && !s.calls[c].drain.pc.Wake?
    requires c in DrainStep(sys, s, c).calls && DrainStep(sys, s, c).calls[c].Draining?
    ensures var d := s.calls[c].drain; var d' := DrainStep(sys, s, c).calls[c].drain;
            && d'.kont == d.kont && d'.first == d.first
            && (|| d'.pc.Panicking? || d'.pc.Inspect? || d'.pc.Release? || d'.pc.Strand?
                || (d.pc.Enter? && d'.pc.Stepping? && d'.pc.job == d.pc.job)
                || (d.pc.Enter? && d'.pc.Settle? && d'.pc.job == d.pc.job)
                || (d.pc.Stepping? && d'.pc.Settle? && d'.pc.job == d.pc.job)
                || d'.pc == d.pc
                || d.pc.Turn?)
  {
  }

  lemma DrainUnwinds<M, E>(sys: Sys<M, E>, s: State<M, E>, c: nat)
    requires c in s.calls && s.calls[c].Draining?
    requires s.calls[c].drain.hand.None? ==> !s.calls[c].drain.pc.Wake?
    requires c in DrainStep(sys, s, c).calls && !DrainStep(sys, s, c).calls[c].Draining?
    ensures DrainStep(sys, s, c).calls[c] == Idle(Done(Answer(false, Unwound)))
  {
  }

  lemma AskKeepsAnswers<M, E>(s: State<M, E>, c: nat)
    requires AnswerInv(s) && TicketInv(s) && c in s.calls && s.calls[c].Asking?
    ensures AnswerInv(AskStep(s, c))
  {
    assert CallOk(s, c, s.calls[c]);
    AskMoves(s, c);
    AskGrows(s, c);
    OneCallKeepsAnswers(s, AskStep(s, c), c);
  }

  lemma AskMoves<M, E>(s: State<M, E>, c: nat)
    requires c in s.calls && s.calls[c].Asking? && s.calls[c].ticket in s.tickets
    ensures var s' := AskStep(s, c); var t := s.calls[c].ticket;
            && s'.calls == s.calls[c := Idle(Ticketed(t))]
            && s'.h == s.h.(ready := s'.h.ready)
            && (s'.h.ready == s.h.ready
                || (&& s.tickets[t].accepted.Some?
                    && s'.h.ready == s.h.ready[c := Answer(s.tickets[t].accepted.value, Ran(t))]))
  {
  }

  lemma AskGrows<M, E>(s: State<M, E>, c: nat)
    requires c in s.calls && s.calls[c].Asking?
    ensures Grows(s, AskStep(s, c))
  {
  }

  lemma BeginKeepsAnswers<M, E>(s: State<M, E>, c: nat, event: E, kind: Kind)
    requires AnswerInv(s) && c !in s.h.submitted
    ensures AnswerInv(BeginStep(s, c, event, kind))
  {
    OneCallKeepsAnswers(s, BeginStep(s, c, event, kind), c);
  }

  lemma ForgetKeepsAnswers<M, E>(s: State<M, E>, c: nat)
    requires AnswerInv(s) && c in s.calls && s.calls[c].Returning?
    ensures AnswerInv(ForgetStep(s, c))
  {
    OneCallKeepsAnswers(s, ForgetStep(s, c), c);
  }

  lemma PollKeepsAnswers<M, E>(s: State<M, E>, c: nat, waker: nat)
    requires AnswerInv(s) && c in s.calls && s.calls[c].Idle?
    ensures AnswerInv(PollStep(s, c, waker))
  {
    PollMoves(s, c, waker);
    OneCallKeepsAnswers(s, PollStep(s, c, waker), c);
  }

  lemma PollMoves<M, E>(s: State<M, E>, c: nat, waker: nat)
    requires c in s.calls && s.calls[c].Idle?
    ensures var s' := PollStep(s, c, waker);
            && Grows(s, s') && c in s'.calls && s'.calls == s.calls[c := s'.calls[c]]
            && (match s.calls[c].wait
                case Done(a) => s'.calls[c] == s.calls[c] && s'.h.ready == s.h.ready[c := a]
                case Ticketed(t) => s'.calls[c] == Asking(t) && s'.h.ready == s.h.ready
                case Room(event) => s'.calls[c] == Offering(event, Poll) && s'.h.ready == s.h.ready)
  {
  }

  lemma DropKeepsAnswers<M, E>(s: State<M, E>, c: nat)
    requires AnswerInv(s) && c in s.calls && s.calls[c].Idle?
    ensures AnswerInv(DropStep(s, c))
  {
    OneCallKeepsAnswers(s, DropStep(s, c), c);
  }
}
