/** Admission to the FIFO scheduler (src/scheduler.rs, `offer` and its callers):
    when an event is refused, sent away or accepted, and what becomes of its caller. */
module FifoAdmission {
  import opened Prelude
  import opened FifoQueue
  import opened Fifo
  import opened FifoOrder
  import opened FifoTickets
  import opened FifoTheorems

  /** Somebody is inside `drain` or unwinding from it. */
  ghost predicate Busy<M, E>(s: State<M, E>) {
    exists d :: d in s.calls && IsActive(s.calls[d])
  }

  /** Accepted events that are neither finished nor in flight. */
  function Backlog<M, E>(s: State<M, E>): int {
    |s.h.log| - |s.h.done| - InFlight(HolderPc(s))
  }

  /** In every state of every run: an offer is refused exactly if the queue is
      closed, which it is only once the machine has finished; and it finds no room
      exactly if somebody drains and as many accepted events as the queue can hold
      are neither finished nor in flight. */
  lemma RefusedExactly<M, E>(sys: Sys<M, E>, machine: M, started: bool,
                             acts: seq<Act<E>>, trace: seq<State<M, E>>, i: nat, c: nat)
    requires sys.capacity > 0 && IsRun(sys, machine, started, acts, trace) && i <= |acts|
    requires c in trace[i].calls && trace[i].calls[c].Offering?
    ensures var s := trace[i]; var v := VerdictOf(sys, s, c);
            && (v.Closed? <==> s.queue.terminated)
            && (v.Closed? ==> Finished(sys, Start(sys, machine, started), s))
            && (v.Full? <==> !s.queue.terminated && Busy(s) && Backlog(s) == sys.capacity)
  {
    RunKeepsInv(sys, machine, started, acts, trace, i);
    SingleConsumer(sys, machine, started, acts, trace, i);
    EventsConserved(sys, machine, started, acts, trace, i);
    assert |trace[i].h.log[|trace[i].h.done| + InFlight(HolderPc(trace[i]))..]| == |trace[i].queue.events|;
  }

  /** A refused event is reported `false`; one that finds no room is handed back to
      `try_submit` and kept by the completion of `submit` and `poll`. Neither changes
      the machine, the accept order, or what waits in the ring. */
  ghost predicate SentAway<M, E>(s: State<M, E>, s': State<M, E>, c: nat, full: bool) {
    && s'.h.log == s.h.log && s'.h.callers == s.h.callers && s'.h.done == s.h.done
    && s'.machine == s.machine && s'.queue.events == s.queue.events && s'.queue.draining == s.queue.draining
    && c in s.calls && s.calls[c].Offering?
    && var kind := s.calls[c].kind;
       && (forall w :: w in s'.queue.room <==> w in s.queue.room || (full && kind.Poll? && w == c))
       && if full then
         if kind.TrySubmit? then c !in s'.calls
         else c in s'.calls && s'.calls[c] == Idle(Room(s.calls[c].event)) && c in s'.waiters
       else
         && c in s'.calls
         && s'.calls[c] == if kind.Poll? then Returning(ReplyDone(Answer(false, Refused)))
            else Idle(Done(Answer(false, Refused)))
  }

  /** An accepted event is the last of the accept order. If somebody drains, its
      caller gets its ticket. Otherwise its caller drains, starting with the oldest
      event that is not finished, which is its own if none was left over. */
  ghost predicate TakenOn<M, E>(s: State<M, E>, s': State<M, E>, c: nat) {
    && c in s.calls && s.calls[c].Offering? && c in s'.calls
    && s'.h.log == s.h.log + [s.calls[c].event] && s'.h.callers == s.h.callers + [c]
    && s'.h.done == s.h.done && s'.machine == s.machine && |s.h.done| < |s'.h.log|
    && var own := |s.h.log|;
       var call := s'.calls[c];
       if Busy(s) then
         && call == (if s.calls[c].kind.Poll? then Returning(ReplyQueued(own)) else Idle(Ticketed(own)))
         && own in s'.tickets && s'.tickets[own] == Ticket(None, None, c)
       else
         && call.Draining? && call.kind == s.calls[c].kind && call.drain.hand.None? && call.drain.first.None?
         && call.drain.pc == Enter(Job(s'.h.log[|s.h.done|], |s.h.done|), false)
         && call.drain.kont == (if |s.h.done| == own then OwnResult(own) else OwnTicket(own))
         && (|s.h.done| < own ==> own in s'.tickets && s'.tickets[own] == Ticket(None, None, c))
         && HolderPc(s') == Some(call.drain.pc)
  }

  lemma OfferSendsAway<M, E>(sys: Sys<M, E>, s: State<M, E>, c: nat)
    requires c in s.calls && s.calls[c].Offering?
    ensures var v := VerdictOf(sys, s, c);
            v.Closed? || v.Full? ==> SentAway(s, OfferStep(sys, s, c), c, v.Full?)
  {
  }

  lemma OfferTakesOn<M, E>(sys: Sys<M, E>, p: Sequential<M>, s: State<M, E>, c: nat)
    requires OrderInv(sys, p, s) && c in s.calls && s.calls[c].Offering? && (s.queue.draining <==> Busy(s))
    ensures var v := VerdictOf(sys, s, c);
            !v.Closed? && !v.Full? ==> TakenOn(s, OfferStep(sys, s, c), c)
  {
    var s' := OfferStep(sys, s, c);
    if !s.queue.terminated && !s.queue.draining {
      IdleTakesOn(sys, p, s, c);
    }
  }

  /** Nobody drains: the oldest leftover event, or the new one, is run first. */
  lemma IdleTakesOn<M, E>(sys: Sys<M, E>, p: Sequential<M>, s: State<M, E>, c: nat)
    requires OrderInv(sys, p, s) && c in s.calls && s.calls[c].Offering? && !Busy(s)
    requires !s.queue.terminated && !s.queue.draining
    ensures TakenOn(s, OfferStep(sys, s, c), c)
  {
    var s' := OfferStep(sys, s, c);
    assert |s.h.done| + |s.queue.events| == |s.h.log|;
    if s.queue.events != [] {
      assert s.queue.events[0] == Job(s.h.log[|s.h.done|], |s.h.done|);
    }
  }

  /** What an offer does to its event and its caller, in every run. */
  lemma OffersAreSettled<M, E>(sys: Sys<M, E>, machine: M, started: bool,
                               acts: seq<Act<E>>, trace: seq<State<M, E>>, i: nat, c: nat)
    requires sys.capacity > 0 && IsRun(sys, machine, started, acts, trace) && i < |acts|
    requires acts[i] == Act.Offer(c)
    ensures var s, s' := trace[i], trace[i + 1];
            if s.queue.terminated then SentAway(s, s', c, false)
            else if Busy(s) && Backlog(s) == sys.capacity then SentAway(s, s', c, true)
            else TakenOn(s, s', c)
  {
    var s := trace[i];
    RunKeepsInv(sys, machine, started, acts, trace, i);
    SingleConsumer(sys, machine, started, acts, trace, i);
    RefusedExactly(sys, machine, started, acts, trace, i, c);
    OfferSendsAway(sys, s, c);
    OfferTakesOn(sys, Start(sys, machine, started), s, c);
  }
}
