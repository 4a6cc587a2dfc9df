/** The order in which queued dispatch offers events (src/utility.rs,
    `EventQueues`): processed events are offered last in, first out, at once;
    deferred ones first in, first out, and only when nothing is left to process. */
module QueueOrder {
  import opened Prelude
  import opened QueuedDispatch
  import Ring

  /** The events still to process after `log`, the next one first: one that was
      granted goes on top, one that is offered from there is taken off the top. */
  function Stack<E>(processed0: seq<E>, log: seq<Note<E>>): seq<E> {
    if log == [] then processed0
    else
      var stack := Stack(processed0, log[..|log| - 1]);
      match log[|log| - 1]
      case Processed(e) => [e] + stack
      case Offered(_, FromProcessed) => if stack == [] then [] else stack[1..]
      case _ => stack
  }

  /** The deferred events after `log`, oldest first. */
  function Line<E>(deferred0: seq<E>, log: seq<Note<E>>): seq<E> {
    if log == [] then deferred0
    else
      var line := Line(deferred0, log[..|log| - 1]);
      match log[|log| - 1]
      case Deferred(e) => line + [e]
      case Offered(_, FromDeferred) => if line == [] then [] else line[1..]
      case _ => line
  }

  /** What may be offered after `log`: the top of the stack, or, when nothing is left
      to process, the head of the line; and the external event only at the very beginning. */
  ghost predicate Allowed<E>(deferred0: seq<E>, processed0: seq<E>, log: seq<Note<E>>, event: E, from: From) {
    match from
    case External => log == []
    case FromProcessed => Stack(processed0, log) != [] && Stack(processed0, log)[0] == event
    case FromDeferred => Stack(processed0, log) == [] && Line(deferred0, log) != [] && Line(deferred0, log)[0] == event
  }

  /** Every offer was allowed when it was made. */
  ghost predicate OffersAllowed<E>(deferred0: seq<E>, processed0: seq<E>, log: seq<Note<E>>) {
    forall i {:trigger log[i]} :: 0 <= i < |log| && log[i].Offered? ==>
      Allowed(deferred0, processed0, log[..i], log[i].event, log[i].from)
  }

  /** The log is in order, and the rings hold what it says. */
  ghost predicate InOrder<E>(deferred0: seq<E>, processed0: seq<E>, q: Queues<E>) {
    && OffersAllowed(deferred0, processed0, q.log)
    && q.processed == Stack(processed0, q.log) && q.deferred == Line(deferred0, q.log)
  }

  lemma Noted<E>(deferred0: seq<E>, processed0: seq<E>, log: seq<Note<E>>, note: Note<E>)
    requires OffersAllowed(deferred0, processed0, log)
    requires note.Offered? ==> Allowed(deferred0, processed0, log, note.event, note.from)
    ensures OffersAllowed(deferred0, processed0, log + [note])
    ensures var stack := Stack(processed0, log);
            Stack(processed0, log + [note]) == (match note
                                                case Processed(e) => [e] + stack
                                                case Offered(_, FromProcessed) => if stack == [] then [] else stack[1..]
                                                case _ => stack)
    ensures var line := Line(deferred0, log);
            Line(deferred0, log + [note]) == (match note
                                              case Deferred(e) => line + [e]
                                              case Offered(_, FromDeferred) => if line == [] then [] else line[1..]
                                              case _ => line)
  {
    var all := log + [note];
    assert all[..|log|] == log;
    forall i {:trigger all[i]} | 0 <= i < |log|
      ensures all[..i] == log[..i] && all[i] == log[i]
    {
    }
  }

  /** A request is granted exactly if its ring has a slot, and a refused one leaves no trace. */
  lemma GrantedExactly<E>(l: Limits, q: Queues<E>, request: Request<E>)
    requires |q.deferred| <= l.deferred && |q.processed| <= l.processed
    ensures var (q', ok) := Grant(l, q, request);
            && (ok <==> if request.Defer? then |q.deferred| < l.deferred else |q.processed| < l.processed)
            && (!ok ==> q' == q) && |q'.deferred| <= l.deferred && |q'.processed| <= l.processed
  {
  }

  lemma GrantInOrder<E>(l: Limits, q: Queues<E>, request: Request<E>, deferred0: seq<E>, processed0: seq<E>)
    requires InOrder(deferred0, processed0, q)
    ensures InOrder(deferred0, processed0, Grant(l, q, request).0)
  {
    Noted(deferred0, processed0, q.log, if request.Defer? then Deferred(request.event) else Processed(request.event));
  }

  lemma {:induction false} PlayInOrder<M, E>(l: Limits, q: Queues<E>, script: Script<M, E>, deferred0: seq<E>,
                                             processed0: seq<E>)
    requires InOrder(deferred0, processed0, q)
    ensures InOrder(deferred0, processed0, Play(l, q, script).0)
    decreases script
  {
    match script
    case Finish(_, _) =>
    case Ask(request, granted, refused) =>
      GrantInOrder(l, q, request, deferred0, processed0);
      var (q1, ok) := Grant(l, q, request);
      PlayInOrder(l, q1, if ok then granted else refused, deferred0, processed0);
  }

  lemma OfferInOrder<M, E>(l: Limits, cb: Callback<M, E>, w: World<M, E>, event: E, from: From, before: Queues<E>,
                           deferred0: seq<E>, processed0: seq<E>)
    requires InOrder(deferred0, processed0, before) && TakenFrom(before, w.queues, event, from)
    requires from == External ==> before.log == []
    requires from == FromDeferred ==> before.processed == []
    ensures InOrder(deferred0, processed0, Offer(l, cb, w, event, from).queues)
  {
    var q0 := w.queues.(log := w.queues.log + [Offered(event, from)]);
    Noted(deferred0, processed0, before.log, Offered(event, from));
    PlayInOrder(l, q0, cb(w.machine, event), deferred0, processed0);
    var (q, m, status) := Play(l, q0, cb(w.machine, event));
    Noted(deferred0, processed0, q.log, Answered(status));
  }

  lemma {:induction false} DrainInOrder<M, E>(l: Limits, cb: Callback<M, E>, w: World<M, E>, fuel: nat,
                                              deferred0: seq<E>, processed0: seq<E>)
    requires InOrder(deferred0, processed0, w.queues)
    ensures match Drain(l, cb, w, fuel)
            case None => true
            case Some(w') => InOrder(deferred0, processed0, w'.queues) && w'.queues.processed == []
    decreases fuel
  {
    if w.queues.processed != [] && fuel > 0 {
      var w1 := w.(queues := w.queues.(processed := w.queues.processed[1..]));
      OfferInOrder(l, cb, w1, w.queues.processed[0], FromProcessed, w.queues, deferred0, processed0);
      DrainInOrder(l, cb, Offer(l, cb, w1, w.queues.processed[0], FromProcessed), fuel - 1, deferred0, processed0);
    }
  }

  lemma {:induction false} RetryInOrder<M, E>(l: Limits, cb: Callback<M, E>, w: World<M, E>, retries: nat, fuel: nat,
                                              deferred0: seq<E>, processed0: seq<E>)
    requires InOrder(deferred0, processed0, w.queues) && w.queues.processed == []
    ensures match Retry(l, cb, w, retries, fuel)
            case None => true
            case Some(w') => InOrder(deferred0, processed0, w'.queues) && w'.queues.processed == []
    decreases retries
  {
    if retries > 0 {
      if w.queues.deferred == [] {
        RetryInOrder(l, cb, w, retries - 1, fuel, deferred0, processed0);
      } else {
        var w1 := w.(queues := w.queues.(deferred := w.queues.deferred[1..]));
        var offered := Offer(l, cb, w1, w.queues.deferred[0], FromDeferred);
        OfferInOrder(l, cb, w1, w.queues.deferred[0], FromDeferred, w.queues, deferred0, processed0);
        DrainInOrder(l, cb, offered, fuel, deferred0, processed0);
        if Drain(l, cb, offered, fuel).Some? {
          RetryInOrder(l, cb, Drain(l, cb, offered, fuel).value, retries - 1, fuel, deferred0, processed0);
        }
      }
    }
  }

  /** In every dispatch that ends: the external event is offered first; from the
      process ring always the event granted last of those still there, or, once those
      are gone, the next of the ring as it was; a deferred event only when nothing is
      left to process, and always the oldest; and the rings hold the rest, in order. */
  lemma DispatchInOrder<M, E>(l: Limits, cb: Callback<M, E>, machine: M, deferred0: seq<E>, processed0: seq<E>,
                              event: E, fuel: nat)
    requires Dispatch(l, cb, machine, Queues(deferred0, processed0, []), event, fuel).Some?
    ensures var q := Dispatch(l, cb, machine, Queues(deferred0, processed0, []), event, fuel).value.queues;
            && q.log != [] && q.log[0] == Offered(event, External)
            && InOrder(deferred0, processed0, q)
  {
    var q := Queues(deferred0, processed0, []);
    var w := World(machine, q, NOTHING);
    OfferInOrder(l, cb, w, event, External, q, deferred0, processed0);
    DrainInOrder(l, cb, Offer(l, cb, w, event, External), fuel, deferred0, processed0);
    var f := First(l, cb, machine, q, event, fuel).value;
    BeginsWith(l, cb, w, event);
    DrainGrows(l, cb, Offer(l, cb, w, event, External), fuel);
    if f.summary.transitioned > 0 {
      RetryInOrder(l, cb, f, |f.queues.deferred|, fuel, deferred0, processed0);
      RetryGrows(l, cb, f, |f.queues.deferred|, fuel);
    }
  }

  lemma {:induction false} PlayGrows<M, E>(l: Limits, q: Queues<E>, script: Script<M, E>)
    ensures q.log <= Play(l, q, script).0.log
    decreases script
  {
    match script
    case Finish(_, _) =>
    case Ask(request, granted, refused) =>
      var (q1, ok) := Grant(l, q, request);
      PlayGrows(l, q1, if ok then granted else refused);
  }

  lemma OfferGrows<M, E>(l: Limits, cb: Callback<M, E>, w: World<M, E>, event: E, from: From)
    ensures w.queues.log + [Offered(event, from)] <= Offer(l, cb, w, event, from).queues.log
  {
    PlayGrows(l, w.queues.(log := w.queues.log + [Offered(event, from)]), cb(w.machine, event));
  }

  lemma BeginsWith<M, E>(l: Limits, cb: Callback<M, E>, w: World<M, E>, event: E)
    requires w.queues.log == []
    ensures [Offered(event, External)] <= Offer(l, cb, w, event, External).queues.log
  {
    OfferGrows(l, cb, w, event, External);
    assert w.queues.log + [Offered(event, External)] == [Offered(event, External)];
  }

  lemma {:induction false} DrainGrows<M, E>(l: Limits, cb: Callback<M, E>, w: World<M, E>, fuel: nat)
    ensures Drain(l, cb, w, fuel).Some? ==> w.queues.log <= Drain(l, cb, w, fuel).value.queues.log
    decreases fuel
  {
    if w.queues.processed != [] && fuel > 0 {
      var w1 := w.(queues := w.queues.(processed := w.queues.processed[1..]));
      OfferGrows(l, cb, w1, w.queues.processed[0], FromProcessed);
      DrainGrows(l, cb, Offer(l, cb, w1, w.queues.processed[0], FromProcessed), fuel - 1);
    }
  }

  lemma {:induction false} RetryGrows<M, E>(l: Limits, cb: Callback<M, E>, w: World<M, E>, retries: nat, fuel: nat)
    ensures Retry(l, cb, w, retries, fuel).Some? ==> w.queues.log <= Retry(l, cb, w, retries, fuel).value.queues.log
    decreases retries
  {
    if retries > 0 {
      if w.queues.deferred == [] {
        RetryGrows(l, cb, w, retries - 1, fuel);
      } else {
        var w1 := w.(queues := w.queues.(deferred := w.queues.deferred[1..]));
        var offered := Offer(l, cb, w1, w.queues.deferred[0], FromDeferred);
        OfferGrows(l, cb, w1, w.queues.deferred[0], FromDeferred);
        DrainGrows(l, cb, offered, fuel);
        if Drain(l, cb, offered, fuel).Some? {
          RetryGrows(l, cb, Drain(l, cb, offered, fuel).value, retries - 1, fuel);
        }
      }
    }
  }
}
