/** Queued dispatch (src/utility.rs, `EventQueues` and `DispatchSummary`): an
    event is offered to the machine, whatever its callbacks `process` runs at
    once, and after a state change every deferred event is offered once more.

    A callback is a `Script`: it may defer and process as often as it likes and
    look at each result. Only `drain_processed` need not end, because callbacks
    may process forever; `fuel` bounds how many events one drain pops, and
    `Dispatch` is `None` when that is too few. */
module QueuedDispatch {
  import opened Prelude
  import Ring

  datatype Status = Status(handled: bool, transitioned: bool)

  datatype Request<+E> = Defer(event: E) | Process(event: E)

  /** A callback at work: it asks for an event to be queued and goes on by the answer. */
  datatype Script<+M, +E> =
    | Finish(machine: M, status: Status)
    | Ask(request: Request<E>, granted: Script<M, E>, refused: Script<M, E>)

  type Callback<!M, !E> = (M, E) -> Script<M, E>

  datatype Summary = Summary(dispatched: nat, handled: nat, transitioned: nat)

  datatype From = External | FromProcessed | FromDeferred

  /** What happened, oldest first: offers to the machine, the requests it was
      granted meanwhile, and its answer. No step reads it. */
  datatype Note<+E> =
    | Offered(event: E, from: From)
    | Deferred(event: E)
    | Processed(event: E)
    | Answered(status: Status)

  datatype Queues<+E> = Queues(deferred: seq<E>, processed: seq<E>, log: seq<Note<E>>)

  datatype World<+M, +E> = World(machine: M, queues: Queues<E>, summary: Summary)

  /** The two capacities and the largest `usize`. */
  datatype Limits = Limits(deferred: nat, processed: nat, max: nat)

  const NOTHING := Summary(0, 0, 0)

  function Record(s: Summary, status: Status, max: nat): Summary {
    Summary(Ring.SaturatingAdd(s.dispatched, 1, max),
            Ring.SaturatingAdd(s.handled, if status.handled then 1 else 0, max),
            Ring.SaturatingAdd(s.transitioned, if status.transitioned then 1 else 0, max))
  }

  function Grant<E>(l: Limits, q: Queues<E>, request: Request<E>): (Queues<E>, bool) {
    match request
    case Defer(e) =>
      (match Ring.Push(l.deferred, q.deferred, e)
       case None => (q, false)
       case Some(s) => (q.(deferred := s, log := q.log + [Deferred(e)]), true))
    case Process(e) =>
      (match Ring.Unshift(l.processed, q.processed, e)
       case None => (q, false)
       case Some(s) => (q.(processed := s, log := q.log + [Processed(e)]), true))
  }

  function Play<M, E>(l: Limits, q: Queues<E>, script: Script<M, E>): (Queues<E>, M, Status)
    decreases script
  {
    match script
    case Finish(m, status) => (q, m, status)
    case Ask(request, granted, refused) =>
      var (q1, ok) := Grant(l, q, request);
      Play(l, q1, if ok then granted else refused)
  }

  /** One call of the dispatch callback, recorded in the summary. */
  function Offer<M, E>(l: Limits, cb: Callback<M, E>, w: World<M, E>, event: E, from: From): World<M, E> {
    var (q, m, status) := Play(l, w.queues.(log := w.queues.log + [Offered(event, from)]), cb(w.machine, event));
    World(m, q.(log := q.log + [Answered(status)]), Record(w.summary, status, l.max))
  }

  function Drain<M, E>(l: Limits, cb: Callback<M, E>, w: World<M, E>, fuel: nat): Option<World<M, E>>
    decreases fuel
  {
    if w.queues.processed == [] then Some(w)
    else if fuel == 0 then None
    else
      var w1 := w.(queues := w.queues.(processed := w.queues.processed[1..]));
      Drain(l, cb, Offer(l, cb, w1, w.queues.processed[0], FromProcessed), fuel - 1)
  }

  function Retry<M, E>(l: Limits, cb: Callback<M, E>, w: World<M, E>, retries: nat, fuel: nat): Option<World<M, E>>
    decreases retries
  {
    if retries == 0 then Some(w)
    else if w.queues.deferred == [] then Retry(l, cb, w, retries - 1, fuel)
    else
      var w1 := w.(queues := w.queues.(deferred := w.queues.deferred[1..]));
      match Drain(l, cb, Offer(l, cb, w1, w.queues.deferred[0], FromDeferred), fuel)
      case None => None
      case Some(w2) => Retry(l, cb, w2, retries - 1, fuel)
  }

  /** The external event and what it processes. */
  function First<M, E>(l: Limits, cb: Callback<M, E>, machine: M, q: Queues<E>, event: E,
                       fuel: nat): Option<World<M, E>> {
    Drain(l, cb, Offer(l, cb, World(machine, q, NOTHING), event, External), fuel)
  }

  function Dispatch<M, E>(l: Limits, cb: Callback<M, E>, machine: M, q: Queues<E>, event: E,
                          fuel: nat): Option<World<M, E>> {
    match First(l, cb, machine, q, event, fuel)
    case None => None
    case Some(w) => if w.summary.transitioned > 0 then Retry(l, cb, w, |w.queues.deferred|, fuel) else Some(w)
  }

  // ---- What a dispatch leaves behind ------------------------------------------------------

  /** The events that `defer` took, in order. */
  function DeferredIn<E>(log: seq<Note<E>>): seq<E> {
    if log == [] then []
    else
      var rest := DeferredIn(log[..|log| - 1]);
      match log[|log| - 1] case Deferred(e) => rest + [e] case _ => rest
  }

  /** The deferred events that were offered again, in order. */
  function RetriedIn<E>(log: seq<Note<E>>): seq<E> {
    if log == [] then []
    else
      var rest := RetriedIn(log[..|log| - 1]);
      match log[|log| - 1] case Offered(e, FromDeferred) => rest + [e] case _ => rest
  }

  /** Offers made, requests granted, and answers that reported the event handled or a state change. */
  datatype Tally = Tally(offers: nat, granted: nat, handled: nat, changes: nat)

  function TallyOf<E>(log: seq<Note<E>>): Tally {
    if log == [] then Tally(0, 0, 0, 0)
    else
      var t := TallyOf(log[..|log| - 1]);
      match log[|log| - 1]
      case Offered(_, _) => t.(offers := t.offers + 1)
      case Deferred(_) => t.(granted := t.granted + 1)
      case Processed(_) => t.(granted := t.granted + 1)
      case Answered(status) =>
        t.(handled := t.handled + (if status.handled then 1 else 0),
           changes := t.changes + (if status.transitioned then 1 else 0))
  }

  predicate SameAnswers(t: Tally, t': Tally) {
    t'.offers == t.offers && t'.handled == t.handled && t'.changes == t.changes
  }

  lemma Noted<E>(log: seq<Note<E>>, note: Note<E>)
    ensures DeferredIn(log + [note]) == if note.Deferred? then DeferredIn(log) + [note.event] else DeferredIn(log)
    ensures RetriedIn(log + [note]) ==
              if note.Offered? && note.from == FromDeferred then RetriedIn(log) + [note.event] else RetriedIn(log)
    ensures var t := TallyOf(log);
            TallyOf(log + [note]) ==
              Tally(t.offers + (if note.Offered? then 1 else 0),
                    t.granted + (if note.Deferred? || note.Processed? then 1 else 0),
                    t.handled + (if note.Answered? && note.status.handled then 1 else 0),
                    t.changes + (if note.Answered? && note.status.transitioned then 1 else 0))
  {
    assert (log + [note])[..|log|] == log;
  }

  function Capped(n: nat, max: nat): nat {
    if n <= max then n else max
  }

  /** The books of a dispatch that began with the rings `deferred0` and
      `processed0`; `open` events have been popped and not offered yet. */
  ghost predicate Books<E>(deferred0: seq<E>, processed0: seq<E>, q: Queues<E>, open: int) {
    var t := TallyOf(q.log);
    && deferred0 + DeferredIn(q.log) == RetriedIn(q.log) + q.deferred
    && t.offers + |q.deferred| + |q.processed| + open == |deferred0| + |processed0| + t.granted
  }

  /** The summary counts what the log shows, up to saturation. */
  ghost predicate Counts<E>(l: Limits, s: Summary, log: seq<Note<E>>) {
    && s.dispatched == Capped(TallyOf(log).offers, l.max)
    && s.handled == Capped(TallyOf(log).handled, l.max)
    && s.transitioned == Capped(TallyOf(log).changes, l.max)
  }

  lemma BothGrow<E>(a: seq<E>, b: seq<E>, c: seq<E>, d: seq<E>, x: E)
    requires a + b == c + d
    ensures a + (b + [x]) == c + (d + [x])
  {
    assert a + (b + [x]) == (a + b) + [x] && c + (d + [x]) == (c + d) + [x];
  }

  lemma GrantBooks<E>(l: Limits, q: Queues<E>, request: Request<E>, deferred0: seq<E>, processed0: seq<E>, open: int)
    requires Books(deferred0, processed0, q, open)
    ensures var q' := Grant(l, q, request).0;
            && Books(deferred0, processed0, q', open)
            && q.log <= q'.log && RetriedIn(q'.log) == RetriedIn(q.log)
            && SameAnswers(TallyOf(q.log), TallyOf(q'.log))
            && q.deferred <= q'.deferred
  {
    Noted(q.log, Deferred(request.event));
    Noted(q.log, Processed(request.event));
    BothGrow(deferred0, DeferredIn(q.log), RetriedIn(q.log), q.deferred, request.event);
  }

  lemma {:induction false} PlayBooks<M, E>(l: Limits, q: Queues<E>, script: Script<M, E>, deferred0: seq<E>,
                                           processed0: seq<E>, open: int)
    requires Books(deferred0, processed0, q, open)
    ensures var q' := Play(l, q, script).0;
            && Books(deferred0, processed0, q', open)
            && q.log <= q'.log && RetriedIn(q'.log) == RetriedIn(q.log)
            && SameAnswers(TallyOf(q.log), TallyOf(q'.log))
            && q.deferred <= q'.deferred
    decreases script
  {
    match script
    case Finish(_, _) =>
    case Ask(request, granted, refused) =>
      var (q1, ok) := Grant(l, q, request);
      GrantBooks(l, q, request, deferred0, processed0, open);
      PlayBooks(l, q1, if ok then granted else refused, deferred0, processed0, open);
  }

  /** An event was offered and is not answered yet. */
  ghost predicate OneUnanswered<E>(l: Limits, s: Summary, log: seq<Note<E>>) {
    var t := TallyOf(log);
    && t.offers > 0 && s.dispatched == Capped(t.offers - 1, l.max)
    && s.handled == Capped(t.handled, l.max) && s.transitioned == Capped(t.changes, l.max)
  }

  /** `popped` is `before` without the event that is about to be offered. */
  ghost predicate TakenFrom<E>(before: Queues<E>, popped: Queues<E>, event: E, from: From) {
    match from
    case External => popped == before
    case FromProcessed =>
      popped == before.(processed := popped.processed) && before.processed == [event] + popped.processed
    case FromDeferred =>
      popped == before.(deferred := popped.deferred) && before.deferred == [event] + popped.deferred
  }

  lemma OfferedBooks<E>(l: Limits, s: Summary, event: E, from: From, before: Queues<E>, popped: Queues<E>,
                        deferred0: seq<E>, processed0: seq<E>, open: int)
    requires Books(deferred0, processed0, before, open) && Counts(l, s, before.log)
    requires TakenFrom(before, popped, event, from)
    ensures var q0 := popped.(log := popped.log + [Offered(event, from)]);
            && Books(deferred0, processed0, q0, if from == External then open - 1 else open)
            && OneUnanswered(l, s, q0.log)
            && RetriedIn(q0.log) == RetriedIn(before.log) + if from == FromDeferred then [event] else []
  {
    var q0 := popped.(log := popped.log + [Offered(event, from)]);
    Noted(before.log, Offered(event, from));
    if from == FromDeferred {
      assert RetriedIn(before.log) + before.deferred == RetriedIn(q0.log) + q0.deferred;
    }
  }

  lemma AnsweredBooks<E>(l: Limits, s: Summary, q: Queues<E>, status: Status, deferred0: seq<E>, processed0: seq<E>,
                         open: int)
    requires Books(deferred0, processed0, q, open) && OneUnanswered(l, s, q.log)
    ensures var q' := q.(log := q.log + [Answered(status)]);
            && Books(deferred0, processed0, q', open) && Counts(l, Record(s, status, l.max), q'.log)
            && RetriedIn(q'.log) == RetriedIn(q.log)
  {
    Noted(q.log, Answered(status));
  }

  /** Offering an event: `from` says which ring it was popped from. */
  lemma OfferBooks<M, E>(l: Limits, cb: Callback<M, E>, w: World<M, E>, event: E, from: From,
                         before: Queues<E>, deferred0: seq<E>, processed0: seq<E>, open: int)
    requires Books(deferred0, processed0, before, open) && Counts(l, w.summary, before.log)
    requires TakenFrom(before, w.queues, event, from)
    ensures var w' := Offer(l, cb, w, event, from); var q' := w'.queues;
            && Books(deferred0, processed0, q', if from == External then open - 1 else open)
            && Counts(l, w'.summary, q'.log)
            && before.log <= q'.log && w.queues.deferred <= q'.deferred
            && RetriedIn(q'.log) == RetriedIn(before.log) + if from == FromDeferred then [event] else []
  {
    var q0 := w.queues.(log := w.queues.log + [Offered(event, from)]);
    OfferedBooks(l, w.summary, event, from, before, w.queues, deferred0, processed0, open);
    var open' := if from == External then open - 1 else open;
    PlayBooks(l, q0, cb(w.machine, event), deferred0, processed0, open');
    var (q, m, status) := Play(l, q0, cb(w.machine, event));
    AnsweredBooks(l, w.summary, q, status, deferred0, processed0, open');
  }

  lemma {:induction false} DrainBooks<M, E>(l: Limits, cb: Callback<M, E>, w: World<M, E>, fuel: nat,
                                            deferred0: seq<E>, processed0: seq<E>, open: int)
    requires Books(deferred0, processed0, w.queues, open) && Counts(l, w.summary, w.queues.log)
    ensures match Drain(l, cb, w, fuel)
            case None => true
            case Some(w') =>
              && Books(deferred0, processed0, w'.queues, open) && Counts(l, w'.summary, w'.queues.log)
              && w'.queues.processed == [] && w.queues.log <= w'.queues.log
              && RetriedIn(w'.queues.log) == RetriedIn(w.queues.log) && w.queues.deferred <= w'.queues.deferred
    decreases fuel
  {
    if w.queues.processed != [] && fuel > 0 {
      var w1 := w.(queues := w.queues.(processed := w.queues.processed[1..]));
      OfferBooks(l, cb, w1, w.queues.processed[0], FromProcessed, w.queues, deferred0, processed0, open);
      DrainBooks(l, cb, Offer(l, cb, w1, w.queues.processed[0], FromProcessed), fuel - 1, deferred0, processed0, open);
    }
  }

  /** The first `retries` deferred events are offered again, in order. */
  lemma {:induction false} RetryBooks<M, E>(l: Limits, cb: Callback<M, E>, w: World<M, E>, retries: nat, fuel: nat,
                                            deferred0: seq<E>, processed0: seq<E>)
    requires Books(deferred0, processed0, w.queues, 0) && Counts(l, w.summary, w.queues.log)
    requires w.queues.processed == [] && retries <= |w.queues.deferred|
    ensures match Retry(l, cb, w, retries, fuel)
            case None => true
            case Some(w') =>
              && Books(deferred0, processed0, w'.queues, 0) && Counts(l, w'.summary, w'.queues.log)
              && w'.queues.processed == [] && w.queues.log <= w'.queues.log
              && RetriedIn(w'.queues.log) == RetriedIn(w.queues.log) + w.queues.deferred[..retries]
    decreases retries
  {
    if retries > 0 {
      var event, rest := w.queues.deferred[0], w.queues.deferred[1..];
      var w1 := w.(queues := w.queues.(deferred := rest));
      var offered := Offer(l, cb, w1, event, FromDeferred);
      RetryOne(l, cb, w, fuel, deferred0, processed0);
      match Drain(l, cb, offered, fuel)
      case None =>
      case Some(w2) =>
        RetryBooks(l, cb, w2, retries - 1, fuel, deferred0, processed0);
        FirstTaken(RetriedIn(w.queues.log), w.queues.deferred, w2.queues.deferred, retries);
    }
  }

  lemma FirstTaken<E>(retried: seq<E>, before: seq<E>, after: seq<E>, n: nat)
    requires 0 < n <= |before| && before[1..] <= after
    ensures (retried + [before[0]]) + after[..n - 1] == retried + before[..n]
  {
    assert after[..n - 1] == before[1..][..n - 1];
    assert before[..n] == [before[0]] + before[1..][..n - 1];
  }

  lemma RetryOne<M, E>(l: Limits, cb: Callback<M, E>, w: World<M, E>, fuel: nat, deferred0: seq<E>,
                       processed0: seq<E>)
    requires Books(deferred0, processed0, w.queues, 0) && Counts(l, w.summary, w.queues.log)
    requires w.queues.processed == [] && w.queues.deferred != []
    ensures var event, rest := w.queues.deferred[0], w.queues.deferred[1..];
            match Drain(l, cb, Offer(l, cb, w.(queues := w.queues.(deferred := rest)), event, FromDeferred), fuel)
            case None => true
            case Some(w2) =>
              && Books(deferred0, processed0, w2.queues, 0) && Counts(l, w2.summary, w2.queues.log)
              && w2.queues.processed == [] && w.queues.log <= w2.queues.log
              && rest <= w2.queues.deferred
              && RetriedIn(w2.queues.log) == RetriedIn(w.queues.log) + [event]
  {
    var event, rest := w.queues.deferred[0], w.queues.deferred[1..];
    var w1 := w.(queues := w.queues.(deferred := rest));
    OfferBooks(l, cb, w1, event, FromDeferred, w.queues, deferred0, processed0, 0);
    DrainBooks(l, cb, Offer(l, cb, w1, event, FromDeferred), fuel, deferred0, processed0, 0);
  }

  lemma FirstBooks<M, E>(l: Limits, cb: Callback<M, E>, machine: M, deferred0: seq<E>, processed0: seq<E>,
                         event: E, fuel: nat)
    ensures match First(l, cb, machine, Queues(deferred0, processed0, []), event, fuel)
            case None => true
            case Some(w) =>
              && Books(deferred0, processed0, w.queues, -1) && Counts(l, w.summary, w.queues.log)
              && w.queues.processed == [] && RetriedIn(w.queues.log) == []
  {
    var q := Queues(deferred0, processed0, []);
    assert Books(deferred0, processed0, q, 0);
    OfferBooks(l, cb, World(machine, q, NOTHING), event, External, q, deferred0, processed0, 0);
    DrainBooks(l, cb, Offer(l, cb, World(machine, q, NOTHING), event, External), fuel, deferred0, processed0, -1);
  }

  /** One retry per deferred event. A dispatch that ends leaves no event to
      process. If some answer reported a state change before the retries began,
      the events then in the deferred ring, those it had and those deferred
      meanwhile, were each offered exactly once, in ring order, and what is in
      the ring now is what was deferred since; otherwise none was offered again.
      Every event offered or still queued was the external one, or queued
      before, or granted meanwhile. */
  lemma OneRetryEach<M, E>(l: Limits, cb: Callback<M, E>, machine: M, deferred0: seq<E>, processed0: seq<E>,
                           event: E, fuel: nat)
    requires l.max > 0 && Dispatch(l, cb, machine, Queues(deferred0, processed0, []), event, fuel).Some?
    ensures var q := Queues(deferred0, processed0, []);
            var f := First(l, cb, machine, q, event, fuel).value.queues;
            var w := Dispatch(l, cb, machine, q, event, fuel).value;
            var t := TallyOf(w.queues.log);
            && w.queues.processed == []
            && f.log <= w.queues.log && RetriedIn(f.log) == []
            && f.deferred == deferred0 + DeferredIn(f.log)
            && (if TallyOf(f.log).changes > 0
                then RetriedIn(w.queues.log) == f.deferred
                     && DeferredIn(w.queues.log) == DeferredIn(f.log) + w.queues.deferred
                else w.queues == f)
            && t.offers + |w.queues.deferred| == 1 + |deferred0| + |processed0| + t.granted
            && w.summary.dispatched == Capped(t.offers, l.max)
            && w.summary.handled == Capped(t.handled, l.max)
            && w.summary.transitioned == Capped(t.changes, l.max)
  {
    var q := Queues(deferred0, processed0, []);
    FirstBooks(l, cb, machine, deferred0, processed0, event, fuel);
    var f := First(l, cb, machine, q, event, fuel).value;
    assert deferred0 + DeferredIn(f.queues.log) == f.queues.deferred;
    if f.summary.transitioned > 0 {
      ShiftBooks(deferred0, processed0, event, f.queues);
      RetryBooks(l, cb, f, |f.queues.deferred|, fuel, deferred0, processed0 + [event]);
      var w := Retry(l, cb, f, |f.queues.deferred|, fuel).value.queues;
      assert f.queues.deferred[..|f.queues.deferred|] == f.queues.deferred;
      SamePrefix(deferred0, DeferredIn(w.log), DeferredIn(f.queues.log), w.deferred);
    }
  }

  /** The external event counts as one that was there to begin with. */
  lemma ShiftBooks<E>(deferred0: seq<E>, processed0: seq<E>, event: E, q: Queues<E>)
    requires Books(deferred0, processed0, q, -1)
    ensures Books(deferred0, processed0 + [event], q, 0)
  {
  }

  lemma SamePrefix<E>(a: seq<E>, b: seq<E>, c: seq<E>, d: seq<E>)
    requires a + b == (a + c) + d
    ensures b == c + d
  {
    assert b == (a + b)[|a|..] && c + d == ((a + c) + d)[|a|..];
  }

  // ---- When a dispatch ends -----------------------------------------------------------------

  lemma {:induction false} DrainMoreFuel<M, E>(l: Limits, cb: Callback<M, E>, w: World<M, E>, fuel: nat, more: nat)
    requires fuel <= more && Drain(l, cb, w, fuel).Some?
    ensures Drain(l, cb, w, more) == Drain(l, cb, w, fuel)
    decreases fuel
  {
    if w.queues.processed != [] {
      var w1 := w.(queues := w.queues.(processed := w.queues.processed[1..]));
      DrainMoreFuel(l, cb, Offer(l, cb, w1, w.queues.processed[0], FromProcessed), fuel - 1, more - 1);
    }
  }

  lemma {:induction false} RetryMoreFuel<M, E>(l: Limits, cb: Callback<M, E>, w: World<M, E>, retries: nat,
                                               fuel: nat, more: nat)
    requires fuel <= more && Retry(l, cb, w, retries, fuel).Some?
    ensures Retry(l, cb, w, retries, more) == Retry(l, cb, w, retries, fuel)
    decreases retries
  {
    if retries > 0 {
      if w.queues.deferred == [] {
        RetryMoreFuel(l, cb, w, retries - 1, fuel, more);
      } else {
        var w1 := w.(queues := w.queues.(deferred := w.queues.deferred[1..]));
        var offered := Offer(l, cb, w1, w.queues.deferred[0], FromDeferred);
        DrainMoreFuel(l, cb, offered, fuel, more);
        RetryMoreFuel(l, cb, Drain(l, cb, offered, fuel).value, retries - 1, fuel, more);
      }
    }
  }

  /** `fuel` only decides whether the run is followed to its end, not where it ends. */
  lemma MoreFuelSameEnd<M, E>(l: Limits, cb: Callback<M, E>, machine: M, q: Queues<E>, event: E, fuel: nat, more: nat)
    requires fuel <= more && Dispatch(l, cb, machine, q, event, fuel).Some?
    ensures Dispatch(l, cb, machine, q, event, more) == Dispatch(l, cb, machine, q, event, fuel)
  {
    DrainMoreFuel(l, cb, Offer(l, cb, World(machine, q, NOTHING), event, External), fuel, more);
    var f := First(l, cb, machine, q, event, fuel).value;
    if f.summary.transitioned > 0 {
      RetryMoreFuel(l, cb, f, |f.queues.deferred|, fuel, more);
    }
  }

  /** However the script goes, its `process` requests are paid from the machine's budget. */
  predicate Pays<M, E>(cost: M -> nat, script: Script<M, E>, budget: int) {
    match script
    case Finish(m, _) => cost(m) <= budget
    case Ask(request, granted, refused) =>
      && Pays(cost, granted, if request.Process? then budget - 1 else budget)
      && Pays(cost, refused, budget)
  }

  ghost predicate Budgeted<M(!new), E(!new)>(cb: Callback<M, E>, cost: M -> nat) {
    forall m, e :: Pays(cost, cb(m, e), cost(m))
  }

  lemma {:induction false} PlayPays<M, E>(l: Limits, q: Queues<E>, script: Script<M, E>, cost: M -> nat, budget: int)
    requires Pays(cost, script, budget)
    ensures var (q', m, _) := Play(l, q, script); cost(m) + |q'.processed| <= budget + |q.processed|
    decreases script
  {
    match script
    case Finish(_, _) =>
    case Ask(request, granted, refused) =>
      var (q1, ok) := Grant(l, q, request);
      PlayPays(l, q1, if ok then granted else refused, cost, if ok && request.Process? then budget - 1 else budget);
  }

  lemma {:induction false} DrainEnds<M(!new), E(!new)>(l: Limits, cb: Callback<M, E>, w: World<M, E>,
                                       cost: M -> nat, fuel: nat)
    requires Budgeted(cb, cost) && fuel >= cost(w.machine) + |w.queues.processed|
    ensures match Drain(l, cb, w, fuel)
            case None => false
            case Some(w') => cost(w'.machine) <= cost(w.machine) + |w.queues.processed| && w'.queues.processed == []
    decreases fuel
  {
    if w.queues.processed != [] {
      var e := w.queues.processed[0];
      var w1 := w.(queues := w.queues.(processed := w.queues.processed[1..]));
      PlayPays(l, w1.queues.(log := w1.queues.log + [Offered(e, FromProcessed)]), cb(w.machine, e), cost,
               cost(w.machine));
      DrainEnds(l, cb, Offer(l, cb, w1, e, FromProcessed), cost, fuel - 1);
    }
  }

  lemma {:induction false} RetryEnds<M(!new), E(!new)>(l: Limits, cb: Callback<M, E>, w: World<M, E>, retries: nat,
                                       cost: M -> nat, fuel: nat)
    requires Budgeted(cb, cost) && fuel >= cost(w.machine) && w.queues.processed == []
    ensures Retry(l, cb, w, retries, fuel).Some?
    decreases retries
  {
    if retries > 0 {
      if w.queues.deferred == [] {
        RetryEnds(l, cb, w, retries - 1, cost, fuel);
      } else {
        var e := w.queues.deferred[0];
        var w1 := w.(queues := w.queues.(deferred := w.queues.deferred[1..]));
        PlayPays(l, w1.queues.(log := w1.queues.log + [Offered(e, FromDeferred)]), cb(w.machine, e), cost,
                 cost(w.machine));
        var offered := Offer(l, cb, w1, e, FromDeferred);
        DrainEnds(l, cb, offered, cost, fuel);
        RetryEnds(l, cb, Drain(l, cb, offered, fuel).value, retries - 1, cost, fuel);
      }
    }
  }

  /** A dispatch ends if every `process` request is paid from a budget that
      callbacks never raise; re-deferred events need no budget, because every
      event in the ring is retried once. */
  lemma DispatchEnds<M(!new), E(!new)>(l: Limits, cb: Callback<M, E>, machine: M, q: Queues<E>, event: E,
                       cost: M -> nat)
    requires Budgeted(cb, cost)
    ensures Dispatch(l, cb, machine, q, event, cost(machine) + |q.processed|).Some?
  {
    var fuel := cost(machine) + |q.processed|;
    PlayPays(l, q.(log := q.log + [Offered(event, External)]), cb(machine, event), cost, cost(machine));
    DrainEnds(l, cb, Offer(l, cb, World(machine, q, NOTHING), event, External), cost, fuel);
    var f := First(l, cb, machine, q, event, fuel).value;
    if f.summary.transitioned > 0 {
      RetryEnds(l, cb, f, |f.queues.deferred|, cost, fuel);
    }
  }

  /** A callback that processes its own event again and again. */
  function Echo(machine: (), event: nat): Script<(), nat> {
    Ask(Process(event), Finish(machine, Status(true, false)), Finish(machine, Status(true, false)))
  }

  lemma EchoOffers(l: Limits, w: World<(), nat>, event: nat, from: From)
    requires w.queues.processed == [] && l.processed > 0
    ensures Offer(l, Echo, w, event, from).queues.processed == [event]
  {
    var q := w.queues.(log := w.queues.log + [Offered(event, from)]);
    var (q1, ok) := Grant(l, q, Process(event));
    assert Play(l, q, Echo(w.machine, event)) == Play(l, q1, Echo(w.machine, event).granted);
  }

  lemma {:induction false} EchoDrains(l: Limits, w: World<(), nat>, fuel: nat)
    requires |w.queues.processed| == 1 <= l.processed
    ensures Drain(l, Echo, w, fuel).None?
    decreases fuel
  {
    if fuel > 0 {
      var w1 := w.(queues := w.queues.(processed := w.queues.processed[1..]));
      EchoOffers(l, w1, w.queues.processed[0], FromProcessed);
      EchoDrains(l, Offer(l, Echo, w1, w.queues.processed[0], FromProcessed), fuel - 1);
    }
  }

  /** Without a budget a dispatch need not end: no number of pops is enough for `Echo`. */
  lemma EchoNeverEnds(l: Limits, event: nat, fuel: nat)
    requires l.processed > 0
    ensures Dispatch(l, Echo, (), Queues([], [], []), event, fuel).None?
  {
    EchoOffers(l, World((), Queues([], [], []), NOTHING), event, External);
    EchoDrains(l, Offer(l, Echo, World((), Queues([], [], []), NOTHING), event, External), fuel);
  }
}

/** The class form, on two array rings. */
module QueuedDispatchCode {
  import opened Prelude
  import opened QueuedDispatch
  import Ring

  class EventQueues<!E> {
    const deferred: Ring.EventQueue<E>
    const processed: Ring.EventQueue<E>
    var log: seq<Note<E>>

    ghost predicate Valid()
      reads this, deferred, deferred.events, processed, processed.events
    {
      && deferred.Valid() && processed.Valid()
      && deferred != processed && deferred.events != processed.events
      && deferred.max == processed.max
    }

    ghost function View(): Queues<E>
      requires Valid()
      reads this, deferred, deferred.events, processed, processed.events
    {
      Queues(deferred.Contents(), processed.Contents(), log)
    }

    ghost function Bounds(): Limits {
      Limits(deferred.capacity, processed.capacity, deferred.max)
    }

    constructor (deferred: nat, processed: nat, max: nat)
      requires deferred <= max && processed <= max
      ensures Valid() && View() == Queues([], [], []) && Bounds() == Limits(deferred, processed, max)
      ensures fresh(this.deferred) && fresh(this.deferred.events) && fresh(this.processed) &&
              fresh(this.processed.events)
    {
      this.deferred := new Ring.EventQueue(deferred, max);
      this.processed := new Ring.EventQueue(processed, max);
      log := [];
    }

    method Grant(request: Request<E>) returns (ok: bool)
      requires Valid()
      modifies this, deferred, deferred.events, processed, processed.events
      ensures Valid() && (View(), ok) == QueuedDispatch.Grant(Bounds(), old(View()), request)
      ensures ok && request.Process? ==> processed.Contents() == [request.event] + old(processed.Contents())
      ensures ok && request.Defer? ==> deferred.Contents() == old(deferred.Contents()) + [request.event]
    {
      match request {
        case Defer(e) =>
          ok := deferred.Defer(e);
          if ok { log := log + [Deferred(e)]; }
        case Process(e) =>
          ok := processed.Process(e);
          if ok { log := log + [Processed(e)]; }
      }
    }

    /** The callback runs: `cb` is the script it follows. */
    method Play<M>(script: Script<M, E>) returns (machine: M, status: Status)
      requires Valid()
      modifies this, deferred, deferred.events, processed, processed.events
      ensures Valid() && (View(), machine, status) == QueuedDispatch.Play(Bounds(), old(View()), script)
    {
      var rest := script;
      while rest.Ask?
        invariant Valid()
        invariant QueuedDispatch.Play(Bounds(), View(), rest) == QueuedDispatch.Play(Bounds(), old(View()), script)
        decreases rest
      {
        var ok := Grant(rest.request);
        rest := if ok then rest.granted else rest.refused;
      }
      return rest.machine, rest.status;
    }

    method Offer<M>(cb: Callback<M, E>, machine: M, summary: Summary, event: E, from: From) returns (machine': M,
                    summary': Summary)
      requires Valid()
      modifies this, deferred, deferred.events, processed, processed.events
      ensures Valid()
      ensures World(machine', View(), summary') ==
              QueuedDispatch.Offer(Bounds(), cb, World(machine, old(View()), summary), event, from)
    {
      var status;
      log := log + [Offered(event, from)];
      machine', status := Play(cb(machine, event));
      log := log + [Answered(status)];
      summary' := Record(summary, status, deferred.max);
    }

    /** `drain_processed`; `done` is false when `fuel` pops were too few. */
    method DrainProcessed<M>(cb: Callback<M, E>, machine: M, summary: Summary, fuel: nat)
      returns (machine': M, summary': Summary, done: bool)
      requires Valid()
      modifies this, deferred, deferred.events, processed, processed.events
      ensures Valid()
      ensures (if done then Some(World(machine', View(), summary')) else None)
           == QueuedDispatch.Drain(Bounds(), cb, World(machine, old(View()), summary), fuel)
    {
      machine', summary' := machine, summary;
      var left := fuel;
      ghost var all := QueuedDispatch.Drain(Bounds(), cb, World(machine, View(), summary), fuel);
      while processed.len > 0 && left > 0
        invariant Valid() && 0 <= left <= fuel
        invariant QueuedDispatch.Drain(Bounds(), cb, World(machine', View(), summary'), left) == all
        decreases left
      {
        var event := processed.Pop();
        machine', summary' := Offer(cb, machine', summary', event.value, FromProcessed);
        left := left - 1;
      }
      done := processed.len == 0;
    }

    method Dispatch<M>(cb: Callback<M, E>, machine: M, event: E, fuel: nat)
      returns (machine': M, summary: Summary, done: bool)
      requires Valid()
      modifies this, deferred, deferred.events, processed, processed.events
      ensures Valid()
      ensures (if done then Some(World(machine', View(), summary)) else None)
           == QueuedDispatch.Dispatch(Bounds(), cb, machine, old(View()), event, fuel)
    {
      machine', summary := Offer(cb, machine, NOTHING, event, External);
      machine', summary, done := DrainProcessed(cb, machine', summary, fuel);
      if done && summary.transitioned > 0 {
        machine', summary, done := RetryDeferred(cb, machine', summary, fuel);
      }
    }

    /** The retry loop: one turn for each event that is deferred when it begins. */
    method RetryDeferred<M>(cb: Callback<M, E>, machine: M, summary: Summary, fuel: nat)
      returns (machine': M, summary': Summary, done: bool)
      requires Valid()
      modifies this, deferred, deferred.events, processed, processed.events
      ensures Valid()
      ensures (if done then Some(World(machine', View(), summary')) else None)
           == Retry(Bounds(), cb, World(machine, old(View()), summary), |old(View()).deferred|, fuel)
    {
      machine', summary', done := machine, summary, true;
      var retries := deferred.len;
      ghost var all := Retry(Bounds(), cb, World(machine, View(), summary), retries, fuel);
      while retries > 0 && done
        invariant Valid() && 0 <= retries
        invariant (if done then Retry(Bounds(), cb, World(machine', View(), summary'), retries, fuel) else None) == all
      {
        machine', summary', done := RetryOne(cb, machine', summary', fuel);
        retries := retries - 1;
      }
    }

    method RetryOne<M>(cb: Callback<M, E>, machine: M, summary: Summary, fuel: nat)
      returns (machine': M, summary': Summary, done: bool)
      requires Valid()
      modifies this, deferred, deferred.events, processed, processed.events
      ensures Valid()
      ensures (if done then Some(World(machine', View(), summary')) else None)
           == Retry(Bounds(), cb, World(machine, old(View()), summary), 1, fuel)
    {
      machine', summary', done := machine, summary, true;
      var next := deferred.Pop();
      if next.Some? {
        machine', summary' := Offer(cb, machine', summary', next.value, FromDeferred);
        machine', summary', done := DrainProcessed(cb, machine', summary', fuel);
      }
    }
  }
}
