/** The one case in which a completion's answer is not its event's result: the
    poll that ran the drain unwound. `poll` has already replaced the completion's
    state by `Done(false)`, so that is what it reports from then on, although
    its event may have run, or still be queued, and be accepted. */
module FifoUnwound {
  import opened Prelude
  import opened FifoQueue
  import opened Fifo
  import opened FifoOrder
  import opened FifoTickets
  import opened FifoTheorems

  // ---- Polls that panicked ---------------------------------------------------------------

  /** The next region of `c` runs a step that panics through a poll of `c`. */
  ghost predicate PanicsThroughPoll<M, E>(sys: Sys<M, E>, s: State<M, E>, act: Act<E>, c: nat) {
    && act == Act.Drain(c) && c in s.calls && s.calls[c].Draining? && s.calls[c].kind.Poll?
    && s.calls[c].drain.hand.None? && s.calls[c].drain.pc.Stepping?
    && sys.step(s.machine, s.calls[c].drain.pc.job.event).Panicked?
  }

  /** In the first `i` acts, a poll of `c` was running a drain when a step panicked. */
  ghost predicate PollPanicked<M, E>(sys: Sys<M, E>, acts: seq<Act<E>>, trace: seq<State<M, E>>, i: nat, c: nat)
    requires i <= |acts| <= |trace|
  {
    exists j {:trigger acts[j]} :: 0 <= j < i && PanicsThroughPoll(sys, trace[j], acts[j], c)
  }

  lemma PanickedNext<M, E>(sys: Sys<M, E>, acts: seq<Act<E>>, trace: seq<State<M, E>>, i: nat, c: nat)
    requires i < |acts| <= |trace|
    ensures PollPanicked(sys, acts, trace, i + 1, c) <==>
              PollPanicked(sys, acts, trace, i, c) || PanicsThroughPoll(sys, trace[i], acts[i], c)
  {
    if PollPanicked(sys, acts, trace, i + 1, c) && !PanicsThroughPoll(sys, trace[i], acts[i], c) {
      var j :| 0 <= j < i + 1 && PanicsThroughPoll(sys, trace[j], acts[j], c);
      assert acts[j] == acts[j] && j < i;
    }
    if PollPanicked(sys, acts, trace, i, c) {
      var j :| 0 <= j < i && PanicsThroughPoll(sys, trace[j], acts[j], c);
      assert acts[j] == acts[j] && j < i + 1;
    }
  }

  /** The call is unwinding from a panic that went through a poll, or kept that poll's answer. */
  predicate UnwindingPoll<E>(call: Call<E>) {
    match call
    case Draining(d, kind) => kind.Poll? && (d.pc.Panicking? || d.pc.Inspect? || d.pc.Release? || d.pc.Strand?)
    case Returning(ReplyDone(a)) => a.origin.Unwound?
    case Idle(Done(a)) => a.origin.Unwound?
    case _ => false
  }

  /** What is left of a completion says whether a poll of it panicked. */
  ghost predicate Tells<M, E>(s: State<M, E>, c: nat, panicked: bool) {
    && (c in s.calls ==> (UnwindingPoll(s.calls[c]) <==> panicked))
    && (c in s.h.ready ==> (s.h.ready[c].origin.Unwound? <==> panicked))
    && (panicked ==> c in s.h.submitted)
  }

  /** A region of the acting completion's drain. */
  lemma DrainTells<M, E>(sys: Sys<M, E>, s: State<M, E>, c: nat, panicked: bool)
    requires OnceInv(s) && c in s.calls && s.calls[c].Draining? && Tells(s, c, panicked)
    ensures Tells(DrainStep(sys, s, c), c, panicked || PanicsThroughPoll(sys, s, Act.Drain(c), c))
  {
    DrainFrame(sys, s, c);
    var d, kind := s.calls[c].drain, s.calls[c].kind;
    if d.hand.None? {
      match d.pc {
        case Stepping(_) => StepTells(sys, s, c, d, kind);
        case Strand(_, _) => StrandTells(s, c, d, kind);
        case Wake(_, _, _) => WakeTells(s, c, d, kind);
        case _ =>
      }
    }
  }

  lemma StepTells<M, E>(sys: Sys<M, E>, s: State<M, E>, c: nat, d: Drain<E>, kind: Kind)
    requires d.pc.Stepping?
    ensures var s' := ReturnFromStep(sys, s, c, d, kind);
            c in s'.calls && (UnwindingPoll(s'.calls[c]) <==>
                kind.Poll? && sys.step(s.machine, d.pc.job.event).Panicked?)
  {
  }

  lemma StrandTells<M, E>(s: State<M, E>, c: nat, d: Drain<E>, kind: Kind)
    requires d.pc.Strand?
    ensures var s' := StrandStep(s, c, d, kind); c in s'.calls ==> (UnwindingPoll(s'.calls[c]) <==> kind.Poll?)
  {
  }

  lemma WakeTells<M, E>(s: State<M, E>, c: nat, d: Drain<E>, kind: Kind)
    requires d.pc.Wake?
    ensures var s' := WakeStep(s, c, d, kind); c in s'.calls && !UnwindingPoll(s'.calls[c])
  {
  }

  lemma OfferTells<M, E>(sys: Sys<M, E>, s: State<M, E>, c: nat, panicked: bool)
    requires OnceInv(s) && c in s.calls && s.calls[c].Offering? && Tells(s, c, panicked)
    ensures Tells(OfferStep(sys, s, c), c, panicked)
  {
    OfferFrame(sys, s, c);
  }

  /** The acting completion's other acts. */
  lemma ActorTells<M, E>(sys: Sys<M, E>, s: State<M, E>, act: Act<E>, panicked: bool)
    requires OnceInv(s) && Enabled(s, act) && Tells(s, act.who, panicked)
    ensures Tells(Apply(sys, s, act), act.who, panicked || PanicsThroughPoll(sys, s, act, act.who))
  {
    match act {
      case Offer(c) => OfferTells(sys, s, c, panicked);
      case Drain(c) => DrainTells(sys, s, c, panicked);
      case _ => OthersAcceptNothing(sys, s, act);
    }
  }

  /** Anyone else's act leaves the completion alone. */
  lemma BystanderTells<M, E>(sys: Sys<M, E>, s: State<M, E>, act: Act<E>, c: nat, panicked: bool)
    requires Enabled(s, act) && act.who != c && Tells(s, c, panicked)
    ensures Tells(Apply(sys, s, act), c, panicked)
  {
    match act {
      case Offer(d) => OfferFrame(sys, s, d);
      case Drain(d) => DrainFrame(sys, s, d);
      case _ => OthersAcceptNothing(sys, s, act);
    }
  }

  lemma {:induction false} RunTells<M, E>(sys: Sys<M, E>, machine: M, started: bool,
                                          acts: seq<Act<E>>, trace: seq<State<M, E>>, i: nat, c: nat)
    requires sys.capacity > 0 && IsRun(sys, machine, started, acts, trace) && i <= |acts|
    ensures Tells(trace[i], c, PollPanicked(sys, acts, trace, i, c))
  {
    if i > 0 {
      var j := i - 1;
      RunTells(sys, machine, started, acts, trace, j, c);
      AcceptedOnce(sys, machine, started, acts, trace, j);
      PanickedNext(sys, acts, trace, j, c);
      if acts[j].who == c {
        ActorTells(sys, trace[j], acts[j], PollPanicked(sys, acts, trace, j, c));
      } else {
        BystanderTells(sys, trace[j], acts[j], c, PollPanicked(sys, acts, trace, j, c));
      }
    }
  }

  // ---- Answers and results -------------------------------------------------------------------

  /** `accepted` is the result of completion `c`'s event in the sequential run of
      the accept order; an event that was never accepted counts as refused. */
  ghost predicate Agrees<M, E>(s: State<M, E>, results: seq<bool>, c: nat, accepted: bool) {
    && (c !in s.h.callers ==> !accepted)
    && (forall k :: 0 <= k < |s.h.callers| && s.h.callers[k] == c && k < |results| ==> accepted == results[k])
  }

  /** The sequential run accepts completion `c`'s event. */
  ghost predicate Accepts<M, E>(s: State<M, E>, results: seq<bool>, c: nat) {
    exists k :: 0 <= k < |s.h.callers| && s.h.callers[k] == c && k < |results| && results[k]
  }

  /** What a completion's poll reports is its event's result in the sequential run
      of the accept order, except exactly when a poll of it ran the drain as a step
      panicked and the sequential run accepts its event. */
  lemma AnswerIsResultUnlessUnwound<M, E>(sys: Sys<M, E>, machine: M, started: bool,
                                          acts: seq<Act<E>>, trace: seq<State<M, E>>, i: nat, c: nat)
    requires sys.capacity > 0 && IsRun(sys, machine, started, acts, trace) && i <= |acts|
    requires c in trace[i].h.ready
    ensures var s := trace[i];
            var results := Reference(sys, machine, started, s.h.log).results;
            Agrees(s, results, c, s.h.ready[c].accepted) <==>
              !(PollPanicked(sys, acts, trace, i, c) && Accepts(s, results, c))
  {
    var s := trace[i];
    var results := Reference(sys, machine, started, s.h.log).results;
    FifoRefinesSequential(sys, machine, started, acts, trace, i);
    AcceptedOnce(sys, machine, started, acts, trace, i);
    RunTells(sys, machine, started, acts, trace, i, c);
    if s.h.ready[c].origin.Ran? {
      var k := s.h.ready[c].origin.index;
      assert AcceptedFor(s, c, k) && s.h.ready[c].accepted == results[k];
    }
  }

  // ---- A run that shows the exception ----------------------------------------------------

  /** A machine that counts accepted events; the event `true` panics. */
  function Counter(): Sys<int, bool> {
    Sys(2, (m: int, e: bool) => if e then Panicked(m) else Returned(m + 1, true), (m: int) => false)
  }

  ghost predicate Reaches(s: State<int, bool>) {
    exists acts, trace :: IsRun(Counter(), 0, true, acts, trace) && trace[|acts|] == s
  }

  function One(s: State<int, bool>, act: Act<bool>): State<int, bool>
    requires Enabled(s, act)
  {
    Apply(Counter(), s, act)
  }

  lemma Step(s: State<int, bool>, act: Act<bool>)
    requires Reaches(s) && Enabled(s, act)
    ensures Reaches(One(s, act))
  {
    var acts, trace :| IsRun(Counter(), 0, true, acts, trace) && trace[|acts|] == s;
    assert IsRun(Counter(), 0, true, acts + [act], trace + [One(s, act)]);
  }

  // Completion 0 is running its step. Completions 1 and 2 queue panicking
  // events, and the ring is full when completion 3 comes.
  const EMPTY := Init(Counter(), 0, true)

  const BUSY := Draining(Drain.Drain(Stepping(Job(false, 0)), None, None, OwnResult(0)), Submit)

  function Busy(): State<int, bool> {
    State(0, Queue([], true, false, []), map[], map[], map[0 := BUSY],
          History([false], [0], [], Some(0), None, map[0 := false], map[], {}, map[]))
  }

  function Queued1(): State<int, bool> {
    State(0, Queue([Job(true, 1)], true, false, []), map[1 := Ticket(None, None, 1)], map[],
          map[0 := BUSY, 1 := Idle(Ticketed(1))],
          History([false, true], [0, 1], [], Some(0), None, map[0 := false, 1 := true], map[], {}, map[]))
  }

  function Queueing(): State<int, bool> {
    State(0, Queue([Job(true, 1), Job(true, 2)], true, false, []),
          map[1 := Ticket(None, None, 1), 2 := Ticket(None, None, 2)], map[],
          map[0 := BUSY, 1 := Idle(Ticketed(1)), 2 := Idle(Ticketed(2))],
          History([false, true, true], [0, 1, 2], [], Some(0), None,
                  map[0 := false, 1 := true, 2 := true], map[], {}, map[]))
  }

  function Crowded(): State<int, bool> {
    State(0, Queue([Job(true, 1), Job(true, 2)], true, false, []),
          map[1 := Ticket(None, None, 1), 2 := Ticket(None, None, 2)], map[3 := None],
          map[0 := BUSY, 1 := Idle(Ticketed(1)), 2 := Idle(Ticketed(2)), 3 := Idle(Room(false))],
          History([false, true, true], [0, 1, 2], [], Some(0), None,
                  map[0 := false, 1 := true, 2 := true, 3 := false], map[], {}, map[]))
  }

  lemma Fill()
    ensures Reaches(Busy())
  {
    assert IsRun(Counter(), 0, true, [], [EMPTY]);
    Step(EMPTY, Begin(0, false, Submit));
    var s1 := One(EMPTY, Begin(0, false, Submit));
    Step(s1, Act.Offer(0));
    var s2 := One(s1, Act.Offer(0));
    Step(s2, Act.Drain(0));
    var s3 := One(s2, Act.Drain(0));
    assert s3 == Busy();
  }

  lemma Crowd()
    requires Reaches(Busy())
    ensures Reaches(Queued1())
  {
    Step(Busy(), Begin(1, true, Submit));
    var s1 := One(Busy(), Begin(1, true, Submit));
    Step(s1, Act.Offer(1));
    var s2 := One(s1, Act.Offer(1));
    assert s2 == Queued1();
  }

  lemma CrowdMore()
    requires Reaches(Queued1())
    ensures Reaches(Queueing())
  {
    var s2 := Queued1();
    Step(s2, Begin(2, true, Submit));
    var s3 := One(s2, Begin(2, true, Submit));
    Step(s3, Act.Offer(2));
    var s4 := One(s3, Act.Offer(2));
    assert s4 == Queueing();
  }

  lemma CrowdOut()
    requires Reaches(Queueing())
    ensures Reaches(Crowded())
  {
    var s4 := Queueing();
    Step(s4, Begin(3, false, Submit));
    var s5 := One(s4, Begin(3, false, Submit));
    Step(s5, Act.Offer(3));
    var s6 := One(s5, Act.Offer(3));
    assert s6 == Crowded();
  }

  // The drainer goes on to completion 1's event, which panics: it lets go and
  // leaves completion 2's event in the ring.
  function Turning(): State<int, bool> {
    Crowded().(machine := 1,
      calls := Crowded().calls[0 := Draining(Drain.Drain(Turn(false), None, Some(true), OwnResult(0)), Submit)],
      h := Crowded().h.(done := [true]))
  }

  function Stepping1(): State<int, bool> {
    Crowded().(machine := 1, queue := Queue([Job(true, 2)], true, false, []),
      calls := Crowded().calls[0 :=
          Draining(Drain.Drain(Stepping(Job(true, 1)), None, Some(true), OwnResult(0)), Submit)],
      h := Crowded().h.(done := [true]))
  }

  function Panicked1(): State<int, bool> {
    Stepping1().(
      tickets := map[1 := Ticket(Some(false), None, 1), 2 := Ticket(None, None, 2)],
      calls := Crowded().calls[0 := Draining(Drain.Drain(Inspect, None, Some(true), OwnResult(0)), Submit)],
      h := Crowded().h.(done := [true, false]))
  }

  function Released1(): State<int, bool> {
    Abandoned().(calls :=
        Crowded().calls[0 := Draining(Drain.Drain(Strand([], []), None, Some(true), OwnResult(0)), Submit)])
  }

  function Abandoned(): State<int, bool> {
    State(1, Queue([Job(true, 2)], false, false, []),
          map[1 := Ticket(Some(false), None, 1), 2 := Ticket(None, None, 2)], map[3 := None],
          map[1 := Idle(Ticketed(1)), 2 := Idle(Ticketed(2)), 3 := Idle(Room(false))],
          History([false, true, true], [0, 1, 2], [true, false], None, None,
                  map[0 := false, 1 := true, 2 := true, 3 := false], map[], {}, map[]))
  }

  const D0: Act<bool> := Act.Drain(0)

  lemma GoOn()
    requires Reaches(Crowded())
    ensures Reaches(Turning())
  {
    Step(Crowded(), D0);
    var s1 := One(Crowded(), D0);
    assert s1.calls[0].drain.pc == Settle(Job(false, 0), true, false);
    Step(s1, D0);
    var s2 := One(s1, D0);
    assert s2 == Turning();
  }

  lemma GoOnToNext()
    requires Reaches(Turning())
    ensures Reaches(Stepping1())
  {
    var s2 := Turning();
    Step(s2, D0);
    var s3 := One(s2, D0);
    assert s3.calls[0].drain.pc == Wake([], Some(Job(true, 1)), false);
    Step(s3, D0);
    var s4 := One(s3, D0);
    Step(s4, D0);
    assert One(s4, D0) == Stepping1();
  }

  lemma Panic()
    requires Reaches(Stepping1())
    ensures Reaches(Panicked1())
  {
    Step(Stepping1(), D0);
    var s1 := One(Stepping1(), D0);
    assert s1.calls[0].drain.pc == Panicking(Job(true, 1));
    Step(s1, D0);
    assert One(s1, D0) == Panicked1();
  }

  function Releasing1(): State<int, bool> {
    Panicked1().(calls :=
        Crowded().calls[0 := Draining(Drain.Drain(Release(false), None, Some(true), OwnResult(0)), Submit)])
  }

  lemma Look()
    requires Reaches(Panicked1())
    ensures Reaches(Releasing1())
  {
    Step(Panicked1(), D0);
    assert One(Panicked1(), D0) == Releasing1();
  }

  lemma LetGo()
    requires Reaches(Releasing1())
    ensures Reaches(Released1())
  {
    Step(Releasing1(), D0);
    var s2 := One(Releasing1(), D0);
    assert s2.calls[0].drain.pc == Strand([], []) && s2.h.done == [true, false];
    assert s2 == Released1();
  }

  lemma Leave()
    requires Reaches(Released1())
    ensures Reaches(Abandoned())
  {
    var s2 := Released1();
    Step(s2, D0);
    assert One(s2, D0) == Abandoned();
  }

  // Completion 3 is polled, drains, and unwinds from completion 2's panic with
  // its own event still in the ring.
  const D3: Act<bool> := Act.Drain(3)

  function Stepping2(): State<int, bool> {
    State(1, Queue([Job(false, 3)], true, false, []),
          Abandoned().tickets[3 := Ticket(None, None, 3)], map[3 := Some(7)],
          Abandoned().calls[3 := Draining(Drain.Drain(Stepping(Job(true, 2)), None, None, OwnTicket(3)), Poll)],
          History([false, true, true, false], [0, 1, 2, 3], [true, false], Some(3), None,
                  Abandoned().h.submitted, map[3 := 7], {}, map[]))
  }

  function Released3(): State<int, bool> {
    Misreported().(
      calls := Abandoned().calls[3 := Draining(Drain.Drain(Strand([], []), None, None, OwnTicket(3)), Poll)],
      h := Misreported().h.(ready := map[]))
  }

  function Misreported(): State<int, bool> {
    Stepping2().(queue := Queue([Job(false, 3)], false, false, []),
      tickets := Stepping2().tickets[2 := Ticket(Some(false), None, 2)],
      calls := Abandoned().calls[3 := Idle(Done(Answer(false, Unwound)))],
      h := Stepping2().h.(done := [true, false, false], holder := None, ready := map[3 := Answer(false, Unwound)]))
  }

  function Polled3(): State<int, bool> {
    State(1, Abandoned().queue, Abandoned().tickets, map[3 := Some(7)],
          Abandoned().calls[3 := Offering(false, Poll)], Abandoned().h.(last := map[3 := 7]))
  }

  lemma PollBegins()
    requires Reaches(Abandoned())
    ensures Reaches(Polled3())
  {
    Step(Abandoned(), PollStart(3, 7));
    assert One(Abandoned(), PollStart(3, 7)) == Polled3();
  }

  lemma PollDrains()
    requires Reaches(Polled3())
    ensures Reaches(Stepping2())
  {
    Step(Polled3(), Act.Offer(3));
    var s2 := One(Polled3(), Act.Offer(3));
    Step(s2, D3);
    assert One(s2, D3) == Stepping2();
  }

  function Panicked3(): State<int, bool> {
    Stepping2().(
      tickets := Stepping2().tickets[2 := Ticket(Some(false), None, 2)],
      calls := Abandoned().calls[3 := Draining(Drain.Drain(Inspect, None, None, OwnTicket(3)), Poll)],
      h := Stepping2().h.(done := [true, false, false]))
  }

  function Panicking3(): State<int, bool> {
    Stepping2().(
      calls := Abandoned().calls[3 := Draining(Drain.Drain(Panicking(Job(true, 2)), None, None, OwnTicket(3)), Poll)],
      h := Stepping2().h.(done := [true, false, false]))
  }

  lemma PollPanics()
    requires Reaches(Stepping2())
    ensures Reaches(Panicking3())
  {
    Step(Stepping2(), D3);
    assert One(Stepping2(), D3) == Panicking3();
  }

  lemma PollSettles()
    requires Reaches(Panicking3())
    ensures Reaches(Panicked3())
  {
    Step(Panicking3(), D3);
    assert One(Panicking3(), D3) == Panicked3();
  }

  function Releasing3(): State<int, bool> {
    Panicked3().(calls := Abandoned().calls[3 := Draining(Drain.Drain(Release(false), None, None, OwnTicket(3)), Poll)])
  }

  lemma MayLook()
    ensures Enabled(Panicked3(), D3)
  {
  }

  lemma PollLooks()
    requires Reaches(Panicked3())
    ensures Reaches(Releasing3())
  {
    MayLook();
    Step(Panicked3(), D3);
    assert One(Panicked3(), D3).calls == Releasing3().calls;
    assert One(Panicked3(), D3) == Releasing3();
  }

  lemma PollUnwinds()
    requires Reaches(Releasing3())
    ensures Reaches(Released3())
  {
    Step(Releasing3(), D3);
    var s2 := One(Releasing3(), D3);
    assert s2.calls[3].drain.pc == Strand([], []) && s2.h.done == [true, false, false];
    assert s2 == Released3();
  }

  lemma PollReports()
    requires Reaches(Released3())
    ensures Reaches(Misreported())
  {
    var s2 := Released3();
    Step(s2, D3);
    var s3 := One(s2, D3);
    assert s3.calls[3] == Idle(Done(Answer(false, Unwound)));
    Step(s3, PollStart(3, 7));
    assert One(s3, PollStart(3, 7)) == Misreported();
  }

  // The next caller runs completion 3's event, and the machine accepts it.
  function NextCaller(): State<int, bool> {
    Misreported().(queue := Queue([Job(false, 4)], true, false, []),
      tickets := Misreported().tickets[4 := Ticket(None, None, 4)],
      calls := Misreported().calls[4 :=
          Draining(Drain.Drain(Enter(Job(false, 3), false), None, None, OwnTicket(4)), Submit)],
      h := Misreported().h.(log := [false, true, true, false, false], callers := [0, 1, 2, 3, 4],
                            holder := Some(4), submitted := Misreported().h.submitted[4 := false]))
  }

  function Calling(): State<int, bool> {
    Misreported().(calls := Misreported().calls[4 := Offering(false, Submit)],
      h := Misreported().h.(submitted := Misreported().h.submitted[4 := false]))
  }

  lemma NextBegins()
    requires Reaches(Misreported())
    ensures Reaches(Calling())
  {
    Step(Misreported(), Begin(4, false, Submit));
    assert One(Misreported(), Begin(4, false, Submit)) == Calling();
  }

  lemma NextCall()
    requires Reaches(Calling())
    ensures Reaches(NextCaller())
  {
    Step(Calling(), Act.Offer(4));
    assert One(Calling(), Act.Offer(4)) == NextCaller();
  }

  lemma Later()
    requires Reaches(NextCaller())
    ensures exists s :: Reaches(s)
              && s.h.ready == map[3 := Answer(false, Unwound)]
              && s.h.callers == [0, 1, 2, 3, 4]
              && s.h.done == [true, false, false, true]
  {
    Step(NextCaller(), Act.Drain(4));
    var s3 := One(NextCaller(), Act.Drain(4));
    Step(s3, Act.Drain(4));
    var s4 := One(s3, Act.Drain(4));
    assert s4.h.done == [true, false, false, true];
  }

  lemma Scenario()
    ensures Reaches(Misreported())
  {
    Fill();
    Crowd();
    CrowdMore();
    CrowdOut();
    GoOn();
    GoOnToNext();
    Panic();
    Look();
    LetGo();
    Leave();
    PollBegins();
    PollDrains();
    PollPanics();
    PollSettles();
    PollLooks();
    PollUnwinds();
    PollReports();
  }

  lemma DoneIsResult(s: State<int, bool>, k: nat)
    requires Reaches(s) && k < |s.h.done|
    ensures k < |s.h.log| && Reference(Counter(), 0, true, s.h.log).results[k] == s.h.done[k]
  {
    var acts, trace :| IsRun(Counter(), 0, true, acts, trace) && trace[|acts|] == s;
    FifoRefinesSequential(Counter(), 0, true, acts, trace, |acts|);
  }

  /** There is a run in which a completion reports `false` although its event was accepted. */
  lemma UnwoundPollMisreports()
    ensures exists s :: Reaches(s) && 3 in s.h.ready
              && !Agrees(s, Reference(Counter(), 0, true, s.h.log).results, 3, s.h.ready[3].accepted)
  {
    Scenario();
    NextBegins();
    NextCall();
    Later();
    var s :| Reaches(s) && s.h.ready == map[3 := Answer(false, Unwound)]
             && s.h.callers == [0, 1, 2, 3, 4] && s.h.done == [true, false, false, true];
    DoneIsResult(s, 3);
    assert s.h.callers[3] == 3;
  }
}
