/** Waiting for room and for results: no wake-up is lost. */
module FifoWakeups {
  import opened Prelude
  import opened FifoQueue
  import opened Fifo
  import opened FifoOrder

  // ---- The room list ------------------------------------------------------------------

  predicate WaitsForRoom<E>(call: Call<E>) {
    || (call.Idle? && call.wait.Room?)
    || (call.Offering? && call.kind.Poll?)
    || call.Returning?
  }

  /** Only waiting completions are registered, each once, and only while someone drains. */
  ghost predicate RoomInv<M, E>(s: State<M, E>) {
    && Distinct(s.queue.room)
    && (s.queue.room != [] ==> s.queue.draining)
    && (forall c :: c in s.queue.room ==> c in s.calls && WaitsForRoom(s.calls[c]))
  }

  /** What `offer` does to the waiting list, and what its caller becomes. */
  lemma OfferRegisters<M, E>(sys: Sys<M, E>, s: State<M, E>, c: nat)
    requires c in s.calls && s.calls[c].Offering? && (s.queue.room != [] ==> s.queue.draining)
    ensures var s' := OfferStep(sys, s, c); var poll := s.calls[c].kind.Poll?;
            && (s'.queue.room == s.queue.room ||
               (poll && c !in s.queue.room && s'.queue.room == s.queue.room + [c] && s'.queue.draining))
            && (s.queue.draining ==> s'.queue.draining)
            && (poll && (c in s.queue.room || c in s'.queue.room) ==> c in s'.calls && WaitsForRoom(s'.calls[c]))
  {
  }

  lemma OfferKeepsRoom<M, E>(sys: Sys<M, E>, s: State<M, E>, c: nat)
    requires RoomInv(s) && c in s.calls && s.calls[c].Offering?
    ensures RoomInv(OfferStep(sys, s, c))
  {
    OfferFrame(sys, s, c);
    OfferRegisters(sys, s, c);
    var s' := OfferStep(sys, s, c);
    forall d | d in s'.queue.room
      ensures d in s'.calls && WaitsForRoom(s'.calls[d])
    {
      if d != c {
        assert d in s.queue.room && s'.calls[d] == s.calls[d];
      }
    }
  }

  lemma DrainKeepsRoom<M, E>(sys: Sys<M, E>, s: State<M, E>, c: nat)
    requires RoomInv(s) && c in s.calls && s.calls[c].Draining?
    ensures RoomInv(DrainStep(sys, s, c))
  {
    DrainFrame(sys, s, c);
    assert c !in s.queue.room;
  }

  lemma OtherKeepsRoom<M, E>(sys: Sys<M, E>, s: State<M, E>, act: Act<E>)
    requires RoomInv(s) && Enabled(s, act) && s.calls.Keys <= s.h.submitted.Keys
    requires act.Begin? || act.Ask? || act.PollStart?
    ensures RoomInv(Apply(sys, s, act))
  {
  }

  lemma ForgetKeepsRoom<M, E>(s: State<M, E>, c: nat)
    requires RoomInv(s) && c in s.calls && s.calls[c].Returning?
    ensures RoomInv(ForgetStep(s, c))
  {
  }

  lemma DropKeepsRoom<M, E>(s: State<M, E>, c: nat)
    requires RoomInv(s) && c in s.calls && s.calls[c].Idle?
    ensures RoomInv(DropStep(s, c))
  {
  }

  // ---- Watching completions -------------------------------------------------------------

  function HandOf<E>(call: Call<E>): Option<Hand> {
    if call.Draining? then call.drain.hand else None
  }

  function WakeList<E>(call: Call<E>): seq<nat> {
    if call.Draining? && call.drain.pc.Wake? then call.drain.pc.room
    else if call.Draining? && call.drain.pc.Strand? then call.drain.pc.room
    else []
  }

  /** The task was woken since its latest poll began, or a caller holds that
      poll's waker and is about to call it. */
  ghost predicate Notified<M, E>(s: State<M, E>, c: nat) {
    c in s.h.last &&
    (c in s.h.woken || exists d :: d in s.calls && HandOf(s.calls[d]) == Some(Hand(c, s.h.last[c])))
  }

  ghost predicate AboutToWake<M, E>(s: State<M, E>, c: nat) {
    exists d :: d in s.calls && c in WakeList(s.calls[d])
  }

  /** Waiting for room: the latest waker is installed, and the waiter is
      registered or already on a drainer's list. */
  ghost predicate Registered<M, E>(s: State<M, E>, c: nat) {
    && c in s.h.last && c in s.waiters && s.waiters[c] == Some(s.h.last[c])
    && (c in s.queue.room || AboutToWake(s, c))
  }

  /** Waiting for a result: the latest waker is installed in an unresolved ticket. */
  ghost predicate Installed<M, E>(s: State<M, E>, c: nat, t: nat) {
    && c in s.h.last && t in s.tickets
    && s.tickets[t].accepted.None? && s.tickets[t].waker == Some(Hand(c, s.h.last[c]))
  }

  predicate HoldsTicket<M, E>(s: State<M, E>, c: nat, t: nat) {
    c in s.calls && s.calls[c].Idle? && s.calls[c].wait.Ticketed? && s.calls[c].wait.ticket == t
  }

  ghost predicate Watch<M, E>(s: State<M, E>, c: nat, call: Call<E>) {
    match call
    case Offering(_, kind) =>
      if kind.Poll? then c in s.h.last && c in s.waiters && (Notified(s, c) || s.waiters[c] == Some(s.h.last[c]))
      else c !in s.h.last
    case Draining(_, kind) => kind.Poll? <==> c in s.h.last
    case Returning(_) => c in s.h.last
    case Asking(_) => c in s.h.last
    case Idle(Room(_)) => c in s.h.last ==> Notified(s, c) || Registered(s, c)
    case Idle(Ticketed(t)) => c in s.h.last && c !in s.h.ready ==> Notified(s, c) || Installed(s, c, t)
    case Idle(Done(_)) => true
  }

  ghost predicate WakeInv<M, E>(s: State<M, E>) {
    && s.h.last.Keys <= s.h.submitted.Keys
    && (forall c :: c in s.calls ==> Watch(s, c, s.calls[c]))
  }

  /** Nothing that completion `w` watches got worse between `s` and `s'`. */
  ghost predicate StillWatched<M, E>(s: State<M, E>, s': State<M, E>, w: nat) {
    && (w in s'.h.last <==> w in s.h.last)
    && (w in s.h.last ==> s'.h.last[w] == s.h.last[w])
    && (w in s.waiters ==> w in s'.waiters)
    && (w in s.h.ready ==> w in s'.h.ready)
    && (Notified(s, w) ==> Notified(s', w))
    && (w in s.waiters && w in s.h.last && s.waiters[w] == Some(s.h.last[w]) ==>
       Notified(s', w) || s'.waiters[w] == s.waiters[w])
    && (Registered(s, w) ==> Notified(s', w) || Registered(s', w))
    && (forall t :: HoldsTicket(s, w, t) && Installed(s, w, t) ==> Notified(s', w) || Installed(s', w, t))
  }

  lemma OneCallKeepsWatch<M, E>(s: State<M, E>, s': State<M, E>, c: nat)
    requires WakeInv(s) && s'.h.last.Keys <= s'.h.submitted.Keys
    requires forall d :: d in s'.calls && d != c ==> d in s.calls && s'.calls[d] == s.calls[d] && StillWatched(s, s', d)
    requires c in s'.calls ==> Watch(s', c, s'.calls[c])
    ensures WakeInv(s')
  {
    forall d | d in s'.calls
      ensures Watch(s', d, s'.calls[d])
    {
      if d != c {
        assert Watch(s, d, s.calls[d]);
      }
    }
  }

  /** The acting caller holds no waker and no list: everyone else is watched as before. */
  lemma QuietWatch<M, E>(s: State<M, E>, s': State<M, E>, c: nat, w: nat)
    requires w != c
    requires forall d :: d in s.calls && d != c ==> d in s'.calls && s'.calls[d] == s.calls[d]
    requires c in s.calls && HandOf(s.calls[c]).Some? ==> c in s'.calls && HandOf(s'.calls[c]) == HandOf(s.calls[c])
    requires c in s.calls && w in WakeList(s.calls[c]) ==> c in s'.calls && w in WakeList(s'.calls[c])
    requires w in s.queue.room ==> w in s'.queue.room || (c in s'.calls && w in WakeList(s'.calls[c]))
    requires w in s'.h.last <==> w in s.h.last
    requires w in s.h.last ==> s'.h.last[w] == s.h.last[w]
    requires w in s.h.woken ==> w in s'.h.woken
    requires w in s.h.ready ==> w in s'.h.ready
    requires w in s.waiters ==> w in s'.waiters && s'.waiters[w] == s.waiters[w]
    requires forall t :: HoldsTicket(s, w, t) && Installed(s, w, t) ==> t in s'.tickets && s'.tickets[t] == s.tickets[t]
    ensures StillWatched(s, s', w)
  {
    if w in s.h.last && w !in s.h.woken && Notified(s, w) {
      var d :| d in s.calls && HandOf(s.calls[d]) == Some(Hand(w, s.h.last[w]));
      assert d in s'.calls && HandOf(s'.calls[d]) == HandOf(s.calls[d]);
    }
    if Registered(s, w) && w !in s.queue.room {
      var d :| d in s.calls && w in WakeList(s.calls[d]);
      assert d in s'.calls && w in WakeList(s'.calls[d]);
    }
  }

  // ---- The steps of a drainer ---------------------------------------------------------------

  /** Calling the waker in hand: its completion counts as woken. */
  lemma CallWakerWatch<M, E>(s: State<M, E>, c: nat, d: Drain<E>, kind: Kind, w: nat)
    requires c in s.calls && s.calls[c] == Draining(d, kind) && d.hand.Some? && w != c
    ensures StillWatched(s, CallWaker(s, c, d, kind), w)
  {
    var s' := CallWaker(s, c, d, kind);
    if Notified(s, w) && w !in s.h.woken {
      var e :| e in s.calls && HandOf(s.calls[e]) == Some(Hand(w, s.h.last[w]));
      if e != c {
        assert e in s'.calls && HandOf(s'.calls[e]) == Some(Hand(w, s'.h.last[w]));
      }
    }
    if Registered(s, w) && w !in s.queue.room {
      var e :| e in s.calls && w in WakeList(s.calls[e]);
      assert e in s'.calls && w in WakeList(s'.calls[e]);
    }
  }

  /** A ticket is resolved and its waker taken in hand. */
  lemma ResolveWatch<M, E>(s: State<M, E>, s': State<M, E>, c: nat, t: nat, b: bool, w: nat)
    requires c in s.calls && HandOf(s.calls[c]) == None && w != c
    requires s'.tickets == Resolve(s, t, b).0.tickets && s'.waiters == s.waiters && s'.queue == s.queue
    requires s'.h.last == s.h.last && s'.h.ready == s.h.ready && s'.h.woken == s.h.woken
    requires c in s'.calls && s'.calls == s.calls[c := s'.calls[c]] && HandOf(s'.calls[c]) == Resolve(s, t, b).1
    requires w in WakeList(s.calls[c]) ==> w in WakeList(s'.calls[c])
    ensures StillWatched(s, s', w)
  {
    if Notified(s, w) && w !in s.h.woken {
      var e :| e in s.calls && HandOf(s.calls[e]) == Some(Hand(w, s.h.last[w]));
      assert e in s'.calls && HandOf(s'.calls[e]) == Some(Hand(w, s'.h.last[w]));
    }
    if Registered(s, w) && w !in s.queue.room {
      var e :| e in s.calls && w in WakeList(s.calls[e]);
      assert e in s'.calls && w in WakeList(s'.calls[e]);
    }
    forall u | Installed(s, w, u)
      ensures Notified(s', w) || Installed(s', w, u)
    {
      if u == t {
        assert HandOf(s'.calls[c]) == Some(Hand(w, s'.h.last[w]));
      }
    }
  }

  /** The first waiter on the list is taken off it, its waker in hand. */
  lemma TakeWatch<M, E>(s: State<M, E>, s': State<M, E>, c: nat, x: nat, w: nat)
    requires c in s.calls && HandOf(s.calls[c]) == None && w != c
    requires WakeList(s.calls[c]) != [] && WakeList(s.calls[c])[0] == x
    requires s'.waiters == TakeWaker(s, x).0.waiters && s'.tickets == s.tickets && s'.queue == s.queue
    requires s'.h == s.h
    requires c in s'.calls && s'.calls == s.calls[c := s'.calls[c]] && HandOf(s'.calls[c]) == TakeWaker(s, x).1
    requires WakeList(s'.calls[c]) == WakeList(s.calls[c])[1..]
    ensures StillWatched(s, s', w)
  {
    if Notified(s, w) && w !in s.h.woken {
      var e :| e in s.calls && HandOf(s.calls[e]) == Some(Hand(w, s.h.last[w]));
      assert e in s'.calls && HandOf(s'.calls[e]) == Some(Hand(w, s'.h.last[w]));
    }
    if w == x {
      if w in s.h.last && w in s.waiters && s.waiters[w] == Some(s.h.last[w]) {
        assert HandOf(s'.calls[c]) == Some(Hand(w, s'.h.last[w]));
        assert Notified(s', w);
      }
    } else if Registered(s, w) && w !in s.queue.room {
      var e :| e in s.calls && w in WakeList(s.calls[e]);
      assert e in s'.calls && w in WakeList(s'.calls[e]);
    }
  }

  lemma WakeStepWatch<M, E>(s: State<M, E>, c: nat, d: Drain<E>, kind: Kind, w: nat)
    requires c in s.calls && s.calls[c] == Draining(d, kind) && d.hand.None? && d.pc.Wake? && w != c
    ensures StillWatched(s, WakeStep(s, c, d, kind), w)
  {
    if d.pc.room != [] {
      TakeWatch(s, WakeStep(s, c, d, kind), c, d.pc.room[0], w);
    } else {
      QuietWatch(s, WakeStep(s, c, d, kind), c, w);
    }
  }

  lemma StrandStepWatch<M, E>(s: State<M, E>, c: nat, d: Drain<E>, kind: Kind, w: nat)
    requires c in s.calls && s.calls[c] == Draining(d, kind) && d.hand.None? && d.pc.Strand? && w != c
    ensures StillWatched(s, StrandStep(s, c, d, kind), w)
  {
    if d.pc.tickets != [] {
      ResolveWatch(s, StrandStep(s, c, d, kind), c, d.pc.tickets[0], false, w);
    } else if d.pc.room != [] {
      TakeWatch(s, StrandStep(s, c, d, kind), c, d.pc.room[0], w);
    } else {
      QuietWatch(s, StrandStep(s, c, d, kind), c, w);
    }
  }

  lemma TurnWatch<M, E>(s: State<M, E>, c: nat, d: Drain<E>, kind: Kind, w: nat)
    requires c in s.calls && s.calls[c] == Draining(d, kind) && d.hand.None? && w != c && d.pc.Turn?
    ensures StillWatched(s, TakeTurn(s, c, d, kind), w)
  {
    QuietWatch(s, TakeTurn(s, c, d, kind), c, w);
  }

  lemma ReleaseWatch<M, E>(s: State<M, E>, c: nat, d: Drain<E>, kind: Kind, w: nat)
    requires c in s.calls && s.calls[c] == Draining(d, kind) && d.hand.None? && w != c && d.pc.Release?
    ensures StillWatched(s, ReleaseStep(s, c, d, kind), w)
  {
    QuietWatch(s, ReleaseStep(s, c, d, kind), c, w);
  }

  lemma ReturnWatch<M, E>(sys: Sys<M, E>, s: State<M, E>, c: nat, d: Drain<E>, kind: Kind, w: nat)
    requires c in s.calls && s.calls[c] == Draining(d, kind) && d.hand.None? && w != c && d.pc.Stepping?
    ensures StillWatched(s, ReturnFromStep(sys, s, c, d, kind), w)
  {
    QuietWatch(s, ReturnFromStep(sys, s, c, d, kind), c, w);
  }

  lemma DrainWatch<M, E>(sys: Sys<M, E>, s: State<M, E>, c: nat, w: nat)
    requires c in s.calls && s.calls[c].Draining? && w != c
    ensures StillWatched(s, DrainStep(sys, s, c), w)
  {
    var d, kind := s.calls[c].drain, s.calls[c].kind;
    var s' := DrainStep(sys, s, c);
    if d.hand.Some? {
      CallWakerWatch(s, c, d, kind, w);
    } else {
      match d.pc {
        case Settle(job, b, _) => ResolveWatch(s, s', c, job.index, b, w);
        case Panicking(job) => ResolveWatch(s, s', c, job.index, false, w);
        case Wake(_, _, _) => WakeStepWatch(s, c, d, kind, w);
        case Strand(_, _) => StrandStepWatch(s, c, d, kind, w);
        case Turn(_) => TurnWatch(s, c, d, kind, w);
        case Release(_) => ReleaseWatch(s, c, d, kind, w);
        case Stepping(_) => ReturnWatch(sys, s, c, d, kind, w);
        case Enter(_, _) => QuietWatch(s, s', c, w);
        case Inspect => QuietWatch(s, s', c, w);
      }
    }
  }

  lemma DrainWatchesOwn<M, E>(sys: Sys<M, E>, s: State<M, E>, c: nat)
    requires c in s.calls && s.calls[c].Draining? && Watch(s, c, s.calls[c])
    ensures var s' := DrainStep(sys, s, c); c in s'.calls ==> Watch(s', c, s'.calls[c])
  {
    DrainFrame(sys, s, c);
    DrainStaysOrReturns(sys, s, c);
  }

  /** A draining caller keeps draining, or its `offer` returns to whoever called it. */
  predicate StaysOrReturns<M, E>(s': State<M, E>, c: nat, kind: Kind) {
    c in s'.calls ==>
      match s'.calls[c]
      case Draining(_, k) => k == kind
      case Returning(ReplyDone(a)) => kind.Poll? && !a.origin.Refused?
      case Returning(ReplyQueued(_)) => kind.Poll?
      case Idle(Done(a)) => !a.origin.Refused?
      case Idle(Ticketed(_)) => !kind.Poll?
      case _ => false
  }

  lemma WakeStaysOrReturns<M, E>(s: State<M, E>, c: nat, d: Drain<E>, kind: Kind)
    ensures d.pc.Wake? ==> StaysOrReturns(WakeStep(s, c, d, kind), c, kind)
    ensures d.pc.Strand? ==> StaysOrReturns(StrandStep(s, c, d, kind), c, kind)
  {
  }

  lemma DrainStaysOrReturns<M, E>(sys: Sys<M, E>, s: State<M, E>, c: nat)
    requires c in s.calls && s.calls[c].Draining?
    ensures StaysOrReturns(DrainStep(sys, s, c), c, s.calls[c].kind)
  {
    WakeStaysOrReturns(s, c, s.calls[c].drain, s.calls[c].kind);
  }

  lemma DrainKeepsWatch<M, E>(sys: Sys<M, E>, s: State<M, E>, c: nat)
    requires WakeInv(s) && c in s.calls && s.calls[c].Draining?
    ensures WakeInv(DrainStep(sys, s, c))
  {
    var s' := DrainStep(sys, s, c);
    DrainFrame(sys, s, c);
    DrainWatchesOwn(sys, s, c);
    forall w | w in s'.calls && w != c
      ensures StillWatched(s, s', w)
    {
      DrainWatch(sys, s, c, w);
    }
    OneCallKeepsWatch(s, s', c);
  }

  // ---- The other steps -------------------------------------------------------------------------

  lemma OfferKeepsWatch<M, E>(sys: Sys<M, E>, s: State<M, E>, c: nat)
    requires WakeInv(s) && c in s.calls && s.calls[c].Offering?
    requires forall t :: t in s.tickets ==> t < |s.h.log|
    ensures WakeInv(OfferStep(sys, s, c))
  {
    var s' := OfferStep(sys, s, c);
    OfferFrame(sys, s, c);
    OfferWatchesOwn(sys, s, c);
    forall w | w in s'.calls && w != c
      ensures StillWatched(s, s', w)
    {
      OfferWatch(sys, s, c, w);
    }
    OneCallKeepsWatch(s, s', c);
  }

  lemma OfferWatch<M, E>(sys: Sys<M, E>, s: State<M, E>, c: nat, w: nat)
    requires c in s.calls && s.calls[c].Offering? && w != c
    requires forall t :: t in s.tickets ==> t < |s.h.log|
    ensures StillWatched(s, OfferStep(sys, s, c), w)
  {
    OfferFrame(sys, s, c);
    QuietWatch(s, OfferStep(sys, s, c), c, w);
  }

  lemma OfferWatchesOwn<M, E>(sys: Sys<M, E>, s: State<M, E>, c: nat)
    requires c in s.calls && s.calls[c].Offering? && Watch(s, c, s.calls[c])
    ensures var s' := OfferStep(sys, s, c); c in s'.calls ==> Watch(s', c, s'.calls[c])
  {
    var s' := OfferStep(sys, s, c);
    if s.calls[c].kind.Poll? && c in s'.calls && s'.calls[c].Idle? && Notified(s, c) && c !in s.h.woken {
      var e :| e in s.calls && HandOf(s.calls[e]) == Some(Hand(c, s.h.last[c]));
      assert e != c && e in s'.calls && HandOf(s'.calls[e]) == Some(Hand(c, s'.h.last[c]));
    }
  }

  lemma ForgetKeepsWatch<M, E>(s: State<M, E>, c: nat)
    requires WakeInv(s) && c in s.calls && s.calls[c].Returning?
    ensures WakeInv(ForgetStep(s, c))
  {
    forall w | w in ForgetStep(s, c).calls && w != c
      ensures StillWatched(s, ForgetStep(s, c), w)
    {
      QuietWatch(s, ForgetStep(s, c), c, w);
    }
    OneCallKeepsWatch(s, ForgetStep(s, c), c);
  }

  lemma PollKeepsWatch<M, E>(s: State<M, E>, c: nat, waker: nat)
    requires WakeInv(s) && c in s.calls && s.calls[c].Idle? && c in s.h.submitted
    ensures WakeInv(PollStep(s, c, waker))
  {
    forall w | w in PollStep(s, c, waker).calls && w != c
      ensures StillWatched(s, PollStep(s, c, waker), w)
    {
      QuietWatch(s, PollStep(s, c, waker), c, w);
    }
    OneCallKeepsWatch(s, PollStep(s, c, waker), c);
  }

  lemma AskKeepsWatch<M, E>(s: State<M, E>, c: nat)
    requires WakeInv(s) && c in s.calls && s.calls[c].Asking? && s.calls[c].ticket in s.tickets
    requires forall w :: HoldsTicket(s, w, s.calls[c].ticket) ==> w == c
    ensures WakeInv(AskStep(s, c))
  {
    forall w | w in AskStep(s, c).calls && w != c
      ensures StillWatched(s, AskStep(s, c), w)
    {
      QuietWatch(s, AskStep(s, c), c, w);
    }
    OneCallKeepsWatch(s, AskStep(s, c), c);
  }

  lemma DropKeepsWatch<M, E>(s: State<M, E>, c: nat)
    requires WakeInv(s) && c in s.calls && s.calls[c].Idle?
    ensures WakeInv(DropStep(s, c))
  {
    forall w | w in DropStep(s, c).calls && w != c
      ensures StillWatched(s, DropStep(s, c), w)
    {
      QuietWatch(s, DropStep(s, c), c, w);
    }
    OneCallKeepsWatch(s, DropStep(s, c), c);
  }

  lemma BeginKeepsWatch<M, E>(s: State<M, E>, c: nat, event: E, kind: Kind)
    requires WakeInv(s) && c !in s.h.submitted && !kind.Poll? && s.calls.Keys <= s.h.submitted.Keys
    ensures WakeInv(BeginStep(s, c, event, kind))
  {
    forall w | w in BeginStep(s, c, event, kind).calls && w != c
      ensures StillWatched(s, BeginStep(s, c, event, kind), w)
    {
      QuietWatch(s, BeginStep(s, c, event, kind), c, w);
    }
    OneCallKeepsWatch(s, BeginStep(s, c, event, kind), c);
  }
}
