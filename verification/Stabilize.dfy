/** The recovering `stabilize` loop of an orthogonal machine
    (macros/src/composite_codegen.rs, `recovering_stabilize_body`;
    macros/src/orthogonal_codegen.rs, completion and exception dispatch).

    Guards and actions are arbitrary functions of the machine's context, so one
    theorem covers every choice of their outcomes. Every region is a settle
    site. Tables whose rows defer or process events, and guards with `||` at
    their root (see `Guards`), are not covered. */
module Stabilize {
  import opened Prelude

  datatype Verdict = Passed | Refused | Faulted

  /** What running a row's callbacks did to the context, and whether one of them
      failed before or after the state was replaced. */
  datatype Effect<+C> = Ran(ctx: C) | FailedBefore(ctx: C) | FailedAfter(ctx: C)

  datatype Row = Row(id: nat, target: nat, internal: bool)

  datatype Table<!C> = Table(
    origin: (nat, nat) -> Option<Row>,   // the `completion<E>` row of an event and a state
    anonymous: nat -> seq<Row>,          // the `completion<_>` rows of a state
    exceptions: nat -> seq<Row>,         // its exception rows, typed ones first
    guard: (Row, C) -> Verdict,
    fire: (Row, C) -> Effect<C>,
    rank: nat -> nat)

  /** `Tried`: the region's completions are attempted. `Left`: it moved to another
      state. `Settled`: its fault was recovered without progress. `Recovered`: with progress. */
  datatype Note = Tried(site: nat) | Left(site: nat) | Settled(site: nat) | Recovered(site: nat)

  datatype Config<+C> = Config(states: seq<nat>, ctx: C, trace: seq<Note>)

  datatype Attempt<+C> = Attempt(c: Config<C>, handled: bool, fault: bool)

  function Moves(row: Row, source: nat): bool {
    !row.internal && row.target != source
  }

  function Replace<C>(c: Config<C>, i: nat, row: Row): (r: Config<C>)
    requires i < |c.states|
    ensures |r.states| == |c.states|
  {
    if row.internal then c
    else c.(states := c.states[i := row.target],
            trace := if Moves(row, c.states[i]) then c.trace + [Left(i)] else c.trace)
  }

  function TryRow<C>(t: Table<C>, c: Config<C>, i: nat, row: Row): (r: Attempt<C>)
    requires i < |c.states|
    ensures |r.c.states| == |c.states| && !(r.handled && r.fault)
  {
    match t.guard(row, c.ctx)
    case Refused => Attempt(c, false, false)
    case Faulted => Attempt(c, false, true)
    case Passed =>
      match t.fire(row, c.ctx)
      case Ran(ctx) => Attempt(Replace(c, i, row).(ctx := ctx), true, false)
      case FailedBefore(ctx) => Attempt(c.(ctx := ctx), false, true)
      case FailedAfter(ctx) => Attempt(Replace(c, i, row).(ctx := ctx), false, true)
  }

  /** The rows of one match arm: the first that passes is the only one to run. */
  function TryRows<C>(t: Table<C>, c: Config<C>, i: nat, rows: seq<Row>): (r: Attempt<C>)
    requires i < |c.states|
    ensures |r.c.states| == |c.states| && !(r.handled && r.fault)
    decreases |rows|
  {
    if rows == [] then Attempt(c, false, false)
    else
      var a := TryRow(t, c, i, rows[0]);
      if a.handled || a.fault then a else TryRows(t, a.c, i, rows[1..])
  }

  function OriginRows<C>(t: Table<C>, origin: Option<nat>, q: nat): seq<Row> {
    if origin.Some? && t.origin(origin.value, q).Some? then [t.origin(origin.value, q).value] else []
  }

  /** The completion step of one region: the origin event's row, then the anonymous ones. */
  function TryRegion<C>(t: Table<C>, c: Config<C>, i: nat, origin: Option<nat>): (r: Attempt<C>)
    requires i < |c.states|
    ensures |r.c.states| == |c.states| && !(r.handled && r.fault)
  {
    TryRows(t, c.(trace := c.trace + [Tried(i)]), i, OriginRows(t, origin, c.states[i]) + t.anonymous(c.states[i]))
  }

  datatype Pass<+C> = Pass(c: Config<C>, handled: bool, fault: Option<nat>)

  /** The completion step of the regions from `i` on; settled ones are skipped. */
  function CompletionPass<C>(t: Table<C>, c: Config<C>, settled: seq<bool>, origin: Option<nat>, i: nat): (r: Pass<C>)
    requires |settled| == |c.states| && i <= |c.states|
    ensures |r.c.states| == |c.states|
    ensures r.fault.Some? ==> i <= r.fault.value < |settled| && !settled[r.fault.value]
    decreases |c.states| - i
  {
    if i == |c.states| then Pass(c, false, None)
    else if settled[i] then CompletionPass(t, c, settled, origin, i + 1)
    else
      var a := TryRegion(t, c, i, origin);
      if a.fault then Pass(a.c, a.handled, Some(i))
      else
        var p := CompletionPass(t, a.c, settled, origin, i + 1);
        p.(handled := a.handled || p.handled)
  }

  /** `recovery` is `exception_recovery`; `failed` means a handler's own callback failed. */
  datatype Walk<+C> = Walk(c: Config<C>, recovery: Option<bool>, exited: seq<bool>, failed: bool)

  /** The exception rows of one region; which of them ran decides whether it moved. */
  function RecoverRows<C>(t: Table<C>, c: Config<C>, i: nat, rows: seq<Row>): (r: (Attempt<C>, bool))
    requires i < |c.states|
    ensures |r.0.c.states| == |c.states| && !(r.0.handled && r.0.fault)
    ensures r.1 ==> r.0.handled
    decreases |rows|
  {
    if rows == [] then (Attempt(c, false, false), false)
    else
      var a := TryRow(t, c, i, rows[0]);
      if a.handled || a.fault then (a, a.handled && Moves(rows[0], c.states[i]))
      else RecoverRows(t, a.c, i, rows[1..])
  }

  /** The exception walk over the regions from `i` on. Every region recovers on
      its own; only a move of the faulting region is progress. */
  function ExceptionWalk<C>(t: Table<C>, c: Config<C>, faulting: nat, i: nat, recovery: Option<bool>,
                            exited: seq<bool>): (r: Walk<C>)
    requires |exited| == |c.states| && i <= |c.states|
    ensures |r.c.states| == |c.states| == |r.exited|
    decreases |c.states| - i
  {
    if i == |c.states| then Walk(c, recovery, exited, false)
    else
      var (a, moved) := RecoverRows(t, c, i, t.exceptions(c.states[i]));
      if a.fault then Walk(a.c, recovery, exited, true)
      else if a.handled then
        ExceptionWalk(t, a.c, faulting, i + 1, Some((moved && i == faulting) || recovery == Some(true)),
                      if moved then exited[i := true] else exited)
      else ExceptionWalk(t, a.c, faulting, i + 1, recovery, exited)
  }

  function Nobody(n: nat): (r: seq<bool>)
    ensures |r| == n && forall i :: 0 <= i < n ==> !r[i]
  {
    seq(n, _ => false)
  }

  /** Marks of sites whose occupancy was left no longer apply. */
  function Clear(settled: seq<bool>, exited: seq<bool>): (r: seq<bool>)
    requires |settled| == |exited|
    ensures |r| == |settled|
    ensures forall i :: 0 <= i < |r| ==> r[i] == (settled[i] && !exited[i])
  {
    seq(|settled|, i requires 0 <= i < |settled| && |settled| == |exited| => settled[i] && !exited[i])
  }

  /** `ok` is false when `stabilize` returned an error. */
  datatype Outcome<+C> = Outcome(c: Config<C>, settled: seq<bool>, origin: Option<nat>, ok: bool)

  /** One turn of the loop: either the loop ends, or it goes on from a new state. */
  datatype Turn<+C> = Return(out: Outcome<C>) | Again(c: Config<C>, settled: seq<bool>, origin: Option<nat>)

  function OneTurn<C>(t: Table<C>, c: Config<C>, settled: seq<bool>, origin: Option<nat>): (r: Turn<C>)
    requires |settled| == |c.states|
    ensures r.Again? ==> |r.settled| == |r.c.states| == |c.states|
  {
    var p := CompletionPass(t, c, settled, origin, 0);
    if p.fault.None? then
      if p.handled then Again(p.c, settled, origin) else Return(Outcome(p.c, settled, origin, true))
    else
      var w := ExceptionWalk(t, p.c, p.fault.value, 0, None, Nobody(|c.states|));
      if w.failed || w.recovery.None? then Return(Outcome(w.c, settled, origin, false))
      else Resume(w.c, Clear(settled, w.exited), origin, p.fault.value, w.recovery.value)
  }

  /** After a handled fault: with progress the origin event is spent, without it the site is settled. */
  function Resume<C>(c: Config<C>, settled: seq<bool>, origin: Option<nat>, faulting: nat, moved: bool): (r: Turn<C>)
    requires |settled| == |c.states| && faulting < |settled|
    ensures r.Again? && |r.settled| == |settled| && r.c.states == c.states
  {
    if moved then Again(c.(trace := c.trace + [Recovered(faulting)]), settled, None)
    else Again(c.(trace := c.trace + [Settled(faulting)]), settled[faulting := true], origin)
  }

  // ---- Termination -------------------------------------------------------------------------

  function RankSum(rank: nat -> nat, states: seq<nat>): nat {
    if states == [] then 0 else rank(states[0]) + RankSum(rank, states[1..])
  }

  function Unsettled(settled: seq<bool>): (r: nat)
    ensures r <= |settled|
  {
    if settled == [] then 0 else (if settled[0] then 0 else 1) + Unsettled(settled[1..])
  }

  /** Moving rows strictly lower the rank, and completions always move. */
  ghost predicate Descending<C>(t: Table<C>) {
    && (forall e: nat, q: nat :: t.origin(e, q).Some? ==> Lowers(t, t.origin(e, q).value, q))
    && (forall q: nat :: AllLower(t, t.anonymous(q), q))
    && (forall q: nat :: AllLowerOrStay(t, t.exceptions(q), q))
  }

  ghost predicate Lowers<C>(t: Table<C>, row: Row, q: nat) {
    !row.internal && t.rank(row.target) < t.rank(q)
  }

  ghost predicate AllLower<C>(t: Table<C>, rows: seq<Row>, q: nat) {
    forall k :: 0 <= k < |rows| ==> Lowers(t, rows[k], q)
  }

  ghost predicate AllLowerOrStay<C>(t: Table<C>, rows: seq<Row>, q: nat) {
    forall k :: 0 <= k < |rows| ==> Moves(rows[k], q) ==> t.rank(rows[k].target) < t.rank(q)
  }

  lemma {:induction false} RankSumUpdate(rank: nat -> nat, states: seq<nat>, i: nat, q: nat)
    requires i < |states|
    ensures RankSum(rank, states[i := q]) + rank(states[i]) == RankSum(rank, states) + rank(q)
    decreases |states|
  {
    if i == 0 {
      assert states[0 := q][1..] == states[1..];
    } else {
      assert states[i := q][1..] == states[1..][i - 1 := q];
      RankSumUpdate(rank, states[1..], i - 1, q);
    }
  }

  lemma {:induction false} UnsettledUpdate(settled: seq<bool>, i: nat)
    requires i < |settled| && !settled[i]
    ensures Unsettled(settled[i := true]) + 1 == Unsettled(settled)
    decreases |settled|
  {
    if i == 0 {
      assert settled[0 := true][1..] == settled[1..];
    } else {
      assert settled[i := true][1..] == settled[1..][i - 1 := true];
      UnsettledUpdate(settled[1..], i - 1);
    }
  }

  function Rank<C>(t: Table<C>, c: Config<C>): nat {
    RankSum(t.rank, c.states)
  }

  lemma {:induction false} CompletionRowsRank<C>(t: Table<C>, c: Config<C>, i: nat, rows: seq<Row>)
    requires i < |c.states| && AllLower(t, rows, c.states[i])
    ensures var a := TryRows(t, c, i, rows);
            Rank(t, a.c) <= Rank(t, c) && (a.handled ==> Rank(t, a.c) < Rank(t, c))
    decreases |rows|
  {
    if rows != [] {
      assert Lowers(t, rows[0], c.states[i]);
      RankSumUpdate(t.rank, c.states, i, rows[0].target);
      var a := TryRow(t, c, i, rows[0]);
      if !a.handled && !a.fault {
        assert forall k :: 0 <= k < |rows[1..]| ==> rows[1..][k] == rows[k + 1];
        CompletionRowsRank(t, a.c, i, rows[1..]);
      }
    }
  }

  lemma RegionRank<C>(t: Table<C>, c: Config<C>, i: nat, origin: Option<nat>)
    requires i < |c.states| && Descending(t)
    ensures var a := TryRegion(t, c, i, origin);
            Rank(t, a.c) <= Rank(t, c) && (a.handled ==> Rank(t, a.c) < Rank(t, c))
  {
    var q := c.states[i];
    assert AllLower(t, t.anonymous(q), q);
    CompletionRowsRank(t, c.(trace := c.trace + [Tried(i)]), i, OriginRows(t, origin, q) + t.anonymous(q));
  }

  /** A pass never raises the rank, and lowers it if it handled something. */
  lemma {:induction false} PassRank<C>(t: Table<C>, c: Config<C>, settled: seq<bool>, origin: Option<nat>, i: nat)
    requires |settled| == |c.states| && i <= |c.states| && Descending(t)
    ensures var p := CompletionPass(t, c, settled, origin, i);
            && Rank(t, p.c) <= Rank(t, c)
            && (p.handled ==> Rank(t, p.c) < Rank(t, c))
    decreases |c.states| - i
  {
    if i < |c.states| {
      if settled[i] {
        PassRank(t, c, settled, origin, i + 1);
      } else {
        RegionRank(t, c, i, origin);
        var a := TryRegion(t, c, i, origin);
        if !a.fault {
          PassRank(t, a.c, settled, origin, i + 1);
        }
      }
    }
  }

  lemma {:induction false} RecoverRowsRank<C>(t: Table<C>, c: Config<C>, i: nat, rows: seq<Row>)
    requires i < |c.states| && AllLowerOrStay(t, rows, c.states[i])
    ensures var (a, moved) := RecoverRows(t, c, i, rows);
            Rank(t, a.c) <= Rank(t, c) && (moved ==> Rank(t, a.c) < Rank(t, c))
    decreases |rows|
  {
    if rows != [] {
      RankSumUpdate(t.rank, c.states, i, rows[0].target);
      var a := TryRow(t, c, i, rows[0]);
      if !a.handled && !a.fault {
        assert forall k :: 0 <= k < |rows[1..]| ==> rows[1..][k] == rows[k + 1];
        RecoverRowsRank(t, a.c, i, rows[1..]);
      }
    }
  }

  /** An exception walk never raises the rank, and lowers it if any region moved. */
  lemma {:induction false} WalkRank<C>(t: Table<C>, c: Config<C>, faulting: nat, i: nat, recovery: Option<bool>,
                                       exited: seq<bool>)
    requires |exited| == |c.states| && i <= |c.states| && Descending(t)
    ensures var w := ExceptionWalk(t, c, faulting, i, recovery, exited);
            && Rank(t, w.c) <= Rank(t, c)
            && (Rank(t, w.c) == Rank(t, c) ==>
               w.exited == exited && (w.recovery == Some(true) ==> recovery == Some(true)))
    decreases |c.states| - i
  {
    if i < |c.states| {
      assert AllLowerOrStay(t, t.exceptions(c.states[i]), c.states[i]);
      RecoverRowsRank(t, c, i, t.exceptions(c.states[i]));
      var (a, moved) := RecoverRows(t, c, i, t.exceptions(c.states[i]));
      if !a.fault {
        var recovery' := if a.handled then Some((moved && i == faulting) || recovery == Some(true)) else recovery;
        WalkRank(t, a.c, faulting, i + 1, recovery', if moved then exited[i := true] else exited);
      }
    }
  }

  /** Every turn that goes on lowers the rank sum, or keeps it and settles one more site. */
  lemma TurnDescends<C>(t: Table<C>, c: Config<C>, settled: seq<bool>, origin: Option<nat>)
    requires |settled| == |c.states| && Descending(t)
    ensures var r := OneTurn(t, c, settled, origin);
            r.Again? ==> || Rank(t, r.c) < Rank(t, c)
                         || (Rank(t, r.c) == Rank(t, c) && Unsettled(r.settled) < Unsettled(settled))
  {
    PassRank(t, c, settled, origin, 0);
    var p := CompletionPass(t, c, settled, origin, 0);
    if p.fault.Some? {
      var w := ExceptionWalk(t, p.c, p.fault.value, 0, None, Nobody(|c.states|));
      WalkRank(t, p.c, p.fault.value, 0, None, Nobody(|c.states|));
      if Rank(t, w.c) == Rank(t, c) {
        assert Clear(settled, w.exited) == settled;
        UnsettledUpdate(settled, p.fault.value);
      }
    }
  }

  /** `stabilize`. It terminates for every choice of guard and action outcomes
      when moving rows strictly lower a rank: the rank sum never rises, and while
      it stays the same every recovery settles a fresh site. */
  function Run<C>(t: Table<C>, c: Config<C>, settled: seq<bool>, origin: Option<nat>): (r: Outcome<C>)
    requires |settled| == |c.states| && Descending(t)
    ensures r.ok ==> |r.c.states| == |r.settled| == |c.states|
    decreases Rank(t, c), Unsettled(settled)
  {
    TurnDescends(t, c, settled, origin);
    match OneTurn(t, c, settled, origin)
    case Return(out) => out
    case Again(c', settled', origin') => Run(t, c', settled', origin')
  }

  // ---- What is stable on return --------------------------------------------------------------

  /** No completion row of state `q` for this origin is enabled in this context. */
  ghost predicate Quiet<C>(t: Table<C>, ctx: C, q: nat, origin: Option<nat>) {
    AllRefused(t, ctx, OriginRows(t, origin, q) + t.anonymous(q))
  }

  ghost predicate AllRefused<C>(t: Table<C>, ctx: C, rows: seq<Row>) {
    forall k :: 0 <= k < |rows| ==> t.guard(rows[k], ctx) == Refused
  }

  lemma {:induction false} RowsQuiet<C>(t: Table<C>, c: Config<C>, i: nat, rows: seq<Row>)
    requires i < |c.states|
    ensures var a := TryRows(t, c, i, rows);
            !a.handled && !a.fault ==> a.c == c && AllRefused(t, c.ctx, rows)
    decreases |rows|
  {
    if rows != [] {
      var a := TryRow(t, c, i, rows[0]);
      if !a.handled && !a.fault {
        RowsQuiet(t, a.c, i, rows[1..]);
        assert forall k :: 0 < k < |rows| ==> rows[k] == rows[1..][k - 1];
      }
    }
  }

  lemma {:induction false} PassQuiet<C>(t: Table<C>, c: Config<C>, settled: seq<bool>, origin: Option<nat>, i: nat)
    requires |settled| == |c.states| && i <= |c.states|
    ensures var p := CompletionPass(t, c, settled, origin, i);
            p.fault.None? && !p.handled ==>
              && p.c.states == c.states && p.c.ctx == c.ctx
              && (forall j :: i <= j < |settled| && !settled[j] ==> Quiet(t, c.ctx, c.states[j], origin))
    decreases |c.states| - i
  {
    if i < |c.states| {
      if settled[i] {
        PassQuiet(t, c, settled, origin, i + 1);
      } else {
        var c1 := c.(trace := c.trace + [Tried(i)]);
        RowsQuiet(t, c1, i, OriginRows(t, origin, c.states[i]) + t.anonymous(c.states[i]));
        var a := TryRegion(t, c, i, origin);
        if !a.fault {
          PassQuiet(t, a.c, settled, origin, i + 1);
        }
      }
    }
  }

  /** The latest thing that happened to site `i`. */
  function LastAbout(trace: seq<Note>, i: nat): Option<Note> {
    if trace == [] then None
    else if trace[|trace| - 1].site == i then Some(trace[|trace| - 1])
    else LastAbout(trace[..|trace| - 1], i)
  }

  lemma LastAppend(trace: seq<Note>, note: Note, i: nat)
    ensures LastAbout(trace + [note], i) == if note.site == i then Some(note) else LastAbout(trace, i)
  {
    assert (trace + [note])[..|trace|] == trace;
  }

  /** Site `i` last had a fault that was recovered without progress. */
  predicate LastSettled(trace: seq<Note>, i: nat) {
    LastAbout(trace, i) == Some(Settled(i))
  }

  /** Settled marks are exactly the sites whose latest note is such a fault,
      apart from those in `exited`. */
  ghost predicate Marked(trace: seq<Note>, settled: seq<bool>, exited: seq<bool>) {
    && |exited| == |settled|
    && forall j: nat :: j < |settled| ==> (LastSettled(trace, j) <==> settled[j] && !exited[j])
  }

  /** A row adds a note only when it moves its region. */
  lemma RowNote<C>(t: Table<C>, c: Config<C>, i: nat, row: Row)
    requires i < |c.states|
    ensures TryRow(t, c, i, row).c.trace == c.trace || TryRow(t, c, i, row).c.trace == c.trace + [Left(i)]
    ensures TryRow(t, c, i, row).handled ==>
              TryRow(t, c, i, row).c.trace == if Moves(row, c.states[i]) then c.trace + [Left(i)] else c.trace
    ensures !TryRow(t, c, i, row).handled && !TryRow(t, c, i, row).fault ==> TryRow(t, c, i, row).c == c
  {
  }

  lemma {:induction false} RowsNote<C>(t: Table<C>, c: Config<C>, i: nat, rows: seq<Row>)
    requires i < |c.states|
    ensures TryRows(t, c, i, rows).c.trace == c.trace || TryRows(t, c, i, rows).c.trace == c.trace + [Left(i)]
    decreases |rows|
  {
    if rows != [] {
      RowNote(t, c, i, rows[0]);
      var a := TryRow(t, c, i, rows[0]);
      if !a.handled && !a.fault {
        RowsNote(t, a.c, i, rows[1..]);
      }
    }
  }

  lemma {:induction false} RecoverNote<C>(t: Table<C>, c: Config<C>, i: nat, rows: seq<Row>)
    requires i < |c.states|
    ensures var (a, moved) := RecoverRows(t, c, i, rows);
            !a.fault ==> a.c.trace == if moved then c.trace + [Left(i)] else c.trace
    decreases |rows|
  {
    if rows != [] {
      RowNote(t, c, i, rows[0]);
      var a := TryRow(t, c, i, rows[0]);
      if !a.handled && !a.fault {
        RecoverNote(t, a.c, i, rows[1..]);
      }
    }
  }

  lemma {:induction false} PassMarks<C>(t: Table<C>, c: Config<C>, settled: seq<bool>, origin: Option<nat>, i: nat)
    requires |settled| == |c.states| && i <= |c.states| && Marked(c.trace, settled, Nobody(|settled|))
    ensures Marked(CompletionPass(t, c, settled, origin, i).c.trace, settled, Nobody(|settled|))
    decreases |c.states| - i
  {
    if i < |c.states| {
      if settled[i] {
        PassMarks(t, c, settled, origin, i + 1);
      } else {
        var a := TryRegion(t, c, i, origin);
        var tried := c.(trace := c.trace + [Tried(i)]);
        RowsNote(t, tried, i, OriginRows(t, origin, c.states[i]) + t.anonymous(c.states[i]));
        forall j: nat | j < |settled|
          ensures LastSettled(a.c.trace, j) <==> settled[j]
        {
          LastAppend(c.trace, Tried(i), j);
          LastAppend(tried.trace, Left(i), j);
        }
        if !a.fault {
          PassMarks(t, a.c, settled, origin, i + 1);
        }
      }
    }
  }

  lemma {:induction false} WalkMarks<C>(t: Table<C>, c: Config<C>, faulting: nat, i: nat, recovery: Option<bool>,
                                        exited: seq<bool>, settled: seq<bool>)
    requires |exited| == |c.states| && i <= |c.states| && Marked(c.trace, settled, exited)
    ensures var w := ExceptionWalk(t, c, faulting, i, recovery, exited);
            !w.failed ==> Marked(w.c.trace, settled, w.exited)
    decreases |c.states| - i
  {
    if i < |c.states| {
      var (a, moved) := RecoverRows(t, c, i, t.exceptions(c.states[i]));
      RecoverNote(t, c, i, t.exceptions(c.states[i]));
      if !a.fault {
        forall j: nat | j < |settled|
          ensures LastAbout(c.trace + [Left(i)], j) == if i == j then Some(Left(i)) else LastAbout(c.trace, j)
        {
          LastAppend(c.trace, Left(i), j);
        }
        var recovery' := if a.handled then Some((moved && i == faulting) || recovery == Some(true)) else recovery;
        WalkMarks(t, a.c, faulting, i + 1, recovery', if moved then exited[i := true] else exited, settled);
      }
    }
  }

  lemma TurnMarks<C>(t: Table<C>, c: Config<C>, settled: seq<bool>, origin: Option<nat>)
    requires |settled| == |c.states| && Marked(c.trace, settled, Nobody(|settled|))
    ensures var r := OneTurn(t, c, settled, origin);
            match r
            case Again(c', settled', _) => Marked(c'.trace, settled', Nobody(|settled'|))
            case Return(out) =>
              out.ok ==> |out.settled| == |settled| && Marked(out.c.trace, out.settled, Nobody(|out.settled|))
  {
    PassMarks(t, c, settled, origin, 0);
    var p := CompletionPass(t, c, settled, origin, 0);
    if p.fault.Some? {
      var f := p.fault.value;
      WalkMarks(t, p.c, f, 0, None, Nobody(|c.states|), settled);
      var w := ExceptionWalk(t, p.c, f, 0, None, Nobody(|c.states|));
      if !w.failed {
        forall j: nat | j < |settled|
          ensures LastAbout(w.c.trace + [Settled(f)], j) == if j == f then Some(Settled(f)) else LastAbout(w.c.trace, j)
          ensures LastAbout(w.c.trace + [Recovered(f)], j) ==
                    if j == f then Some(Recovered(f)) else LastAbout(w.c.trace, j)
        {
          LastAppend(w.c.trace, Settled(f), j);
          LastAppend(w.c.trace, Recovered(f), j);
        }
        assert !Clear(settled, w.exited)[f];
      }
    }
  }

  /** Consecutive turns of the loop: each went on to the next. */
  ghost predicate Turns<C>(t: Table<C>, cs: seq<Config<C>>, marks: seq<seq<bool>>, origins: seq<Option<nat>>) {
    && |cs| == |marks| == |origins| > 0
    && (forall k :: 0 <= k < |cs| ==> |marks[k]| == |cs[k].states|)
    && (forall k :: 0 <= k < |cs| - 1 ==>
          OneTurn(t, cs[k], marks[k], origins[k]) == Again(cs[k + 1], marks[k + 1], origins[k + 1]))
  }

  lemma {:induction false} TurnsKeepMarks<C>(t: Table<C>, cs: seq<Config<C>>, marks: seq<seq<bool>>,
                                             origins: seq<Option<nat>>, k: nat)
    requires Turns(t, cs, marks, origins) && k < |cs|
    requires Marked(cs[0].trace, marks[0], Nobody(|marks[0]|))
    ensures Marked(cs[k].trace, marks[k], Nobody(|marks[k]|))
    ensures |cs[k].states| == |cs[0].states| && (origins[k] == origins[0] || origins[k] == None)
    decreases k
  {
    if k > 0 {
      TurnsKeepMarks(t, cs, marks, origins, k - 1);
      TurnMarks(t, cs[k - 1], marks[k - 1], origins[k - 1]);
      assert OneTurn(t, cs[k - 1], marks[k - 1], origins[k - 1]) == Again(cs[k], marks[k], origins[k]);
    }
  }

  /** `stabilize` from a state with nothing settled, for any table. Whenever its
      turns come to a return without an error, every unsettled region has no
      enabled completion row for the origin that is still current; and the
      settled regions are exactly those whose latest note is a fault recovered
      without progress: since then they were neither tried again nor left. */
  lemma StableOnReturn<C>(t: Table<C>, cs: seq<Config<C>>, marks: seq<seq<bool>>, origins: seq<Option<nat>>,
                          r: Outcome<C>)
    requires Turns(t, cs, marks, origins)
    requires cs[0].trace == [] && marks[0] == Nobody(|cs[0].states|)
    requires var k := |cs| - 1; OneTurn(t, cs[k], marks[k], origins[k]) == Return(r)
    requires r.ok
    ensures |r.settled| == |r.c.states| == |cs[0].states|
    ensures r.origin == origins[0] || r.origin == None
    ensures forall i: nat :: i < |r.settled| ==>
              if r.settled[i] then LastAbout(r.c.trace, i) == Some(Settled(i))
              else Quiet(t, r.c.ctx, r.c.states[i], r.origin) && LastAbout(r.c.trace, i) != Some(Settled(i))
  {
    var k := |cs| - 1;
    TurnsKeepMarks(t, cs, marks, origins, k);
    TurnMarks(t, cs[k], marks[k], origins[k]);
    PassQuiet(t, cs[k], marks[k], origins[k], 0);
  }

  lemma OneMoreTurn<C>(t: Table<C>, c: Config<C>, settled: seq<bool>, origin: Option<nat>,
                       cs: seq<Config<C>>, marks: seq<seq<bool>>, origins: seq<Option<nat>>)
    requires Turns(t, cs, marks, origins) && |settled| == |c.states|
    requires OneTurn(t, c, settled, origin) == Again(cs[0], marks[0], origins[0])
    ensures Turns(t, [c] + cs, [settled] + marks, [origin] + origins)
    ensures ([c] + cs)[|cs|] == cs[|cs| - 1] && ([settled] + marks)[|cs|] == marks[|cs| - 1]
    ensures ([origin] + origins)[|cs|] == origins[|cs| - 1]
  {
    var cs', marks', origins' := [c] + cs, [settled] + marks, [origin] + origins;
    forall k | 0 <= k < |cs|
      ensures OneTurn(t, cs'[k], marks'[k], origins'[k]) == Again(cs'[k + 1], marks'[k + 1], origins'[k + 1])
    {
      if k > 0 {
        assert OneTurn(t, cs[k - 1], marks[k - 1], origins[k - 1]) == Again(cs[k], marks[k], origins[k]);
      }
    }
  }

  /** When moving rows go down in rank, `Run` is such a sequence of turns. */
  lemma {:induction false} RunIsTurns<C>(t: Table<C>, c: Config<C>, settled: seq<bool>, origin: Option<nat>)
    returns (cs: seq<Config<C>>, marks: seq<seq<bool>>, origins: seq<Option<nat>>)
    requires |settled| == |c.states| && Descending(t)
    ensures Turns(t, cs, marks, origins) && cs[0] == c && marks[0] == settled && origins[0] == origin
    ensures var k := |cs| - 1; OneTurn(t, cs[k], marks[k], origins[k]) == Return(Run(t, c, settled, origin))
    decreases Rank(t, c), Unsettled(settled)
  {
    TurnDescends(t, c, settled, origin);
    match OneTurn(t, c, settled, origin)
    case Return(out) => cs, marks, origins := [c], [settled], [origin];
    case Again(c', settled', origin') =>
      var cs', marks', origins' := RunIsTurns(t, c', settled', origin');
      OneMoreTurn(t, c, settled, origin, cs', marks', origins');
      cs, marks, origins := [c] + cs', [settled] + marks', [origin] + origins';
  }
}
