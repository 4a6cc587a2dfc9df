/** What each pass of the recovering loop does, region by region
    (macros/src/orthogonal_codegen.rs, `generate_completion_dispatch`,
    `generate_exception_dispatch`; macros/src/composite_codegen.rs,
    `recovering_stabilize_body`). A pass threads one context through the regions;
    in each of them the first row that is not refused decides alone. */
module StabilizeRules {
  import opened Prelude
  import opened Stabilize

  // ---- One region -------------------------------------------------------------------------------

  /** How a region's rows end: none was enabled, one ran, or a guard or callback failed. */
  datatype End = Nothing | Done(row: Row) | Broken(row: Row)

  /** Where a row that got to replace the state leaves the region. */
  function Placed(row: Row, q: nat): nat {
    if row.internal then q else row.target
  }

  /** From state `q` and context `x` the rows end in `q'` and `x'`: all refused and
      nothing changed, or the first that is not refused decided. A guard that fails
      and a callback that fails before the state is replaced leave the state. */
  ghost predicate Ends<C>(t: Table<C>, rows: seq<Row>, q: nat, x: C, q': nat, x': C, end: End) {
    match end
    case Nothing => AllRefused(t, x, rows) && q' == q && x' == x
    case Done(row) =>
      FirstLive(t, rows, x, row) && t.guard(row, x) == Passed && t.fire(row, x) == Ran(x') && q' == Placed(row, q)
    case Broken(row) =>
      && FirstLive(t, rows, x, row)
      && match t.guard(row, x)
         case Refused => false
         case Faulted => q' == q && x' == x
         case Passed =>
           match t.fire(row, x)
           case Ran(_) => false
           case FailedBefore(y) => q' == q && x' == y
           case FailedAfter(y) => q' == Placed(row, q) && x' == y
  }

  /** `row` is the first of `rows` that is not refused. */
  ghost predicate FirstLive<C>(t: Table<C>, rows: seq<Row>, x: C, row: Row) {
    exists k :: 0 <= k < |rows| && rows[k] == row && t.guard(row, x) != Refused
      && forall i :: 0 <= i < k ==> t.guard(rows[i], x) == Refused
  }

  lemma FirstLiveBehind<C>(t: Table<C>, rows: seq<Row>, x: C, row: Row)
    requires rows != [] && t.guard(rows[0], x) == Refused && FirstLive(t, rows[1..], x, row)
    ensures FirstLive(t, rows, x, row)
  {
    var rest := rows[1..];
    var k :| 0 <= k < |rest| && rest[k] == row && t.guard(row, x) != Refused
             && forall i :: 0 <= i < k ==> t.guard(rest[i], x) == Refused;
    assert rows[k + 1] == row;
    assert forall i :: 0 < i < |rows| ==> rows[i] == rest[i - 1];
  }

  lemma RefusedBehind<C>(t: Table<C>, rows: seq<Row>, x: C)
    requires rows != [] && t.guard(rows[0], x) == Refused && AllRefused(t, x, rows[1..])
    ensures AllRefused(t, x, rows)
  {
    assert forall i :: 0 < i < |rows| ==> rows[i] == rows[1..][i - 1];
  }

  ghost predicate Alone<C>(c: Config<C>, c': Config<C>, i: nat)
    requires i < |c.states|
  {
    |c'.states| == |c.states| && forall j :: 0 <= j < |c.states| && j != i ==> c'.states[j] == c.states[j]
  }

  lemma {:induction false} RowsEnd<C>(t: Table<C>, c: Config<C>, i: nat, rows: seq<Row>) returns (end: End)
    requires i < |c.states|
    ensures var a := TryRows(t, c, i, rows);
            && Alone(c, a.c, i) && Ends(t, rows, c.states[i], c.ctx, a.c.states[i], a.c.ctx, end)
            && (a.handled <==> end.Done?) && (a.fault <==> end.Broken?)
    decreases |rows|
  {
    if rows == [] {
      end := Nothing;
    } else if t.guard(rows[0], c.ctx) == Refused {
      end := RowsEnd(t, c, i, rows[1..]);
      if end.Nothing? {
        RefusedBehind(t, rows, c.ctx);
      } else {
        FirstLiveBehind(t, rows, c.ctx, end.row);
      }
    } else {
      assert rows[0] == rows[0] && FirstLive(t, rows, c.ctx, rows[0]);
      end := if TryRow(t, c, i, rows[0]).handled then Done(rows[0]) else Broken(rows[0]);
    }
  }

  lemma {:induction false} RecoverEnds<C>(t: Table<C>, c: Config<C>, i: nat, rows: seq<Row>) returns (end: End)
    requires i < |c.states|
    ensures var (a, moved) := RecoverRows(t, c, i, rows);
            && Alone(c, a.c, i) && Ends(t, rows, c.states[i], c.ctx, a.c.states[i], a.c.ctx, end)
            && (a.handled <==> end.Done?) && (a.fault <==> end.Broken?)
            && (moved <==> end.Done? && !end.row.internal && end.row.target != c.states[i])
    decreases |rows|
  {
    if rows == [] {
      end := Nothing;
    } else if t.guard(rows[0], c.ctx) == Refused {
      end := RecoverEnds(t, c, i, rows[1..]);
      if end.Nothing? {
        RefusedBehind(t, rows, c.ctx);
      } else {
        FirstLiveBehind(t, rows, c.ctx, end.row);
      }
    } else {
      assert rows[0] == rows[0] && FirstLive(t, rows, c.ctx, rows[0]);
      end := if TryRow(t, c, i, rows[0]).handled then Done(rows[0]) else Broken(rows[0]);
    }
  }

  // ---- A pass over the regions ------------------------------------------------------------------------

  /** The turns of the regions from `lo` on: `ctxs[k]` is what region `lo + k` finds
      and `ctxs[k + 1]` what it leaves, `ends[k]` how it ends. */
  datatype Log<+C> = Log(ctxs: seq<C>, ends: seq<End>)

  /** Region `j` has its turn: it tries the rows of the state it is in, none if it is passed over. */
  ghost predicate HasTurn<C>(t: Table<C>, rows: nat -> seq<Row>, skip: seq<bool>, before: seq<nat>, after: seq<nat>,
                             log: Log<C>, lo: nat, j: nat)
    requires lo <= j < lo + |log.ends| <= |before| == |after| == |skip| && |log.ctxs| == |log.ends| + 1
  {
    var k := j - lo;
    Ends(t, if skip[j] then [] else rows(before[j]), before[j], log.ctxs[k], after[j], log.ctxs[k + 1], log.ends[k])
  }

  /** The regions from `lo` on have their turns in order. A region that breaks is
      the last, and those behind it, like those before `lo`, keep their states. */
  ghost predicate InTurn<C>(t: Table<C>, rows: nat -> seq<Row>, skip: seq<bool>, before: seq<nat>, after: seq<nat>,
                            log: Log<C>, lo: nat) {
    && |log.ctxs| == |log.ends| + 1 && lo + |log.ends| <= |before| == |after| == |skip|
    && (forall j: nat {:trigger after[j]} :: lo <= j < lo + |log.ends| ==>
       HasTurn(t, rows, skip, before, after, log, lo, j))
    && (forall k :: 0 <= k < |log.ends| - 1 ==> !log.ends[k].Broken?)
    && (lo + |log.ends| < |before| ==> |log.ends| > 0 && log.ends[|log.ends| - 1].Broken?)
    && (forall j: nat :: j < lo || lo + |log.ends| <= j < |before| ==> after[j] == before[j])
  }

  predicate BreaksAtEnd(ends: seq<End>) {
    ends != [] && ends[|ends| - 1].Broken?
  }

  predicate SomeDone(ends: seq<End>) {
    exists k :: 0 <= k < |ends| && ends[k].Done?
  }

  /** One region's turn in front of the others'. */
  lemma TurnInFront<C>(t: Table<C>, rows: nat -> seq<Row>, skip: seq<bool>, before: seq<nat>, mid: seq<nat>,
                       after: seq<nat>, log: Log<C>, lo: nat, x: C, end: End)
    requires lo < |before| == |mid| && forall j: nat :: j < |before| && j != lo ==> mid[j] == before[j]
    requires InTurn(t, rows, skip, mid, after, log, lo + 1) && !end.Broken?
    requires Ends(t, if skip[lo] then [] else rows(before[lo]), before[lo], x, mid[lo], log.ctxs[0], end)
    ensures InTurn(t, rows, skip, before, after, Log([x] + log.ctxs, [end] + log.ends), lo)
  {
    var log' := Log([x] + log.ctxs, [end] + log.ends);
    assert after[lo] == mid[lo];
    forall j: nat | lo <= j < lo + |log'.ends|
      ensures HasTurn(t, rows, skip, before, after, log', lo, j)
    {
      if j > lo {
        LaterTurn(t, rows, skip, before, mid, after, log, lo, x, end, j);
      }
    }
    assert forall k :: 0 < k < |log'.ends| ==> log'.ends[k] == log.ends[k - 1];
  }

  lemma LaterTurn<C>(t: Table<C>, rows: nat -> seq<Row>, skip: seq<bool>, before: seq<nat>, mid: seq<nat>,
                     after: seq<nat>, log: Log<C>, lo: nat, x: C, end: End, j: nat)
    requires |log.ctxs| == |log.ends| + 1 && lo < j < lo + 1 + |log.ends| <= |before| == |mid| == |after| == |skip|
    requires mid[j] == before[j] && HasTurn(t, rows, skip, mid, after, log, lo + 1, j)
    ensures HasTurn(t, rows, skip, before, after, Log([x] + log.ctxs, [end] + log.ends), lo, j)
  {
    var log' := Log([x] + log.ctxs, [end] + log.ends);
    var k := j - lo;
    assert log'.ctxs[k] == log.ctxs[k - 1] && log'.ctxs[k + 1] == log.ctxs[k] && log'.ends[k] == log.ends[k - 1];
  }

  /** The first region breaks, and no other has its turn. */
  lemma BreaksFirst<C>(t: Table<C>, rows: nat -> seq<Row>, skip: seq<bool>, before: seq<nat>, after: seq<nat>,
                       lo: nat, x: C, x': C, end: End)
    requires lo < |before| == |after| == |skip| && end.Broken?
    requires forall j: nat :: j < |before| && j != lo ==> after[j] == before[j]
    requires Ends(t, if skip[lo] then [] else rows(before[lo]), before[lo], x, after[lo], x', end)
    ensures InTurn(t, rows, skip, before, after, Log([x, x'], [end]), lo) && BreaksAtEnd([end])
  {
  }

  lemma DoneInFront(end: End, ends: seq<End>)
    ensures SomeDone([end] + ends) <==> end.Done? || SomeDone(ends)
    ensures BreaksAtEnd([end] + ends) <==> if ends == [] then end.Broken? else BreaksAtEnd(ends)
  {
    var all := [end] + ends;
    assert forall k :: 0 < k < |all| ==> all[k] == ends[k - 1];
    if SomeDone(ends) {
      var k :| 0 <= k < |ends| && ends[k].Done?;
      assert all[k + 1].Done?;
    }
    assert all[0] == end;
  }

  // ---- Completions ---------------------------------------------------------------------------------------

  /** The completion rows of a state: the origin event's before those for any. */
  function RowsToComplete<C>(t: Table<C>, origin: Option<nat>): nat -> seq<Row> {
    (q: nat) => (match origin
                 case None => []
                 case Some(e) => match t.origin(e, q) case None => [] case Some(row) => [row])
                + t.anonymous(q)
  }

  lemma RegionEnds<C>(t: Table<C>, c: Config<C>, i: nat, origin: Option<nat>) returns (end: End)
    requires i < |c.states|
    ensures var a := TryRegion(t, c, i, origin);
            && Alone(c, a.c, i) && (a.handled <==> end.Done?) && (a.fault <==> end.Broken?)
            && Ends(t, RowsToComplete(t, origin)(c.states[i]), c.states[i], c.ctx, a.c.states[i], a.c.ctx, end)
  {
    var rows := RowsToComplete(t, origin)(c.states[i]);
    assert OriginRows(t, origin, c.states[i]) + t.anonymous(c.states[i]) == rows;
    end := RowsEnd(t, c.(trace := c.trace + [Tried(i)]), i, rows);
  }

  /** A completion pass gives every unsettled region its turn, in order, also after
      others have moved, up to the first that breaks. It has handled something
      exactly if a row ran, and faults exactly where a region broke. */
  lemma {:induction false} CompletionsInTurn<C>(t: Table<C>, c: Config<C>, settled: seq<bool>, origin: Option<nat>,
                                                lo: nat) returns (log: Log<C>)
    requires |settled| == |c.states| && lo <= |c.states|
    ensures var p := CompletionPass(t, c, settled, origin, lo);
            && InTurn(t, RowsToComplete(t, origin), settled, c.states, p.c.states, log, lo)
            && log.ctxs[0] == c.ctx && log.ctxs[|log.ctxs| - 1] == p.c.ctx
            && (p.fault == if BreaksAtEnd(log.ends) then Some(lo + |log.ends| - 1) else None)
            && (p.fault.None? ==> (p.handled <==> SomeDone(log.ends)))
    decreases |c.states| - lo
  {
    var rows := RowsToComplete(t, origin);
    if lo == |c.states| {
      log := Log([c.ctx], []);
    } else {
      var end, x, mid := Nothing, c.ctx, c;
      if !settled[lo] {
        end := RegionEnds(t, c, lo, origin);
        mid := TryRegion(t, c, lo, origin).c;
      }
      if end.Broken? {
        BreaksFirst(t, rows, settled, c.states, mid.states, lo, c.ctx, mid.ctx, end);
        log := Log([c.ctx, mid.ctx], [end]);
      } else {
        log := CompletionsInTurn(t, mid, settled, origin, lo + 1);
        TurnInFront(t, rows, settled, c.states, mid.states, CompletionPass(t, c, settled, origin, lo).c.states, log,
                    lo, x, end);
        DoneInFront(end, log.ends);
        log := Log([x] + log.ctxs, [end] + log.ends);
      }
    }
  }

  // ---- Recoveries -------------------------------------------------------------------------------------------

  /** Region `j` ran a row that took it to another state. */
  predicate MovedAt(ends: seq<End>, states: seq<nat>, lo: nat, j: nat) {
    && lo <= j < lo + |ends| && j < |states| && ends[j - lo].Done?
    && !ends[j - lo].row.internal && ends[j - lo].row.target != states[j]
  }

  lemma MovedInFront(end: End, ends: seq<End>, states: seq<nat>, mid: seq<nat>, lo: nat, j: nat)
    requires |mid| == |states| && forall k: nat :: k < |states| && k != lo ==> mid[k] == states[k]
    ensures MovedAt([end] + ends, states, lo, j) <==>
              if j == lo then lo < |states| && end.Done? && !end.row.internal && end.row.target != states[lo]
              else MovedAt(ends, mid, lo + 1, j)
  {
    if lo < j < lo + 1 + |ends| {
      assert ([end] + ends)[j - lo] == ends[j - lo - 1];
    }
  }

  /** Every region recovers on its own: each has its turn with its exception rows, in
      order, whether or not another has handled the fault, unless a handler fails.
      The fault is handled exactly if some row ran; there is progress exactly if the
      faulting region's own row took it to another state; and the regions reported as
      left are exactly those that moved. */
  lemma {:induction false} RecoveriesInTurn<C>(t: Table<C>, c: Config<C>, faulting: nat, lo: nat,
                                               recovery: Option<bool>, exited: seq<bool>) returns (log: Log<C>)
    requires |exited| == |c.states| && lo <= |c.states|
    ensures var w := ExceptionWalk(t, c, faulting, lo, recovery, exited);
            && InTurn(t, t.exceptions, Nobody(|c.states|), c.states, w.c.states, log, lo)
            && log.ctxs[0] == c.ctx && log.ctxs[|log.ctxs| - 1] == w.c.ctx
            && (w.failed <==> BreaksAtEnd(log.ends))
            && (!w.failed ==>
                  && (w.recovery.Some? <==> recovery.Some? || SomeDone(log.ends))
                  && (w.recovery == Some(true) <==> recovery == Some(true) || MovedAt(log.ends, c.states, lo, faulting))
                  && (forall j: nat :: j < |exited| ==>
                        (w.exited[j] <==> exited[j] || MovedAt(log.ends, c.states, lo, j))))
    decreases |c.states| - lo
  {
    if lo == |c.states| {
      log := Log([c.ctx], []);
    } else {
      var end := RecoverEnds(t, c, lo, t.exceptions(c.states[lo]));
      var (a, moved) := RecoverRows(t, c, lo, t.exceptions(c.states[lo]));
      if a.fault {
        BreaksFirst(t, t.exceptions, Nobody(|c.states|), c.states, a.c.states, lo, c.ctx, a.c.ctx, end);
        log := Log([c.ctx, a.c.ctx], [end]);
      } else {
        var recovery' := if a.handled then Some((moved && lo == faulting) || recovery == Some(true)) else recovery;
        var exited' := if moved then exited[lo := true] else exited;
        log := RecoveriesInTurn(t, a.c, faulting, lo + 1, recovery', exited');
        var w := ExceptionWalk(t, c, faulting, lo, recovery, exited);
        TurnInFront(t, t.exceptions, Nobody(|c.states|), c.states, a.c.states, w.c.states, log, lo, c.ctx, end);
        DoneInFront(end, log.ends);
        forall j: nat
          ensures MovedAt([end] + log.ends, c.states, lo, j) <==>
                    if j == lo then moved else MovedAt(log.ends, a.c.states, lo + 1, j)
        {
          MovedInFront(end, log.ends, c.states, a.c.states, lo, j);
        }
        log := Log([c.ctx] + log.ctxs, [end] + log.ends);
      }
    }
  }

  /** The walk of one fault. */
  lemma EachRecovers<C>(t: Table<C>, c: Config<C>, faulting: nat) returns (log: Log<C>)
    requires faulting < |c.states|
    ensures var w := ExceptionWalk(t, c, faulting, 0, None, Nobody(|c.states|));
            && InTurn(t, t.exceptions, Nobody(|c.states|), c.states, w.c.states, log, 0)
            && log.ctxs[0] == c.ctx && log.ctxs[|log.ctxs| - 1] == w.c.ctx
            && (w.failed <==> BreaksAtEnd(log.ends))
            && (!w.failed ==>
                  && (w.recovery.None? <==> !SomeDone(log.ends))
                  && (w.recovery == Some(true) <==> MovedAt(log.ends, c.states, 0, faulting))
                  && (forall j: nat :: j < |c.states| ==> (w.exited[j] <==> MovedAt(log.ends, c.states, 0, j))))
  {
    log := RecoveriesInTurn(t, c, faulting, 0, None, Nobody(|c.states|));
  }

  // ---- A turn ------------------------------------------------------------------------------------------------

  /** What follows a fault at `f`: an error if no region handled it or a handler
      failed. With progress the origin is spent, without it the region is settled; and
      whoever was left is no longer settled. */
  ghost predicate FaultLeads<C>(t: Table<C>, c: Config<C>, settled: seq<bool>, origin: Option<nat>, f: nat, r: Turn<C>)
    requires |settled| == |c.states| && f < |settled|
  {
    var w := ExceptionWalk(t, c, f, 0, None, Nobody(|c.states|));
    match r
    case Return(out) => !out.ok && out.c == w.c && (w.failed || w.recovery.None?)
    case Again(c', settled', origin') =>
      && !w.failed && w.recovery.Some? && c'.states == w.c.states && c'.ctx == w.c.ctx && |settled'| == |settled|
      && origin' == (if w.recovery.value then None else origin)
      && (forall j :: 0 <= j < |settled| ==>
            (settled'[j] <==> (settled[j] && !w.exited[j]) || (j == f && !w.recovery.value)))
      && c'.trace == w.c.trace + [if w.recovery.value then Recovered(f) else Settled(f)]
  }

  /** A turn goes on exactly if a completion row ran, with marks and origin kept, or
      a fault was handled; it returns stable exactly if nothing ran and nothing broke. */
  lemma TurnExactly<C>(t: Table<C>, c: Config<C>, settled: seq<bool>, origin: Option<nat>)
    requires |settled| == |c.states|
    ensures var p := CompletionPass(t, c, settled, origin, 0); var r := OneTurn(t, c, settled, origin);
            match p.fault
            case Some(f) => FaultLeads(t, p.c, settled, origin, f, r)
            case None =>
              if p.handled then r == Again(p.c, settled, origin) else r == Return(Outcome(p.c, settled, origin, true))
  {
  }

  /** Some fault was recovered with progress. */
  predicate EverRecovered(trace: seq<Note>) {
    exists i :: 0 <= i < |trace| && trace[i].Recovered?
  }

  predicate NoneRecovered(notes: seq<Note>) {
    forall i :: 0 <= i < |notes| ==> !notes[i].Recovered?
  }

  /** `b` continues `a` with notes about tries and moves only. */
  ghost predicate OnlyTries(a: seq<Note>, b: seq<Note>) {
    a <= b && NoneRecovered(b[|a|..])
  }

  lemma OnlyTriesAdds(a: seq<Note>, b: seq<Note>, note: Note)
    requires OnlyTries(a, b) && !note.Recovered?
    ensures OnlyTries(a, b + [note])
  {
    assert (b + [note])[|a|..] == b[|a|..] + [note];
  }

  lemma OnlyTriesTransitive(a: seq<Note>, b: seq<Note>, c: seq<Note>)
    requires OnlyTries(a, b) && OnlyTries(b, c)
    ensures OnlyTries(a, c)
  {
    assert c[|a|..] == b[|a|..] + c[|b|..];
  }

  lemma SameRecovered(a: seq<Note>, b: seq<Note>)
    requires OnlyTries(a, b)
    ensures EverRecovered(a) <==> EverRecovered(b)
  {
    if EverRecovered(a) {
      var i :| 0 <= i < |a| && a[i].Recovered?;
      assert b[i].Recovered?;
    }
    forall i | |a| <= i < |b|
      ensures !b[i].Recovered?
    {
      assert b[|a|..][i - |a|] == b[i];
    }
    if EverRecovered(b) {
      var i :| 0 <= i < |b| && b[i].Recovered?;
      assert a[i].Recovered?;
    }
  }

  lemma {:induction false} PassOnlyTries<C>(t: Table<C>, c: Config<C>, settled: seq<bool>, origin: Option<nat>, i: nat)
    requires |settled| == |c.states| && i <= |c.states|
    ensures OnlyTries(c.trace, CompletionPass(t, c, settled, origin, i).c.trace)
    decreases |c.states| - i
  {
    if i < |c.states| {
      if settled[i] {
        PassOnlyTries(t, c, settled, origin, i + 1);
      } else {
        var tried := c.(trace := c.trace + [Tried(i)]);
        RowsNote(t, tried, i, OriginRows(t, origin, c.states[i]) + t.anonymous(c.states[i]));
        OnlyTriesAdds(c.trace, c.trace, Tried(i));
        OnlyTriesAdds(c.trace, tried.trace, Left(i));
        var a := TryRegion(t, c, i, origin);
        if !a.fault {
          PassOnlyTries(t, a.c, settled, origin, i + 1);
          OnlyTriesTransitive(c.trace, a.c.trace, CompletionPass(t, a.c, settled, origin, i + 1).c.trace);
        }
      }
    }
  }

  lemma {:induction false} WalkOnlyTries<C>(t: Table<C>, c: Config<C>, faulting: nat, i: nat, recovery: Option<bool>,
                                            exited: seq<bool>)
    requires |exited| == |c.states| && i <= |c.states|
    ensures var w := ExceptionWalk(t, c, faulting, i, recovery, exited); !w.failed ==> OnlyTries(c.trace, w.c.trace)
    decreases |c.states| - i
  {
    if i < |c.states| {
      RecoverNote(t, c, i, t.exceptions(c.states[i]));
      OnlyTriesAdds(c.trace, c.trace, Left(i));
      var (a, moved) := RecoverRows(t, c, i, t.exceptions(c.states[i]));
      if !a.fault {
        var recovery' := if a.handled then Some((moved && i == faulting) || recovery == Some(true)) else recovery;
        var exited' := if moved then exited[i := true] else exited;
        WalkOnlyTries(t, a.c, faulting, i + 1, recovery', exited');
        var w := ExceptionWalk(t, a.c, faulting, i + 1, recovery', exited');
        if !w.failed {
          OnlyTriesTransitive(c.trace, a.c.trace, w.c.trace);
        }
      }
    }
  }

  /** One turn spends the origin exactly if it notes a recovery with progress. */
  lemma TurnSpends<C>(t: Table<C>, c: Config<C>, settled: seq<bool>, origin: Option<nat>)
    requires |settled| == |c.states|
    ensures match OneTurn(t, c, settled, origin)
            case Return(out) => out.ok ==>
                out.origin == origin && (EverRecovered(out.c.trace) <==> EverRecovered(c.trace))
            case Again(c', _, origin') =>
              || (origin' == None && EverRecovered(c'.trace))
              || (origin' == origin && (EverRecovered(c'.trace) <==> EverRecovered(c.trace)))
  {
    PassOnlyTries(t, c, settled, origin, 0);
    var p := CompletionPass(t, c, settled, origin, 0);
    SameRecovered(c.trace, p.c.trace);
    if p.fault.Some? {
      var f := p.fault.value;
      WalkOnlyTries(t, p.c, f, 0, None, Nobody(|c.states|));
      var w := ExceptionWalk(t, p.c, f, 0, None, Nobody(|c.states|));
      if !w.failed {
        OnlyTriesTransitive(c.trace, p.c.trace, w.c.trace);
        OnlyTriesAdds(c.trace, w.c.trace, Settled(f));
        SameRecovered(c.trace, w.c.trace + [Settled(f)]);
        assert (w.c.trace + [Recovered(f)])[|w.c.trace|] == Recovered(f);
      }
    }
  }

  /** Over any number of turns the origin event is spent exactly when a fault was
      recovered with progress, and is otherwise the one the call began with. */
  lemma {:induction false} OriginSpent<C>(t: Table<C>, cs: seq<Config<C>>, marks: seq<seq<bool>>,
                                          origins: seq<Option<nat>>, k: nat)
    requires Turns(t, cs, marks, origins) && k < |cs| && cs[0].trace == []
    ensures origins[k] == if EverRecovered(cs[k].trace) then None else origins[0]
    decreases k
  {
    if k > 0 {
      OriginSpent(t, cs, marks, origins, k - 1);
      assert OneTurn(t, cs[k - 1], marks[k - 1], origins[k - 1]) == Again(cs[k], marks[k], origins[k]);
      TurnSpends(t, cs[k - 1], marks[k - 1], origins[k - 1]);
    }
  }
}
