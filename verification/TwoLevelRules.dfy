/** Which row runs in a machine with one nested child, and what it does
    (macros/src/composite_codegen.rs, `dispatch_code`, `completion_code`,
    `exception_code`, `transition_code`): dispatch, completion and recovery ask the
    active child's rows first, then the parent's, and the first row that is not
    turned down decides alone. */
module TwoLevelRules {
  import opened Prelude
  import opened TwoLevel

  // ---- The rows of a state, in table order ------------------------------------------------------

  predicate Matches(row: Row, source: nat, trigger: Trigger) {
    row.source == source && row.trigger == trigger
  }

  /** `picked` are the places, from `lo` on, of exactly the rows for a state and a trigger, in order. */
  ghost predicate PicksFrom(rows: seq<Row>, source: nat, trigger: Trigger, lo: nat, picked: seq<nat>, r: seq<Row>) {
    && |picked| == |r|
    && (forall k :: 0 <= k < |r| ==>
       lo <= picked[k] < |rows| && rows[picked[k]] == r[k] && Matches(r[k], source, trigger))
    && (forall j, k :: 0 <= j < k < |picked| ==> picked[j] < picked[k])
    && (forall i: nat {:trigger rows[i]} :: lo <= i < |rows| && Matches(rows[i], source, trigger) ==> i in picked)
  }

  ghost predicate Picks(rows: seq<Row>, source: nat, trigger: Trigger, picked: seq<nat>, r: seq<Row>) {
    PicksFrom(rows, source, trigger, 0, picked, r)
  }

  lemma PickOneMore(rows: seq<Row>, source: nat, trigger: Trigger, lo: nat, picked: seq<nat>, r: seq<Row>)
    requires lo < |rows| && PicksFrom(rows, source, trigger, lo + 1, picked, r)
    ensures if Matches(rows[lo], source, trigger)
            then PicksFrom(rows, source, trigger, lo, [lo] + picked, [rows[lo]] + r)
            else PicksFrom(rows, source, trigger, lo, picked, r)
  {
    if Matches(rows[lo], source, trigger) {
      var picked', r' := [lo] + picked, [rows[lo]] + r;
      forall k | 0 <= k < |r'|
        ensures lo <= picked'[k] < |rows| && rows[picked'[k]] == r'[k] && Matches(r'[k], source, trigger)
      {
        if k > 0 {
          assert picked'[k] == picked[k - 1] && r'[k] == r[k - 1];
        }
      }
      forall j, k | 0 <= j < k < |picked'|
        ensures picked'[j] < picked'[k]
      {
        assert picked'[k] == picked[k - 1];
        if j > 0 {
          assert picked'[j] == picked[j - 1];
        }
      }
      forall i: nat | lo <= i < |rows| && Matches(rows[i], source, trigger)
        ensures i in picked'
      {
        assert picked'[0] == lo;
        assert i > lo ==> i in picked;
      }
    }
  }

  lemma {:induction false} SelectFrom(rows: seq<Row>, source: nat, trigger: Trigger, lo: nat) returns (picked: seq<nat>)
    requires lo <= |rows|
    ensures PicksFrom(rows, source, trigger, lo, picked, Select(rows[lo..], source, trigger))
    decreases |rows| - lo
  {
    if lo == |rows| {
      picked := [];
    } else {
      var rest := SelectFrom(rows, source, trigger, lo + 1);
      assert rows[lo..][0] == rows[lo] && rows[lo..][1..] == rows[lo + 1..];
      PickOneMore(rows, source, trigger, lo, rest, Select(rows[lo + 1..], source, trigger));
      picked := if Matches(rows[lo], source, trigger) then [lo] + rest else rest;
    }
  }

  /** Selection takes exactly the matching rows, in table order. */
  lemma SelectPicks(rows: seq<Row>, source: nat, trigger: Trigger) returns (picked: seq<nat>)
    ensures Picks(rows, source, trigger, picked, Select(rows, source, trigger))
  {
    assert rows[0..] == rows;
    picked := SelectFrom(rows, source, trigger, 0);
  }

  /** `r` are the rows of a state for the first trigger and then for the second, each in table order. */
  ghost predicate Both(rows: seq<Row>, source: nat, first: Trigger, second: Trigger, r: seq<Row>) {
    exists a, b, picked, picked' ::
      r == a + b && Picks(rows, source, first, picked, a) && Picks(rows, source, second, picked', b)
  }

  ghost predicate Only(rows: seq<Row>, source: nat, trigger: Trigger, r: seq<Row>) {
    exists picked :: Picks(rows, source, trigger, picked, r)
  }

  predicate Has(rows: seq<Row>, source: nat, trigger: Trigger) {
    exists i :: 0 <= i < |rows| && Matches(rows[i], source, trigger)
  }

  /** The first row of a state for a trigger, alone. */
  ghost predicate FirstAlone(rows: seq<Row>, source: nat, trigger: Trigger, r: seq<Row>) {
    exists i: nat :: i < |rows| && r == [rows[i]] && Matches(rows[i], source, trigger)
      && forall j :: 0 <= j < i ==> !Matches(rows[j], source, trigger)
  }

  lemma FirstIsAlone(rows: seq<Row>, source: nat, trigger: Trigger)
    ensures if Has(rows, source, trigger) then FirstAlone(rows, source, trigger, FirstOf(Select(rows, source, trigger)))
            else Select(rows, source, trigger) == []
  {
    var r := Select(rows, source, trigger);
    var picked := SelectPicks(rows, source, trigger);
    if Has(rows, source, trigger) {
      var i: nat :| i < |rows| && Matches(rows[i], source, trigger);
      assert i in picked;
      forall j: nat | j < picked[0]
        ensures !Matches(rows[j], source, trigger)
      {
        assert j !in picked;
      }
      assert r[0] == rows[picked[0]];
    }
  }

  /** The candidates of an event: all rows of the state for the event, in table order,
      if there are any; else its first row for the unexpected event alone, if there
      is one; else its first row for any unexpected event alone, if there is one. */
  lemma ArmExactly(rows: seq<Row>, state: nat, event: nat)
    ensures var arm := Arm(rows, state, event);
            if Has(rows, state, On(event)) then Only(rows, state, On(event), arm)
            else if Has(rows, state, Unexpected(event)) then FirstAlone(rows, state, Unexpected(event), arm)
            else if Has(rows, state, AnyUnexpected) then FirstAlone(rows, state, AnyUnexpected, arm)
            else arm == []
  {
    var picked := SelectPicks(rows, state, On(event));
    FirstIsAlone(rows, state, On(event));
    if Has(rows, state, On(event)) {
      assert Select(rows, state, On(event)) != [];
    }
    FirstIsAlone(rows, state, Unexpected(event));
    FirstIsAlone(rows, state, AnyUnexpected);
  }

  /** The exception rows of a state: the typed ones before those for any fault. */
  lemma ExceptionRowsExactly<C>(m: Machine<C>, level: Level, c: Config<C>)
    ensures Both(Rows(m, level), Current(c, level), TypedException, AnyException, ExceptionRows(m, level, c))
  {
    var a := SelectPicks(Rows(m, level), Current(c, level), TypedException);
    var b := SelectPicks(Rows(m, level), Current(c, level), AnyException);
  }

  /** The completion rows of a state: those for the origin event before those for
      any; but none of the composite state until the child is in `X`. */
  lemma CompletionRowsExactly<C>(m: Machine<C>, level: Level, c: Config<C>, origin: Option<nat>)
    ensures var rows := CompletionRows(m, level, c, origin);
            if level.Parent? && c.parent == m.composite && m.terminal != Some(c.child) then rows == []
            else match origin
                 case Some(e) => Both(Rows(m, level), Current(c, level), CompletionOf(e), AnyCompletion, rows)
                 case None => Only(Rows(m, level), Current(c, level), AnyCompletion, rows)
  {
    var b := SelectPicks(Rows(m, level), Current(c, level), AnyCompletion);
    if origin.Some? {
      var a := SelectPicks(Rows(m, level), Current(c, level), CompletionOf(origin.value));
    } else {
      assert [] + Select(Rows(m, level), Current(c, level), AnyCompletion)
          == Select(Rows(m, level), Current(c, level), AnyCompletion);
    }
  }

  // ---- What a row does -----------------------------------------------------------------------------

  /** The row's own state is the target, unless it is internal; nothing else changed. */
  ghost predicate OwnMoved<C>(level: Level, c: Config<C>, c': Config<C>, row: Row) {
    match level
    case Parent => c'.child == c.child && c'.parent == if row.internal then c.parent else row.target
    case Child => c'.parent == c.parent && c'.child == if row.internal then c.child else row.target
  }

  /** The parent came into the composite state from another one. */
  predicate EntersChild<C>(m: Machine<C>, level: Level, c: Config<C>, row: Row) {
    level.Parent? && !row.internal && row.target == m.composite && c.parent != m.composite
  }

  /** And the child it came to holds starts over, or is as it was left with history. */
  ghost predicate ChildEntered<C>(m: Machine<C>, c: Config<C>, c': Config<C>) {
    c'.parent == m.composite && c'.child == if m.history then c.child else m.initial
  }

  /** A row that is not turned down ends as its guard and callbacks do. A failed
      guard and a callback that fails before the state is replaced leave both states
      alone; later failures leave the row's own move done, and the child entered
      exactly if the state's own entry hook did not fail. */
  ghost predicate RowDoes<C>(m: Machine<C>, level: Level, c: Config<C>, row: Row, a: Attempt<C>) {
    match m.guard(level, row, c.ctx)
    case Refused => false
    case Faulted => a == Attempt(c, false, true, None)
    case Passed =>
      && a.ran == Some((level, row))
      && match m.fire(level, row, c.ctx)
         case FailedBefore(ctx) => a.fault && !a.handled && a.c == Config(c.parent, c.child, ctx)
         case FailedAtEntry(ctx) => a.fault && !a.handled && a.c.ctx == ctx && OwnMoved(level, c, a.c, row)
         case FailedInChild(ctx) => a.fault && !a.handled && a.c.ctx == ctx && Arrived(m, level, c, row, a.c)
         case Ran(ctx) => a.handled && !a.fault && a.c.ctx == ctx && Arrived(m, level, c, row, a.c)
  }

  ghost predicate Arrived<C>(m: Machine<C>, level: Level, c: Config<C>, row: Row, c': Config<C>) {
    if EntersChild(m, level, c, row) then ChildEntered(m, c, c') else OwnMoved(level, c, c', row)
  }

  lemma RowExactly<C>(m: Machine<C>, level: Level, c: Config<C>, row: Row)
    ensures if TurnedDown(m, level, c, row) then TryRow(m, level, c, row) == Attempt(c, false, false, None)
            else RowDoes(m, level, c, row, TryRow(m, level, c, row))
  {
  }

  /** A row is turned down by its guard, or, if it is an event's, by the policy;
      completion and exception rows are not the policy's to choose. */
  lemma TurnedDownExactly<C>(m: Machine<C>, level: Level, c: Config<C>, row: Row)
    ensures TurnedDown(m, level, c, row) <==>
              || m.guard(level, row, c.ctx) == Refused
              || (!m.accepts(level, row, c.ctx)
                  && match row.trigger
                     case On(_) => true
                     case Unexpected(_) => true
                     case AnyUnexpected => true
                     case _ => false)
  {
  }

  // ---- Which row runs ----------------------------------------------------------------------------------

  /** The first live row of `rows` decides alone. */
  ghost predicate FirstLiveDoes<C>(m: Machine<C>, level: Level, c: Config<C>, rows: seq<Row>, a: Attempt<C>) {
    exists k :: 0 <= k < |rows| && !TurnedDown(m, level, c, rows[k]) && RowDoes(m, level, c, rows[k], a)
      && forall i :: 0 <= i < k ==> TurnedDown(m, level, c, rows[i])
  }

  /** Of the active child's rows and the parent's, the first live one decides alone,
      on the configuration as it was; without one nothing happens. */
  ghost predicate InnermostDecides<C>(m: Machine<C>, c: Config<C>, child: seq<Row>, parent: seq<Row>, a: Attempt<C>) {
    if ChildIsActive(m, c) && !AllTurnedDown(m, Child, c, child) then FirstLiveDoes(m, Child, c, child, a)
    else if !AllTurnedDown(m, Parent, c, parent) then FirstLiveDoes(m, Parent, c, parent, a)
    else a == Attempt(c, false, false, None)
  }

  lemma RowsDo<C>(m: Machine<C>, level: Level, c: Config<C>, rows: seq<Row>)
    ensures var a := TryRows(m, level, c, rows);
            if AllTurnedDown(m, level, c, rows) then a == Attempt(c, false, false, None)
            else FirstLiveDoes(m, level, c, rows, a) && (a.handled || a.fault)
  {
    FirstLiveDecides(m, level, c, rows);
    if !AllTurnedDown(m, level, c, rows) {
      var a := TryRows(m, level, c, rows);
      var row :| FirstLive(m, level, c, rows, row) && a == TryRow(m, level, c, row);
      RowExactly(m, level, c, row);
    }
  }

  /** Dispatch of an event: innermost first. */
  lemma DispatchInnermost<C>(m: Machine<C>, c: Config<C>, event: nat)
    ensures InnermostDecides(m, c, Arm(m.child, c.child, event), Arm(m.parent, c.parent, event), Dispatch(m, c, event))
  {
    RowsDo(m, Child, c, Arm(m.child, c.child, event));
    RowsDo(m, Parent, c, Arm(m.parent, c.parent, event));
  }

  /** The completion step: innermost first. */
  lemma CompletionInnermost<C>(m: Machine<C>, c: Config<C>, origin: Option<nat>)
    ensures InnermostDecides(m, c, CompletionRows(m, Child, c, origin), CompletionRows(m, Parent, c, origin),
                             CompletionStep(m, c, origin))
  {
    RowsDo(m, Child, c, CompletionRows(m, Child, c, origin));
    RowsDo(m, Parent, c, CompletionRows(m, Parent, c, origin));
  }

  /** What a walk reports of the row that decided: whether it moved, if its handler
      ran; that it failed; or nothing. */
  ghost predicate Reports<C>(a: Attempt<C>, w: Walk<C>) {
    && w.c == a.c && w.failed == a.fault
    && (w.recovery.Some? <==> a.handled)
    && (a.handled ==> a.ran.Some?)
    && (a.handled ==>
          var row := a.ran.value.1;
          w.recovery == Some(!row.internal && row.target != row.source))
  }

  lemma RecoverReports<C>(m: Machine<C>, level: Level, c: Config<C>)
    ensures Reports(TryRows(m, level, c, ExceptionRows(m, level, c)), RecoverAt(m, level, c))
  {
    RowsDo(m, level, c, ExceptionRows(m, level, c));
  }

  /** Recovery of a fault: the first live exception row of the active child decides
      alone; if there is none the parent's does, on the same configuration. The fault
      is unhandled exactly if all were turned down, and what is reported is whether
      the row that ran moved. */
  lemma RecoveryInnermost<C>(m: Machine<C>, c: Config<C>)
    ensures exists a :: InnermostDecides(m, c, ExceptionRows(m, Child, c), ExceptionRows(m, Parent, c), a)
                        && Reports(a, Recover(m, c))
    ensures var w := Recover(m, c);
            !w.failed && w.recovery.None? <==>
              && (ChildIsActive(m, c) ==> AllTurnedDown(m, Child, c, ExceptionRows(m, Child, c)))
              && AllTurnedDown(m, Parent, c, ExceptionRows(m, Parent, c))
  {
    var child := TryRows(m, Child, c, ExceptionRows(m, Child, c));
    var parent := TryRows(m, Parent, c, ExceptionRows(m, Parent, c));
    RowsDo(m, Child, c, ExceptionRows(m, Child, c));
    RowsDo(m, Parent, c, ExceptionRows(m, Parent, c));
    RecoverReports(m, Child, c);
    RecoverReports(m, Parent, c);
    var a := if ChildIsActive(m, c) && !AllTurnedDown(m, Child, c, ExceptionRows(m, Child, c)) then child else parent;
    assert InnermostDecides(m, c, ExceptionRows(m, Child, c), ExceptionRows(m, Parent, c), a) &&
        Reports(a, Recover(m, c));
  }

  // ---- One turn and one event -------------------------------------------------------------------------------

  /** How a fault in configuration `c` goes on: with an error if no exception row is
      live or the handler fails; with a further turn and no origin if the handler
      moved; else it ends the call. */
  ghost predicate FaultLeads<C>(m: Machine<C>, c: Config<C>, t: Turn<C>) {
    var w := Recover(m, c);
    match t
    case Return(Failed(c')) => c' == w.c && (w.failed || w.recovery.None?)
    case Return(Recovered(c')) => c' == w.c && !w.failed && w.recovery == Some(false)
    case Return(Stable(_, _)) => false
    case Again(c', origin') => c' == w.c && !w.failed && w.recovery == Some(true) && origin' == None
  }

  /** A turn of `stabilize` goes on exactly if a completion row ran, keeping the
      origin, or a fault was recovered by a row that moved, dropping it; it returns
      stable exactly if every completion row was turned down, with nothing changed. */
  lemma TurnExactly<C>(m: Machine<C>, c: Config<C>, origin: Option<nat>)
    ensures var a := CompletionStep(m, c, origin); var t := OneTurn(m, c, origin);
            if a.fault then FaultLeads(m, a.c, t)
            else if a.handled then t == Again(a.c, origin)
            else t == Return(Stable(c, origin)) && Quiet(m, c, origin)
  {
    CompletionInnermost(m, c, origin);
  }

  /** Over any number of turns the origin is dropped exactly when a fault was
      recovered by a row that moved. */
  lemma {:induction false} OriginDropped<C>(m: Machine<C>, cs: seq<Config<C>>, origins: seq<Option<nat>>, k: nat)
    requires Turns(m, cs, origins) && k < |cs|
    ensures origins[k] ==
            if exists j :: 0 <= j < k && CompletionStep(m, cs[j], origins[j]).fault then None else origins[0]
    decreases k
  {
    if k > 0 {
      OriginDropped(m, cs, origins, k - 1);
      assert OneTurn(m, cs[k - 1], origins[k - 1]) == Again(cs[k], origins[k]);
      TurnExactly(m, cs[k - 1], origins[k - 1]);
    }
  }

  /** One event: a fault of its dispatch is recovered with no origin left, and it
      is an error exactly if no exception row is live or the handler fails. */
  lemma BeginExactly<C>(m: Machine<C>, c: Config<C>, event: nat)
    ensures var a := Dispatch(m, c, event); var w := Recover(m, a.c);
            match Begin(m, c, event)
            case InvalidEvent => a == Attempt(c, false, false, None)
            case Error(c') => a.fault && c' == w.c && (w.failed || w.recovery.None?)
            case Stabilizes(c', origin) =>
              if a.fault then !w.failed && w.recovery.Some? && c' == w.c && origin == None
              else a.handled && c' == a.c && origin == Some(event)
  {
    DispatchInnermost(m, c, event);
  }
}
