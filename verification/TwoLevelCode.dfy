/** The emitted bodies of a two-level machine, on the fields of its core
    (macros/src/composite_codegen.rs). Every method is proved equal to the
    function of the same name in `TwoLevel`. */
module TwoLevelCode {
  import opened Prelude
  import opened TwoLevel

  class Core<!C> {
    var state: nat
    var childState: nat
    var ctx: C

    ghost function View(): Config<C>
      reads this
    {
      Config(state, childState, ctx)
    }

    constructor (m: Machine<C>, initial: nat, ctx: C)
      ensures View() == Config(initial, m.initial, ctx)
    {
      state, childState, this.ctx := initial, m.initial, ctx;
    }

    /** One row (`transition_code`); `fault` is the early return of `?`. */
    method TryRow(m: Machine<C>, level: Level, row: Row) returns (handled: bool, fault: bool,
                  ran: Option<(Level, Row)>)
      modifies this
      ensures Attempt(View(), handled, fault, ran) == TwoLevel.TryRow(m, level, old(View()), row)
    {
      if (row.trigger.On? || row.trigger.Unexpected? || row.trigger.AnyUnexpected?) && !m.accepts(level, row, ctx) {
        return false, false, None;
      }
      match m.guard(level, row, ctx) {
        case Refused => return false, false, None;
        case Faulted => return false, true, None;
        case Passed =>
          var effect := m.fire(level, row, ctx);
          ctx := effect.ctx;
          if effect.FailedBefore? {
            return false, true, Some((level, row));
          }
          if !row.internal {
            var source := state;
            if level.Child? {
              childState := row.target;
            } else {
              state := row.target;
            }
            if effect.FailedAtEntry? {
              return false, true, Some((level, row));
            }
            if level.Parent? && row.target == m.composite && source != m.composite && !m.history {
              childState := m.initial;
            }
          }
          return effect.Ran?, !effect.Ran?, Some((level, row));
      }
    }

    method TryRows(m: Machine<C>, level: Level, rows: seq<Row>) returns (handled: bool, fault: bool,
                   ran: Option<(Level, Row)>)
      modifies this
      ensures Attempt(View(), handled, fault, ran) == TwoLevel.TryRows(m, level, old(View()), rows)
    {
      handled, fault, ran := false, false, None;
      var k := 0;
      while k < |rows| && !handled && !fault
        invariant k <= |rows|
        invariant if handled || fault
                  then Attempt(View(), handled, fault, ran) == TwoLevel.TryRows(m, level, old(View()), rows)
                  else
                    && ran == None
                    && TwoLevel.TryRows(m, level, View(), rows[k..]) == TwoLevel.TryRows(m, level, old(View()), rows)
      {
        assert rows[k..][0] == rows[k] && rows[k..][1..] == rows[k + 1..];
        handled, fault, ran := TryRow(m, level, rows[k]);
        k := k + 1;
      }
    }

    method Dispatch(m: Machine<C>, event: nat) returns (handled: bool, fault: bool, ran: Option<(Level, Row)>)
      modifies this
      ensures Attempt(View(), handled, fault, ran) == TwoLevel.Dispatch(m, old(View()), event)
    {
      handled, fault, ran := false, false, None;
      if state == m.composite {
        handled, fault, ran := TryRows(m, Child, Arm(m.child, childState, event));
        if fault {
          return;
        }
      }
      if !handled {
        handled, fault, ran := TryRows(m, Parent, Arm(m.parent, state, event));
      }
    }

    /** The rows of `completion_code`'s two matches for the current states. */
    method CompletionStepAt(m: Machine<C>, level: Level, origin: Option<nat>) returns (handled: bool, fault: bool,
                            ran: Option<(Level, Row)>)
      modifies this
      ensures Attempt(View(), handled, fault, ran)
           == TwoLevel.TryRows(m, level, old(View()), CompletionRows(m, level, old(View()), origin))
    {
      var rows: seq<Row> := [];
      var current := if level.Parent? then state else childState;
      if !(level.Parent? && state == m.composite) || m.terminal == Some(childState) {
        if origin.Some? {
          rows := Select(Rows(m, level), current, CompletionOf(origin.value));
        }
        rows := rows + Select(Rows(m, level), current, AnyCompletion);
      }
      handled, fault, ran := TryRows(m, level, rows);
    }

    method CompletionStep(m: Machine<C>, origin: Option<nat>) returns (handled: bool, fault: bool,
                          ran: Option<(Level, Row)>)
      modifies this
      ensures Attempt(View(), handled, fault, ran) == TwoLevel.CompletionStep(m, old(View()), origin)
    {
      handled, fault, ran := false, false, None;
      if state == m.composite {
        handled, fault, ran := CompletionStepAt(m, Child, origin);
        if fault {
          return;
        }
      }
      if !handled {
        handled, fault, ran := CompletionStepAt(m, Parent, origin);
      }
    }

    /** `exception_code` for one level. */
    method RecoverAt(m: Machine<C>, level: Level) returns (recovery: Option<bool>, failed: bool)
      modifies this
      ensures Walk(View(), recovery, failed) == TwoLevel.RecoverAt(m, level, old(View()))
    {
      var current := if level.Parent? then state else childState;
      var rows := Select(Rows(m, level), current, TypedException) + Select(Rows(m, level), current, AnyException);
      var handled, fault, ran := TryRows(m, level, rows);
      recovery := if handled && ran.Some? then Some(Moves(ran.value.1)) else None;
      failed := fault;
    }

    method Recover(m: Machine<C>) returns (recovery: Option<bool>, failed: bool)
      modifies this
      ensures Walk(View(), recovery, failed) == TwoLevel.Recover(m, old(View()))
    {
      recovery, failed := None, false;
      if state == m.composite {
        recovery, failed := RecoverAt(m, Child);
        if failed {
          return;
        }
      }
      if recovery.None? {
        recovery, failed := RecoverAt(m, Parent);
      }
    }

    /** `stabilize`; `ok` is false for an error, `stable` false after a fault recovered without progress. */
    method Run(m: Machine<C>, ghost rank: (Level, nat) -> nat, event: Option<nat>)
      returns (ok: bool, stable: bool, origin: Option<nat>)
      requires Descending(m, rank)
      modifies this
      ensures TwoLevel.Run(m, rank, old(View()), event)
           == if !ok then Failed(View()) else if stable then Stable(View(), origin) else Recovered(View())
    {
      origin := event;
      while true
        invariant TwoLevel.Run(m, rank, View(), origin) == TwoLevel.Run(m, rank, old(View()), event)
        decreases rank(Parent, state), rank(Child, childState)
      {
        TurnDescends(m, rank, View(), origin);
        var handled, fault, _ := CompletionStep(m, origin);
        if !fault {
          if !handled {
            return true, true, origin;
          }
        } else {
          var recovery, failed := Recover(m);
          if failed || recovery.None? {
            return false, false, origin;
          }
          if !recovery.value {
            return true, false, origin;
          }
          origin := None;
        }
      }
    }

    /** The unlocked `process_event` up to `stabilize`. */
    method Begin(m: Machine<C>, event: nat) returns (valid: bool, ok: bool, origin: Option<nat>)
      modifies this
      ensures TwoLevel.Begin(m, old(View()), event)
           == if !valid then InvalidEvent else if !ok then Error(View()) else Stabilizes(View(), origin)
    {
      valid, ok, origin := true, true, None;
      var handled, fault, _ := Dispatch(m, event);
      if fault {
        var recovery, failed := Recover(m);
        ok := !failed && recovery.Some?;
      } else if handled {
        origin := Some(event);
      } else {
        valid := false;
      }
    }

    /** One turn of the loop; `ending` says how it returned. */
    method OneTurn(m: Machine<C>, event: Option<nat>) returns (ending: Option<Ending<C>>, origin: Option<nat>)
      modifies this
      ensures TwoLevel.OneTurn(m, old(View()), event) ==
                if ending.Some? then Return(ending.value) else Again(View(), origin)
      ensures ending.Some? ==> ending.value.c == View()
    {
      origin := event;
      var handled, fault, _ := CompletionStep(m, origin);
      if !fault {
        return if handled then None else Some(Stable(Config(state, childState, ctx), origin)), origin;
      }
      var recovery, failed := Recover(m);
      var c := Config(state, childState, ctx);
      if failed || recovery.None? {
        return Some(Failed(c)), origin;
      }
      return if recovery.value then None else Some(Recovered(c)), None;
    }

    /** `process_event` for any table, followed for at most `turns` turns of the
        loop: a table whose rows form a cycle may keep it going. `cs` and `origins`
        are the turns taken. */
    method Process(m: Machine<C>, event: nat, turns: nat)
      returns (begun: Outcome<C>, ending: Option<Ending<C>>, ghost cs: seq<Config<C>>, ghost origins: seq<Option<nat>>)
      modifies this
      ensures begun == TwoLevel.Begin(m, old(View()), event)
      ensures begun.Stabilizes? ==> Turns(m, cs, origins) && cs[0] == begun.c && origins[0] == begun.origin
      ensures ending.Some? ==>
              begun.Stabilizes? && TwoLevel.OneTurn(m, cs[|cs| - 1], origins[|cs| - 1]) == Return(ending.value)
      ensures ending.Some? ==> ending.value.c == View()
      ensures begun.Stabilizes? && ending.None? ==> |cs| == turns + 1 && cs[turns] == View()
    {
      var valid, ok, origin := Begin(m, event);
      ending, cs, origins := None, [], [];
      begun := if !valid then InvalidEvent else if !ok then Error(Config(state, childState, ctx))
               else Stabilizes(Config(state, childState, ctx), origin);
      if begun.Stabilizes? {
        ending, cs, origins := Stabilize(m, origin, turns);
      }
    }

    /** At most `turns` turns of the loop. */
    method Stabilize(m: Machine<C>, event: Option<nat>, turns: nat)
      returns (ending: Option<Ending<C>>, ghost cs: seq<Config<C>>, ghost origins: seq<Option<nat>>)
      modifies this
      ensures Turns(m, cs, origins) && cs[0] == old(View()) && origins[0] == event
      ensures ending.Some? ==> TwoLevel.OneTurn(m, cs[|cs| - 1], origins[|cs| - 1]) == Return(ending.value)
      ensures ending.Some? ==> ending.value.c == View()
      ensures ending.None? ==> |cs| == turns + 1 && cs[turns] == View()
    {
      var origin := event;
      ending, cs, origins := None, [View()], [event];
      var left := turns;
      while left > 0 && ending.None?
        invariant Turns(m, cs, origins) && cs[0] == old(View()) && origins[0] == event
        invariant ending.None? ==> cs[|cs| - 1] == View() && origins[|cs| - 1] == origin && |cs| + left == turns + 1
        invariant ending.Some? ==>
          TwoLevel.OneTurn(m, cs[|cs| - 1], origins[|cs| - 1]) == Return(ending.value) && ending.value.c == View()
        decreases left, ending.None?
      {
        ending, origin := OneTurn(m, origin);
        if ending.None? {
          cs, origins := cs + [View()], origins + [origin];
        }
        left := left - 1;
      }
    }
  }
}
