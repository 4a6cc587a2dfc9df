/** The emitted `stabilize` body, on the fields of the generated machine core
    (macros/src/composite_codegen.rs, `recovering_stabilize_body`;
    macros/src/orthogonal_codegen.rs, `generate_completion_dispatch` and
    `generate_exception_dispatch`). Every method is proved equal to the function
    of the same name in `Stabilize`. */
module StabilizeCode {
  import opened Prelude
  import opened Stabilize

  class Machine<C> {
    const states: array<nat>
    var ctx: C
    var trace: seq<Note>

    ghost function View(): Config<C>
      reads this, states
    {
      Config(states[..], ctx, trace)
    }

    constructor (initial: seq<nat>, ctx: C)
      ensures fresh(states) && View() == Config(initial, ctx, [])
    {
      states := new nat[|initial|](i requires 0 <= i < |initial| => initial[i]);
      this.ctx, trace := ctx, [];
      new;
      assert states[..] == initial;
    }

    /** One row of region `i`; `fault` is the early return of `?`. */
    method TryRow(t: Table<C>, i: nat, row: Row) returns (handled: bool, fault: bool)
      requires i < states.Length
      modifies this, states
      ensures Attempt(View(), handled, fault) == Stabilize.TryRow(t, old(View()), i, row)
    {
      match t.guard(row, ctx) {
        case Refused => return false, false;
        case Faulted => return false, true;
        case Passed =>
          var effect := t.fire(row, ctx);
          ctx := effect.ctx;
          if effect.FailedBefore? {
            return false, true;
          }
          if !row.internal {
            if states[i] != row.target {
              trace := trace + [Left(i)];
            }
            states[i] := row.target;
          }
          return effect.Ran?, effect.FailedAfter?;
      }
    }

    /** The rows of one match arm in declaration order, each behind `!region_handled`. */
    method TryRows(t: Table<C>, i: nat, rows: seq<Row>) returns (handled: bool, fault: bool)
      requires i < states.Length
      modifies this, states
      ensures Attempt(View(), handled, fault) == Stabilize.TryRows(t, old(View()), i, rows)
    {
      handled, fault := false, false;
      var k := 0;
      while k < |rows| && !handled && !fault
        invariant k <= |rows| && |View().states| == |old(View()).states|
        invariant if handled || fault
                  then Attempt(View(), handled, fault) == Stabilize.TryRows(t, old(View()), i, rows)
                  else Stabilize.TryRows(t, View(), i, rows[k..]) == Stabilize.TryRows(t, old(View()), i, rows)
      {
        assert rows[k..][0] == rows[k] && rows[k..][1..] == rows[k + 1..];
        handled, fault := TryRow(t, i, rows[k]);
        k := k + 1;
      }
    }

    /** The completion step of every region that is not settled, in order;
        `fault` is `faulting_site` when the step ends early. */
    method CompletionPass(t: Table<C>, settled: array<bool>, origin: Option<nat>) returns (handled: bool,
                          fault: Option<nat>)
      requires settled.Length == states.Length
      modifies this, states
      ensures Pass(View(), handled, fault) == Stabilize.CompletionPass(t, old(View()), settled[..], origin, 0)
    {
      handled := false;
      var i := 0;
      while i < states.Length
        invariant i <= states.Length && settled[..] == old(settled[..])
        invariant var p := Stabilize.CompletionPass(t, View(), settled[..], origin, i);
                  Stabilize.CompletionPass(t, old(View()), settled[..], origin, 0) ==
                      p.(handled := handled || p.handled)
      {
        if !settled[i] {
          trace := trace + [Tried(i)];
          var region, failed := TryRows(t, i, OriginRows(t, origin, states[i]) + t.anonymous(states[i]));
          if failed {
            return handled, Some(i);
          }
          handled := handled || region;
        }
        i := i + 1;
      }
      return handled, None;
    }

    /** The exception rows of region `i`. */
    method RecoverRows(t: Table<C>, i: nat, rows: seq<Row>) returns (handled: bool, fault: bool, moved: bool)
      requires i < states.Length
      modifies this, states
      ensures (Attempt(View(), handled, fault), moved) == Stabilize.RecoverRows(t, old(View()), i, rows)
    {
      handled, fault, moved := false, false, false;
      var k := 0;
      while k < |rows| && !handled && !fault
        invariant k <= |rows| && |View().states| == |old(View()).states|
        invariant if handled || fault
                  then (Attempt(View(), handled, fault), moved) == Stabilize.RecoverRows(t, old(View()), i, rows)
                  else
                    && !moved
                    && Stabilize.RecoverRows(t, View(), i, rows[k..]) == Stabilize.RecoverRows(t, old(View()), i, rows)
      {
        assert rows[k..][0] == rows[k] && rows[k..][1..] == rows[k + 1..];
        var source := states[i];
        handled, fault := TryRow(t, i, rows[k]);
        if handled {
          moved := Moves(rows[k], source);
        }
        k := k + 1;
      }
    }

    /** The walk over the regions that recovers a fault of site `faulting`; it
        records in `exited` whose occupancy ended. */
    method ExceptionWalk(t: Table<C>, faulting: nat, exited: array<bool>) returns (recovery: Option<bool>,
                         failed: bool)
      requires exited.Length == states.Length
      requires forall j :: 0 <= j < exited.Length ==> !exited[j]
      modifies this, states, exited
      ensures Walk(View(), recovery, exited[..], failed)
           == Stabilize.ExceptionWalk(t, old(View()), faulting, 0, None, Nobody(states.Length))
    {
      recovery := None;
      var i := 0;
      assert exited[..] == Nobody(states.Length);
      while i < states.Length
        invariant i <= states.Length
        invariant Stabilize.ExceptionWalk(t, View(), faulting, i, recovery, exited[..])
               == Stabilize.ExceptionWalk(t, old(View()), faulting, 0, None, Nobody(states.Length))
      {
        var handled, fault, moved := RecoverRows(t, i, t.exceptions(states[i]));
        if fault {
          return recovery, true;
        }
        if handled {
          if moved {
            ghost var before := exited[..];
            exited[i] := true;
            assert exited[..] == before[i := true];
          }
          recovery := Some((moved && i == faulting) || recovery == Some(true));
        }
        i := i + 1;
      }
      return recovery, false;
    }

    /** Marks whose occupancy was left are cleared (the `zip` loop after a handled fault). */
    method ClearExited(settled: array<bool>, exited: array<bool>)
      requires settled.Length == exited.Length && settled != exited
      modifies settled
      ensures settled[..] == Clear(old(settled[..]), exited[..])
    {
      var j := 0;
      while j < settled.Length
        invariant j <= settled.Length
        invariant forall k :: 0 <= k < settled.Length ==> settled[k] == (old(settled[k]) && !(k < j && exited[k]))
      {
        if exited[j] {
          settled[j] := false;
        }
        j := j + 1;
      }
    }

    /** What follows a fault of site `site`: the walk, and then either the error
        is returned or the loop goes on. */
    method Recover(t: Table<C>, settled: array<bool>, site: nat, event: Option<nat>) returns (goOn: bool,
                   origin: Option<nat>)
      requires settled.Length == states.Length && site < settled.Length
      modifies this, states, settled
      ensures var w := Stabilize.ExceptionWalk(t, old(View()), site, 0, None, Nobody(states.Length));
              if w.failed || w.recovery.None?
              then !goOn && origin == event && settled[..] == old(settled[..]) && View() == w.c
              else goOn && Again(View(), settled[..], origin)
                           == Resume(w.c, Clear(old(settled[..]), w.exited), event, site, w.recovery.value)
    {
      origin := event;
      var exited := new bool[states.Length](_ => false);
      var recovery, failed := ExceptionWalk(t, site, exited);
      if failed || recovery.None? {
        return false, origin;
      }
      ClearExited(settled, exited);
      if recovery.value {
        origin := None;
        trace := trace + [Recovered(site)];
      } else {
        ghost var cleared := settled[..];
        settled[site] := true;
        assert settled[..] == cleared[site := true];
        trace := trace + [Settled(site)];
      }
      goOn := true;
    }

    /** One turn of the loop. */
    method OneTurn(t: Table<C>, settled: array<bool>, event: Option<nat>) returns (goOn: bool, ok: bool,
                   origin: Option<nat>)
      requires settled.Length == states.Length
      modifies this, states, settled
      ensures (if goOn then Again(View(), settled[..], origin) else Return(Outcome(View(), settled[..], origin, ok)))
           == Stabilize.OneTurn(t, old(View()), old(settled[..]), event)
    {
      var handled, fault := CompletionPass(t, settled, event);
      if fault.None? {
        return handled, true, event;
      }
      goOn, origin := Recover(t, settled, fault.value, event);
      ok := false;
    }

    /** The loop. It ends for every choice of outcomes, by the measure of `Stabilize.Run`. */
    method Run(t: Table<C>, event: Option<nat>) returns (ok: bool, settled: array<bool>, origin: Option<nat>)
      requires Descending(t)
      modifies this, states
      ensures fresh(settled)
      ensures Outcome(View(), settled[..], origin, ok) == Stabilize.Run(t, old(View()), Nobody(states.Length), event)
    {
      origin := event;
      settled := new bool[states.Length](_ => false);
      assert settled[..] == Nobody(states.Length);
      ok := true;
      var goOn := true;
      while goOn
        invariant fresh(settled) && settled.Length == states.Length
        invariant (if goOn then Stabilize.Run(t, View(), settled[..], origin)
                  else Outcome(View(), settled[..], origin, ok))
               == Stabilize.Run(t, old(View()), Nobody(states.Length), event)
        decreases goOn, Rank(t, View()), Unsettled(settled[..])
      {
        TurnDescends(t, View(), settled[..], origin);
        goOn, ok, origin := OneTurn(t, settled, origin);
      }
    }
  }
}
