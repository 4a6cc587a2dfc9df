/** Entry and exit of nested states in generated machines
    (macros/src/composite_codegen.rs, macros/src/orthogonal_codegen.rs).

    A slot holds one state: a scalar machine's, a region's, or that of a node
    nested in a state. Every generated table is a `Shape`; the emitted bodies
    are functions on a `Config`, with an oracle that decides for every callback
    whether it fails. `LifecycleCode` has the same bodies as methods. */
module Lifecycle {
  /** A table, as far as entering and leaving states goes. Slots are numbered so
      that nested slots come after their owner; `kids(s, q)` are the slots of
      the node nested in state `q` of slot `s`, none if `q` is a plain state. */
  datatype Shape = Shape(
    count: nat,
    kids: (nat, nat) -> seq<nat>,
    initial: nat -> nat,
    history: nat -> bool,           // a scalar node with history keeps its state on entry
    exitActions: (nat, nat) -> nat, // how many callbacks the exit hook of a state has
    entryActions: (nat, nat) -> nat)

  ghost predicate WellFormed(sh: Shape) {
    forall s: nat, q: nat :: s < sh.count ==> Within(sh.kids(s, q), s + 1, sh.count)
  }

  predicate Within(slots: seq<nat>, lo: nat, hi: nat) {
    lo <= hi && forall i :: 0 <= i < |slots| ==> lo <= slots[i] < hi
  }

  /** `Entered` marks the start of an occupancy, by a row of the slot's own table
      or because an enclosing state was entered; `Exited` marks a completed exit. */
  datatype Note = Entered(slot: nat, byRow: bool) | Exited(slot: nat)

  datatype Config = Config(state: seq<nat>, skip: seq<bool>, clock: nat, trace: seq<Note>)

  type Oracle = nat -> bool

  ghost predicate Fits(sh: Shape, c: Config) {
    WellFormed(sh) && |c.state| == |c.skip| == sh.count
  }

  /** Runs `n` callbacks in a row; the first that fails ends them. */
  function Callbacks(o: Oracle, c: Config, n: nat): (r: (Config, bool))
    ensures r.0 == c.(clock := r.0.clock)
    decreases n
  {
    if n == 0 then (c, true)
    else if o(c.clock) then Callbacks(o, c.(clock := c.clock + 1), n - 1)
    else (c.(clock := c.clock + 1), false)
  }

  /** An exit walk over the slots of one node (`tree_exit_node`, `exit_current`):
      a slot whose token is set has already exited. */
  function ExitAll(o: Oracle, sh: Shape, c: Config, slots: seq<nat>, lo: nat): (r: (Config, bool))
    requires Fits(sh, c) && Within(slots, lo, sh.count)
    ensures Fits(sh, r.0) && r.0.state == c.state
    decreases sh.count - lo, |slots|
  {
    if slots == [] then (c, true)
    else
      var (c1, ok) := ExitSlot(o, sh, c, slots[0]);
      if !ok then (c1, false) else ExitAll(o, sh, c1, slots[1..], lo)
  }

  function ExitSlot(o: Oracle, sh: Shape, c: Config, s: nat): (r: (Config, bool))
    requires Fits(sh, c) && s < sh.count
    ensures Fits(sh, r.0) && r.0.state == c.state
    decreases sh.count - s, 0
  {
    if c.skip[s] then (c, true)
    else
      var (c1, ok) := ExitAll(o, sh, c, sh.kids(s, c.state[s]), s + 1);
      if !ok then (c1, false)
      else
        var (c2, ok2) := Callbacks(o, c1, sh.exitActions(s, c.state[s]));
        if !ok2 then (c2, false)
        else (c2.(skip := c2.skip[s := true], trace := c2.trace + [Exited(s)]), true)
  }

  /** The states of a node entered without history start over. */
  function Reset(sh: Shape, state: seq<nat>, slots: seq<nat>): (r: seq<nat>)
    requires |state| == sh.count && Within(slots, 0, sh.count)
    ensures |r| == |state|
    ensures forall i: nat :: i < |state| && i !in slots ==> r[i] == state[i]
    decreases |slots|
  {
    if slots == [] then state
    else if sh.history(slots[0]) then Reset(sh, state, slots[1..])
    else Reset(sh, state[slots[0] := sh.initial(slots[0])], slots[1..])
  }

  /** Enters a node (`tree_enter_node`, `enter_current`): first its states, then slot by slot. */
  function EnterNode(o: Oracle, sh: Shape, c: Config, slots: seq<nat>, lo: nat): (r: (Config, bool))
    requires Fits(sh, c) && Within(slots, lo, sh.count)
    ensures Fits(sh, r.0)
    decreases sh.count - lo, |slots| + 1
  {
    EnterAll(o, sh, c.(state := Reset(sh, c.state, slots)), slots, lo)
  }

  function EnterAll(o: Oracle, sh: Shape, c: Config, slots: seq<nat>, lo: nat): (r: (Config, bool))
    requires Fits(sh, c) && Within(slots, lo, sh.count)
    ensures Fits(sh, r.0)
    decreases sh.count - lo, |slots|
  {
    if slots == [] then (c, true)
    else
      var s := slots[0];
      var c1 := c.(skip := c.skip[s := false], trace := c.trace + [Entered(s, false)]);
      var (c2, ok) := Callbacks(o, c1, sh.entryActions(s, c.state[s]));
      if !ok then (c2, false)
      else
        var (c3, ok3) := EnterNode(o, sh, c2, sh.kids(s, c.state[s]), s + 1);
        if !ok3 then (c3, false) else EnterAll(o, sh, c3, slots[1..], lo)
  }

  /** A row of slot `slot`: where it goes, unless it is internal, and how many callbacks its actions have. */
  datatype Row = Row(slot: nat, internal: bool, target: nat, actions: nat)

  predicate IsComposite(sh: Shape, s: nat, q: nat) {
    sh.kids(s, q) != []
  }

  /** The exits of a row (`transition_code`); if the token says they ran before, they are skipped. */
  function RowExits(o: Oracle, sh: Shape, c: Config, row: Row): (r: (Config, bool))
    requires Fits(sh, c) && row.slot < sh.count
    ensures Fits(sh, r.0) && r.0.state == c.state
  {
    var s := row.slot;
    var q := c.state[s];
    if c.skip[s] then (c.(skip := c.skip[s := false]), true)
    else
      var (c1, ok) := if IsComposite(sh, s, q) && !IsComposite(sh, s, row.target)
                      then ExitAll(o, sh, c, sh.kids(s, q), s + 1) else (c, true);
      if !ok then (c1, false)
      else
        var (c2, ok2) := Callbacks(o, c1, sh.exitActions(s, q));
        if !ok2 then (c2, false) else (c2.(trace := c2.trace + [Exited(s)]), true)
  }

  /** A row up to the point where it replaces the state: exits, then actions. */
  function Leave(o: Oracle, sh: Shape, c: Config, row: Row): (r: (Config, bool))
    requires Fits(sh, c) && row.slot < sh.count
    ensures Fits(sh, r.0) && r.0.state == c.state
  {
    var (c1, ok) := RowExits(o, sh, c, row);
    if !ok then (c1, false)
    else Callbacks(o, c1.(skip := c1.skip[row.slot := true]), row.actions)
  }

  /** A row: an internal one runs its actions where it is. */
  function Run(o: Oracle, sh: Shape, c: Config, row: Row): (r: (Config, bool))
    requires Fits(sh, c) && row.slot < sh.count
    ensures Fits(sh, r.0)
  {
    if row.internal then Callbacks(o, c, row.actions) else Move(o, sh, c, row)
  }

  function Move(o: Oracle, sh: Shape, c: Config, row: Row): (r: (Config, bool))
    requires Fits(sh, c) && row.slot < sh.count
    ensures Fits(sh, r.0)
  {
    var s := row.slot;
    var q := c.state[s];
    var (c1, ok) := Leave(o, sh, c, row);
    if !ok then (c1, false)
    else
      var c2 := c1.(state := c1.state[s := row.target], skip := c1.skip[s := false],
                    trace := c1.trace + [Entered(s, true)]);
      var (c3, ok3) := Callbacks(o, c2, sh.entryActions(s, row.target));
      if !ok3 then (c3, false)
      else if IsComposite(sh, s, row.target) && !IsComposite(sh, s, q)
      then EnterNode(o, sh, c3, sh.kids(s, row.target), s + 1)
      else (c3, true)
  }

  /** Any rows of any slots, one after the other, whether they fail or not:
      dispatch, completion and recovery only choose which. */
  function RunAll(o: Oracle, sh: Shape, c: Config, rows: seq<Row>): (r: Config)
    requires Fits(sh, c) && forall i :: 0 <= i < |rows| ==> rows[i].slot < sh.count
    ensures Fits(sh, r)
    decreases |rows|
  {
    if rows == [] then c
    else RunAll(o, sh, Run(o, sh, c, rows[0]).0, rows[1..])
  }

  // ---- One exit for each entry ---------------------------------------------------------

  /** Completed exits of slot `s` since its latest entry. */
  function ExitsSince(trace: seq<Note>, s: nat): nat {
    if trace == [] then 0
    else
      var rest := trace[..|trace| - 1];
      match trace[|trace| - 1]
      case Entered(t, _) => if t == s then 0 else ExitsSince(rest, s)
      case Exited(t) => if t == s then ExitsSince(rest, s) + 1 else ExitsSince(rest, s)
  }

  /** No occupancy has two completed exits, and one that a row of its own table
      ended has exactly one. */
  ghost predicate OneExitEach(trace: seq<Note>) {
    forall i {:trigger trace[i]} :: 0 <= i < |trace| ==>
      match trace[i]
      case Exited(s) => ExitsSince(trace[..i], s) == 0
      case Entered(s, byRow) => byRow ==> ExitsSince(trace[..i], s) == 1
  }

  /** A slot's token says whether its current occupancy has exited. */
  ghost predicate TokensTell(c: Config) {
    forall s: nat :: s < |c.skip| ==> ExitsSince(c.trace, s) == (if c.skip[s] then 1 else 0)
  }

  ghost predicate Sound(c: Config) {
    TokensTell(c) && OneExitEach(c.trace)
  }

  lemma AddNote(trace: seq<Note>, note: Note)
    requires OneExitEach(trace)
    requires note.Exited? ==> ExitsSince(trace, note.slot) == 0
    requires note.Entered? && note.byRow ==> ExitsSince(trace, note.slot) == 1
    ensures OneExitEach(trace + [note])
    ensures forall s :: ExitsSince(trace + [note], s) ==
              (if note.slot != s then ExitsSince(trace, s) else if note.Entered? then 0 else ExitsSince(trace, s) + 1)
  {
    var all := trace + [note];
    assert all[..|trace|] == trace;
    forall i {:trigger all[i]} | 0 <= i < |trace|
      ensures all[..i] == trace[..i] && all[i] == trace[i]
    {
    }
  }

  lemma {:induction false} ExitAllSound(o: Oracle, sh: Shape, c: Config, slots: seq<nat>, lo: nat)
    requires Fits(sh, c) && Within(slots, lo, sh.count) && Sound(c)
    ensures Sound(ExitAll(o, sh, c, slots, lo).0)
    ensures forall s: nat :: s < lo && s < sh.count ==> ExitAll(o, sh, c, slots, lo).0.skip[s] == c.skip[s]
    decreases sh.count - lo, |slots|
  {
    if slots != [] {
      ExitSlotSound(o, sh, c, slots[0]);
      var (c1, ok) := ExitSlot(o, sh, c, slots[0]);
      if ok {
        ExitAllSound(o, sh, c1, slots[1..], lo);
      }
    }
  }

  lemma {:induction false} ExitSlotSound(o: Oracle, sh: Shape, c: Config, s: nat)
    requires Fits(sh, c) && s < sh.count && Sound(c)
    ensures Sound(ExitSlot(o, sh, c, s).0)
    ensures forall t: nat :: t < s ==> ExitSlot(o, sh, c, s).0.skip[t] == c.skip[t]
    decreases sh.count - s, 0
  {
    if !c.skip[s] {
      ExitAllSound(o, sh, c, sh.kids(s, c.state[s]), s + 1);
      var (c1, ok) := ExitAll(o, sh, c, sh.kids(s, c.state[s]), s + 1);
      if ok {
        var (c2, ok2) := Callbacks(o, c1, sh.exitActions(s, c.state[s]));
        AddNote(c2.trace, Exited(s));
      }
    }
  }

  lemma {:induction false} EnterAllSound(o: Oracle, sh: Shape, c: Config, slots: seq<nat>, lo: nat)
    requires Fits(sh, c) && Within(slots, lo, sh.count) && Sound(c)
    ensures Sound(EnterAll(o, sh, c, slots, lo).0)
    decreases sh.count - lo, |slots|
  {
    if slots != [] {
      var s := slots[0];
      AddNote(c.trace, Entered(s, false));
      var c1 := c.(skip := c.skip[s := false], trace := c.trace + [Entered(s, false)]);
      assert Sound(c1);
      var (c2, ok) := Callbacks(o, c1, sh.entryActions(s, c.state[s]));
      if ok {
        var kids := sh.kids(s, c.state[s]);
        EnterAllSound(o, sh, c2.(state := Reset(sh, c2.state, kids)), kids, s + 1);
        var (c3, ok3) := EnterNode(o, sh, c2, kids, s + 1);
        if ok3 {
          EnterAllSound(o, sh, c3, slots[1..], lo);
        }
      }
    }
  }

  lemma RowExitsSound(o: Oracle, sh: Shape, c: Config, row: Row)
    requires Fits(sh, c) && row.slot < sh.count && Sound(c) && !c.skip[row.slot]
    ensures var (c1, ok) := RowExits(o, sh, c, row);
            if ok then Sound(c1.(skip := c1.skip[row.slot := true])) else Sound(c1)
  {
    var s := row.slot;
    var q := c.state[s];
    var leaves := IsComposite(sh, s, q) && !IsComposite(sh, s, row.target);
    if leaves {
      ExitAllSound(o, sh, c, sh.kids(s, q), s + 1);
    }
    var (c1, ok) := if leaves then ExitAll(o, sh, c, sh.kids(s, q), s + 1) else (c, true);
    assert Sound(c1) && !c1.skip[s];
    if ok {
      OwnExitSound(c1, Callbacks(o, c1, sh.exitActions(s, q)).0, s);
    }
  }

  /** A slot's own exit completes: noted, it has one exit, and its token can be set. */
  lemma OwnExitSound(c1: Config, c2: Config, s: nat)
    requires Sound(c1) && s < |c1.skip| && !c1.skip[s] && c2 == c1.(clock := c2.clock)
    ensures Sound(c2) && Sound(c2.(trace := c2.trace + [Exited(s)], skip := c2.skip[s := true]))
  {
    AddNote(c2.trace, Exited(s));
  }

  /** When a row gets as far as replacing the state, its slot has exited exactly once. */
  lemma LeaveSound(o: Oracle, sh: Shape, c: Config, row: Row)
    requires Fits(sh, c) && row.slot < sh.count && Sound(c)
    ensures Sound(Leave(o, sh, c, row).0)
    ensures Leave(o, sh, c, row).1 ==> ExitsSince(Leave(o, sh, c, row).0.trace, row.slot) == 1
  {
    var s := row.slot;
    if c.skip[s] {
      assert c.skip[s := false][s := true] == c.skip;
    } else {
      RowExitsSound(o, sh, c, row);
    }
  }

  lemma RunSound(o: Oracle, sh: Shape, c: Config, row: Row)
    requires Fits(sh, c) && row.slot < sh.count && Sound(c)
    ensures Sound(Run(o, sh, c, row).0)
  {
    if !row.internal {
      MoveSound(o, sh, c, row);
    }
  }

  lemma MoveSound(o: Oracle, sh: Shape, c: Config, row: Row)
    requires Fits(sh, c) && row.slot < sh.count && Sound(c)
    ensures Sound(Move(o, sh, c, row).0)
  {
    LeaveSound(o, sh, c, row);
    var s := row.slot;
    var (c1, ok) := Leave(o, sh, c, row);
    if ok {
      ArriveSound(c1, s, row.target);
      var c2 := c1.(state := c1.state[s := row.target], skip := c1.skip[s := false],
                    trace := c1.trace + [Entered(s, true)]);
      var (c3, ok3) := Callbacks(o, c2, sh.entryActions(s, row.target));
      EnterNodeSound(o, sh, c3, sh.kids(s, row.target), s + 1);
    }
  }

  /** Replacing the state of a slot that has exited once starts a new occupancy. */
  lemma ArriveSound(c1: Config, s: nat, target: nat)
    requires Sound(c1) && s < |c1.skip| && s < |c1.state| && ExitsSince(c1.trace, s) == 1
    ensures Sound(c1.(state := c1.state[s := target], skip := c1.skip[s := false],
                      trace := c1.trace + [Entered(s, true)]))
  {
    AddNote(c1.trace, Entered(s, true));
  }

  lemma EnterNodeSound(o: Oracle, sh: Shape, c: Config, slots: seq<nat>, lo: nat)
    requires Fits(sh, c) && Within(slots, lo, sh.count) && Sound(c)
    ensures Sound(EnterNode(o, sh, c, slots, lo).0)
  {
    EnterAllSound(o, sh, c.(state := Reset(sh, c.state, slots)), slots, lo);
  }

  /** The exit-skip protocol over every run with faults: whatever rows run and
      whichever callbacks fail, no entry gets two exits, an occupancy left by a
      row of its own table got exactly one, and the tokens tell which
      occupancies have exited. */
  lemma {:induction false} OneExitPerEntry(o: Oracle, sh: Shape, c: Config, rows: seq<Row>)
    requires Fits(sh, c) && (forall i :: 0 <= i < |rows| ==> rows[i].slot < sh.count) && Sound(c)
    ensures Sound(RunAll(o, sh, c, rows))
    decreases |rows|
  {
    if rows != [] {
      RunSound(o, sh, c, rows[0]);
      OneExitPerEntry(o, sh, Run(o, sh, c, rows[0]).0, rows[1..]);
    }
  }

  /** A new machine: no token set, nothing exited. */
  lemma FreshIsSound(sh: Shape, state: seq<nat>, clock: nat)
    requires WellFormed(sh) && |state| == sh.count
    ensures Sound(Config(state, seq(sh.count, _ => false), clock, []))
  {
  }
}

/** The emitted bodies, on the fields of the generated machine core. */
module LifecycleCode {
  import opened Lifecycle

  class Core {
    const state: array<nat>
    const skip: array<bool>
    var clock: nat
    var trace: seq<Note>

    ghost function View(): Config
      reads this, state, skip
    {
      Config(state[..], skip[..], clock, trace)
    }

    constructor (initial: seq<nat>)
      ensures fresh(state) && fresh(skip)
      ensures View() == Config(initial, seq(|initial|, _ => false), 0, [])
    {
      state := new nat[|initial|](i requires 0 <= i < |initial| => initial[i]);
      skip := new bool[|initial|](_ => false);
      clock, trace := 0, [];
      new;
      assert state[..] == initial;
      assert skip[..] == seq(|initial|, _ => false);
    }

    /** One callback after the other; `?` returns at the first that fails. */
    method Callbacks(o: Oracle, n: nat) returns (ok: bool)
      modifies this`clock
      ensures (View(), ok) == Lifecycle.Callbacks(o, old(View()), n)
    {
      var i := 0;
      while i < n
        invariant i <= n
        invariant Lifecycle.Callbacks(o, View(), n - i) == Lifecycle.Callbacks(o, old(View()), n)
      {
        clock := clock + 1;
        if !o(clock - 1) {
          return false;
        }
        i := i + 1;
      }
      return true;
    }

    method ExitAll(o: Oracle, sh: Shape, slots: seq<nat>, lo: nat) returns (ok: bool)
      requires Fits(sh, View()) && Within(slots, lo, sh.count)
      modifies this`clock, this`trace, skip
      ensures (View(), ok) == Lifecycle.ExitAll(o, sh, old(View()), slots, lo)
      decreases sh.count - lo, 1
    {
      var i := 0;
      while i < |slots|
        invariant i <= |slots| && Fits(sh, View())
        invariant Lifecycle.ExitAll(o, sh, View(), slots[i..], lo) == Lifecycle.ExitAll(o, sh, old(View()), slots, lo)
      {
        assert slots[i..][0] == slots[i] && slots[i..][1..] == slots[i + 1..];
        var s := slots[i];
        if !skip[s] {
          ghost var before := View();
          var q := state[s];
          ok := ExitAll(o, sh, sh.kids(s, q), s + 1);
          if !ok {
            return false;
          }
          ok := Callbacks(o, sh.exitActions(s, q));
          if !ok {
            return false;
          }
          skip[s], trace := true, trace + [Exited(s)];
          assert (View(), true) == ExitSlot(o, sh, before, s);
        }
        i := i + 1;
      }
      return true;
    }

    method ResetStates(sh: Shape, slots: seq<nat>)
      requires Fits(sh, View()) && Within(slots, 0, sh.count)
      modifies state
      ensures View() == old(View()).(state := Reset(sh, old(state[..]), slots))
    {
      var i := 0;
      while i < |slots|
        invariant i <= |slots|
        invariant Reset(sh, state[..], slots[i..]) == Reset(sh, old(state[..]), slots)
      {
        assert slots[i..][0] == slots[i] && slots[i..][1..] == slots[i + 1..];
        if !sh.history(slots[i]) {
          state[slots[i]] := sh.initial(slots[i]);
        }
        i := i + 1;
      }
    }

    method EnterNode(o: Oracle, sh: Shape, slots: seq<nat>, lo: nat) returns (ok: bool)
      requires Fits(sh, View()) && Within(slots, lo, sh.count)
      modifies this, state, skip
      ensures (View(), ok) == Lifecycle.EnterNode(o, sh, old(View()), slots, lo)
      decreases sh.count - lo, 2
    {
      ResetStates(sh, slots);
      ok := EnterAll(o, sh, slots, lo);
    }

    method EnterAll(o: Oracle, sh: Shape, slots: seq<nat>, lo: nat) returns (ok: bool)
      requires Fits(sh, View()) && Within(slots, lo, sh.count)
      modifies this, state, skip
      ensures (View(), ok) == Lifecycle.EnterAll(o, sh, old(View()), slots, lo)
      decreases sh.count - lo, 1
    {
      var i := 0;
      ghost var all := Lifecycle.EnterAll(o, sh, View(), slots, lo);
      while i < |slots|
        invariant i <= |slots| && Fits(sh, View())
        invariant Lifecycle.EnterAll(o, sh, View(), slots[i..], lo) == all
      {
        assert slots[i..][0] == slots[i] && slots[i..][1..] == slots[i + 1..];
        var s := slots[i];
        var q := state[s];
        skip[s], trace := false, trace + [Entered(s, false)];
        ok := Callbacks(o, sh.entryActions(s, q));
        if !ok {
          return false;
        }
        ok := EnterNode(o, sh, sh.kids(s, q), s + 1);
        if !ok {
          return false;
        }
        i := i + 1;
      }
      return true;
    }

    /** The part of an external row before it replaces the state. */
    method Leave(o: Oracle, sh: Shape, row: Row) returns (ok: bool)
      requires Fits(sh, View()) && row.slot < sh.count
      modifies this`clock, this`trace, skip
      ensures (View(), ok) == Lifecycle.Leave(o, sh, old(View()), row)
    {
      var s := row.slot;
      var q := state[s];
      if skip[s] {
        skip[s] := false;
      } else {
        if IsComposite(sh, s, q) && !IsComposite(sh, s, row.target) {
          ok := ExitAll(o, sh, sh.kids(s, q), s + 1);
          if !ok {
            return false;
          }
        }
        ok := Callbacks(o, sh.exitActions(s, q));
        if !ok {
          return false;
        }
        trace := trace + [Exited(s)];
      }
      skip[s] := true;
      ok := Callbacks(o, row.actions);
    }

    /** A row (`transition_code`, `generate_transition_branch`). */
    method Run(o: Oracle, sh: Shape, row: Row) returns (ok: bool)
      requires Fits(sh, View()) && row.slot < sh.count
      modifies this, state, skip
      ensures (View(), ok) == Lifecycle.Run(o, sh, old(View()), row)
    {
      if row.internal {
        ok := Callbacks(o, row.actions);
      } else {
        ok := Move(o, sh, row);
      }
    }

    /** The state is replaced and a new occupancy begins. */
    method Arrive(s: nat, target: nat)
      requires s < state.Length == skip.Length
      modifies this`trace, state, skip
      ensures View() == old(View()).(state := old(state[..])[s := target], skip := old(skip[..])[s := false],
                                     trace := old(trace) + [Entered(s, true)])
    {
      state[s] := target;
      skip[s], trace := false, trace + [Entered(s, true)];
    }

    method Move(o: Oracle, sh: Shape, row: Row) returns (ok: bool)
      requires Fits(sh, View()) && row.slot < sh.count
      modifies this, state, skip
      ensures (View(), ok) == Lifecycle.Move(o, sh, old(View()), row)
    {
      var s := row.slot;
      var q := state[s];
      ok := Leave(o, sh, row);
      if !ok {
        return false;
      }
      Arrive(s, row.target);
      ok := Callbacks(o, sh.entryActions(s, row.target));
      if !ok {
        return false;
      }
      if IsComposite(sh, s, row.target) && !IsComposite(sh, s, q) {
        ok := EnterNode(o, sh, sh.kids(s, row.target), s + 1);
      }
    }
  }
}
