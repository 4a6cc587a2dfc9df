/** Which states rows and entries leave behind, and in which order the callbacks of
    a row run (macros/src/composite_codegen.rs, `tree_enter_node`, `transition_code`):
    the state an entered slot starts in, the slots that keep theirs, and how far a
    row gets when one of its callbacks fails. */
module EntryStates {
  import opened Lifecycle

  // ---- The states of entered slots -----------------------------------------------------------------

  /** Where a slot is when it is entered along with an enclosing state: in its initial
      state, or, with history, where it was left. */
  function StartState(sh: Shape, before: seq<nat>, d: nat): nat
    requires d < |before|
  {
    if sh.history(d) then before[d] else sh.initial(d)
  }

  /** `notes` are entries along with an enclosing state, each of a slot in its start state. */
  ghost predicate AllStarted(sh: Shape, before: seq<nat>, after: seq<nat>, notes: seq<Note>) {
    forall i :: 0 <= i < |notes| ==>
      && notes[i].Entered? && !notes[i].byRow && notes[i].slot < |before| == |after|
      && after[notes[i].slot] == StartState(sh, before, notes[i].slot)
  }

  predicate Noted(notes: seq<Note>, d: nat) {
    exists i :: 0 <= i < |notes| && notes[i].slot == d
  }

  /** `d` is a slot of the node in the current state of a slot that was entered. */
  ghost predicate InEnteredNode(sh: Shape, after: seq<nat>, notes: seq<Note>, d: nat) {
    exists i :: 0 <= i < |notes| && notes[i].slot < |after| && d in sh.kids(notes[i].slot, after[notes[i].slot])
  }

  /** What entering `slots` made of the states: a slot of an entered node is in its start
      state or, if the entry did not get to that node, where it was; every other slot is
      where it was. */
  ghost predicate Started(sh: Shape, before: seq<nat>, after: seq<nat>, slots: seq<nat>, notes: seq<Note>) {
    && |after| == |before| && AllStarted(sh, before, after, notes)
    && (forall d: nat :: d < |before| ==> after[d] == before[d] || after[d] == StartState(sh, before, d))
    && (forall d: nat :: d < |before| && after[d] != before[d] ==> d in slots || InEnteredNode(sh, after, notes, d))
  }

  /** The states of a node start over, unless its slots have history. */
  lemma {:induction false} ResetStarts(sh: Shape, state: seq<nat>, slots: seq<nat>)
    requires |state| == sh.count && Within(slots, 0, sh.count)
    ensures forall d: nat :: d < sh.count ==>
              Reset(sh, state, slots)[d] == if d in slots then StartState(sh, state, d) else state[d]
    decreases |slots|
  {
    if slots != [] {
      var state' := if sh.history(slots[0]) then state else state[slots[0] := sh.initial(slots[0])];
      ResetStarts(sh, state', slots[1..]);
      var first := slots[0];
      assert forall d: nat :: d < sh.count ==> StartState(sh, state', d) == StartState(sh, state, d) || d == first;
      assert slots == [slots[0]] + slots[1..];
    }
  }

  function Since(c: Config, c': Config): (r: seq<Note>)
    requires c.trace <= c'.trace
  {
    c'.trace[|c.trace|..]
  }

  /** `slots` hold their start states of `before` when they are entered. */
  ghost predicate AtStart(sh: Shape, before: seq<nat>, state: seq<nat>, slots: seq<nat>)
    requires |before| == |state| == sh.count && Within(slots, 0, sh.count)
  {
    && (forall d: nat :: d < sh.count ==> state[d] == before[d] || state[d] == StartState(sh, before, d))
    && (forall i :: 0 <= i < |slots| ==> state[slots[i]] == StartState(sh, before, slots[i]))
  }

  /** Once a slot is in its start state, entering leaves it there; and no other slot
      goes anywhere but to its start state. */
  lemma {:induction false} EnterAllStays(o: Oracle, sh: Shape, c: Config, slots: seq<nat>, lo: nat, before: seq<nat>)
    requires Fits(sh, c) && Within(slots, lo, sh.count) && |before| == sh.count && AtStart(sh, before, c.state, slots)
    ensures var c' := EnterAll(o, sh, c, slots, lo).0;
            && c.trace <= c'.trace
            && forall d: nat :: d < sh.count ==>
                 c'.state[d] == c.state[d] || c'.state[d] == StartState(sh, before, d)
    decreases sh.count - lo, |slots|
  {
    if slots != [] {
      var s := slots[0];
      var c1 := c.(skip := c.skip[s := false], trace := c.trace + [Entered(s, false)]);
      var (c2, ok) := Callbacks(o, c1, sh.entryActions(s, c.state[s]));
      if ok {
        var kids := sh.kids(s, c.state[s]);
        ResetAtStart(sh, before, c2.state, kids);
        EnterAllStays(o, sh, c2.(state := Reset(sh, c2.state, kids)), kids, s + 1, before);
        var (c3, ok3) := EnterNode(o, sh, c2, kids, s + 1);
        if ok3 {
          StillAtStart(sh, before, c.state, c3.state, slots);
          EnterAllStays(o, sh, c3, slots[1..], lo, before);
        }
      }
    }
  }

  lemma ResetAtStart(sh: Shape, before: seq<nat>, state: seq<nat>, kids: seq<nat>)
    requires |before| == |state| == sh.count && Within(kids, 0, sh.count) && AtStart(sh, before, state, [])
    ensures AtStart(sh, before, Reset(sh, state, kids), kids)
    ensures forall d: nat :: d < sh.count ==>
              Reset(sh, state, kids)[d] == state[d] || Reset(sh, state, kids)[d] == StartState(sh, before, d)
    ensures forall d: nat :: d < sh.count && d !in kids ==> Reset(sh, state, kids)[d] == state[d]
  {
    ResetStarts(sh, state, kids);
  }

  lemma StillAtStart(sh: Shape, before: seq<nat>, state: seq<nat>, state': seq<nat>, slots: seq<nat>)
    requires |before| == |state| == |state'| == sh.count && Within(slots, 0, sh.count) && slots != []
    requires AtStart(sh, before, state, slots)
    requires forall d: nat :: d < sh.count ==> state'[d] == state[d] || state'[d] == StartState(sh, before, d)
    ensures AtStart(sh, before, state', slots[1..])
  {
    assert forall i :: 0 <= i < |slots[1..]| ==> slots[1..][i] == slots[i + 1];
  }

  // ---- Every entered slot, however far the entry gets --------------------------------------------------

  /** Every slot nested in the state of an entered slot was entered too. */
  ghost predicate Whole(sh: Shape, after: seq<nat>, notes: seq<Note>) {
    forall i, k {:trigger k in sh.kids(notes[i].slot, after[notes[i].slot])} ::
      0 <= i < |notes| && notes[i].slot < |after| && k in sh.kids(notes[i].slot, after[notes[i].slot]) ==>
          Noted(notes, k)
  }

  ghost predicate AllNoted(slots: seq<nat>, notes: seq<Note>) {
    forall i :: 0 <= i < |slots| ==> Noted(notes, slots[i])
  }

  /** Later entries leave started slots where they are. */
  ghost predicate Keeps(sh: Shape, before: seq<nat>, mid: seq<nat>, after: seq<nat>) {
    && |before| == |mid| == |after|
    && forall d: nat :: d < |mid| ==> after[d] == mid[d] || after[d] == StartState(sh, before, d)
  }

  lemma StartedStays(sh: Shape, before: seq<nat>, mid: seq<nat>, after: seq<nat>, notes: seq<Note>)
    requires AllStarted(sh, before, mid, notes) && Keeps(sh, before, mid, after)
    ensures AllStarted(sh, before, after, notes)
    ensures forall d :: InEnteredNode(sh, mid, notes, d) ==> InEnteredNode(sh, after, notes, d)
    ensures Whole(sh, mid, notes) ==> Whole(sh, after, notes)
  {
    forall d | InEnteredNode(sh, mid, notes, d)
      ensures InEnteredNode(sh, after, notes, d)
    {
      var i :| 0 <= i < |notes| && notes[i].slot < |mid| && d in sh.kids(notes[i].slot, mid[notes[i].slot]);
      assert after[notes[i].slot] == mid[notes[i].slot];
    }
    if Whole(sh, mid, notes) {
      forall i, k | 0 <= i < |notes| && notes[i].slot < |after| && k in sh.kids(notes[i].slot, after[notes[i].slot])
        ensures Noted(notes, k)
      {
        assert after[notes[i].slot] == mid[notes[i].slot];
        assert k in sh.kids(notes[i].slot, mid[notes[i].slot]);
      }
    }
  }

  lemma NotedInBoth(a: seq<Note>, b: seq<Note>, d: nat)
    ensures Noted(a + b, d) <==> Noted(a, d) || Noted(b, d)
  {
    var all := a + b;
    if Noted(a, d) {
      var i :| 0 <= i < |a| && a[i].slot == d;
      assert all[i].slot == d;
    }
    if Noted(b, d) {
      var i :| 0 <= i < |b| && b[i].slot == d;
      assert all[|a| + i].slot == d;
    }
    if Noted(all, d) {
      var i :| 0 <= i < |all| && all[i].slot == d;
      assert if i < |a| then all[i] == a[i] else all[i] == b[i - |a|];
    }
  }

  lemma InEitherNode(sh: Shape, after: seq<nat>, a: seq<Note>, b: seq<Note>, d: nat)
    requires InEnteredNode(sh, after, a, d) || InEnteredNode(sh, after, b, d)
    ensures InEnteredNode(sh, after, a + b, d)
  {
    var all := a + b;
    if InEnteredNode(sh, after, a, d) {
      var i :| 0 <= i < |a| && a[i].slot < |after| && d in sh.kids(a[i].slot, after[a[i].slot]);
      assert all[i] == a[i];
    } else {
      var i :| 0 <= i < |b| && b[i].slot < |after| && d in sh.kids(b[i].slot, after[b[i].slot]);
      assert all[|a| + i] == b[i];
    }
  }

  lemma WholeTogether(sh: Shape, after: seq<nat>, a: seq<Note>, b: seq<Note>)
    requires Whole(sh, after, a) && Whole(sh, after, b)
    ensures Whole(sh, after, a + b)
  {
    var all := a + b;
    forall i, k | 0 <= i < |all| && all[i].slot < |after| && k in sh.kids(all[i].slot, after[all[i].slot])
      ensures Noted(all, k)
    {
      NotedInBoth(a, b, k);
      if i < |a| {
        assert k in sh.kids(a[i].slot, after[a[i].slot]);
      } else {
        assert k in sh.kids(b[i - |a|].slot, after[b[i - |a|].slot]);
      }
    }
  }

  /** What an entry that began in `c` with `slots` at their start states came to. */
  ghost predicate EntryTold(sh: Shape, before: seq<nat>, c: Config, slots: seq<nat>, c': Config, ok: bool) {
    && c.trace <= c'.trace && |c.state| == |c'.state| == |before|
    && var notes := Since(c, c');
       && AllStarted(sh, before, c'.state, notes)
       && (forall d: nat :: d < |before| && c'.state[d] != c.state[d] ==> InEnteredNode(sh, c'.state, notes, d))
       && (ok ==> AllNoted(slots, notes) && Whole(sh, c'.state, notes))
  }

  lemma {:induction false} EnterAllTold(o: Oracle, sh: Shape, c: Config, slots: seq<nat>, lo: nat, before: seq<nat>)
    requires Fits(sh, c) && Within(slots, lo, sh.count) && |before| == sh.count && AtStart(sh, before, c.state, slots)
    ensures var (c', ok) := EnterAll(o, sh, c, slots, lo); EntryTold(sh, before, c, slots, c', ok)
    decreases sh.count - lo, |slots|, 1
  {
    if slots == [] {
      assert Since(c, c) == [];
    } else {
      var s := slots[0];
      var c1 := c.(skip := c.skip[s := false], trace := c.trace + [Entered(s, false)]);
      var (c2, ok) := Callbacks(o, c1, sh.entryActions(s, c.state[s]));
      if !ok {
        assert Since(c, c2) == [Entered(s, false)];
      } else {
        KidsTold(o, sh, c, slots, lo, c2, before);
        var (c3, ok3) := EnterNode(o, sh, c2, sh.kids(s, c.state[s]), s + 1);
        if ok3 {
          StillAtStart(sh, before, c.state, c3.state, slots);
          EnterAllTold(o, sh, c3, slots[1..], lo, before);
          EnterAllStays(o, sh, c3, slots[1..], lo, before);
          var (c4, ok4) := EnterAll(o, sh, c3, slots[1..], lo);
          RestTold(sh, before, c, slots, c3, c4, ok4);
        }
      }
    }
  }

  /** The node in the first slot's state. */
  lemma {:induction false} KidsTold(o: Oracle, sh: Shape, c: Config, slots: seq<nat>, lo: nat, c2: Config,
                                    before: seq<nat>)
    requires Fits(sh, c) && Within(slots, lo, sh.count) && |before| == sh.count && AtStart(sh, before, c.state, slots)
    requires slots != [] && Fits(sh, c2) && c2.state == c.state && c2.trace == c.trace + [Entered(slots[0], false)]
    ensures var (c3, ok) := EnterNode(o, sh, c2, sh.kids(slots[0], c.state[slots[0]]), slots[0] + 1);
            EntryTold(sh, before, c, [slots[0]], c3, ok) && Keeps(sh, before, c.state, c3.state)
    decreases sh.count - lo, |slots|, 0
  {
    var kids := sh.kids(slots[0], c.state[slots[0]]);
    var reset := c2.(state := Reset(sh, c2.state, kids));
    ResetAtStart(sh, before, c2.state, kids);
    EnterAllTold(o, sh, reset, kids, slots[0] + 1, before);
    EnterAllStays(o, sh, reset, kids, slots[0] + 1, before);
    var (c3, ok) := EnterNode(o, sh, c2, kids, slots[0] + 1);
    FirstTold(sh, before, c, slots, c2, reset, c3, ok);
  }

  /** The first slot and what is nested in it. */
  lemma FirstTold(sh: Shape, before: seq<nat>, c: Config, slots: seq<nat>, c2: Config, reset: Config, c3: Config,
                  ok: bool)
    requires slots != [] && Within(slots, 0, sh.count) && |c.state| == |before| == sh.count
    requires AtStart(sh, before, c.state, slots) && c2.state == c.state &&
             c2.trace == c.trace + [Entered(slots[0], false)]
    requires reset.trace == c2.trace && |reset.state| == |c.state|
    requires forall d: nat :: d < sh.count && reset.state[d] != c.state[d] ==> d in sh.kids(slots[0], c.state[slots[0]])
    requires Keeps(sh, before, c.state, reset.state) && Keeps(sh, before, reset.state, c3.state)
    requires EntryTold(sh, before, reset, sh.kids(slots[0], c.state[slots[0]]), c3, ok)
    ensures EntryTold(sh, before, c, [slots[0]], c3, ok)
  {
    var s := slots[0];
    var own, nested := [Entered(s, false)], Since(reset, c3);
    assert Since(c, c3) == own + nested;
    assert c3.state[s] == c.state[s] == StartState(sh, before, s);
    assert AllStarted(sh, before, c3.state, own);
    forall d: nat | d < |before| && c3.state[d] != c.state[d]
      ensures InEnteredNode(sh, c3.state, own + nested, d)
    {
      if reset.state[d] != c.state[d] {
        assert own[0].slot == s;
        assert InEnteredNode(sh, c3.state, own, d);
      }
      InEitherNode(sh, c3.state, own, nested, d);
    }
    if ok {
      OwnWhole(sh, c3.state, s, nested);
    }
  }

  lemma OwnWhole(sh: Shape, after: seq<nat>, s: nat, nested: seq<Note>)
    requires s < |after| && AllNoted(sh.kids(s, after[s]), nested) && Whole(sh, after, nested)
    ensures Whole(sh, after, [Entered(s, false)] + nested) && AllNoted([s], [Entered(s, false)] + nested)
  {
    var all := [Entered(s, false)] + nested;
    assert all[0].slot == s;
    forall i, k | 0 <= i < |all| && all[i].slot < |after| && k in sh.kids(all[i].slot, after[all[i].slot])
      ensures Noted(all, k)
    {
      NotedInBoth([Entered(s, false)], nested, k);
      if i > 0 {
        assert all[i] == nested[i - 1] && k in sh.kids(nested[i - 1].slot, after[nested[i - 1].slot]);
      } else {
        var kids := sh.kids(s, after[s]);
        var j :| 0 <= j < |kids| && kids[j] == k;
        assert Noted(nested, kids[j]);
      }
    }
  }

  /** The other slots after it. */
  lemma RestTold(sh: Shape, before: seq<nat>, c: Config, slots: seq<nat>, c3: Config, c4: Config, ok: bool)
    requires slots != [] && |before| == sh.count && Within(slots, 0, sh.count)
    requires EntryTold(sh, before, c, [slots[0]], c3, true) && EntryTold(sh, before, c3, slots[1..], c4, ok)
    requires Keeps(sh, before, c3.state, c4.state)
    ensures EntryTold(sh, before, c, slots, c4, ok)
  {
    var first, rest := Since(c, c3), Since(c3, c4);
    assert Since(c, c4) == first + rest;
    StartedStays(sh, before, c3.state, c4.state, first);
    forall d: nat | d < |before| && c4.state[d] != c.state[d]
      ensures InEnteredNode(sh, c4.state, first + rest, d)
    {
      InEitherNode(sh, c4.state, first, rest, d);
    }
    if ok {
      WholeTogether(sh, c4.state, first, rest);
      forall i | 0 <= i < |slots|
        ensures Noted(first + rest, slots[i])
      {
        NotedInBoth(first, rest, slots[i]);
        if i > 0 {
          assert slots[1..][i - 1] == slots[i];
          assert Noted(rest, slots[1..][i - 1]);
        } else {
          assert Noted(first, [slots[0]][0]);
        }
      }
    }
  }

  /** Entering a node, however far it gets: every slot that is entered starts in its
      initial state, or where it was left if it has history; a slot that ends up
      elsewhere than it was belongs to the node or to the node in the state of a slot
      that was entered; and if the entry completes, it entered the whole of them. */
  lemma EnteredStart(o: Oracle, sh: Shape, c: Config, slots: seq<nat>, lo: nat)
    requires Fits(sh, c) && Within(slots, lo, sh.count)
    ensures var (c', ok) := EnterNode(o, sh, c, slots, lo);
            && c.trace <= c'.trace && Started(sh, c.state, c'.state, slots, Since(c, c'))
            && (ok ==> AllNoted(slots, Since(c, c')) && Whole(sh, c'.state, Since(c, c')))
  {
    var reset := c.(state := Reset(sh, c.state, slots));
    ResetAtStart(sh, c.state, c.state, slots);
    EnterAllTold(o, sh, reset, slots, lo, c.state);
    EnterAllStays(o, sh, reset, slots, lo, c.state);
    var (c', ok) := EnterNode(o, sh, c, slots, lo);
    assert Since(c, c') == Since(reset, c');
  }

  // ---- How far a row gets ------------------------------------------------------------------------------------

  /** The callbacks numbered from `lo` on, `n` of them, all succeed. */
  ghost predicate AllPass(o: Oracle, lo: nat, n: nat) {
    forall k: nat :: lo <= k < lo + n ==> o(k)
  }

  /** Callbacks run one after the other up to the first that fails. */
  lemma {:induction false} CallbacksExactly(o: Oracle, c: Config, n: nat)
    ensures var (c', ok) := Callbacks(o, c, n);
            && (ok <==> AllPass(o, c.clock, n))
            && (ok ==> c' == c.(clock := c.clock + n))
            && (!ok ==> c' == c.(clock := c'.clock) && c.clock < c'.clock <= c.clock + n && !o(c'.clock - 1)
                        && AllPass(o, c.clock, c'.clock - 1 - c.clock))
    decreases n
  {
    if n > 0 && o(c.clock) {
      CallbacksExactly(o, c.(clock := c.clock + 1), n - 1);
    }
  }

  /** The exits of a row whose token is set run nothing; those of a row out of a plain
      state, or to a composite one, are its own exit hook, and are noted once it has succeeded. */
  lemma OwnExitsExactly(o: Oracle, sh: Shape, c: Config, row: Row)
    requires Fits(sh, c) && row.slot < sh.count
    ensures var (c1, ok) := RowExits(o, sh, c, row); var s := row.slot;
            var n := sh.exitActions(s, c.state[s]);
            if c.skip[s] then ok && c1 == c.(skip := c.skip[s := false])
            else if IsComposite(sh, s, c.state[s]) && !IsComposite(sh, s, row.target) then true
            else (ok <==> AllPass(o, c.clock, n))
                 && (ok ==> c1 == c.(clock := c.clock + n, trace := c.trace + [Exited(s)]))
                 && (!ok ==> c1 == c.(clock := c1.clock))
  {
    CallbacksExactly(o, c, sh.exitActions(row.slot, c.state[row.slot]));
  }

  /** Out of a composite state into a plain one, the nested exits come first: the own
      hook runs only once they all completed, and the row's exits complete with it. */
  lemma NestedExitsFirst(o: Oracle, sh: Shape, c: Config, row: Row)
    requires Fits(sh, c) && row.slot < sh.count && !c.skip[row.slot]
    requires IsComposite(sh, row.slot, c.state[row.slot]) && !IsComposite(sh, row.slot, row.target)
    ensures var s := row.slot;
            var (c1, ok) := RowExits(o, sh, c, row);
            var (n1, nested) := ExitAll(o, sh, c, sh.kids(s, c.state[s]), s + 1);
            var n := sh.exitActions(s, c.state[s]);
            && (ok <==> nested && AllPass(o, n1.clock, n))
            && (ok ==> c1 == n1.(clock := n1.clock + n, trace := n1.trace + [Exited(s)]))
            && (!nested ==> c1 == n1) && (nested && !ok ==> c1 == n1.(clock := c1.clock))
  {
    var s := row.slot;
    CallbacksExactly(o, ExitAll(o, sh, c, sh.kids(s, c.state[s]), s + 1).0, sh.exitActions(s, c.state[s]));
  }

  /** The phases of a row that is not internal: exits, actions, replacement, own entry
      hook, nested entry. It stops where something fails. Until its actions have
      succeeded no state changes; once its exits have completed its token is set until
      the state is replaced; and the nested entry begins only after the own hook. */
  ghost predicate InPhases(o: Oracle, sh: Shape, c: Config, row: Row, c': Config, ok: bool)
    requires Fits(sh, c) && row.slot < sh.count && Fits(sh, c')
  {
    var s := row.slot;
    var q := c.state[s];
    var (c1, exited) := RowExits(o, sh, c, row);
    var entry := sh.entryActions(s, row.target);
    if !exited then !ok && c' == c1 && c'.state == c.state
    else if !AllPass(o, c1.clock, row.actions) then
      !ok && c'.state == c.state && c'.skip == c1.skip[s := true] && c'.trace == c1.trace
    else
      var arrived := Config(c.state[s := row.target], c1.skip[s := false], c1.clock + row.actions,
                            c1.trace + [Entered(s, true)]);
      if !AllPass(o, arrived.clock, entry) then !ok && c' == arrived.(clock := c'.clock)
      else if IsComposite(sh, s, row.target) && !IsComposite(sh, s, q) then
        (c', ok) == EnterNode(o, sh, arrived.(clock := arrived.clock + entry), sh.kids(s, row.target), s + 1)
      else ok && c' == arrived.(clock := arrived.clock + entry)
  }

  lemma RowInPhases(o: Oracle, sh: Shape, c: Config, row: Row)
    requires Fits(sh, c) && row.slot < sh.count
    ensures var (c', ok) := Run(o, sh, c, row);
            if row.internal
            then (ok <==> AllPass(o, c.clock, row.actions)) && c' == c.(clock := c'.clock)
            else InPhases(o, sh, c, row, c', ok)
  {
    if row.internal {
      CallbacksExactly(o, c, row.actions);
    } else {
      MoveInPhases(o, sh, c, row);
    }
  }

  lemma MoveInPhases(o: Oracle, sh: Shape, c: Config, row: Row)
    requires Fits(sh, c) && row.slot < sh.count
    ensures InPhases(o, sh, c, row, Move(o, sh, c, row).0, Move(o, sh, c, row).1)
  {
    var s := row.slot;
    var (c1, exited) := RowExits(o, sh, c, row);
    var left := c1.(skip := c1.skip[s := true]);
    CallbacksExactly(o, left, row.actions);
    assert left.skip[s := false] == c1.skip[s := false];
    var arrived := Config(c.state[s := row.target], c1.skip[s := false], c1.clock + row.actions,
                          c1.trace + [Entered(s, true)]);
    CallbacksExactly(o, arrived, sh.entryActions(s, row.target));
  }

  // ---- The order of walks and entries -----------------------------------------------------------------------

  /** One slot of an exit walk: nothing if its token is set; else what is nested in its
      state, then its own exit hook, and then its exit is noted and its token set. */
  ghost predicate SlotExits(o: Oracle, sh: Shape, c: Config, s: nat, c': Config, ok: bool)
    requires Fits(sh, c) && s < sh.count
  {
    var (nested, done) := ExitAll(o, sh, c, sh.kids(s, c.state[s]), s + 1);
    var n := sh.exitActions(s, c.state[s]);
    if c.skip[s] then ok && c' == c
    else if !done then !ok && c' == nested
    else if !AllPass(o, nested.clock, n) then !ok && c' == nested.(clock := c'.clock)
    else ok && c' == Config(c.state, nested.skip[s := true], nested.clock + n, nested.trace + [Exited(s)])
  }

  /** One slot of an entry: its token is cleared and its entry noted, its own entry hook
      runs, and then the node in its state is entered. */
  ghost predicate SlotEnters(o: Oracle, sh: Shape, c: Config, s: nat, c': Config, ok: bool)
    requires Fits(sh, c) && s < sh.count
  {
    var entered := c.(skip := c.skip[s := false], trace := c.trace + [Entered(s, false)]);
    var n := sh.entryActions(s, c.state[s]);
    if !AllPass(o, c.clock, n) then !ok && c' == entered.(clock := c'.clock)
    else (c', ok) == EnterNode(o, sh, entered.(clock := c.clock + n), sh.kids(s, c.state[s]), s + 1)
  }

  /** Slot `slots[k]` finds `cs[k]` and leaves `cs[k + 1]`, in order; the walk ends with
      the first that fails, or with the last. */
  ghost predicate ExitsInOrder(o: Oracle, sh: Shape, slots: seq<nat>, cs: seq<Config>, ok: bool) {
    && 0 < |cs| <= |slots| + 1 && (if ok then |cs| == |slots| + 1 else |cs| > 1)
    && forall k {:trigger slots[k]} :: 0 <= k < |cs| - 1 ==>
         Fits(sh, cs[k]) && slots[k] < sh.count && SlotExits(o, sh, cs[k], slots[k], cs[k + 1], ok || k < |cs| - 2)
  }

  ghost predicate EntersInOrder(o: Oracle, sh: Shape, slots: seq<nat>, cs: seq<Config>, ok: bool) {
    && 0 < |cs| <= |slots| + 1 && (if ok then |cs| == |slots| + 1 else |cs| > 1)
    && forall k {:trigger slots[k]} :: 0 <= k < |cs| - 1 ==>
         Fits(sh, cs[k]) && slots[k] < sh.count && SlotEnters(o, sh, cs[k], slots[k], cs[k + 1], ok || k < |cs| - 2)
  }

  /** An exit walk takes the slots of a node in order, each as `SlotExits` says. */
  lemma {:induction false} WalkInOrder(o: Oracle, sh: Shape, c: Config, slots: seq<nat>,
                                       lo: nat) returns (cs: seq<Config>)
    requires Fits(sh, c) && Within(slots, lo, sh.count)
    ensures var (c', ok) := ExitAll(o, sh, c, slots, lo);
            ExitsInOrder(o, sh, slots, cs, ok) && cs[0] == c && cs[|cs| - 1] == c'
    decreases |slots|
  {
    if slots == [] {
      cs := [c];
    } else {
      var s := slots[0];
      var (c1, ok) := ExitSlot(o, sh, c, s);
      CallbacksExactly(o, ExitAll(o, sh, c, sh.kids(s, c.state[s]), s + 1).0, sh.exitActions(s, c.state[s]));
      assert SlotExits(o, sh, c, s, c1, ok);
      if !ok {
        cs := [c, c1];
      } else {
        var rest := WalkInOrder(o, sh, c1, slots[1..], lo);
        ExitInFront(o, sh, slots, c, rest, ExitAll(o, sh, c, slots, lo).1);
        cs := [c] + rest;
      }
    }
  }

  lemma ExitInFront(o: Oracle, sh: Shape, slots: seq<nat>, c: Config, rest: seq<Config>, ok: bool)
    requires slots != [] && ExitsInOrder(o, sh, slots[1..], rest, ok)
    requires Fits(sh, c) && slots[0] < sh.count && SlotExits(o, sh, c, slots[0], rest[0], true)
    ensures ExitsInOrder(o, sh, slots, [c] + rest, ok)
  {
    var cs := [c] + rest;
    forall k | 0 < k < |cs| - 1
      ensures Fits(sh, cs[k]) && slots[k] < sh.count && SlotExits(o, sh, cs[k], slots[k], cs[k + 1], ok || k < |cs| - 2)
    {
      assert slots[1..][k - 1] == slots[k] && rest[k - 1] == cs[k] && rest[k] == cs[k + 1];
    }
  }

  /** An entry takes the slots of a node in order, each as `SlotEnters` says. */
  lemma {:induction false} EntryInOrder(o: Oracle, sh: Shape, c: Config, slots: seq<nat>,
                                        lo: nat) returns (cs: seq<Config>)
    requires Fits(sh, c) && Within(slots, lo, sh.count)
    ensures var (c', ok) := EnterAll(o, sh, c, slots, lo);
            EntersInOrder(o, sh, slots, cs, ok) && cs[0] == c && cs[|cs| - 1] == c'
    decreases |slots|
  {
    if slots == [] {
      cs := [c];
    } else {
      var s := slots[0];
      var (c1, ok) := FirstEnters(o, sh, c, s);
      if !ok {
        cs := [c, c1];
      } else {
        var rest := EntryInOrder(o, sh, c1, slots[1..], lo);
        EntryInFront(o, sh, slots, c, rest, EnterAll(o, sh, c, slots, lo).1);
        cs := [c] + rest;
      }
    }
  }

  /** What the first slot of an entry comes to. */
  function FirstEnters(o: Oracle, sh: Shape, c: Config, s: nat): (r: (Config, bool))
    requires Fits(sh, c) && s < sh.count
    ensures Fits(sh, r.0) && SlotEnters(o, sh, c, s, r.0, r.1)
  {
    var entered := c.(skip := c.skip[s := false], trace := c.trace + [Entered(s, false)]);
    CallbacksExactly(o, entered, sh.entryActions(s, c.state[s]));
    var (c2, ok) := Callbacks(o, entered, sh.entryActions(s, c.state[s]));
    if !ok then (c2, false) else EnterNode(o, sh, c2, sh.kids(s, c.state[s]), s + 1)
  }

  lemma EntryInFront(o: Oracle, sh: Shape, slots: seq<nat>, c: Config, rest: seq<Config>, ok: bool)
    requires slots != [] && EntersInOrder(o, sh, slots[1..], rest, ok)
    requires Fits(sh, c) && slots[0] < sh.count && SlotEnters(o, sh, c, slots[0], rest[0], true)
    ensures EntersInOrder(o, sh, slots, [c] + rest, ok)
  {
    var cs := [c] + rest;
    forall k | 0 < k < |cs| - 1
      ensures Fits(sh, cs[k]) && slots[k] < sh.count &&
              SlotEnters(o, sh, cs[k], slots[k], cs[k + 1], ok || k < |cs| - 2)
    {
      assert slots[1..][k - 1] == slots[k] && rest[k - 1] == cs[k] && rest[k] == cs[k + 1];
    }
  }
}
