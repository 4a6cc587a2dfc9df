/** Exit walks that fail and are repeated (macros/src/composite_codegen.rs,
    `tree_exit_node`; macros/src/orthogonal_codegen.rs, `exit_current`). */
module ExitWalk {
  import opened Lifecycle

  /** The oracle under which no callback fails. */
  const NO_FAULTS: Oracle := (_: nat) => true

  /** The walk that no fault interrupts. */
  function Uninterrupted(sh: Shape, c: Config, slots: seq<nat>, lo: nat): (r: Config)
    requires Fits(sh, c) && Within(slots, lo, sh.count)
    ensures Fits(sh, r)
  {
    ExitAll(NO_FAULTS, sh, c, slots, lo).0
  }

  /** Equal up to the number of callbacks made. */
  predicate Same(c: Config, d: Config) {
    c.state == d.state && c.skip == d.skip && c.trace == d.trace
  }

  /** A walk only sets tokens, never below `lo`, and sets those of its slots if it succeeds. */
  ghost predicate Grows(c: Config, d: Config, lo: nat) {
    && |d.skip| == |c.skip|
    && (forall t: nat :: t < |c.skip| && c.skip[t] ==> d.skip[t])
    && (forall t: nat :: t < |c.skip| && t < lo ==> d.skip[t] == c.skip[t])
  }

  lemma {:induction false} WalkGrows(o: Oracle, sh: Shape, c: Config, slots: seq<nat>, lo: nat)
    requires Fits(sh, c) && Within(slots, lo, sh.count)
    ensures var (d, ok) := ExitAll(o, sh, c, slots, lo);
            Grows(c, d, lo) && (ok ==> forall i :: 0 <= i < |slots| ==> d.skip[slots[i]])
    decreases sh.count - lo, |slots|
  {
    if slots != [] {
      SlotGrows(o, sh, c, slots[0]);
      var (c1, ok) := ExitSlot(o, sh, c, slots[0]);
      if ok {
        WalkGrows(o, sh, c1, slots[1..], lo);
        assert forall i :: 0 < i < |slots| ==> slots[i] == slots[1..][i - 1];
      }
    }
  }

  lemma {:induction false} SlotGrows(o: Oracle, sh: Shape, c: Config, s: nat)
    requires Fits(sh, c) && s < sh.count
    ensures var (d, ok) := ExitSlot(o, sh, c, s);
            Grows(c, d, s) && (ok ==> d.skip[s]) && (!ok ==> !d.skip[s])
    decreases sh.count - s, 0
  {
    if !c.skip[s] {
      WalkGrows(o, sh, c, sh.kids(s, c.state[s]), s + 1);
    }
  }

  lemma {:induction false} NoFaultsNoFailure(c: Config, n: nat)
    ensures Callbacks(NO_FAULTS, c, n).1
    decreases n
  {
    if n > 0 {
      NoFaultsNoFailure(c.(clock := c.clock + 1), n - 1);
    }
  }

  /** The uninterrupted walk succeeds and does not depend on the clock. */
  lemma {:induction false} UninterruptedSame(sh: Shape, c: Config, d: Config, slots: seq<nat>, lo: nat)
    requires Fits(sh, c) && Fits(sh, d) && Within(slots, lo, sh.count) && Same(c, d)
    ensures Same(Uninterrupted(sh, c, slots, lo), Uninterrupted(sh, d, slots, lo))
    ensures ExitAll(NO_FAULTS, sh, c, slots, lo).1
    decreases sh.count - lo, |slots|
  {
    if slots != [] {
      SlotSame(sh, c, d, slots[0]);
      SlotSame(sh, d, c, slots[0]);
      UninterruptedSame(sh, ExitSlot(NO_FAULTS, sh, c, slots[0]).0, ExitSlot(NO_FAULTS, sh, d, slots[0]).0,
                        slots[1..], lo);
    }
  }

  lemma {:induction false} SlotSame(sh: Shape, c: Config, d: Config, s: nat)
    requires Fits(sh, c) && Fits(sh, d) && s < sh.count && Same(c, d)
    ensures Same(ExitSlot(NO_FAULTS, sh, c, s).0, ExitSlot(NO_FAULTS, sh, d, s).0)
    ensures ExitSlot(NO_FAULTS, sh, c, s).1
    decreases sh.count - s, 0
  {
    if !c.skip[s] {
      var kids := sh.kids(s, c.state[s]);
      UninterruptedSame(sh, c, d, kids, s + 1);
      UninterruptedSame(sh, d, c, kids, s + 1);
      NoFaultsNoFailure(Uninterrupted(sh, c, kids, s + 1), sh.exitActions(s, c.state[s]));
      NoFaultsNoFailure(Uninterrupted(sh, d, kids, s + 1), sh.exitActions(s, c.state[s]));
    }
  }

  /** A walk that failed, resumed without faults, ends like the walk without
      faults; a walk that succeeded already is that walk. */
  lemma {:induction false} Resume(o: Oracle, sh: Shape, c: Config, slots: seq<nat>, lo: nat)
    requires Fits(sh, c) && Within(slots, lo, sh.count)
    ensures var (d, ok) := ExitAll(o, sh, c, slots, lo);
            && Same(Uninterrupted(sh, d, slots, lo), Uninterrupted(sh, c, slots, lo))
            && (ok ==> Same(d, Uninterrupted(sh, c, slots, lo)))
    decreases sh.count - lo, |slots|
  {
    if slots != [] {
      var s := slots[0];
      var (c1, ok) := ExitSlot(o, sh, c, s);
      var full := ExitSlot(NO_FAULTS, sh, c, s).0;
      ResumeSlot(o, sh, c, s);
      SlotSame(sh, c, c, s);
      if ok {
        SlotGrows(o, sh, c, s);
        WalkGrows(o, sh, c1, slots[1..], lo);
        Resume(o, sh, c1, slots[1..], lo);
        UninterruptedSame(sh, c1, full, slots[1..], lo);
        var d := ExitAll(o, sh, c, slots, lo).0;
        assert ExitSlot(NO_FAULTS, sh, d, s) == (d, true);
        assert ExitAll(NO_FAULTS, sh, d, slots, lo) == ExitAll(NO_FAULTS, sh, d, slots[1..], lo);
      } else {
        SlotSame(sh, c1, c1, s);
        UninterruptedSame(sh, ExitSlot(NO_FAULTS, sh, c1, s).0, full, slots[1..], lo);
      }
    }
  }

  lemma {:induction false} ResumeSlot(o: Oracle, sh: Shape, c: Config, s: nat)
    requires Fits(sh, c) && s < sh.count
    ensures var (d, ok) := ExitSlot(o, sh, c, s);
            && Same(ExitSlot(NO_FAULTS, sh, d, s).0, ExitSlot(NO_FAULTS, sh, c, s).0)
            && (ok ==> Same(d, ExitSlot(NO_FAULTS, sh, c, s).0))
    decreases sh.count - s, 0
  {
    if !c.skip[s] {
      var kids := sh.kids(s, c.state[s]);
      var n := sh.exitActions(s, c.state[s]);
      var (c1, ok) := ExitAll(o, sh, c, kids, s + 1);
      var (c2, ok2) := Callbacks(o, c1, n);
      Resume(o, sh, c, kids, s + 1);
      WalkGrows(o, sh, c, kids, s + 1);
      UninterruptedSame(sh, c, c, kids, s + 1);
      UninterruptedSame(sh, c1, c2, kids, s + 1);
      UninterruptedSame(sh, c2, c1, kids, s + 1);
      NoFaultsNoFailure(Uninterrupted(sh, c, kids, s + 1), n);
      NoFaultsNoFailure(Uninterrupted(sh, c1, kids, s + 1), n);
      NoFaultsNoFailure(Uninterrupted(sh, c2, kids, s + 1), n);
    }
  }

  /** Recovery repeats the walk, at most `n` times, until it succeeds. */
  function Retry(o: Oracle, sh: Shape, c: Config, slots: seq<nat>, lo: nat, n: nat): (r: (Config, bool))
    requires Fits(sh, c) && Within(slots, lo, sh.count)
    ensures Fits(sh, r.0)
    decreases n
  {
    var (d, ok) := ExitAll(o, sh, c, slots, lo);
    if ok || n == 0 then (d, ok) else Retry(o, sh, d, slots, lo, n - 1)
  }

  /** However many times a failed exit hook makes recovery repeat the walk, the
      completed exits are those of one walk without faults: the same slots, once
      each, in the same order. */
  lemma {:induction false} RepeatedWalkIsOneWalk(o: Oracle, sh: Shape, c: Config, slots: seq<nat>, lo: nat, n: nat)
    requires Fits(sh, c) && Within(slots, lo, sh.count)
    ensures var (d, ok) := Retry(o, sh, c, slots, lo, n);
            && Same(Uninterrupted(sh, d, slots, lo), Uninterrupted(sh, c, slots, lo))
            && (ok ==> Same(d, Uninterrupted(sh, c, slots, lo)))
    decreases n
  {
    Resume(o, sh, c, slots, lo);
    var (d, ok) := ExitAll(o, sh, c, slots, lo);
    if !ok && n > 0 {
      RepeatedWalkIsOneWalk(o, sh, d, slots, lo, n - 1);
    }
  }

  // ---- Trees of scalar nodes ---------------------------------------------------------------

  /** Every node has one slot. */
  ghost predicate Scalar(sh: Shape) {
    forall s: nat, q: nat :: s < sh.count ==> |sh.kids(s, q)| <= 1
  }

  /** The slots of the active path from `s` down to its leaf. */
  function Path(sh: Shape, state: seq<nat>, s: nat): (r: seq<nat>)
    requires WellFormed(sh) && |state| == sh.count && s < sh.count
    ensures r != [] && r[0] == s && Within(r, s, sh.count)
    decreases sh.count - s
  {
    var kids := sh.kids(s, state[s]);
    if kids == [] then [s] else [s] + Path(sh, state, kids[0])
  }

  function Entries(slots: seq<nat>): (r: seq<Note>)
    ensures |r| == |slots|
  {
    seq(|slots|, i requires 0 <= i < |slots| => Entered(slots[i], false))
  }

  /** The exits of `slots`, last slot first. */
  function ExitsReversed(slots: seq<nat>): (r: seq<Note>)
    ensures |r| == |slots|
  {
    seq(|slots|, i requires 0 <= i < |slots| => Exited(slots[|slots| - 1 - i]))
  }

  /** Without faults the walk exits the active path from leaf to root. */
  lemma {:induction false} WalkIsLeafToRoot(sh: Shape, c: Config, s: nat)
    requires Fits(sh, c) && Scalar(sh) && s < sh.count
    requires forall i :: 0 <= i < |Path(sh, c.state, s)| ==> !c.skip[Path(sh, c.state, s)[i]]
    ensures ExitSlot(NO_FAULTS, sh, c, s).0.trace == c.trace + ExitsReversed(Path(sh, c.state, s))
    decreases sh.count - s
  {
    var kids := sh.kids(s, c.state[s]);
    var path := Path(sh, c.state, s);
    UninterruptedSame(sh, c, c, kids, s + 1);
    var c1 := Uninterrupted(sh, c, kids, s + 1);
    NoFaultsNoFailure(c1, sh.exitActions(s, c.state[s]));
    if kids == [] {
      assert ExitsReversed(path) == [Exited(s)];
    } else {
      var k := kids[0];
      var below := Path(sh, c.state, k);
      assert forall i :: 0 <= i < |below| ==> below[i] == path[i + 1];
      WalkIsLeafToRoot(sh, c, k);
      assert kids == [k];
      SlotSame(sh, c, c, k);
      assert c1.trace == c.trace + ExitsReversed(below) by {
        assert kids[1..] == [];
      }
      assert ExitsReversed(path) == ExitsReversed(below) + [Exited(s)];
      assert c1.trace + [Exited(s)] == c.trace + (ExitsReversed(below) + [Exited(s)]);
    }
  }

  /** Entering a scalar node, written out; the bound `lo` only serves termination. */
  lemma EnterOne(o: Oracle, sh: Shape, c: Config, s: nat, lo: nat)
    requires Fits(sh, c) && lo <= s < sh.count
    ensures var c0 := c.(state := Reset(sh, c.state, [s]));
            var q := c0.state[s];
            var (c1, ok) := Callbacks(o, c0.(skip := c0.skip[s := false], trace := c0.trace + [Entered(s, false)]),
                                      sh.entryActions(s, q));
            EnterNode(o, sh, c, [s], lo) == if !ok then (c1, false) else EnterNode(o, sh, c1, sh.kids(s, q), s + 1)
  {
    var c0 := c.(state := Reset(sh, c.state, [s]));
    var q := c0.state[s];
    var c1 := Callbacks(o, c0.(skip := c0.skip[s := false], trace := c0.trace + [Entered(s, false)]),
                        sh.entryActions(s, q)).0;
    var (c2, ok2) := EnterNode(o, sh, c1, sh.kids(s, q), s + 1);
    assert [s][1..] == [];
    assert EnterAll(o, sh, c2, [s][1..], lo) == (c2, true);
  }

  /** The path through a composite state, and its entries, begin one slot higher. */
  lemma OneStepLonger(sh: Shape, state: seq<nat>, s: nat, k: nat, trace: seq<Note>)
    requires WellFormed(sh) && |state| == sh.count && s < sh.count && sh.kids(s, state[s]) == [k]
    ensures k < sh.count && Path(sh, state, s) == [s] + Path(sh, state, k)
    ensures (trace + [Entered(s, false)]) + Entries(Path(sh, state, k)) == trace + Entries(Path(sh, state, s))
  {
    assert Within(sh.kids(s, state[s]), s + 1, sh.count) && sh.kids(s, state[s])[0] == k;
    var below := Path(sh, state, k);
    assert Entries([s] + below) == [Entered(s, false)] + Entries(below);
    assert (trace + [Entered(s, false)]) + Entries(below) == trace + ([Entered(s, false)] + Entries(below));
  }

  /** An entry that succeeds enters the path it leads to, from root to leaf, and clears its tokens. */
  lemma {:induction false} EntryIsRootToLeaf(o: Oracle, sh: Shape, c: Config, s: nat)
    requires Fits(sh, c) && Scalar(sh) && s < sh.count
    requires EnterNode(o, sh, c, [s], s).1
    ensures var d := EnterNode(o, sh, c, [s], s).0; var path := Path(sh, d.state, s);
            && d.trace == c.trace + Entries(path)
            && (forall i :: 0 <= i < |path| ==> !d.skip[path[i]])
            && (forall t: nat :: t < s ==> d.skip[t] == c.skip[t] && d.state[t] == c.state[t])
    decreases sh.count - s
  {
    EnterOne(o, sh, c, s, s);
    var c0 := c.(state := Reset(sh, c.state, [s]));
    var q := c0.state[s];
    var (c1, ok) := Callbacks(o, c0.(skip := c0.skip[s := false], trace := c0.trace + [Entered(s, false)]),
                              sh.entryActions(s, q));
    var kids := sh.kids(s, q);
    var d := EnterNode(o, sh, c, [s], s).0;
    assert d == EnterNode(o, sh, c1, kids, s + 1).0;
    if kids == [] {
      assert Entries([s]) == [Entered(s, false)];
    } else {
      var k := kids[0];
      assert kids == [k];
      EnterOne(o, sh, c1, k, s + 1);
      EnterOne(o, sh, c1, k, k);
      EntryIsRootToLeaf(o, sh, c1, k);
      assert d.state[s] == q && !d.skip[s];
      OneStepLonger(sh, d.state, s, k, c.trace);
    }
  }

  /** In a scalar tree of any depth, leaving what was just entered completes the
      exits of the entered path once each, in the reverse order of the entries,
      however often failing hooks make recovery repeat the walk. */
  lemma ExitsReverseEntries(o: Oracle, o': Oracle, sh: Shape, c: Config, s: nat, n: nat)
    requires Fits(sh, c) && Scalar(sh) && s < sh.count
    requires EnterNode(o, sh, c, [s], s).1
    requires Retry(o', sh, EnterNode(o, sh, c, [s], s).0, [s], s, n).1
    ensures var entered := EnterNode(o, sh, c, [s], s).0;
            var left := Retry(o', sh, entered, [s], s, n).0;
            var path := Path(sh, entered.state, s);
            && entered.trace == c.trace + Entries(path)
            && left.trace == entered.trace + ExitsReversed(path)
  {
    var entered := EnterNode(o, sh, c, [s], s).0;
    EntryIsRootToLeaf(o, sh, c, s);
    RepeatedWalkIsOneWalk(o', sh, entered, [s], s, n);
    WalkIsLeafToRoot(sh, entered, s);
    SlotSame(sh, entered, entered, s);
    var alone := ExitSlot(NO_FAULTS, sh, entered, s).0;
    assert [s][1..] == [];
    assert ExitAll(NO_FAULTS, sh, alone, [s][1..], s) == (alone, true);
  }

  /** What a row's exits add to the trace: nothing if its slot's token says they
      ran before; the whole active path, leaf first, if it leaves a composite
      state for a plain one; and its own slot alone otherwise, so a row from one
      composite state to another leaves the nested slots without an exit. */
  lemma RowExitsPath(o: Oracle, sh: Shape, c: Config, row: Row)
    requires Fits(sh, c) && Scalar(sh) && row.slot < sh.count && RowExits(o, sh, c, row).1
    requires forall i :: 0 < i < |Path(sh, c.state, row.slot)| ==> !c.skip[Path(sh, c.state, row.slot)[i]]
    ensures var s := row.slot;
            RowExits(o, sh, c, row).0.trace ==
              if c.skip[s] then c.trace
              else if IsComposite(sh, s, c.state[s]) && !IsComposite(sh, s, row.target)
              then c.trace + ExitsReversed(Path(sh, c.state, s))
              else c.trace + [Exited(s)]
  {
    var s := row.slot;
    var kids := sh.kids(s, c.state[s]);
    if !c.skip[s] && kids != [] && !IsComposite(sh, s, row.target) {
      var k := kids[0];
      var below := Path(sh, c.state, k);
      assert kids == [k] && kids[1..] == [];
      assert forall i :: 0 <= i < |below| ==> below[i] == Path(sh, c.state, s)[i + 1];
      Resume(o, sh, c, kids, s + 1);
      WalkIsLeafToRoot(sh, c, k);
      SlotSame(sh, c, c, k);
      var alone := ExitSlot(NO_FAULTS, sh, c, k).0;
      assert ExitAll(NO_FAULTS, sh, alone, kids[1..], s + 1) == (alone, true);
      assert ExitsReversed(Path(sh, c.state, s)) == ExitsReversed(below) + [Exited(s)];
      assert c.trace + ExitsReversed(below) + [Exited(s)] == c.trace + (ExitsReversed(below) + [Exited(s)]);
    }
  }
}
