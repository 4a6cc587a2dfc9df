/** Exits of nested slots (macros/src/composite_codegen.rs, `exit_skip_place`,
    `transition_code`, `composite_lifecycle`): when every entry gets exactly one
    exit before the slot is entered again, and when it does not. */
module Reentry {
  import opened Prelude
  import opened Lifecycle
  import ExitWalk

  // ---- Owners ---------------------------------------------------------------------------

  /** The state of a slot that a nested slot belongs to. */
  datatype Place = Place(slot: nat, state: nat)

  type Owners = nat -> Option<Place>

  /** Every slot but those of the root has one place, and no node lists a slot twice. */
  ghost predicate TreeShaped(sh: Shape, own: Owners, roots: seq<nat>) {
    && WellFormed(sh)
    && (forall s: nat, q: nat, k: nat {:trigger k in sh.kids(s, q)} ::
          s < sh.count ==> (k in sh.kids(s, q) <==> k < sh.count && own(k) == Some(Place(s, q))))
    && (forall s: nat, q: nat :: s < sh.count ==> Distinct(sh.kids(s, q)))
    && (forall k: nat {:trigger own(k)} :: k < sh.count && own(k).Some? ==> own(k).value.slot < k)
    && (forall k: nat :: k in roots <==> k < sh.count && own(k).None?)
    && Distinct(roots)
  }

  /** `d` is nested in slot `p`, whatever the states. */
  predicate Inside(own: Owners, d: nat, p: nat) {
    match own(d)
    case None => false
    case Some(at) => at.slot < d && (at.slot == p || Inside(own, at.slot, p))
  }

  /** Every state on the way from `s` up to the root is the one `s` is nested in. */
  predicate Active(own: Owners, state: seq<nat>, s: nat) {
    match own(s)
    case None => true
    case Some(at) => at.slot < s && at.slot < |state| && state[at.slot] == at.state && Active(own, state, at.slot)
  }

  /** `d` is nested in the current state of `p`, or of a slot nested there. */
  predicate Under(own: Owners, state: seq<nat>, d: nat, p: nat) {
    match own(d)
    case None => false
    case Some(at) =>
      && at.slot < d && at.slot < |state| && state[at.slot] == at.state
      && (at.slot == p || Under(own, state, at.slot, p))
  }

  lemma {:induction false} UnderIsInside(own: Owners, state: seq<nat>, d: nat, p: nat)
    requires Under(own, state, d, p)
    ensures Inside(own, d, p) && p < d
    decreases d
  {
    if own(d).value.slot != p {
      UnderIsInside(own, state, own(d).value.slot, p);
    }
  }

  lemma {:induction false} InsideIsLater(own: Owners, d: nat, p: nat)
    requires Inside(own, d, p)
    ensures p < d
    decreases d
  {
    if own(d).value.slot != p {
      InsideIsLater(own, own(d).value.slot, p);
    }
  }

  /** What is active depends on the states of the enclosing slots alone. */
  lemma {:induction false} SameAbove(own: Owners, a: seq<nat>, b: seq<nat>, d: nat)
    requires |a| == |b| && forall p: nat :: p < |a| && Inside(own, d, p) ==> a[p] == b[p]
    ensures Active(own, a, d) == Active(own, b, d)
    ensures forall p: nat :: Under(own, a, d, p) == Under(own, b, d, p)
    decreases d
  {
    if own(d).Some? && own(d).value.slot < d {
      SameAbove(own, a, b, own(d).value.slot);
    }
  }

  /** Nested in something inactive is inactive. */
  lemma {:induction false} InsideInactive(own: Owners, state: seq<nat>, d: nat, p: nat)
    requires Inside(own, d, p) && !Active(own, state, p)
    ensures !Active(own, state, d)
    decreases d
  {
    if own(d).value.slot != p {
      InsideInactive(own, state, own(d).value.slot, p);
    }
  }

  /** What is under `s` is one of its current kids or under one of them. */
  lemma {:induction false} UnderKid(sh: Shape, own: Owners, roots: seq<nat>, state: seq<nat>, d: nat,
                                    s: nat) returns (k: nat)
    requires TreeShaped(sh, own, roots) && |state| == sh.count && d < sh.count && s < sh.count
    requires Under(own, state, d, s)
    ensures k in sh.kids(s, state[s]) && (d == k || Under(own, state, d, k))
    decreases d
  {
    if own(d).value.slot == s {
      k := d;
    } else {
      k := UnderKid(sh, own, roots, state, own(d).value.slot, s);
    }
  }

  /** Changing the state of `s` affects what is under `p` only through `s`. */
  lemma {:induction false} UnderChanged(own: Owners, state: seq<nat>, s: nat, q: nat, d: nat, p: nat)
    requires s < |state| && Under(own, state[s := q], d, p)
    ensures Under(own, state, d, p) || s == p || Under(own, state, s, p)
    decreases d
  {
    var at := own(d).value;
    if at.slot != p {
      UnderChanged(own, state, s, q, at.slot, p);
      if at.slot == s {
        UnderIsInside(own, state[s := q], s, p);
        forall a: nat | a < |state| && Inside(own, s, a)
          ensures state[s := q][a] == state[a]
        {
          InsideIsLater(own, s, a);
        }
        SameAbove(own, state[s := q], state, s);
      }
    }
  }

  lemma {:induction false} ActiveInside(own: Owners, state: seq<nat>, d: nat, p: nat)
    requires Active(own, state, d) && Inside(own, d, p)
    ensures Under(own, state, d, p)
    decreases d
  {
    if own(d).value.slot != p {
      ActiveInside(own, state, own(d).value.slot, p);
    }
  }

  /** What stops being active when `s` changes was under it. */
  lemma {:induction false} Deactivated(own: Owners, state: seq<nat>, s: nat, q: nat, d: nat)
    requires s < |state| && Active(own, state, d) && !Active(own, state[s := q], d)
    ensures Under(own, state, d, s)
    decreases d
  {
    var at := own(d).value;
    if at.slot != s {
      Deactivated(own, state, s, q, at.slot);
    }
  }

  // ---- Exactly one exit before each entry but the first -------------------------------------

  predicate EverEntered(trace: seq<Note>, s: nat) {
    exists i :: 0 <= i < |trace| && trace[i].Entered? && trace[i].slot == s
  }

  /** Every entry of a slot but its first has exactly one exit between it and the one before. */
  ghost predicate OneExitBetween(trace: seq<Note>) {
    forall i {:trigger trace[i]} :: 0 <= i < |trace| && trace[i].Entered? && EverEntered(trace[..i], trace[i].slot) ==>
      ExitsSince(trace[..i], trace[i].slot) == 1
  }

  lemma NoteBetween(trace: seq<Note>, note: Note)
    requires OneExitBetween(trace)
    requires note.Entered? && EverEntered(trace, note.slot) ==> ExitsSince(trace, note.slot) == 1
    ensures OneExitBetween(trace + [note])
    ensures forall s :: EverEntered(trace + [note], s) <==> EverEntered(trace, s) || (note.Entered? && note.slot == s)
  {
    var all := trace + [note];
    assert all[..|trace|] == trace;
    forall i {:trigger all[i]} | 0 <= i < |trace|
      ensures all[..i] == trace[..i] && all[i] == trace[i]
    {
    }
    forall s
      ensures EverEntered(all, s) <==> EverEntered(trace, s) || (note.Entered? && note.slot == s)
    {
      if EverEntered(trace, s) {
        var i :| 0 <= i < |trace| && trace[i].Entered? && trace[i].slot == s;
        assert all[i].Entered?;
      }
      if note.Entered? && note.slot == s {
        assert all[|trace|] == note;
      }
    }
  }

  /** A slot that may be entered: it has exited since its latest entry, or was never entered. */
  predicate Quiet(c: Config, s: nat)
    requires s < |c.skip|
  {
    c.skip[s] || !EverEntered(c.trace, s)
  }

  /** A set token covers everything under its slot. */
  ghost predicate Covered(sh: Shape, own: Owners, c: Config)
    requires |c.skip| == sh.count
  {
    forall p: nat, d: nat {:trigger Under(own, c.state, d, p)} ::
      p < sh.count && d < sh.count && c.skip[p] && Under(own, c.state, d, p) ==> Quiet(c, d)
  }

  /** No inactive slot is left without its exit. */
  ghost predicate NoneStranded(sh: Shape, own: Owners, c: Config)
    requires |c.skip| == sh.count
  {
    forall s: nat {:trigger Active(own, c.state, s)} :: s < sh.count && !Active(own, c.state, s) ==> Quiet(c, s)
  }

  ghost predicate Tidy(sh: Shape, own: Owners, c: Config) {
    && Fits(sh, c) && Sound(c) && OneExitBetween(c.trace)
    && NoneStranded(sh, own, c) && Covered(sh, own, c)
  }

  // ---- Exit walks -----------------------------------------------------------------------------

  /** Only tokens were set and exits noted: nothing becomes less quiet. */
  ghost predicate OnlyExits(c: Config, c': Config) {
    && c'.state == c.state && |c'.skip| == |c.skip|
    && (forall s: nat :: s < |c.skip| && c.skip[s] ==> c'.skip[s])
    && (forall s :: EverEntered(c'.trace, s) <==> EverEntered(c.trace, s))
  }

  /** The exit of slot `s` completes: its token is set, everything under it being quiet. */
  lemma OwnExitTidy(sh: Shape, own: Owners, c: Config, c': Config, s: nat)
    requires Tidy(sh, own, c) && s < sh.count && !c.skip[s]
    requires forall d: nat {:trigger Under(own, c.state, d, s)} :: d < sh.count && Under(own, c.state, d, s) ==>
             Quiet(c, d)
    requires c' == Config(c.state, c.skip[s := true], c'.clock, c.trace + [Exited(s)])
    ensures Tidy(sh, own, c') && OnlyExits(c, c')
  {
    OwnExitSound(c, c, s);
    NoteBetween(c.trace, Exited(s));
  }

  lemma {:induction false} ExitAllTidy(o: Oracle, sh: Shape, own: Owners, roots: seq<nat>, c: Config, slots: seq<nat>,
                                       lo: nat)
    requires Tidy(sh, own, c) && TreeShaped(sh, own, roots) && Within(slots, lo, sh.count)
    ensures var (d, ok) := ExitAll(o, sh, c, slots, lo); Tidy(sh, own, d) && OnlyExits(c, d)
    decreases sh.count - lo, |slots|
  {
    if slots != [] {
      ExitSlotTidy(o, sh, own, roots, c, slots[0]);
      var (c1, ok) := ExitSlot(o, sh, c, slots[0]);
      if ok {
        ExitAllTidy(o, sh, own, roots, c1, slots[1..], lo);
      }
    }
  }

  lemma {:induction false} ExitSlotTidy(o: Oracle, sh: Shape, own: Owners, roots: seq<nat>, c: Config, s: nat)
    requires Tidy(sh, own, c) && TreeShaped(sh, own, roots) && s < sh.count
    ensures var (d, ok) := ExitSlot(o, sh, c, s); Tidy(sh, own, d) && OnlyExits(c, d)
    decreases sh.count - s, 0
  {
    if !c.skip[s] {
      var kids := sh.kids(s, c.state[s]);
      ExitAllTidy(o, sh, own, roots, c, kids, s + 1);
      var (c1, ok) := ExitAll(o, sh, c, kids, s + 1);
      if ok {
        KidsExited(o, sh, own, roots, c, s);
        var (c2, ok2) := Callbacks(o, c1, sh.exitActions(s, c.state[s]));
        LaterIsTidy(sh, own, c1, c2);
        if ok2 {
          OwnExitTidy(sh, own, c2, ExitSlot(o, sh, c, s).0, s);
        }
      }
    }
  }

  lemma LaterIsTidy(sh: Shape, own: Owners, c: Config, c': Config)
    requires Tidy(sh, own, c) && c' == c.(clock := c'.clock)
    ensures Tidy(sh, own, c') && forall d: nat :: d < sh.count ==> Quiet(c', d) == Quiet(c, d)
  {
  }

  /** After the exit walk below `s`, its token is still unset and everything under it is quiet. */
  lemma KidsExited(o: Oracle, sh: Shape, own: Owners, roots: seq<nat>, c: Config, s: nat)
    requires Tidy(sh, own, c) && TreeShaped(sh, own, roots) && s < sh.count && !c.skip[s]
    requires ExitAll(o, sh, c, sh.kids(s, c.state[s]), s + 1).1
    requires Tidy(sh, own, ExitAll(o, sh, c, sh.kids(s, c.state[s]), s + 1).0)
    ensures var c1 := ExitAll(o, sh, c, sh.kids(s, c.state[s]), s + 1).0;
            && !c1.skip[s]
            && forall d: nat {:trigger Under(own, c1.state, d, s)} :: d < sh.count && Under(own, c1.state, d, s) ==>
               Quiet(c1, d)
  {
    var kids := sh.kids(s, c.state[s]);
    var c1 := ExitAll(o, sh, c, kids, s + 1).0;
    ExitWalk.WalkGrows(o, sh, c, kids, s + 1);
    forall d: nat | d < sh.count && Under(own, c1.state, d, s)
      ensures Quiet(c1, d)
    {
      var k := UnderKid(sh, own, roots, c1.state, d, s);
      assert c1.skip[k];
    }
  }

  // ---- Entries ------------------------------------------------------------------------------------

  /** `d` is not one of `slots` nor nested in one. */
  ghost predicate Elsewhere(own: Owners, slots: seq<nat>, d: nat) {
    forall i :: 0 <= i < |slots| ==> d != slots[i] && !Inside(own, d, slots[i])
  }

  ghost predicate Untouched(c: Config, c': Config, d: nat)
    requires d < |c.skip| == |c'.skip| == |c.state| == |c'.state|
  {
    c'.state[d] == c.state[d] && c'.skip[d] == c.skip[d] && (EverEntered(c'.trace, d) <==> EverEntered(c.trace, d))
  }

  /** Kids of one slot, or the root's: none is nested in another. */
  ghost predicate Siblings(own: Owners, slots: seq<nat>) {
    && Distinct(slots)
    && forall i, j :: 0 <= i < |slots| && 0 <= j < |slots| ==> own(slots[i]) == own(slots[j])
  }

  lemma {:induction false} SiblingsApart(own: Owners, a: nat, b: nat, d: nat)
    requires a != b && own(a) == own(b) && (own(b).Some? ==> own(b).value.slot < b && own(b).value.slot < a)
    requires d == a || Inside(own, d, a)
    ensures d != b && !Inside(own, d, b)
    decreases d
  {
    NotInSibling(own, a, b);
    NotInSibling(own, b, a);
    if d != a {
      SiblingsApart(own, a, b, own(d).value.slot);
    }
  }

  lemma NotInSibling(own: Owners, a: nat, b: nat)
    requires own(a) == own(b) && (own(b).Some? ==> own(b).value.slot < b)
    ensures !Inside(own, a, b)
  {
    if Inside(own, a, b) {
      InsideIsLater(own, a, b);
      var at := own(a).value.slot;
      if at != b {
        InsideIsLater(own, at, b);
      }
    }
  }

  /** Entering touches nothing outside the entered slots, and states only inside them. */
  lemma {:induction false} EnterAllFrame(o: Oracle, sh: Shape, own: Owners, roots: seq<nat>, c: Config,
                                         slots: seq<nat>, lo: nat, d: nat)
    requires Fits(sh, c) && TreeShaped(sh, own, roots) && Within(slots, lo, sh.count) && d < sh.count
    ensures var c' := EnterAll(o, sh, c, slots, lo).0;
            && (Elsewhere(own, slots, d) ==> Untouched(c, c', d))
            && ((forall i :: 0 <= i < |slots| ==> !Inside(own, d, slots[i])) ==> c'.state[d] == c.state[d])
    decreases sh.count - lo, |slots|
  {
    if slots != [] {
      var s := slots[0];
      var c1 := c.(skip := c.skip[s := false], trace := c.trace + [Entered(s, false)]);
      EnteredNote(c.trace, s, false, d);
      var (c2, ok) := Callbacks(o, c1, sh.entryActions(s, c.state[s]));
      if ok {
        var kids := sh.kids(s, c.state[s]);
        KidsInside(sh, own, roots, s, c.state[s], d);
        EnterNodeFrame(o, sh, own, roots, c2, kids, s + 1, d);
        var (c3, ok3) := EnterNode(o, sh, c2, kids, s + 1);
        if ok3 {
          assert forall i :: 0 <= i < |slots[1..]| ==> slots[1..][i] == slots[i + 1];
          EnterAllFrame(o, sh, own, roots, c3, slots[1..], lo, d);
        }
      }
    }
  }

  lemma {:induction false} EnterNodeFrame(o: Oracle, sh: Shape, own: Owners, roots: seq<nat>, c: Config,
                                          slots: seq<nat>, lo: nat, d: nat)
    requires Fits(sh, c) && TreeShaped(sh, own, roots) && Within(slots, lo, sh.count) && d < sh.count
    ensures Elsewhere(own, slots, d) ==> Untouched(c, EnterNode(o, sh, c, slots, lo).0, d)
    decreases sh.count - lo, |slots| + 1
  {
    EnterAllFrame(o, sh, own, roots, c.(state := Reset(sh, c.state, slots)), slots, lo, d);
  }

  lemma EnteredNote(trace: seq<Note>, s: nat, byRow: bool, d: nat)
    ensures EverEntered(trace + [Entered(s, byRow)], d) <==> EverEntered(trace, d) || d == s
  {
    var all := trace + [Entered(s, byRow)];
    if EverEntered(trace, d) {
      var i :| 0 <= i < |trace| && trace[i].Entered? && trace[i].slot == d;
      assert all[i].Entered? && all[i].slot == d;
    }
    assert all[|trace|] == Entered(s, byRow);
  }

  /** A slot outside `s` is elsewhere than the kids of `s`. */
  lemma KidsInside(sh: Shape, own: Owners, roots: seq<nat>, s: nat, q: nat, d: nat)
    requires TreeShaped(sh, own, roots) && s < sh.count && d < sh.count
    ensures !Inside(own, d, s) ==> Elsewhere(own, sh.kids(s, q), d)
  {
    var kids := sh.kids(s, q);
    if !Inside(own, d, s) {
      forall i | 0 <= i < |kids|
        ensures d != kids[i] && !Inside(own, d, kids[i])
      {
        var k := kids[i];
        assert k in kids && own(k) == Some(Place(s, q)) && s < k;
        if Inside(own, d, k) {
          InsideKid(own, d, k, s);
        }
      }
    }
  }

  lemma {:induction false} InsideKid(own: Owners, d: nat, k: nat, s: nat)
    requires Inside(own, d, k) && own(k).Some? && own(k).value.slot == s && s < k
    ensures Inside(own, d, s)
    decreases d
  {
    if own(d).value.slot != k {
      InsideKid(own, own(d).value.slot, k, s);
    }
  }

  /** No token is set on the way from `s` up to the root. */
  ghost predicate NoneAbove(sh: Shape, own: Owners, c: Config, s: nat)
    requires |c.skip| == sh.count
  {
    forall p: nat {:trigger Under(own, c.state, s, p)} :: p < sh.count && Under(own, c.state, s, p) ==> !c.skip[p]
  }

  /** What a node needs to be entered: its slots are active and siblings, no
      enclosing token is set, and everything in them is quiet. */
  ghost predicate ReadyToEnter(sh: Shape, own: Owners, c: Config, slots: seq<nat>) {
    && |c.state| == |c.skip| == sh.count
    && Within(slots, 0, sh.count) && Siblings(own, slots)
    && (forall i :: 0 <= i < |slots| ==> Active(own, c.state, slots[i]))
    && (forall i, p: nat {:trigger Under(own, c.state, slots[i], p)} ::
          0 <= i < |slots| && p < sh.count && Under(own, c.state, slots[i], p) ==> !c.skip[p])
    && (forall i :: 0 <= i < |slots| ==> Quiet(c, slots[i]))
    && (forall i, d: nat {:trigger Inside(own, d, slots[i])} ::
          0 <= i < |slots| && d < sh.count && Inside(own, d, slots[i]) ==> Quiet(c, d))
  }

  /** Starting the states of a node over leaves everything tidy. */
  lemma ResetTidy(sh: Shape, own: Owners, roots: seq<nat>, c: Config, slots: seq<nat>)
    requires Tidy(sh, own, c) && TreeShaped(sh, own, roots) && ReadyToEnter(sh, own, c, slots)
    ensures var c' := c.(state := Reset(sh, c.state, slots)); Tidy(sh, own, c') && ReadyToEnter(sh, own, c', slots)
  {
    var c' := c.(state := Reset(sh, c.state, slots));
    forall d: nat | d < sh.count && !InsideOne(own, slots, d)
      ensures Active(own, c'.state, d) == Active(own, c.state, d)
      ensures forall p: nat :: Under(own, c'.state, d, p) == Under(own, c.state, d, p)
    {
      forall p: nat | p < |c.state| && Inside(own, d, p)
        ensures c.state[p] == c'.state[p]
      {
        assert p !in slots;
      }
      SameAbove(own, c.state, c'.state, d);
    }
    forall p: nat, d: nat {:trigger Under(own, c'.state, d, p)}
      | p < sh.count && d < sh.count && c'.skip[p] && Under(own, c'.state, d, p)
      ensures Quiet(c', d)
    {
      if InsideOne(own, slots, d) {
        var i :| 0 <= i < |slots| && Inside(own, d, slots[i]);
        assert Quiet(c, d);
      } else {
        assert Under(own, c.state, d, p) && Quiet(c, d);
      }
    }
    forall d: nat {:trigger Active(own, c'.state, d)} | d < sh.count && !Active(own, c'.state, d)
      ensures Quiet(c', d)
    {
      if InsideOne(own, slots, d) {
        var i :| 0 <= i < |slots| && Inside(own, d, slots[i]);
        assert Quiet(c, d);
      } else {
        assert !Active(own, c.state, d) && Quiet(c, d);
      }
    }
    forall i | 0 <= i < |slots|
      ensures !InsideOne(own, slots, slots[i])
    {
      forall j | 0 <= j < |slots|
        ensures !Inside(own, slots[i], slots[j])
      {
        NotInSibling(own, slots[i], slots[j]);
      }
    }
  }

  ghost predicate InsideOne(own: Owners, slots: seq<nat>, d: nat) {
    exists i :: 0 <= i < |slots| && Inside(own, d, slots[i])
  }

  /** One slot is entered: it was quiet, is active, and no token covers it. */
  lemma EnterOneTidy(sh: Shape, own: Owners, c: Config, s: nat, byRow: bool)
    requires Tidy(sh, own, c) && s < sh.count && Active(own, c.state, s)
    requires forall p: nat {:trigger Under(own, c.state, s, p)} :: p < sh.count && Under(own, c.state, s, p) ==>
             !c.skip[p]
    requires EverEntered(c.trace, s) || byRow ==> ExitsSince(c.trace, s) == 1
    ensures var c' := c.(skip := c.skip[s := false], trace := c.trace + [Entered(s, byRow)]);
            && Tidy(sh, own, c')
            && forall d: nat :: d < sh.count && d != s ==> Quiet(c', d) == Quiet(c, d)
  {
    var c' := c.(skip := c.skip[s := false], trace := c.trace + [Entered(s, byRow)]);
    AddNote(c.trace, Entered(s, byRow));
    NoteBetween(c.trace, Entered(s, byRow));
  }

  /** The kids of a slot just entered can be entered next. */
  lemma KidsReady(sh: Shape, own: Owners, roots: seq<nat>, c: Config, s: nat)
    requires Tidy(sh, own, c) && TreeShaped(sh, own, roots) && s < sh.count && Active(own, c.state, s) && !c.skip[s]
    requires forall p: nat {:trigger Under(own, c.state, s, p)} :: p < sh.count && Under(own, c.state, s, p) ==>
             !c.skip[p]
    requires forall d: nat {:trigger Inside(own, d, s)} :: d < sh.count && Inside(own, d, s) ==> Quiet(c, d)
    ensures ReadyToEnter(sh, own, c, sh.kids(s, c.state[s]))
  {
    var kids := sh.kids(s, c.state[s]);
    forall i | 0 <= i < |kids|
      ensures own(kids[i]) == Some(Place(s, c.state[s])) && s < kids[i] < sh.count
    {
      assert kids[i] in kids;
    }
    forall i | 0 <= i < |kids|
      ensures Quiet(c, kids[i])
    {
      assert Inside(own, kids[i], s);
    }
    forall i, d: nat | 0 <= i < |kids| && d < sh.count && Inside(own, d, kids[i])
      ensures Quiet(c, d)
    {
      InsideKid(own, d, kids[i], s);
    }
  }

  lemma {:induction false} EnterNodeTidy(o: Oracle, sh: Shape, own: Owners, roots: seq<nat>, c: Config,
                                         slots: seq<nat>, lo: nat)
    requires Tidy(sh, own, c) && TreeShaped(sh, own, roots) && Within(slots, lo, sh.count) &&
             ReadyToEnter(sh, own, c, slots)
    ensures Tidy(sh, own, EnterNode(o, sh, c, slots, lo).0)
    decreases sh.count - lo, |slots| + 1
  {
    ResetTidy(sh, own, roots, c, slots);
    EnterAllTidy(o, sh, own, roots, c.(state := Reset(sh, c.state, slots)), slots, lo);
  }

  lemma {:induction false} EnterAllTidy(o: Oracle, sh: Shape, own: Owners, roots: seq<nat>, c: Config,
                                        slots: seq<nat>, lo: nat)
    requires Tidy(sh, own, c) && TreeShaped(sh, own, roots) && Within(slots, lo, sh.count) &&
             ReadyToEnter(sh, own, c, slots)
    ensures Tidy(sh, own, EnterAll(o, sh, c, slots, lo).0)
    decreases sh.count - lo, |slots|
  {
    if slots != [] {
      var s := slots[0];
      EnterOneTidy(sh, own, c, s, false);
      var c1 := c.(skip := c.skip[s := false], trace := c.trace + [Entered(s, false)]);
      var (c2, ok) := Callbacks(o, c1, sh.entryActions(s, c.state[s]));
      LaterIsTidy(sh, own, c1, c2);
      if ok {
        InsideStaysQuiet(sh, own, c, c2, slots);
        KidsReady(sh, own, roots, c2, s);
        EnterNodeTidy(o, sh, own, roots, c2, sh.kids(s, c.state[s]), s + 1);
        var (c3, ok3) := EnterNode(o, sh, c2, sh.kids(s, c.state[s]), s + 1);
        if ok3 {
          RestReady(o, sh, own, roots, c, c2, slots);
          EnterAllTidy(o, sh, own, roots, c3, slots[1..], lo);
        }
      }
    }
  }

  /** Entering the first slot leaves what is nested in it as it was. */
  lemma InsideStaysQuiet(sh: Shape, own: Owners, c: Config, c2: Config, slots: seq<nat>)
    requires ReadyToEnter(sh, own, c, slots) && slots != [] && |c2.skip| == sh.count && c2.state == c.state
    requires forall d: nat :: d < sh.count && d != slots[0] ==> Quiet(c2, d) == Quiet(c, d)
    requires c2.skip == c.skip[slots[0] := false]
    ensures forall d: nat {:trigger Inside(own, d, slots[0])} :: d < sh.count && Inside(own, d, slots[0]) ==>
            Quiet(c2, d)
    ensures forall p: nat {:trigger Under(own, c2.state, slots[0], p)} ::
              p < sh.count && Under(own, c2.state, slots[0], p) ==> !c2.skip[p]
  {
    forall d: nat | d < sh.count && Inside(own, d, slots[0])
      ensures Quiet(c2, d)
    {
      InsideIsLater(own, d, slots[0]);
    }
  }

  /** What is nested in the other slots of the node stays as it was. */
  lemma RestQuiet(o: Oracle, sh: Shape, own: Owners, roots: seq<nat>, c: Config, c2: Config, slots: seq<nat>,
                  i: nat, d: nat)
    requires Fits(sh, c2) && TreeShaped(sh, own, roots) && ReadyToEnter(sh, own, c, slots) && 0 < i < |slots|
    requires c2.state == c.state && c2.skip == c.skip[slots[0] := false] && d < sh.count
    requires forall d: nat :: d < sh.count && d != slots[0] ==> Quiet(c2, d) == Quiet(c, d)
    requires d == slots[i] || Inside(own, d, slots[i])
    ensures Quiet(EnterNode(o, sh, c2, sh.kids(slots[0], c.state[slots[0]]), slots[0] + 1).0, d)
  {
    SiblingUntouched(o, sh, own, roots, c2, slots[0], c.state[slots[0]], slots[i], d);
    assert Quiet(c, d);
  }

  /** The other slots of the node can still be entered. */
  lemma RestReady(o: Oracle, sh: Shape, own: Owners, roots: seq<nat>, c: Config, c2: Config, slots: seq<nat>)
    requires Fits(sh, c2) && TreeShaped(sh, own, roots) && ReadyToEnter(sh, own, c, slots) && slots != []
    requires c2.state == c.state && c2.skip == c.skip[slots[0] := false]
    requires forall d: nat :: d < sh.count && d != slots[0] ==> Quiet(c2, d) == Quiet(c, d)
    ensures ReadyToEnter(sh, own, EnterNode(o, sh, c2, sh.kids(slots[0], c.state[slots[0]]), slots[0] + 1).0,
                         slots[1..])
  {
    var s, rest := slots[0], slots[1..];
    var c3 := EnterNode(o, sh, c2, sh.kids(s, c.state[s]), s + 1).0;
    forall i, d: nat | 0 <= i < |rest| && d < sh.count && Inside(own, d, rest[i])
      ensures Quiet(c3, d)
    {
      RestQuiet(o, sh, own, roots, c, c2, slots, i + 1, d);
    }
    forall i | 0 <= i < |rest|
      ensures Quiet(c3, rest[i]) && Active(own, c3.state, rest[i]) && NoneAbove(sh, own, c3, rest[i])
    {
      RestQuiet(o, sh, own, roots, c, c2, slots, i + 1, rest[i]);
      AboveUntouched(o, sh, own, roots, c, c2, slots, i + 1);
    }
    assert Siblings(own, rest);
  }

  /** Entering the kids of `s` leaves a sibling of `s`, and what is in it, alone. */
  lemma SiblingUntouched(o: Oracle, sh: Shape, own: Owners, roots: seq<nat>, c2: Config, s: nat, q: nat, a: nat, d: nat)
    requires Fits(sh, c2) && TreeShaped(sh, own, roots) && s < sh.count && a < sh.count && d < sh.count
    requires a != s && own(a) == own(s) && (d == a || Inside(own, d, a))
    ensures d != s && Untouched(c2, EnterNode(o, sh, c2, sh.kids(s, q), s + 1).0, d)
  {
    SiblingsApart(own, a, s, d);
    KidsInside(sh, own, roots, s, q, d);
    EnterNodeFrame(o, sh, own, roots, c2, sh.kids(s, q), s + 1, d);
  }

  lemma AboveUntouched(o: Oracle, sh: Shape, own: Owners, roots: seq<nat>, c: Config, c2: Config, slots: seq<nat>,
                       i: nat)
    requires Fits(sh, c2) && TreeShaped(sh, own, roots) && ReadyToEnter(sh, own, c, slots) && 0 < i < |slots|
    requires c2.state == c.state && c2.skip == c.skip[slots[0] := false]
    ensures var c3 := EnterNode(o, sh, c2, sh.kids(slots[0], c.state[slots[0]]), slots[0] + 1).0;
            && Active(own, c3.state, slots[i])
            && forall p: nat {:trigger Under(own, c3.state, slots[i], p)} ::
                 p < sh.count && Under(own, c3.state, slots[i], p) ==> !c3.skip[p]
  {
    var s := slots[0];
    var c3 := EnterNode(o, sh, c2, sh.kids(s, c.state[s]), s + 1).0;
    forall p: nat | p < sh.count && Inside(own, slots[i], p)
      ensures c3.state[p] == c.state[p] && c3.skip[p] == c2.skip[p] && p != s
    {
      NotInSibling(own, slots[i], s);
      InsideBoth(own, slots[i], s, p);
      KidsInside(sh, own, roots, s, c.state[s], p);
      EnterNodeFrame(o, sh, own, roots, c2, sh.kids(s, c.state[s]), s + 1, p);
    }
    SameAbove(own, c.state, c3.state, slots[i]);
    forall p: nat | p < sh.count && Under(own, c3.state, slots[i], p)
      ensures !c3.skip[p]
    {
      UnderIsInside(own, c3.state, slots[i], p);
      assert Under(own, c.state, slots[i], p);
    }
  }

  /** What encloses a slot is not nested in its sibling. */
  lemma InsideBoth(own: Owners, a: nat, b: nat, p: nat)
    requires own(a) == own(b) && (own(b).Some? ==> own(b).value.slot < b) && Inside(own, a, p)
    ensures p != b && !Inside(own, p, b)
  {
    InsideSibling(own, a, b, p);
    if Inside(own, p, b) {
      InsideIsLater(own, p, b);
      InsideIsLater(own, b, p);
    }
    InsideIsLater(own, b, p);
  }

  lemma InsideSibling(own: Owners, a: nat, b: nat, p: nat)
    requires own(a) == own(b) && (own(b).Some? ==> own(b).value.slot < b) && Inside(own, a, p)
    ensures Inside(own, b, p)
  {
  }

  // ---- Rows -----------------------------------------------------------------------------------------

  /** Something nested in the current state of `s` was entered and has not exited. */
  ghost predicate Occupied(sh: Shape, own: Owners, c: Config, s: nat)
    requires |c.skip| == sh.count
  {
    exists d: nat {:trigger Under(own, c.state, d, s)} :: d < sh.count && Under(own, c.state, d, s) && !Quiet(c, d)
  }

  /** The exits of a row leave a tidy machine, unless they complete past an occupied
      state because the target is composite too. They touch no enclosing token. */
  lemma RowExitsTidy(o: Oracle, sh: Shape, own: Owners, roots: seq<nat>, c: Config, row: Row)
    requires Tidy(sh, own, c) && TreeShaped(sh, own, roots) && row.slot < sh.count && !c.skip[row.slot]
    requires RowExits(o, sh, c, row).1 ==> !(IsComposite(sh, row.slot, row.target) && Occupied(sh, own, c, row.slot))
    ensures var (c1, ok) := RowExits(o, sh, c, row); var s := row.slot;
            && OnlyExits(c, c1) && (forall p: nat :: p < s ==> c1.skip[p] == c.skip[p])
            && Tidy(sh, own, if ok then c1.(skip := c1.skip[s := true]) else c1)
  {
    var s := row.slot;
    var q := c.state[s];
    var kids := sh.kids(s, q);
    if IsComposite(sh, s, q) && IsComposite(sh, s, row.target) {
      var (c2, ok2) := Callbacks(o, c, sh.exitActions(s, q));
      LaterIsTidy(sh, own, c, c2);
      if ok2 {
        OwnExitTidy(sh, own, c2, c2.(skip := c2.skip[s := true], trace := c2.trace + [Exited(s)]), s);
      }
    } else {
      ExitAllTidy(o, sh, own, roots, c, kids, s + 1);
      ExitWalk.WalkGrows(o, sh, c, kids, s + 1);
      var (c1, ok) := ExitAll(o, sh, c, kids, s + 1);
      assert kids == [] ==> c1 == c && ok;
      if ok {
        KidsExited(o, sh, own, roots, c, s);
        var (c2, ok2) := Callbacks(o, c1, sh.exitActions(s, q));
        LaterIsTidy(sh, own, c1, c2);
        if ok2 {
          OwnExitTidy(sh, own, c2, c2.(skip := c2.skip[s := true], trace := c2.trace + [Exited(s)]), s);
        }
      }
    }
  }

  lemma LeaveTidy(o: Oracle, sh: Shape, own: Owners, roots: seq<nat>, c: Config, row: Row)
    requires Tidy(sh, own, c) && TreeShaped(sh, own, roots) && row.slot < sh.count
    requires RowExits(o, sh, c, row).1 ==> !(IsComposite(sh, row.slot, row.target) && Occupied(sh, own, c, row.slot))
    ensures var (c1, ok) := Leave(o, sh, c, row);
            && Tidy(sh, own, c1) && c1.state == c.state && (ok ==> c1.skip[row.slot])
            && (forall p: nat :: p < row.slot ==> c1.skip[p] == c.skip[p])
  {
    var s := row.slot;
    var (c1, ok) := RowExits(o, sh, c, row);
    if c.skip[s] {
      assert c1.skip[s := true] == c.skip;
    } else {
      RowExitsTidy(o, sh, own, roots, c, row);
    }
    if ok {
      var c2 := c1.(skip := c1.skip[s := true]);
      LaterIsTidy(sh, own, c2, Callbacks(o, c2, row.actions).0);
    }
  }

  /** The state of a slot that has exited is replaced. */
  lemma ReplaceTidy(sh: Shape, own: Owners, roots: seq<nat>, c1: Config, s: nat, target: nat)
    requires Tidy(sh, own, c1) && TreeShaped(sh, own, roots) && s < sh.count && Active(own, c1.state, s) && c1.skip[s]
    requires NoneAbove(sh, own, c1, s)
    ensures var c2 := c1.(state := c1.state[s := target]);
            && Tidy(sh, own, c2) && Active(own, c2.state, s) && NoneAbove(sh, own, c2, s)
  {
    var c2 := c1.(state := c1.state[s := target]);
    forall p: nat | p < |c1.state| && Inside(own, s, p)
      ensures c1.state[p] == c2.state[p]
    {
      InsideIsLater(own, s, p);
    }
    SameAbove(own, c1.state, c2.state, s);
    forall d: nat {:trigger Active(own, c2.state, d)} | d < sh.count && !Active(own, c2.state, d)
      ensures Quiet(c2, d)
    {
      if Active(own, c1.state, d) {
        Deactivated(own, c1.state, s, target, d);
      }
      assert Quiet(c1, d);
    }
    forall p: nat, d: nat {:trigger Under(own, c2.state, d, p)}
      | p < sh.count && d < sh.count && c2.skip[p] && Under(own, c2.state, d, p)
      ensures Quiet(c2, d)
    {
      UnderChanged(own, c1.state, s, target, d, p);
      if p == s && Active(own, c1.state, d) {
        UnderIsInside(own, c2.state, d, s);
        ActiveInside(own, c1.state, d, s);
      }
      assert Quiet(c1, d);
    }
  }

  /** The state of an exited slot is replaced and the slot entered. */
  lemma ArriveTidy(sh: Shape, own: Owners, roots: seq<nat>, c1: Config, s: nat, target: nat)
    requires Tidy(sh, own, c1) && TreeShaped(sh, own, roots) && s < sh.count && Active(own, c1.state, s) && c1.skip[s]
    requires NoneAbove(sh, own, c1, s)
    ensures var c3 := Arrived(c1, s, target);
            && Tidy(sh, own, c3) && Active(own, c3.state, s) && NoneAbove(sh, own, c3, s)
  {
    ReplaceTidy(sh, own, roots, c1, s, target);
    EnterOneTidy(sh, own, c1.(state := c1.state[s := target]), s, true);
    var c3 := Arrived(c1, s, target);
    forall p: nat | p < sh.count && Under(own, c3.state, s, p)
      ensures !c3.skip[p]
    {
      UnderIsInside(own, c3.state, s, p);
    }
  }

  function Arrived(c1: Config, s: nat, target: nat): Config
    requires s < |c1.state| == |c1.skip|
  {
    c1.(state := c1.state[s := target], skip := c1.skip[s := false], trace := c1.trace + [Entered(s, true)])
  }

  lemma LeavesNoneAbove(o: Oracle, sh: Shape, own: Owners, c: Config, row: Row)
    requires Fits(sh, c) && row.slot < sh.count && NoneAbove(sh, own, c, row.slot)
    requires forall p: nat :: p < row.slot ==> Leave(o, sh, c, row).0.skip[p] == c.skip[p]
    ensures NoneAbove(sh, own, Leave(o, sh, c, row).0, row.slot)
  {
    var c1 := Leave(o, sh, c, row).0;
    forall p: nat | p < sh.count && Under(own, c1.state, row.slot, p)
      ensures !c1.skip[p]
    {
      UnderIsInside(own, c1.state, row.slot, p);
      assert Under(own, c.state, row.slot, p);
    }
  }

  lemma NewKidsTidy(o: Oracle, sh: Shape, own: Owners, roots: seq<nat>, c1: Config, c4: Config, s: nat, target: nat)
    requires Tidy(sh, own, c1) && Tidy(sh, own, c4) && TreeShaped(sh, own, roots) && s < sh.count
    requires c1.state[s] != target && c4 == Arrived(c1, s, target).(clock := c4.clock)
    requires Active(own, c4.state, s) && NoneAbove(sh, own, Arrived(c1, s, target), s)
    ensures Tidy(sh, own, EnterNode(o, sh, c4, sh.kids(s, target), s + 1).0)
  {
    assert NoneAbove(sh, own, c4, s);
    NewKidsReady(sh, own, roots, c1, c4, s, target);
    EnterNodeTidy(o, sh, own, roots, c4, sh.kids(s, target), s + 1);
  }

  lemma MoveTidy(o: Oracle, sh: Shape, own: Owners, roots: seq<nat>, c: Config, row: Row)
    requires Tidy(sh, own, c) && TreeShaped(sh, own, roots) && row.slot < sh.count && Active(own, c.state, row.slot)
    requires Leave(o, sh, c, row).1 ==> NoneAbove(sh, own, c, row.slot)
    requires RowExits(o, sh, c, row).1 ==> !(IsComposite(sh, row.slot, row.target) && Occupied(sh, own, c, row.slot))
    ensures Tidy(sh, own, Move(o, sh, c, row).0)
  {
    var s := row.slot;
    var q := c.state[s];
    LeaveTidy(o, sh, own, roots, c, row);
    var (c1, ok) := Leave(o, sh, c, row);
    if ok {
      LeavesNoneAbove(o, sh, own, c, row);
      ArriveTidy(sh, own, roots, c1, s, row.target);
      var c3 := Arrived(c1, s, row.target);
      var (c4, ok4) := Callbacks(o, c3, sh.entryActions(s, row.target));
      LaterIsTidy(sh, own, c3, c4);
      if ok4 && IsComposite(sh, s, row.target) && !IsComposite(sh, s, q) {
        NewKidsTidy(o, sh, own, roots, c1, c4, s, row.target);
      }
    }
  }

  /** The kids of the new state were inactive until now. */
  lemma NewKidsReady(sh: Shape, own: Owners, roots: seq<nat>, c1: Config, c4: Config, s: nat, target: nat)
    requires Tidy(sh, own, c1) && Tidy(sh, own, c4) && TreeShaped(sh, own, roots) && s < sh.count &&
             c1.state[s] != target
    requires c4.state == c1.state[s := target] && c4.skip == c1.skip[s := false] &&
             c4.trace == c1.trace + [Entered(s, true)]
    requires Active(own, c4.state, s) && NoneAbove(sh, own, c4, s)
    ensures ReadyToEnter(sh, own, c4, sh.kids(s, target))
  {
    forall k: nat | k < sh.count && own(k) == Some(Place(s, target))
      ensures Quiet(c4, k) && Active(own, c4.state, k)
      ensures forall p: nat :: p < sh.count && Under(own, c4.state, k, p) ==> !c4.skip[p]
      ensures forall d: nat {:trigger Inside(own, d, k)} :: d < sh.count && Inside(own, d, k) ==> Quiet(c4, d)
    {
      assert !Active(own, c1.state, k);
      EnteredNote(c1.trace, s, true, k);
      forall d: nat | d < sh.count && Inside(own, d, k)
        ensures Quiet(c4, d)
      {
        InsideInactive(own, c1.state, d, k);
        InsideIsLater(own, d, k);
        EnteredNote(c1.trace, s, true, d);
      }
    }
    var kids := sh.kids(s, target);
    forall i | 0 <= i < |kids|
      ensures s < kids[i] < sh.count && own(kids[i]) == Some(Place(s, target))
    {
      assert kids[i] in kids;
    }
  }

  // ---- Exactly when a row keeps the machine tidy ---------------------------------------------------------

  /** A row that replaces the state has no token set above it and leaves an occupied
      state for a composite one only if that is the same state; a row that fails did
      not complete its exits past an occupied state on the way to a composite one. */
  ghost predicate Keeps(o: Oracle, sh: Shape, own: Owners, c: Config, row: Row)
    requires Fits(sh, c) && row.slot < sh.count
  {
    var stays := IsComposite(sh, row.slot, row.target) && Occupied(sh, own, c, row.slot);
    || row.internal
    || if Leave(o, sh, c, row).1 then NoneAbove(sh, own, c, row.slot) && (stays ==> row.target == c.state[row.slot])
       else !(RowExits(o, sh, c, row).1 && stays)
  }

  /** An occupied state is composite, and in a tidy machine its token is not set. */
  lemma OccupiedIsComposite(sh: Shape, own: Owners, roots: seq<nat>, c: Config, s: nat)
    requires Fits(sh, c) && TreeShaped(sh, own, roots) && s < sh.count && Occupied(sh, own, c, s)
    ensures IsComposite(sh, s, c.state[s]) && (Tidy(sh, own, c) ==> !c.skip[s])
  {
    var d: nat :| d < sh.count && Under(own, c.state, d, s) && !Quiet(c, d);
    var k := UnderKid(sh, own, roots, c.state, d, s);
  }

  /** A row from a composite state to itself: exit and entry of its own slot alone. */
  lemma AgainTidy(o: Oracle, sh: Shape, own: Owners, c: Config, row: Row)
    requires Tidy(sh, own, c) && row.slot < sh.count && Active(own, c.state, row.slot) && !c.skip[row.slot]
    requires row.target == c.state[row.slot] && IsComposite(sh, row.slot, row.target)
    requires Leave(o, sh, c, row).1 && NoneAbove(sh, own, c, row.slot)
    ensures Tidy(sh, own, Move(o, sh, c, row).0)
  {
    var s := row.slot;
    var c' := Move(o, sh, c, row).0;
    MoveSound(o, sh, c, row);
    assert c'.skip == c.skip && c'.state == c.state && c'.trace == c.trace + [Exited(s)] + [Entered(s, true)];
    AddNote(c.trace, Exited(s));
    NoteBetween(c.trace, Exited(s));
    NoteBetween(c.trace + [Exited(s)], Entered(s, true));
    forall d: nat | d < sh.count && d != s
      ensures Quiet(c', d) == Quiet(c, d)
    {
    }
  }

  /** A row that leaves a state without exiting what is nested there, because the
      token says it has exited or because the target is composite too, strands every
      slot there that has not exited: it is inactive from then on, without its exit. */
  lemma RowStrands(o: Oracle, sh: Shape, own: Owners, roots: seq<nat>, c: Config, row: Row, d: nat)
    requires Fits(sh, c) && TreeShaped(sh, own, roots) && row.slot < sh.count && d < sh.count
    requires Leave(o, sh, c, row).1 && row.target != c.state[row.slot]
    requires c.skip[row.slot] || IsComposite(sh, row.slot, row.target)
    requires Under(own, c.state, d, row.slot) && !Quiet(c, d)
    ensures !Quiet(Move(o, sh, c, row).0, d) && !Active(own, Move(o, sh, c, row).0.state, d)
  {
    var s := row.slot;
    var k := UnderKid(sh, own, roots, c.state, d, s);
    UnderIsInside(own, c.state, d, s);
    StaysEntered(c.trace, [Exited(s)], d);
    StaysEntered(c.trace, [Entered(s, true)], d);
    StaysEntered(c.trace + [Exited(s)], [Entered(s, true)], d);
    var c' := Move(o, sh, c, row).0;
    assert c'.state == c.state[s := row.target];
    LeftInactive(own, c.state, s, row.target, d);
  }

  lemma StaysEntered(trace: seq<Note>, more: seq<Note>, d: nat)
    ensures EverEntered(trace, d) ==> EverEntered(trace + more, d)
  {
    if EverEntered(trace, d) {
      var i :| 0 <= i < |trace| && trace[i].Entered? && trace[i].slot == d;
      assert (trace + more)[i] == trace[i];
    }
  }

  lemma {:induction false} LeftInactive(own: Owners, state: seq<nat>, s: nat, q: nat, d: nat)
    requires s < |state| && Under(own, state, d, s) && q != state[s]
    ensures !Active(own, state[s := q], d)
    decreases d
  {
    if own(d).value.slot != s {
      LeftInactive(own, state, s, q, own(d).value.slot);
    }
  }

  /** A row that replaces its state under a set token leaves its slot occupied there. */
  lemma EntersUnderToken(o: Oracle, sh: Shape, own: Owners, roots: seq<nat>, c: Config, row: Row)
    requires Fits(sh, c) && TreeShaped(sh, own, roots) && row.slot < sh.count
    requires Leave(o, sh, c, row).1 && !NoneAbove(sh, own, c, row.slot)
    requires forall p: nat :: p < row.slot ==> Leave(o, sh, c, row).0.skip[p] == c.skip[p]
    ensures !Covered(sh, own, Move(o, sh, c, row).0)
  {
    var s := row.slot;
    var p: nat :| p < sh.count && Under(own, c.state, s, p) && c.skip[p];
    UnderIsInside(own, c.state, s, p);
    var c1 := Leave(o, sh, c, row).0;
    var c3 := Arrived(c1, s, row.target);
    EnteredNote(c1.trace, s, true, s);
    var c4 := Callbacks(o, c3, sh.entryActions(s, row.target)).0;
    var c' := Move(o, sh, c, row).0;
    forall d: nat | d < sh.count && !Inside(own, d, s)
      ensures c'.state[d] == c3.state[d] && c'.skip[d] == c3.skip[d] &&
              EverEntered(c'.trace, d) == EverEntered(c3.trace, d)
    {
      KidsInside(sh, own, roots, s, row.target, d);
      EnterNodeFrame(o, sh, own, roots, c4, sh.kids(s, row.target), s + 1, d);
    }
    forall a: nat | a < sh.count && Inside(own, s, a)
      ensures c.state[a] == c'.state[a]
    {
      InsideIsLater(own, s, a);
      NotBoth(own, a, s);
    }
    SameAbove(own, c.state, c'.state, s);
    NotBoth(own, p, s);
    NotBoth(own, s, s);
    assert Under(own, c'.state, s, p) && c'.skip[p] && !Quiet(c', s);
  }

  lemma NotBoth(own: Owners, a: nat, s: nat)
    requires a <= s
    ensures !Inside(own, a, s)
  {
    if Inside(own, a, s) {
      InsideIsLater(own, a, s);
    }
  }

  lemma LeaveAbove(o: Oracle, sh: Shape, c: Config, row: Row)
    requires Fits(sh, c) && row.slot < sh.count
    ensures forall p: nat :: p < row.slot ==> Leave(o, sh, c, row).0.skip[p] == c.skip[p]
  {
    ExitWalk.WalkGrows(o, sh, c, sh.kids(row.slot, c.state[row.slot]), row.slot + 1);
  }

  /** A failed row that completed its exits past an occupied state has set a token that covers it. */
  lemma FailsOccupied(o: Oracle, sh: Shape, own: Owners, roots: seq<nat>, c: Config, row: Row)
    requires Tidy(sh, own, c) && TreeShaped(sh, own, roots) && row.slot < sh.count
    requires !Leave(o, sh, c, row).1 && RowExits(o, sh, c, row).1
    requires IsComposite(sh, row.slot, row.target) && Occupied(sh, own, c, row.slot)
    ensures !Covered(sh, own, Leave(o, sh, c, row).0)
  {
    var s := row.slot;
    OccupiedIsComposite(sh, own, roots, c, s);
    var d: nat :| d < sh.count && Under(own, c.state, d, s) && !Quiet(c, d);
    UnderIsInside(own, c.state, d, s);
    StaysEntered(c.trace, [Exited(s)], d);
    var c' := Leave(o, sh, c, row).0;
    assert c'.skip == c.skip[s := true] && c'.trace == c.trace + [Exited(s)];
    assert Under(own, c'.state, d, s) && !Quiet(c', d);
  }

  /** The exact condition, row by row: a row of an active slot of a tidy machine
      leaves it tidy if and only if it `Keeps`. */
  lemma TidyExactly(o: Oracle, sh: Shape, own: Owners, roots: seq<nat>, c: Config, row: Row)
    requires Tidy(sh, own, c) && TreeShaped(sh, own, roots) && row.slot < sh.count && Active(own, c.state, row.slot)
    ensures Tidy(sh, own, Run(o, sh, c, row).0) <==> Keeps(o, sh, own, c, row)
  {
    var s := row.slot;
    var stays := IsComposite(sh, s, row.target) && Occupied(sh, own, c, s);
    if row.internal {
      LaterIsTidy(sh, own, c, Run(o, sh, c, row).0);
    } else if Leave(o, sh, c, row).1 {
      if !NoneAbove(sh, own, c, s) {
        LeaveAbove(o, sh, c, row);
        EntersUnderToken(o, sh, own, roots, c, row);
      } else if !stays {
        MoveTidy(o, sh, own, roots, c, row);
      } else {
        OccupiedIsComposite(sh, own, roots, c, s);
        if row.target == c.state[s] {
          AgainTidy(o, sh, own, c, row);
        } else {
          var d: nat :| d < sh.count && Under(own, c.state, d, s) && !Quiet(c, d);
          RowStrands(o, sh, own, roots, c, row, d);
        }
      }
    } else if RowExits(o, sh, c, row).1 && stays {
      FailsOccupied(o, sh, own, roots, c, row);
    } else {
      MoveTidy(o, sh, own, roots, c, row);
    }
  }

  // ---- Runs --------------------------------------------------------------------------------------------

  /** A new machine after its initial entry, however far that got. */
  function Initialized(o: Oracle, sh: Shape, roots: seq<nat>, state: seq<nat>): Config
    requires WellFormed(sh) && |state| == sh.count && Within(roots, 0, sh.count)
  {
    EnterNode(o, sh, Config(state, seq(sh.count, _ => false), 0, []), roots, 0).0
  }

  lemma InitializedIsTidy(o: Oracle, sh: Shape, own: Owners, roots: seq<nat>, state: seq<nat>)
    requires TreeShaped(sh, own, roots) && |state| == sh.count && Within(roots, 0, sh.count)
    ensures Tidy(sh, own, Initialized(o, sh, roots, state))
  {
    var c := Config(state, seq(sh.count, _ => false), 0, []);
    FreshIsSound(sh, state, 0);
    assert Tidy(sh, own, c);
    assert ReadyToEnter(sh, own, c, roots) by {
      forall i | 0 <= i < |roots|
        ensures own(roots[i]).None?
      {
        assert roots[i] in roots;
      }
    }
    EnterNodeTidy(o, sh, own, roots, c, roots, 0);
  }

  /** A row that may run without stranding anything: internal, or of a slot with no
      token set above it and not from one composite state to another. */
  ghost predicate Safe(sh: Shape, own: Owners, c: Config, row: Row)
    requires Fits(sh, c) && row.slot < sh.count
  {
    row.internal || (&& !(IsComposite(sh, row.slot, c.state[row.slot]) && IsComposite(sh, row.slot, row.target))
                     && NoneAbove(sh, own, c, row.slot))
  }

  lemma SafeKeeps(o: Oracle, sh: Shape, own: Owners, roots: seq<nat>, c: Config, row: Row)
    requires Fits(sh, c) && TreeShaped(sh, own, roots) && row.slot < sh.count && Safe(sh, own, c, row)
    ensures Keeps(o, sh, own, c, row)
  {
    if Occupied(sh, own, c, row.slot) {
      OccupiedIsComposite(sh, own, roots, c, row.slot);
    }
  }

  /** Rows of active slots run one after the other, each safe where it runs. */
  ghost predicate SafeRun(o: Oracle, sh: Shape, own: Owners, c: Config, rows: seq<Row>)
    requires Fits(sh, c)
    decreases |rows|
  {
    rows == [] ||
    (&& rows[0].slot < sh.count && Active(own, c.state, rows[0].slot) && Safe(sh, own, c, rows[0])
     && SafeRun(o, sh, own, Run(o, sh, c, rows[0]).0, rows[1..]))
  }

  /** Rows of active slots run one after the other, each keeping the machine tidy. */
  ghost predicate KeepingRun(o: Oracle, sh: Shape, own: Owners, c: Config, rows: seq<Row>)
    requires Fits(sh, c)
    decreases |rows|
  {
    rows == [] ||
    (&& rows[0].slot < sh.count && Active(own, c.state, rows[0].slot) && Keeps(o, sh, own, c, rows[0])
     && KeepingRun(o, sh, own, Run(o, sh, c, rows[0]).0, rows[1..]))
  }

  /** No row from a composite state to a composite state, and no external row of a
      nested slot while the token of an enclosing slot is set: every row keeps. */
  lemma {:induction false} SafeRunKeeps(o: Oracle, sh: Shape, own: Owners, roots: seq<nat>, c: Config, rows: seq<Row>)
    requires Fits(sh, c) && TreeShaped(sh, own, roots) && SafeRun(o, sh, own, c, rows)
    ensures KeepingRun(o, sh, own, c, rows)
    decreases |rows|
  {
    if rows != [] {
      SafeKeeps(o, sh, own, roots, c, rows[0]);
      SafeRunKeeps(o, sh, own, roots, Run(o, sh, c, rows[0]).0, rows[1..]);
    }
  }

  lemma {:induction false} KeepingRunIsTidy(o: Oracle, sh: Shape, own: Owners, roots: seq<nat>, c: Config,
                                            rows: seq<Row>)
    requires Tidy(sh, own, c) && TreeShaped(sh, own, roots) && KeepingRun(o, sh, own, c, rows)
    requires forall i :: 0 <= i < |rows| ==> rows[i].slot < sh.count
    ensures Tidy(sh, own, RunAll(o, sh, c, rows))
    decreases |rows|
  {
    if rows != [] {
      TidyExactly(o, sh, own, roots, c, rows[0]);
      KeepingRunIsTidy(o, sh, own, roots, Run(o, sh, c, rows[0]).0, rows[1..]);
    }
  }

  /** Exactly one exit for each entry. Over every run from an initialised machine,
      whichever callbacks fail, every entry of a slot after its first, by a row or
      with an enclosing state, has exactly one completed exit between it and the
      entry before, and no inactive slot is left without its exit, provided every
      row that runs keeps the machine tidy. */
  lemma {:induction false} EveryReentryHasOneExit(o: Oracle, sh: Shape, own: Owners, roots: seq<nat>, state: seq<nat>,
                                                  rows: seq<Row>)
    requires TreeShaped(sh, own, roots) && |state| == sh.count && Within(roots, 0, sh.count)
    requires forall i :: 0 <= i < |rows| ==> rows[i].slot < sh.count
    requires KeepingRun(o, sh, own, Initialized(o, sh, roots, state), rows)
    ensures var c := RunAll(o, sh, Initialized(o, sh, roots, state), rows);
            OneExitBetween(c.trace) && NoneStranded(sh, own, c)
  {
    InitializedIsTidy(o, sh, own, roots, state);
    KeepingRunIsTidy(o, sh, own, roots, Initialized(o, sh, roots, state), rows);
  }

  // ---- Entered twice with no exit between --------------------------------------------------------------

  /** The last note enters a slot again that has not exited since. */
  ghost predicate EndsUnexited(trace: seq<Note>, s: nat) {
    && trace != [] && trace[|trace| - 1] == Entered(s, false)
    && EverEntered(trace[..|trace| - 1], s) && ExitsSince(trace[..|trace| - 1], s) == 0
  }

  function NoHooks(s: nat, q: nat): nat { 0 }

  function NoHistory(s: nat): bool { false }

  /** Slot 0 starts in state 1, which holds slot 1; everything else is plain. */
  function NestedKids(s: nat, q: nat): seq<nat> {
    if s == 0 && q == 1 then [1] else []
  }

  function NestedOwner(s: nat): Option<Place> {
    if s == 1 then Some(Place(0, 1)) else None
  }

  function NestedInitial(s: nat): nat {
    if s == 0 then 1 else 0
  }

  function Nested(): Shape {
    Shape(2, NestedKids, NestedInitial, NoHistory, NoHooks, NoHooks)
  }

  /** Only the first callback fails. */
  function FailsFirst(clock: nat): bool { clock != 0 }

  function NestedStart(): Config {
    Config([1, 0], [false, false], 0, [Entered(0, false), Entered(1, false)])
  }

  /** The parent's row exits the child and itself, then its action fails. */
  function ParentFailed(): Config {
    Config([1, 0], [true, true], 1, [Entered(0, false), Entered(1, false), Exited(1), Exited(0)])
  }

  function ChildMoved(): Config {
    Config([1, 1], [true, false], 1, ParentFailed().trace + [Entered(1, true)])
  }

  function ParentLeft(): Config {
    Config([0, 1], [false, false], 2, ChildMoved().trace + [Entered(0, true)])
  }

  function ParentBack(): Config {
    Config([1, 0], [false, false], 2, ParentLeft().trace + [Exited(0)] + [Entered(0, true)] + [Entered(1, false)])
  }

  /** A plain slot without hooks starts over. */
  lemma EnterPlain(o: Oracle, sh: Shape, c: Config, s: nat)
    requires Fits(sh, c) && s < sh.count && !sh.history(s)
    requires sh.kids(s, sh.initial(s)) == [] && sh.entryActions(s, sh.initial(s)) == 0
    ensures EnterNode(o, sh, c, [s], s)
         == (c.(state := c.state[s := sh.initial(s)], skip := c.skip[s := false],
                trace := c.trace + [Entered(s, false)]), true)
  {
    var slots := [s];
    assert slots[1..] == [];
    var state := c.state[s := sh.initial(s)];
    assert Reset(sh, c.state, slots) == Reset(sh, state, []) == state;
    assert Reset(sh, state, []) == state;
    var c1 := c.(state := state, skip := c.skip[s := false], trace := c.trace + [Entered(s, false)]);
    assert Callbacks(o, c1, 0) == (c1, true);
    assert EnterNode(o, sh, c1, [], s + 1) == (c1, true);
    assert EnterAll(o, sh, c1, [], s) == (c1, true);
  }

  lemma ExitPlain(o: Oracle, sh: Shape, c: Config, s: nat)
    requires Fits(sh, c) && s < sh.count && !c.skip[s]
    requires sh.kids(s, c.state[s]) == [] && sh.exitActions(s, c.state[s]) == 0
    ensures ExitAll(o, sh, c, [s], s) == (c.(skip := c.skip[s := true], trace := c.trace + [Exited(s)]), true)
  {
    assert [s][1..] == [];
    assert ExitAll(o, sh, c, [], s + 1) == (c, true);
    assert Callbacks(o, c, 0) == (c, true);
  }

  lemma NestedBegins()
    ensures TreeShaped(Nested(), NestedOwner, [0])
    ensures Initialized(FailsFirst, Nested(), [0], [1, 0]) == NestedStart()
  {
    var o, sh := FailsFirst, Nested();
    var c := Config([1, 0], seq(2, _ => false), 0, []);
    assert c == Config([1, 0], [false, false], 0, []);
    assert Reset(sh, [1, 0], [0]) == [1, 0];
    var c1 := Config([1, 0], [false, false], 0, [Entered(0, false)]);
    EnterPlain(o, sh, c1, 1);
    assert c1.state[1 := 0] == [1, 0] && c1.skip[1 := false] == [false, false];
    assert c1.trace + [Entered(1, false)] == NestedStart().trace;
    assert EnterNode(o, sh, c1, [1], 1) == (NestedStart(), true);
  }

  lemma ParentFails()
    ensures Run(FailsFirst, Nested(), NestedStart(), Row(0, false, 0, 1)).0 == ParentFailed()
  {
    var o, sh, c := FailsFirst, Nested(), NestedStart();
    var c1 := Config([1, 0], [false, true], 0, [Entered(0, false), Entered(1, false), Exited(1)]);
    ExitPlain(o, sh, c, 1);
    assert c.skip[1 := true] == [false, true] && c.trace + [Exited(1)] == c1.trace;
    assert ExitAll(o, sh, c, [1], 1) == (c1, true);
  }

  lemma ChildMoves()
    ensures Run(FailsFirst, Nested(), ParentFailed(), Row(1, false, 1, 0)).0 == ChildMoved()
  {
  }

  lemma ParentLeaves()
    ensures Run(FailsFirst, Nested(), ChildMoved(), Row(0, false, 0, 1)).0 == ParentLeft()
  {
  }

  lemma ParentReturns()
    ensures Run(FailsFirst, Nested(), ParentLeft(), Row(0, false, 1, 0)).0 == ParentBack()
  {
    var o, sh := FailsFirst, Nested();
    var c := Config([1, 1], [false, false], 2, ParentLeft().trace + [Exited(0)] + [Entered(0, true)]);
    EnterPlain(o, sh, c, 1);
    assert c.state[1 := 0] == [1, 0] && c.skip[1 := false] == [false, false];
    assert EnterNode(o, sh, c, [1], 1) == (ParentBack(), true);
  }

  lemma {:induction false} RunsThree(o: Oracle, sh: Shape, c: Config, r0: Row, r1: Row, r2: Row)
    requires Fits(sh, c) && r0.slot < sh.count && r1.slot < sh.count && r2.slot < sh.count
    ensures RunAll(o, sh, c, [r0, r1, r2]) == Run(o, sh, Run(o, sh, Run(o, sh, c, r0).0, r1).0, r2).0
  {
    var c1 := Run(o, sh, c, r0).0;
    var c2 := Run(o, sh, c1, r1).0;
    assert [r0, r1, r2][1..] == [r1, r2] && [r1, r2][1..] == [r2] && [r2][1..] == [];
    assert RunAll(o, sh, c2, [r2]) == RunAll(o, sh, Run(o, sh, c2, r2).0, []);
    assert RunAll(o, sh, c1, [r1, r2]) == RunAll(o, sh, c2, [r2]);
  }

  /** The parent's row fails after its exits, the child moves under the set token,
      and the parent's next row then skips the child's exit: the child is entered a
      third time with no exit since the second, in a table with no row between
      composite states. */
  lemma MoveUnderTokenMisreports()
    ensures TreeShaped(Nested(), NestedOwner, [0])
    ensures var rows := [Row(0, false, 0, 1), Row(1, false, 1, 0), Row(0, false, 0, 1), Row(0, false, 1, 0)];
            EndsUnexited(RunAll(FailsFirst, Nested(), Initialized(FailsFirst, Nested(), [0], [1, 0]), rows).trace, 1)
  {
    NestedBegins();
    var o, sh, rows := FailsFirst, Nested(),
        [Row(0, false, 0, 1), Row(1, false, 1, 0), Row(0, false, 0, 1), Row(0, false, 1, 0)];
    assert rows[1..] == [rows[1], rows[2], rows[3]];
    RunsThree(o, sh, Run(o, sh, NestedStart(), rows[0]).0, rows[1], rows[2], rows[3]);
    ParentFails();
    ChildMoves();
    ParentLeaves();
    ParentReturns();
    var t := ParentBack().trace;
    assert t[..|t| - 1] == ChildMoved().trace + [Entered(0, true), Exited(0), Entered(0, true)];
    assert t[..|t| - 1][4] == Entered(1, true);
    OthersOnly(ChildMoved().trace, [Entered(0, true), Exited(0), Entered(0, true)], 1);
  }

  /** Notes of other slots change nothing. */
  lemma {:induction false} OthersOnly(trace: seq<Note>, more: seq<Note>, s: nat)
    requires forall i :: 0 <= i < |more| ==> more[i].slot != s
    ensures ExitsSince(trace + more, s) == ExitsSince(trace, s)
    decreases |more|
  {
    if more == [] {
      assert trace + more == trace;
    } else {
      var m := |more| - 1;
      OthersOnly(trace, more[..m], s);
      assert (trace + more)[..|trace + more| - 1] == trace + more[..m];
    }
  }

  /** States 0 and 1 of slot 0 hold slots 1 and 2; state 2 is plain. */
  function TwinKids(s: nat, q: nat): seq<nat> {
    if s == 0 && q == 0 then [1] else if s == 0 && q == 1 then [2] else []
  }

  function TwinOwner(s: nat): Option<Place> {
    if s == 1 then Some(Place(0, 0)) else if s == 2 then Some(Place(0, 1)) else None
  }

  function TwinInitial(s: nat): nat { 0 }

  function Twins(): Shape {
    Shape(3, TwinKids, TwinInitial, NoHistory, NoHooks, NoHooks)
  }

  function TwinStart(): Config {
    Config([0, 0, 0], [false, false, false], 0, [Entered(0, false), Entered(1, false)])
  }

  /** The row between the composite states exits and enters slot 0 alone. */
  function TwinCrossed(): Config {
    Config([1, 0, 0], [false, false, false], 0, TwinStart().trace + [Exited(0)] + [Entered(0, true)])
  }

  function TwinLeft(): Config {
    Config([2, 0, 0], [false, false, true], 0, TwinCrossed().trace + [Exited(2)] + [Exited(0)] + [Entered(0, true)])
  }

  function TwinBack(): Config {
    Config([0, 0, 0], [false, false, true], 0,
           TwinLeft().trace + [Exited(0)] + [Entered(0, true)] + [Entered(1, false)])
  }

  lemma TwinBegins(o: Oracle)
    ensures TreeShaped(Twins(), TwinOwner, [0])
    ensures Initialized(o, Twins(), [0], [0, 0, 0]) == TwinStart()
  {
    var sh := Twins();
    assert Config([0, 0, 0], seq(3, _ => false), 0, []) == Config([0, 0, 0], [false, false, false], 0, []);
    assert Reset(sh, [0, 0, 0], [0]) == [0, 0, 0];
    var c1 := Config([0, 0, 0], [false, false, false], 0, [Entered(0, false)]);
    EnterPlain(o, sh, c1, 1);
    assert c1.state[1 := 0] == [0, 0, 0] && c1.skip[1 := false] == [false, false, false];
    assert c1.trace + [Entered(1, false)] == TwinStart().trace;
    assert EnterNode(o, sh, c1, [1], 1) == (TwinStart(), true);
  }

  lemma TwinCrosses(o: Oracle)
    ensures Run(o, Twins(), TwinStart(), Row(0, false, 1, 0)).0 == TwinCrossed()
  {
  }

  lemma TwinLeaves(o: Oracle)
    ensures Run(o, Twins(), TwinCrossed(), Row(0, false, 2, 0)).0 == TwinLeft()
  {
    var sh, c := Twins(), TwinCrossed();
    var c1 := Config([1, 0, 0], [false, false, true], 0, c.trace + [Exited(2)]);
    ExitPlain(o, sh, c, 2);
    assert c.skip[2 := true] == [false, false, true];
    assert ExitAll(o, sh, c, [2], 1) == ExitAll(o, sh, c, [2], 2);
    assert ExitAll(o, sh, c, [2], 1) == (c1, true);
  }

  lemma TwinReturns(o: Oracle)
    ensures Run(o, Twins(), TwinLeft(), Row(0, false, 0, 0)).0 == TwinBack()
  {
    var sh := Twins();
    var c := Config([0, 0, 0], [false, false, true], 0, TwinLeft().trace + [Exited(0)] + [Entered(0, true)]);
    EnterPlain(o, sh, c, 1);
    assert c.state[1 := 0] == [0, 0, 0] && c.skip[1 := false] == [false, false, true];
    assert EnterNode(o, sh, c, [1], 1) == (TwinBack(), true);
  }

  lemma TwinTrace()
    ensures EndsUnexited(TwinBack().trace, 1) && Exited(2) in TwinBack().trace && !EverEntered(TwinBack().trace, 2)
  {
    var t := TwinBack().trace;
    var more := [Exited(0), Entered(0, true), Exited(2), Exited(0), Entered(0, true), Exited(0), Entered(0, true)];
    assert t[..|t| - 1] == TwinStart().trace + more;
    assert t[..|t| - 1][1] == Entered(1, false);
    OthersOnly(TwinStart().trace, more, 1);
    assert t[4] == Exited(2);
  }

  /** A row between two composite states leaves the old state's child behind: back
      there by way of a plain state, it is entered again with no exit between, and
      the child of the other state got an exit without an entry. No callback fails. */
  lemma CompositeRowMisreports(o: Oracle)
    ensures TreeShaped(Twins(), TwinOwner, [0])
    ensures var rows := [Row(0, false, 1, 0), Row(0, false, 2, 0), Row(0, false, 0, 0)];
            var c := RunAll(o, Twins(), Initialized(o, Twins(), [0], [0, 0, 0]), rows);
            EndsUnexited(c.trace, 1) && Exited(2) in c.trace && !EverEntered(c.trace, 2)
  {
    TwinBegins(o);
    TwinCrosses(o);
    TwinLeaves(o);
    TwinReturns(o);
    RunsThree(o, Twins(), TwinStart(), Row(0, false, 1, 0), Row(0, false, 2, 0), Row(0, false, 0, 0));
    TwinTrace();
  }
}
