/** Which sites of a tree have their turn in the passes of the recovering loop
    (macros/src/composite_codegen.rs, `generate_multi_code`;
    macros/src/orthogonal_codegen.rs, `generate_exception_dispatch`), and what each
    turn does: completions go to the first active node that has one, all its regions;
    recoveries to every region, and to a scalar node only if nobody has recovered yet. */
module TreeRules {
  import opened Prelude
  import opened TreeStabilize
  import S = Stabilize

  datatype End = Nothing | Done(row: Row) | Broken(row: Row)

  // ---- One site ------------------------------------------------------------------------------------

  ghost predicate FirstLive<C>(t: Table<C>, rows: seq<Row>, x: C, row: Row) {
    exists k :: 0 <= k < |rows| && rows[k] == row && t.guard(row, x) != S.Refused
      && forall i :: 0 <= i < k ==> t.guard(rows[i], x) == S.Refused
  }

  /** Where a row that got to replace the state of `s` leaves the states: its own at
      the target and those nested in it as the row's entries left them, all others as
      they were; nothing moves if it is internal or stays in its state. */
  ghost predicate Landed<C>(t: Table<C>, c: Config<C>, c': Config<C>, s: nat, row: Row, nested: nat -> nat)
    requires s < |c.states|
  {
    && |c'.states| == |c.states|
    && forall d: nat :: d < |c.states| ==>
         c'.states[d] ==
           if row.internal || row.target == c.states[s] then c.states[d]
           else if d == s then row.target
           else if d in t.path(s) then nested(d)
           else c.states[d]
  }

  /** The rows of site `s` end: all refused and nothing changed, or the first that is
      not refused decided, as its guard and callbacks went. */
  ghost predicate Ends<C>(t: Table<C>, c: Config<C>, c': Config<C>, s: nat, rows: seq<Row>, end: End)
    requires s < |c.states|
  {
    match end
    case Nothing => AllRefused(t, c.ctx, rows) && c'.states == c.states && c'.ctx == c.ctx
    case Done(row) =>
      && FirstLive(t, rows, c.ctx, row) && t.guard(row, c.ctx) == S.Passed
      && (match t.fire(s, row, c.ctx, c.states)
          case Ran(x, nested) => c'.ctx == x && Landed(t, c, c', s, row, nested)
          case _ => false)
    case Broken(row) =>
      && FirstLive(t, rows, c.ctx, row)
      && (match t.guard(row, c.ctx)
          case Refused => false
          case Faulted => c'.states == c.states && c'.ctx == c.ctx
          case Passed =>
            match t.fire(s, row, c.ctx, c.states)
            case Ran(_, _) => false
            case FailedBefore(x) => c'.states == c.states && c'.ctx == x
            case FailedAfter(x, nested) => c'.ctx == x && Landed(t, c, c', s, row, nested))
  }

  lemma FirstLiveBehind<C>(t: Table<C>, rows: seq<Row>, x: C, row: Row)
    requires rows != [] && t.guard(rows[0], x) == S.Refused && FirstLive(t, rows[1..], x, row)
    ensures FirstLive(t, rows, x, row)
  {
    var rest := rows[1..];
    var k :| 0 <= k < |rest| && rest[k] == row && t.guard(row, x) != S.Refused
             && forall i :: 0 <= i < k ==> t.guard(rest[i], x) == S.Refused;
    assert rows[k + 1] == row;
    assert forall i :: 0 < i < |rows| ==> rows[i] == rest[i - 1];
  }

  predicate MovedIt(end: End, q: nat) {
    end.Done? && !end.row.internal && end.row.target != q
  }

  lemma {:induction false} RowsEnd<C>(t: Table<C>, c: Config<C>, s: nat, rows: seq<Row>) returns (end: End)
    requires TreeStabilize.Fits(t, c) && s < t.count
    ensures var a := TryRows(t, c, s, rows);
            && Ends(t, c, a.c, s, rows, end) && (a.handled <==> end.Done?) && (a.fault <==> end.Broken?)
            && (a.handled ==> (a.moved <==> MovedIt(end, c.states[s])))
    decreases |rows|
  {
    if rows == [] {
      end := Nothing;
    } else if t.guard(rows[0], c.ctx) == S.Refused {
      end := RowsEnd(t, c, s, rows[1..]);
      if end.Nothing? {
        assert forall i :: 0 < i < |rows| ==> rows[i] == rows[1..][i - 1];
      } else {
        FirstLiveBehind(t, rows, c.ctx, end.row);
      }
    } else {
      assert rows[0] == rows[0] && FirstLive(t, rows, c.ctx, rows[0]);
      end := if TryRow(t, c, s, rows[0]).handled then Done(rows[0]) else Broken(rows[0]);
    }
  }

  // ---- The sites of one node --------------------------------------------------------------------------

  predicate BreaksAtEnd(ends: seq<End>) {
    ends != [] && ends[|ends| - 1].Broken?
  }

  predicate SomeDone(ends: seq<End>) {
    exists k :: 0 <= k < |ends| && ends[k].Done?
  }

  type RowsOf = (nat, seq<nat>) -> seq<Row>

  /** Site `k` of `sites` finds `cs[k]` and leaves `cs[k + 1]`; settled ones are passed over. */
  ghost predicate HasTurn<C>(t: Table<C>, rows: RowsOf, skip: seq<bool>, sites: seq<nat>, cs: seq<Config<C>>,
                             ends: seq<End>, k: nat)
    requires k < |ends| < |cs| && k < |sites|
  {
    && sites[k] < |skip| && sites[k] < |cs[k].states|
    && Ends(t, cs[k], cs[k + 1], sites[k], if skip[sites[k]] then [] else rows(sites[k], cs[k].states), ends[k])
  }

  /** The sites have their turns in order, up to the first that breaks. */
  ghost predicate InTurn<C>(t: Table<C>, rows: RowsOf, skip: seq<bool>, sites: seq<nat>, cs: seq<Config<C>>,
                            ends: seq<End>) {
    && |cs| == |ends| + 1 && |ends| <= |sites|
    && (forall k: nat {:trigger ends[k]} :: k < |ends| ==> HasTurn(t, rows, skip, sites, cs, ends, k))
    && (forall k :: 0 <= k < |ends| - 1 ==> !ends[k].Broken?)
    && (|ends| < |sites| ==> BreaksAtEnd(ends))
  }

  lemma DoneInFront(end: End, ends: seq<End>)
    ensures SomeDone([end] + ends) <==> end.Done? || SomeDone(ends)
  {
    var all := [end] + ends;
    assert forall k :: 0 < k < |all| ==> all[k] == ends[k - 1];
    if SomeDone(ends) {
      var k :| 0 <= k < |ends| && ends[k].Done?;
      assert all[k + 1].Done?;
    }
    assert all[0] == end;
  }

  /** The first site breaks, and no other has its turn. */
  lemma BreaksFirst<C>(t: Table<C>, rows: RowsOf, skip: seq<bool>, sites: seq<nat>, c: Config<C>, c': Config<C>,
                       end: End)
    requires sites != [] && sites[0] < |skip| && sites[0] < |c.states| && end.Broken?
    requires Ends(t, c, c', sites[0], if skip[sites[0]] then [] else rows(sites[0], c.states), end)
    ensures InTurn(t, rows, skip, sites, [c, c'], [end]) && BreaksAtEnd([end])
  {
    assert HasTurn(t, rows, skip, sites, [c, c'], [end], 0);
  }

  lemma LastInFront(end: End, ends: seq<End>)
    requires !end.Broken?
    ensures BreaksAtEnd([end] + ends) <==> BreaksAtEnd(ends)
  {
    if ends != [] {
      assert ([end] + ends)[|ends|] == ends[|ends| - 1];
    }
  }

  lemma TurnInFront<C>(t: Table<C>, rows: RowsOf, skip: seq<bool>, sites: seq<nat>, c: Config<C>, end: End,
                       cs: seq<Config<C>>, ends: seq<End>)
    requires sites != [] && InTurn(t, rows, skip, sites[1..], cs, ends) && !end.Broken?
    requires sites[0] < |skip| && sites[0] < |c.states|
    requires Ends(t, c, cs[0], sites[0], if skip[sites[0]] then [] else rows(sites[0], c.states), end)
    ensures InTurn(t, rows, skip, sites, [c] + cs, [end] + ends)
    ensures SomeDone([end] + ends) <==> end.Done? || SomeDone(ends)
    ensures BreaksAtEnd([end] + ends) <==> BreaksAtEnd(ends)
  {
    DoneInFront(end, ends);
    var cs', ends' := [c] + cs, [end] + ends;
    assert forall k :: 0 < k < |ends'| ==> ends'[k] == ends[k - 1];
    forall k: nat | k < |ends'|
      ensures HasTurn(t, rows, skip, sites, cs', ends', k)
    {
      if k > 0 {
        assert HasTurn(t, rows, skip, sites[1..], cs, ends, k - 1) by {
          assert ends[k - 1] == ends'[k];
        }
        LaterTurn(t, rows, skip, sites, c, end, cs, ends, k);
      }
    }
    LastInFront(end, ends);
  }

  lemma LaterTurn<C>(t: Table<C>, rows: RowsOf, skip: seq<bool>, sites: seq<nat>, c: Config<C>, end: End,
                     cs: seq<Config<C>>, ends: seq<End>, k: nat)
    requires 0 < k <= |ends| < |sites| && |cs| == |ends| + 1
    requires HasTurn(t, rows, skip, sites[1..], cs, ends, k - 1)
    ensures HasTurn(t, rows, skip, sites, [c] + cs, [end] + ends, k)
  {
    var cs', ends' := [c] + cs, [end] + ends;
    assert cs'[k] == cs[k - 1] && cs'[k + 1] == cs[k] && ends'[k] == ends[k - 1] && sites[k] == sites[1..][k - 1];
  }

  function RowsToComplete<C>(t: Table<C>, origin: Option<nat>): RowsOf {
    (s: nat, states: seq<nat>) => t.completions(s, states, origin)
  }

  lemma SiteEnds<C>(t: Table<C>, c: Config<C>, s: nat, origin: Option<nat>) returns (end: End)
    requires TreeStabilize.Fits(t, c) && s < t.count
    ensures var a := TrySite(t, c, s, origin);
            && Ends(t, c, a.c, s, t.completions(s, c.states, origin), end)
            && (a.handled <==> end.Done?) && (a.fault <==> end.Broken?)
  {
    end := RowsEnd(t, c.(trace := c.trace + [S.Tried(s)]), s, t.completions(s, c.states, origin));
  }

  /** The sites of a node had their turns; the pass handled something exactly if a row
      ran, and faults exactly where a site broke. */
  ghost predicate SitesTold<C>(t: Table<C>, c: Config<C>, settled: seq<bool>, origin: Option<nat>, sites: seq<nat>,
                               cs: seq<Config<C>>, ends: seq<End>, p: Pass<C>) {
    && InTurn(t, RowsToComplete(t, origin), settled, sites, cs, ends) && cs[0] == c && cs[|cs| - 1] == p.c
    && (p.fault == if BreaksAtEnd(ends) then Some(sites[|ends| - 1]) else None)
    && (p.fault.None? ==> (p.handled <==> SomeDone(ends)))
  }

  lemma SitesGoOn<C>(t: Table<C>, c: Config<C>, settled: seq<bool>, origin: Option<nat>, sites: seq<nat>, end: End,
                     cs: seq<Config<C>>, ends: seq<End>, p: Pass<C>)
    requires sites != [] && cs != [] && SitesTold(t, cs[0], settled, origin, sites[1..], cs, ends, p) && !end.Broken?
    requires sites[0] < |settled| && sites[0] < |c.states|
    requires Ends(t, c, cs[0], sites[0], if settled[sites[0]] then [] else t.completions(sites[0], c.states, origin),
                  end)
    ensures SitesTold(t, c, settled, origin, sites, [c] + cs, [end] + ends, p.(handled := end.Done? || p.handled))
  {
    TurnInFront(t, RowsToComplete(t, origin), settled, sites, c, end, cs, ends);
  }

  /** The completions of one node: every site that is not settled has its turn. */
  lemma {:induction false} SitesInTurn<C>(t: Table<C>, c: Config<C>, settled: seq<bool>, origin: Option<nat>,
                                          sites: seq<nat>) returns (cs: seq<Config<C>>, ends: seq<End>)
    requires TreeStabilize.Fits(t, c) && |settled| == t.count && Below(sites, t.count)
    ensures SitesTold(t, c, settled, origin, sites, cs, ends, PassSites(t, c, settled, origin, sites))
    decreases |sites|
  {
    if sites == [] {
      cs, ends := [c], [];
    } else if settled[sites[0]] {
      cs, ends := SitesInTurn(t, c, settled, origin, sites[1..]);
      SitesGoOn(t, c, settled, origin, sites, Nothing, cs, ends, PassSites(t, c, settled, origin, sites[1..]));
      cs, ends := [c] + cs, [Nothing] + ends;
    } else {
      var end := SiteEnds(t, c, sites[0], origin);
      var mid := TrySite(t, c, sites[0], origin).c;
      if end.Broken? {
        BreaksFirst(t, RowsToComplete(t, origin), settled, sites, c, mid, end);
        cs, ends := [c, mid], [end];
      } else {
        cs, ends := SitesInTurn(t, mid, settled, origin, sites[1..]);
        SitesGoOn(t, c, settled, origin, sites, end, cs, ends, PassSites(t, mid, settled, origin, sites[1..]));
        cs, ends := [c] + cs, [end] + ends;
      }
    }
  }

  /** The completion step: the first active node, deepest first, of which an unsettled
      site has an enabled row is the only one to run, all its sites in turn; without
      one nothing happens. */
  ghost predicate NodeCompletes<C>(t: Table<C>, c: Config<C>, settled: seq<bool>, origin: Option<nat>, g: nat, h: nat,
                                   cs: seq<Config<C>>, ends: seq<End>, p: Pass<C>) {
    && g <= h <= |t.groups|
    && (forall k :: g <= k < h && t.active(t.groups[k], c.states) ==>
       AllQuiet(t, c, settled, origin, SitesOf(t.groups[k])))
    && if h == |t.groups| then !p.handled && p.fault.None? && p.c.states == c.states && p.c.ctx == c.ctx
       else
         && t.active(t.groups[h], c.states) &&
            InTurn(t, RowsToComplete(t, origin), settled, SitesOf(t.groups[h]), cs, ends)
         && cs[0].states == c.states && cs[0].ctx == c.ctx && cs[|cs| - 1] == p.c
         && (SomeDone(ends) || BreaksAtEnd(ends))
         && (p.fault == if BreaksAtEnd(ends) then Some(SitesOf(t.groups[h])[|ends| - 1]) else None)
         && (p.fault.None? ==> p.handled)
  }

  lemma {:induction false} FirstNodeCompletes<C>(t: Table<C>, c: Config<C>, settled: seq<bool>, origin: Option<nat>,
                                                 g: nat) returns (h: nat, cs: seq<Config<C>>, ends: seq<End>)
    requires TreeStabilize.Fits(t, c) && |settled| == t.count && g <= |t.groups|
    ensures NodeCompletes(t, c, settled, origin, g, h, cs, ends, CompletionPass(t, c, settled, origin, g))
    decreases |t.groups| - g
  {
    if g == |t.groups| {
      h, cs, ends := g, [], [];
    } else if !t.active(t.groups[g], c.states) {
      h, cs, ends := FirstNodeCompletes(t, c, settled, origin, g + 1);
    } else {
      var p := PassSites(t, c, settled, origin, SitesOf(t.groups[g]));
      if p.handled || p.fault.Some? {
        h := g;
        cs, ends := SitesInTurn(t, c, settled, origin, SitesOf(t.groups[g]));
      } else {
        SitesQuiet(t, c, settled, origin, SitesOf(t.groups[g]));
        h, cs, ends := FirstNodeCompletes(t, p.c, settled, origin, g + 1);
      }
    }
  }

  // ---- Recovery --------------------------------------------------------------------------------------------

  /** The row of site `s` took it to another state, with `x` on its path. */
  predicate MovesOver<C>(t: Table<C>, c: Config<C>, s: nat, end: End, x: nat) {
    s < |c.states| && MovedIt(end, c.states[s]) && x in t.path(s)
  }

  predicate MovedAt<C>(t: Table<C>, sites: seq<nat>, cs: seq<Config<C>>, ends: seq<End>, x: nat, k: nat) {
    k < |ends| && k < |sites| && k < |cs| && MovesOver(t, cs[k], sites[k], ends[k], x)
  }

  ghost predicate MovedOver<C>(t: Table<C>, sites: seq<nat>, cs: seq<Config<C>>, ends: seq<End>, x: nat) {
    exists k: nat :: MovedAt(t, sites, cs, ends, x, k)
  }

  /** The sites of a node recover, each on its own. The fault counts as handled exactly
      if some row ran, now or before; there is progress exactly if a site with the
      faulting one on its path moved; and all on the path of a site that moved are left. */
  ghost predicate NodeRecovers<C>(t: Table<C>, w: Walk<C>, w': Walk<C>, f: nat, sites: seq<nat>,
                                  cs: seq<Config<C>>, ends: seq<End>) {
    && InTurn(t, t.exceptions, S.Nobody(t.count), sites, cs, ends) && cs[0] == w.c && cs[|cs| - 1] == w'.c
    && (w'.failed <==> BreaksAtEnd(ends))
    && (!w'.failed ==>
          && (w'.recovery.Some? <==> w.recovery.Some? || SomeDone(ends))
          && (w'.recovery == Some(true) <==> w.recovery == Some(true) || MovedOver(t, sites, cs, ends, f))
          && (forall x: nat :: x in w'.exited <==> x in w.exited || MovedOver(t, sites, cs, ends, x)))
  }

  lemma MovedLater<C>(t: Table<C>, sites: seq<nat>, c: Config<C>, end: End, cs: seq<Config<C>>, ends: seq<End>,
                      x: nat, k: nat)
    requires sites != []
    ensures MovedAt(t, sites, [c] + cs, [end] + ends, x, k + 1) <==> MovedAt(t, sites[1..], cs, ends, x, k)
  {
    if k < |ends| && k < |cs| && k + 1 < |sites| {
      assert ([c] + cs)[k + 1] == cs[k] && ([end] + ends)[k + 1] == ends[k] && sites[1..][k] == sites[k + 1];
    }
  }

  lemma MovedInFront<C>(t: Table<C>, sites: seq<nat>, c: Config<C>, end: End, cs: seq<Config<C>>, ends: seq<End>,
                        x: nat)
    requires sites != []
    ensures MovedOver(t, sites, [c] + cs, [end] + ends, x) <==>
              MovesOver(t, c, sites[0], end, x) || MovedOver(t, sites[1..], cs, ends, x)
  {
    var cs', ends', rest := [c] + cs, [end] + ends, sites[1..];
    assert MovedAt(t, sites, cs', ends', x, 0) <==> MovesOver(t, c, sites[0], end, x);
    if MovedOver(t, sites, cs', ends', x) {
      var k: nat :| MovedAt(t, sites, cs', ends', x, k);
      if k > 0 {
        MovedLater(t, sites, c, end, cs, ends, x, k - 1);
      }
    }
    if MovedOver(t, rest, cs, ends, x) {
      var k: nat :| MovedAt(t, rest, cs, ends, x, k);
      MovedLater(t, sites, c, end, cs, ends, x, k);
    }
  }

  lemma SiteRecovers<C>(t: Table<C>, w: Walk<C>, f: nat, s: nat) returns (end: End)
    requires TreeStabilize.Fits(t, w.c) && s < t.count && !w.failed
    ensures var r := WalkSite(t, w, f, s);
            && Ends(t, w.c, r.c, s, t.exceptions(s, w.c.states), end) && (r.failed <==> end.Broken?)
            && (!r.failed ==>
                  && (r.recovery.Some? <==> w.recovery.Some? || end.Done?)
                  && (r.recovery == Some(true) <==>
                        w.recovery == Some(true) || MovesOver(t, w.c, s, end, f))
                  && (forall x: nat :: x in r.exited <==>
                        x in w.exited || MovesOver(t, w.c, s, end, x)))
  {
    end := RowsEnd(t, w.c, s, t.exceptions(s, w.c.states));
  }

  lemma {:induction false} SitesRecover<C>(t: Table<C>, w: Walk<C>, f: nat, sites: seq<nat>)
    returns (cs: seq<Config<C>>, ends: seq<End>)
    requires TreeStabilize.Fits(t, w.c) && Below(sites, t.count) && !w.failed
    ensures NodeRecovers(t, w, WalkSites(t, w, f, sites), f, sites, cs, ends)
    decreases |sites|
  {
    if sites == [] {
      cs, ends := [w.c], [];
    } else {
      var end := SiteRecovers(t, w, f, sites[0]);
      var mid := WalkSite(t, w, f, sites[0]);
      if mid.failed {
        BreaksFirst(t, t.exceptions, S.Nobody(t.count), sites, w.c, mid.c, end);
        cs, ends := [w.c, mid.c], [end];
        assert WalkSites(t, mid, f, sites[1..]) == mid;
      } else {
        cs, ends := SitesRecover(t, mid, f, sites[1..]);
        TurnInFront(t, t.exceptions, S.Nobody(t.count), sites, w.c, end, cs, ends);
        forall x: nat
          ensures MovedOver(t, sites, [w.c] + cs, [end] + ends, x) <==>
                    MovesOver(t, w.c, sites[0], end, x) || MovedOver(t, sites[1..], cs, ends, x)
        {
          MovedInFront(t, sites, w.c, end, cs, ends, x);
        }
        cs, ends := [w.c] + cs, [end] + ends;
      }
    }
  }

  /** One node's part in the walk: none if it is not active, or if it is scalar and
      the fault has been handled already; else all its sites recover. */
  ghost predicate NodeTakesPart<C(!new)>(t: Table<C>, w: Walk<C>, w': Walk<C>, f: nat, group: Group) {
    if !t.active(group, w.c.states) then w' == w
    else match group
         case Scalar(s) =>
           if w.recovery.Some? then w' == w
           else exists cs, ends :: NodeRecovers(t, w, w', f, [s], cs, ends)
         case Regions(sites) => exists cs, ends :: NodeRecovers(t, w, w', f, sites, cs, ends)
  }

  /** The walk of a fault: the nodes take part in order, until a handler fails. */
  lemma {:induction false} NodesTakePart<C(!new)>(t: Table<C>, w: Walk<C>, f: nat, g: nat) returns (ws: seq<Walk<C>>)
    requires TreeStabilize.Fits(t, w.c) && g <= |t.groups|
    ensures |ws| == |t.groups| - g + 1 && ws[0] == w && ws[|ws| - 1] == ExceptionWalk(t, w, f, g)
    ensures forall k :: 0 <= k < |t.groups| - g ==>
              if ws[k].failed then ws[k + 1] == ws[k] else NodeTakesPart(t, ws[k], ws[k + 1], f, t.groups[g + k])
    decreases |t.groups| - g
  {
    if g == |t.groups| {
      ws := [w];
    } else {
      var next := NextNode(t, w, f, g);
      var rest := NodesTakePart(t, next, f, g + 1);
      ws := [w] + rest;
      forall k | 0 <= k < |t.groups| - g
        ensures if ws[k].failed then ws[k + 1] == ws[k] else NodeTakesPart(t, ws[k], ws[k + 1], f, t.groups[g + k])
      {
        if k > 0 {
          assert ws[k] == rest[k - 1] && ws[k + 1] == rest[k] && t.groups[g + k] == t.groups[g + 1 + (k - 1)];
        }
      }
    }
  }

  lemma NextNode<C(!new)>(t: Table<C>, w: Walk<C>, f: nat, g: nat) returns (next: Walk<C>)
    requires TreeStabilize.Fits(t, w.c) && g < |t.groups|
    ensures TreeStabilize.Fits(t, next.c) && ExceptionWalk(t, w, f, g) == ExceptionWalk(t, next, f, g + 1)
    ensures if w.failed then next == w else NodeTakesPart(t, w, next, f, t.groups[g])
  {
    var group := t.groups[g];
    next := w;
    if w.failed {
      assert ExceptionWalk(t, w, f, g + 1) == w;
    } else if t.active(group, w.c.states) && (group.Scalar? ==> w.recovery.None?) {
      next := WalkSites(t, w, f, SitesOf(group));
      var cs, ends := SitesRecover(t, w, f, SitesOf(group));
    }
  }

  // ---- A turn -------------------------------------------------------------------------------------------------

  /** What follows a fault at `f`: an error if nobody handled it or a handler failed;
      with progress the origin is spent, without it the site is settled; and whoever
      was left is no longer settled. */
  ghost predicate FaultLeads<C>(t: Table<C>, c: Config<C>, settled: seq<bool>, origin: Option<nat>, f: nat, r: Turn<C>)
    requires TreeStabilize.Fits(t, c) && |settled| == t.count && f < t.count
  {
    var w := ExceptionWalk(t, Walk(c, None, {}, false), f, 0);
    match r
    case Return(out) => !out.ok && out.c == w.c && (w.failed || w.recovery.None?)
    case Again(c', settled', origin') =>
      && !w.failed && w.recovery.Some? && c'.states == w.c.states && c'.ctx == w.c.ctx && |settled'| == |settled|
      && origin' == (if w.recovery.value then None else origin)
      && (forall j :: 0 <= j < |settled| ==>
            (settled'[j] <==> (settled[j] && j !in w.exited) || (j == f && !w.recovery.value)))
      && c'.trace == w.c.trace + [if w.recovery.value then S.Recovered(f) else S.Settled(f)]
  }

  lemma TurnExactly<C>(t: Table<C>, c: Config<C>, settled: seq<bool>, origin: Option<nat>)
    requires TreeStabilize.Fits(t, c) && |settled| == t.count
    ensures var p := CompletionPass(t, c, settled, origin, 0); var r := OneTurn(t, c, settled, origin);
            match p.fault
            case Some(f) => FaultLeads(t, p.c, settled, origin, f, r)
            case None =>
              if p.handled then r == Again(p.c, settled, origin) else r == Return(Outcome(p.c, settled, origin, true))
  {
  }
}
