/** The recovering `stabilize` loop of a composite tree (macros/src/composite_codegen.rs,
    `generate_multi_code`, `recovering_stabilize_body`; macros/src/orthogonal_codegen.rs,
    `generate_exception_dispatch`): nodes deepest first, each a scalar machine or a
    group of regions, with the sites of everything nested in a row's place on its path.

    What a row's callbacks do to the states nested in its site is arbitrary here, so
    the theorems hold however entries reset them and wherever they fail. */
module TreeStabilize {
  import opened Prelude
  import S = Stabilize

  type Row = S.Row

  /** `nested` are the states of the sites nested in the row's site once it has moved:
      some were entered or reset, the others are as they were. */
  datatype Effect<+C> = Ran(ctx: C, nested: nat -> nat) | FailedBefore(ctx: C) | FailedAfter(ctx: C, nested: nat -> nat)

  datatype Group = Scalar(site: nat) | Regions(sites: seq<nat>)

  /** `groups` are the nodes in the order of the walk, the root last. `completions`
      are the rows a site tries in a configuration, the origin's first, none if its
      state is composite and not terminal. */
  datatype Table<!C> = Table(
    count: nat,
    groups: seq<Group>,
    path: nat -> seq<nat>,                  // a site and everything nested in it
    active: (Group, seq<nat>) -> bool,
    completions: (nat, seq<nat>, Option<nat>) -> seq<Row>,
    exceptions: (nat, seq<nat>) -> seq<Row>,
    guard: (Row, C) -> S.Verdict,
    fire: (nat, Row, C, seq<nat>) -> Effect<C>)

  datatype Config<+C> = Config(states: seq<nat>, ctx: C, trace: seq<S.Note>)

  function SitesOf(group: Group): seq<nat> {
    match group case Scalar(s) => [s] case Regions(sites) => sites
  }

  predicate Below(sites: seq<nat>, n: nat) {
    forall i :: 0 <= i < |sites| ==> sites[i] < n
  }

  ghost predicate Fits<C>(t: Table<C>, c: Config<C>) {
    && |c.states| == t.count
    && (forall s: nat :: s < t.count ==> Below(t.path(s), t.count) && s in t.path(s))
    && (forall g :: 0 <= g < |t.groups| ==> Below(SitesOf(t.groups[g]), t.count))
  }

  /** The row leaves the sites on this path. */
  function LeftNotes(path: seq<nat>): (r: seq<S.Note>)
    ensures |r| == |path| && forall i :: 0 <= i < |r| ==> r[i] == S.Left(path[i])
  {
    seq(|path|, i requires 0 <= i < |path| => S.Left(path[i]))
  }

  /** `moved`: the site's state was replaced by another. */
  datatype Attempt<+C> = Attempt(c: Config<C>, handled: bool, fault: bool, moved: bool)

  /** The states after site `s` moved to `q`: nothing outside its path changes. */
  function Moved(states: seq<nat>, path: seq<nat>, s: nat, q: nat, nested: nat -> nat): (r: seq<nat>)
    ensures |r| == |states|
    ensures forall i: nat :: i < |r| ==> r[i] == if i == s then q else if i in path then nested(i) else states[i]
  {
    seq(|states|, i requires 0 <= i < |states| => if i == s then q else if i in path then nested(i) else states[i])
  }

  function Replace<C>(t: Table<C>, c: Config<C>, s: nat, row: Row, ctx: C, nested: nat -> nat): (r: Config<C>)
    requires s < |c.states|
    ensures |r.states| == |c.states|
  {
    if S.Moves(row, c.states[s])
    then Config(Moved(c.states, t.path(s), s, row.target, nested), ctx, c.trace + LeftNotes(t.path(s)))
    else c.(ctx := ctx)
  }

  function TryRow<C>(t: Table<C>, c: Config<C>, s: nat, row: Row): (r: Attempt<C>)
    requires Fits(t, c) && s < t.count
    ensures Fits(t, r.c) && !(r.handled && r.fault)
  {
    match t.guard(row, c.ctx)
    case Refused => Attempt(c, false, false, false)
    case Faulted => Attempt(c, false, true, false)
    case Passed =>
      match t.fire(s, row, c.ctx, c.states)
      case Ran(ctx, nested) => Attempt(Replace(t, c, s, row, ctx, nested), true, false, S.Moves(row, c.states[s]))
      case FailedBefore(ctx) => Attempt(c.(ctx := ctx), false, true, false)
      case FailedAfter(ctx, nested) => Attempt(Replace(t, c, s, row, ctx, nested), false, true,
                                               S.Moves(row, c.states[s]))
  }

  function TryRows<C>(t: Table<C>, c: Config<C>, s: nat, rows: seq<Row>): (r: Attempt<C>)
    requires Fits(t, c) && s < t.count
    ensures Fits(t, r.c) && !(r.handled && r.fault)
    decreases |rows|
  {
    if rows == [] then Attempt(c, false, false, false)
    else
      var a := TryRow(t, c, s, rows[0]);
      if a.handled || a.fault then a else TryRows(t, a.c, s, rows[1..])
  }

  /** The completion step of one site. */
  function TrySite<C>(t: Table<C>, c: Config<C>, s: nat, origin: Option<nat>): (r: Attempt<C>)
    requires Fits(t, c) && s < t.count
    ensures Fits(t, r.c) && !(r.handled && r.fault)
  {
    TryRows(t, c.(trace := c.trace + [S.Tried(s)]), s, t.completions(s, c.states, origin))
  }

  datatype Pass<+C> = Pass(c: Config<C>, handled: bool, fault: Option<nat>)

  /** The sites of one node: every region that is not settled has its turn. */
  function PassSites<C>(t: Table<C>, c: Config<C>, settled: seq<bool>, origin: Option<nat>,
                        sites: seq<nat>): (r: Pass<C>)
    requires Fits(t, c) && |settled| == t.count && Below(sites, t.count)
    ensures Fits(t, r.c)
    ensures r.fault.Some? ==> r.fault.value < t.count && !settled[r.fault.value]
    decreases |sites|
  {
    if sites == [] then Pass(c, false, None)
    else if settled[sites[0]] then PassSites(t, c, settled, origin, sites[1..])
    else
      var a := TrySite(t, c, sites[0], origin);
      if a.fault then Pass(a.c, a.handled, Some(sites[0]))
      else
        var p := PassSites(t, a.c, settled, origin, sites[1..]);
        p.(handled := a.handled || p.handled)
  }

  /** The completion step: active nodes deepest first, until one has handled something. */
  function CompletionPass<C>(t: Table<C>, c: Config<C>, settled: seq<bool>, origin: Option<nat>, g: nat): (r: Pass<C>)
    requires Fits(t, c) && |settled| == t.count && g <= |t.groups|
    ensures Fits(t, r.c)
    ensures r.fault.Some? ==> r.fault.value < t.count && !settled[r.fault.value]
    decreases |t.groups| - g
  {
    if g == |t.groups| then Pass(c, false, None)
    else if !t.active(t.groups[g], c.states) then CompletionPass(t, c, settled, origin, g + 1)
    else
      var p := PassSites(t, c, settled, origin, SitesOf(t.groups[g]));
      if p.handled || p.fault.Some? then p else CompletionPass(t, p.c, settled, origin, g + 1)
  }

  // ---- Recovery -----------------------------------------------------------------------------

  datatype Walk<+C> = Walk(c: Config<C>, recovery: Option<bool>, exited: set<nat>, failed: bool)

  /** One site's exception rows; a moving one is progress if the faulting site is on its path. */
  function WalkSite<C>(t: Table<C>, w: Walk<C>, faulting: nat, s: nat): (r: Walk<C>)
    requires Fits(t, w.c) && s < t.count
    ensures Fits(t, r.c)
  {
    var a := TryRows(t, w.c, s, t.exceptions(s, w.c.states));
    if a.fault then Walk(a.c, w.recovery, w.exited, true)
    else if !a.handled then Walk(a.c, w.recovery, w.exited, false)
    else
      Walk(a.c, Some((a.moved && faulting in t.path(s)) || w.recovery == Some(true)),
           if a.moved then w.exited + Elements(t.path(s)) else w.exited, false)
  }

  function Elements(path: seq<nat>): set<nat> {
    set s | s in path
  }

  function WalkSites<C>(t: Table<C>, w: Walk<C>, faulting: nat, sites: seq<nat>): (r: Walk<C>)
    requires Fits(t, w.c) && Below(sites, t.count)
    ensures Fits(t, r.c)
    decreases |sites|
  {
    if sites == [] || w.failed then w
    else WalkSites(t, WalkSite(t, w, faulting, sites[0]), faulting, sites[1..])
  }

  /** The exception walk: active nodes deepest first. A scalar node recovers only
      what nobody has, regions recover each on its own. */
  function ExceptionWalk<C>(t: Table<C>, w: Walk<C>, faulting: nat, g: nat): (r: Walk<C>)
    requires Fits(t, w.c) && g <= |t.groups|
    ensures Fits(t, r.c)
    decreases |t.groups| - g
  {
    if g == |t.groups| || w.failed then w
    else
      var runs := t.active(t.groups[g], w.c.states) && (t.groups[g].Scalar? ==> w.recovery.None?);
      ExceptionWalk(t, if runs then WalkSites(t, w, faulting, SitesOf(t.groups[g])) else w, faulting, g + 1)
  }

  /** Marks of sites whose occupancy was left no longer apply. */
  function Clear(settled: seq<bool>, exited: set<nat>): (r: seq<bool>)
    ensures |r| == |settled| && forall i :: 0 <= i < |r| ==> r[i] == (settled[i] && i !in exited)
  {
    seq(|settled|, i requires 0 <= i < |settled| => settled[i] && i !in exited)
  }

  datatype Outcome<+C> = Outcome(c: Config<C>, settled: seq<bool>, origin: Option<nat>, ok: bool)

  datatype Turn<+C> = Return(out: Outcome<C>) | Again(c: Config<C>, settled: seq<bool>, origin: Option<nat>)

  function OneTurn<C>(t: Table<C>, c: Config<C>, settled: seq<bool>, origin: Option<nat>): (r: Turn<C>)
    requires Fits(t, c) && |settled| == t.count
    ensures r.Again? ==> Fits(t, r.c) && |r.settled| == t.count
  {
    var p := CompletionPass(t, c, settled, origin, 0);
    if p.fault.None? then
      if p.handled then Again(p.c, settled, origin) else Return(Outcome(p.c, settled, origin, true))
    else
      var w := ExceptionWalk(t, Walk(p.c, None, {}, false), p.fault.value, 0);
      if w.failed || w.recovery.None? then Return(Outcome(w.c, settled, origin, false))
      else Resume(w.c, Clear(settled, w.exited), origin, p.fault.value, w.recovery.value)
  }

  function Resume<C>(c: Config<C>, settled: seq<bool>, origin: Option<nat>, faulting: nat, moved: bool): (r: Turn<C>)
    requires faulting < |settled|
    ensures r.Again? && |r.settled| == |settled| && r.c.states == c.states
  {
    if moved then Again(c.(trace := c.trace + [S.Recovered(faulting)]), settled, None)
    else Again(c.(trace := c.trace + [S.Settled(faulting)]), settled[faulting := true], origin)
  }

  // ---- What is stable on return --------------------------------------------------------------

  ghost predicate AllRefused<C>(t: Table<C>, ctx: C, rows: seq<Row>) {
    forall k :: 0 <= k < |rows| ==> t.guard(rows[k], ctx) == S.Refused
  }

  /** No completion row of the site is enabled. */
  ghost predicate Quiet<C>(t: Table<C>, c: Config<C>, s: nat, origin: Option<nat>) {
    AllRefused(t, c.ctx, t.completions(s, c.states, origin))
  }

  ghost predicate AllQuiet<C>(t: Table<C>, c: Config<C>, settled: seq<bool>, origin: Option<nat>, sites: seq<nat>) {
    forall i :: 0 <= i < |sites| && sites[i] < |settled| && !settled[sites[i]] ==> Quiet(t, c, sites[i], origin)
  }

  lemma {:induction false} RowsQuiet<C>(t: Table<C>, c: Config<C>, s: nat, rows: seq<Row>)
    requires Fits(t, c) && s < t.count
    ensures var a := TryRows(t, c, s, rows);
            !a.handled && !a.fault ==> a.c == c && !a.moved && AllRefused(t, c.ctx, rows)
    decreases |rows|
  {
    if rows != [] {
      var a := TryRow(t, c, s, rows[0]);
      if !a.handled && !a.fault {
        RowsQuiet(t, a.c, s, rows[1..]);
        assert forall k :: 0 < k < |rows| ==> rows[k] == rows[1..][k - 1];
      }
    }
  }

  lemma {:induction false} SitesQuiet<C>(t: Table<C>, c: Config<C>, settled: seq<bool>, origin: Option<nat>,
                                         sites: seq<nat>)
    requires Fits(t, c) && |settled| == t.count && Below(sites, t.count)
    ensures var p := PassSites(t, c, settled, origin, sites);
            p.fault.None? && !p.handled ==>
              p.c.states == c.states && p.c.ctx == c.ctx && AllQuiet(t, c, settled, origin, sites)
    decreases |sites|
  {
    if sites != [] {
      var rest := sites[1..];
      assert forall i :: 0 < i < |sites| ==> sites[i] == rest[i - 1];
      if settled[sites[0]] {
        SitesQuiet(t, c, settled, origin, rest);
      } else {
        RowsQuiet(t, c.(trace := c.trace + [S.Tried(sites[0])]), sites[0], t.completions(sites[0], c.states, origin));
        var a := TrySite(t, c, sites[0], origin);
        if !a.fault {
          SitesQuiet(t, a.c, settled, origin, rest);
        }
      }
    }
  }

  lemma {:induction false} PassQuiet<C>(t: Table<C>, c: Config<C>, settled: seq<bool>, origin: Option<nat>, g: nat)
    requires Fits(t, c) && |settled| == t.count && g <= |t.groups|
    ensures var p := CompletionPass(t, c, settled, origin, g);
            p.fault.None? && !p.handled ==>
              && p.c.states == c.states && p.c.ctx == c.ctx
              && (forall h :: g <= h < |t.groups| && t.active(t.groups[h], c.states) ==>
                    AllQuiet(t, c, settled, origin, SitesOf(t.groups[h])))
    decreases |t.groups| - g
  {
    if g < |t.groups| {
      if !t.active(t.groups[g], c.states) {
        PassQuiet(t, c, settled, origin, g + 1);
      } else {
        SitesQuiet(t, c, settled, origin, SitesOf(t.groups[g]));
        var p := PassSites(t, c, settled, origin, SitesOf(t.groups[g]));
        if !p.handled && p.fault.None? {
          PassQuiet(t, p.c, settled, origin, g + 1);
        }
      }
    }
  }

  /** Consecutive turns of the loop: each went on to the next. */
  ghost predicate Turns<C>(t: Table<C>, cs: seq<Config<C>>, marks: seq<seq<bool>>, origins: seq<Option<nat>>) {
    && |cs| == |marks| == |origins| > 0
    && (forall k :: 0 <= k < |cs| ==> Fits(t, cs[k]) && |marks[k]| == t.count)
    && (forall k :: 0 <= k < |cs| - 1 ==>
          OneTurn(t, cs[k], marks[k], origins[k]) == Again(cs[k + 1], marks[k + 1], origins[k + 1]))
  }

  /** Whenever the turns come to a return without an error, no site of an active
      node has an enabled completion row, except those marked as settled. */
  lemma StableOnReturn<C>(t: Table<C>, cs: seq<Config<C>>, marks: seq<seq<bool>>, origins: seq<Option<nat>>,
                          r: Outcome<C>)
    requires Turns(t, cs, marks, origins)
    requires var k := |cs| - 1; OneTurn(t, cs[k], marks[k], origins[k]) == Return(r)
    requires r.ok
    ensures |r.settled| == |r.c.states| == t.count
    ensures forall g, s :: 0 <= g < |t.groups| && t.active(t.groups[g], r.c.states) && s in SitesOf(t.groups[g]) ==>
              r.settled[s] || Quiet(t, r.c, s, r.origin)
  {
    var k := |cs| - 1;
    PassQuiet(t, cs[k], marks[k], origins[k], 0);
    forall g, s | 0 <= g < |t.groups| && t.active(t.groups[g], r.c.states) && s in SitesOf(t.groups[g])
      ensures r.settled[s] || Quiet(t, r.c, s, r.origin)
    {
      assert AllQuiet(t, cs[k], marks[k], origins[k], SitesOf(t.groups[g]));
    }
  }

  // ---- Which sites are marked ------------------------------------------------------------------

  lemma {:induction false} LastOfPath(trace: seq<S.Note>, path: seq<nat>, j: nat)
    ensures S.LastAbout(trace + LeftNotes(path), j) == if j in path then Some(S.Left(j)) else S.LastAbout(trace, j)
    decreases |path|
  {
    if path == [] {
      assert trace + LeftNotes(path) == trace;
    } else {
      var m := |path| - 1;
      LastOfPath(trace, path[..m], j);
      S.LastAppend(trace + LeftNotes(path[..m]), S.Left(path[m]), j);
      assert trace + LeftNotes(path) == trace + LeftNotes(path[..m]) + [S.Left(path[m])];
      assert path == path[..m] + [path[m]];
    }
  }

  /** Marks are exactly the sites whose latest note is a fault recovered without
      progress, apart from those in `exited`. */
  ghost predicate Marked(trace: seq<S.Note>, settled: seq<bool>, exited: set<nat>) {
    forall j: nat :: j < |settled| ==> (S.LastSettled(trace, j) <==> settled[j] && j !in exited)
  }

  /** A mark outlived its occupancy: its site was left since. */
  ghost predicate Stale(trace: seq<S.Note>, settled: seq<bool>) {
    exists j: nat :: j < |settled| && settled[j] && !S.LastSettled(trace, j)
  }

  /** Some settled site is on the path. */
  predicate Hits(path: seq<nat>, settled: seq<bool>) {
    exists i :: 0 <= i < |path| && path[i] < |settled| && settled[path[i]]
  }

  /** A completion row of one of these sites leaves a settled site. */
  ghost predicate SitesLeave<C>(t: Table<C>, c: Config<C>, settled: seq<bool>, origin: Option<nat>, sites: seq<nat>)
    requires Fits(t, c) && |settled| == t.count && Below(sites, t.count)
    decreases |sites|
  {
    if sites == [] then false
    else if settled[sites[0]] then SitesLeave(t, c, settled, origin, sites[1..])
    else
      var a := TrySite(t, c, sites[0], origin);
      || (a.moved && Hits(t.path(sites[0]), settled))
      || (!a.fault && SitesLeave(t, a.c, settled, origin, sites[1..]))
  }

  /** A completion row of this turn leaves a settled site. */
  ghost predicate PassLeaves<C>(t: Table<C>, c: Config<C>, settled: seq<bool>, origin: Option<nat>, g: nat)
    requires Fits(t, c) && |settled| == t.count && g <= |t.groups|
    decreases |t.groups| - g
  {
    if g == |t.groups| then false
    else if !t.active(t.groups[g], c.states) then PassLeaves(t, c, settled, origin, g + 1)
    else
      var p := PassSites(t, c, settled, origin, SitesOf(t.groups[g]));
      || SitesLeave(t, c, settled, origin, SitesOf(t.groups[g]))
      || (!p.handled && p.fault.None? && PassLeaves(t, p.c, settled, origin, g + 1))
  }

  lemma {:induction false} RowsNote<C>(t: Table<C>, c: Config<C>, s: nat, rows: seq<Row>)
    requires Fits(t, c) && s < t.count
    ensures var a := TryRows(t, c, s, rows); a.c.trace == if a.moved then c.trace + LeftNotes(t.path(s)) else c.trace
    decreases |rows|
  {
    if rows != [] {
      var a := TryRow(t, c, s, rows[0]);
      if !a.handled && !a.fault {
        RowsNote(t, a.c, s, rows[1..]);
      }
    }
  }

  /** What one site's turn does to the latest note of a settled site. */
  lemma SiteNotes<C>(t: Table<C>, c: Config<C>, s: nat, origin: Option<nat>, j: nat)
    requires Fits(t, c) && s < t.count
    ensures var a := TrySite(t, c, s, origin);
            S.LastAbout(a.c.trace, j) ==
              if a.moved && j in t.path(s) then Some(S.Left(j))
              else if j == s then Some(S.Tried(s)) else S.LastAbout(c.trace, j)
  {
    var tried := c.(trace := c.trace + [S.Tried(s)]);
    RowsNote(t, tried, s, t.completions(s, c.states, origin));
    S.LastAppend(c.trace, S.Tried(s), j);
    LastOfPath(tried.trace, t.path(s), j);
  }

  /** Marks stay right in a site's turn, unless its row leaves a settled site. */
  lemma SiteMarks<C>(t: Table<C>, c: Config<C>, settled: seq<bool>, s: nat, origin: Option<nat>)
    requires Fits(t, c) && |settled| == t.count && s < t.count && !settled[s]
    ensures var a := TrySite(t, c, s, origin);
            && (Stale(c.trace, settled) ==> Stale(a.c.trace, settled))
            && (Marked(c.trace, settled, {}) ==>
                  if a.moved && Hits(t.path(s), settled) then Stale(a.c.trace, settled)
                      else Marked(a.c.trace, settled, {}))
  {
    var a := TrySite(t, c, s, origin);
    forall j: nat | j < |settled|
      ensures S.LastSettled(a.c.trace, j) <==> S.LastSettled(c.trace, j) && j != s && !(a.moved && j in t.path(s))
    {
      SiteNotes(t, c, s, origin, j);
    }
    if a.moved && Hits(t.path(s), settled) {
      var i :| 0 <= i < |t.path(s)| && t.path(s)[i] < |settled| && settled[t.path(s)[i]];
      assert !S.LastSettled(a.c.trace, t.path(s)[i]);
    }
  }

  lemma {:induction false} SitesMarks<C>(t: Table<C>, c: Config<C>, settled: seq<bool>, origin: Option<nat>,
                                         sites: seq<nat>)
    requires Fits(t, c) && |settled| == t.count && Below(sites, t.count)
    ensures var p := PassSites(t, c, settled, origin, sites);
            && (Stale(c.trace, settled) ==> Stale(p.c.trace, settled))
            && (Marked(c.trace, settled, {}) ==>
                  if SitesLeave(t, c, settled, origin, sites) then Stale(p.c.trace, settled)
                  else Marked(p.c.trace, settled, {}))
    decreases |sites|
  {
    if sites != [] {
      if settled[sites[0]] {
        SitesMarks(t, c, settled, origin, sites[1..]);
      } else {
        SiteMarks(t, c, settled, sites[0], origin);
        var a := TrySite(t, c, sites[0], origin);
        if !a.fault {
          SitesMarks(t, a.c, settled, origin, sites[1..]);
        }
      }
    }
  }

  /** From marks that are right, a completion pass leaves them right, or stale
      exactly if one of its rows leaves a settled site. */
  lemma {:induction false} PassMarks<C>(t: Table<C>, c: Config<C>, settled: seq<bool>, origin: Option<nat>, g: nat)
    requires Fits(t, c) && |settled| == t.count && g <= |t.groups| && Marked(c.trace, settled, {})
    ensures var p := CompletionPass(t, c, settled, origin, g);
            if PassLeaves(t, c, settled, origin, g) then Stale(p.c.trace, settled) else Marked(p.c.trace, settled, {})
    decreases |t.groups| - g
  {
    if g < |t.groups| {
      if !t.active(t.groups[g], c.states) {
        PassMarks(t, c, settled, origin, g + 1);
      } else {
        var sites := SitesOf(t.groups[g]);
        SitesMarks(t, c, settled, origin, sites);
        var p := PassSites(t, c, settled, origin, sites);
        if !p.handled && p.fault.None? {
          SitesQuiet(t, c, settled, origin, sites);
          QuietLeavesNothing(t, c, settled, origin, sites);
          PassMarks(t, p.c, settled, origin, g + 1);
        }
      }
    }
  }

  /** A row that leaves its state was handled or failed afterwards. */
  lemma {:induction false} QuietLeavesNothing<C>(t: Table<C>, c: Config<C>, settled: seq<bool>, origin: Option<nat>,
                                                 sites: seq<nat>)
    requires Fits(t, c) && |settled| == t.count && Below(sites, t.count)
    requires var p := PassSites(t, c, settled, origin, sites); !p.handled && p.fault.None?
    ensures !SitesLeave(t, c, settled, origin, sites)
    decreases |sites|
  {
    if sites != [] {
      if settled[sites[0]] {
        QuietLeavesNothing(t, c, settled, origin, sites[1..]);
      } else {
        RowsQuiet(t, c.(trace := c.trace + [S.Tried(sites[0])]), sites[0], t.completions(sites[0], c.states, origin));
        QuietLeavesNothing(t, TrySite(t, c, sites[0], origin).c, settled, origin, sites[1..]);
      }
    }
  }

  lemma WalkSiteMarks<C>(t: Table<C>, w: Walk<C>, faulting: nat, s: nat, settled: seq<bool>)
    requires Fits(t, w.c) && s < t.count && Marked(w.c.trace, settled, w.exited)
    ensures var r := WalkSite(t, w, faulting, s); !r.failed ==> Marked(r.c.trace, settled, r.exited)
  {
    var rows := t.exceptions(s, w.c.states);
    var a := TryRows(t, w.c, s, rows);
    RowsNote(t, w.c, s, rows);
    RowsQuiet(t, w.c, s, rows);
    forall j: nat | j < |settled|
      ensures S.LastAbout(w.c.trace + LeftNotes(t.path(s)), j) ==
                if j in t.path(s) then Some(S.Left(j)) else S.LastAbout(w.c.trace, j)
    {
      LastOfPath(w.c.trace, t.path(s), j);
    }
  }

  lemma {:induction false} WalkSitesMarks<C>(t: Table<C>, w: Walk<C>, faulting: nat, sites: seq<nat>,
                                             settled: seq<bool>)
    requires Fits(t, w.c) && Below(sites, t.count) && (!w.failed ==> Marked(w.c.trace, settled, w.exited))
    ensures var r := WalkSites(t, w, faulting, sites); !r.failed ==> Marked(r.c.trace, settled, r.exited)
    decreases |sites|
  {
    if sites != [] && !w.failed {
      WalkSiteMarks(t, w, faulting, sites[0], settled);
      WalkSitesMarks(t, WalkSite(t, w, faulting, sites[0]), faulting, sites[1..], settled);
    }
  }

  lemma {:induction false} WalkMarks<C>(t: Table<C>, w: Walk<C>, faulting: nat, g: nat, settled: seq<bool>)
    requires Fits(t, w.c) && g <= |t.groups| && (!w.failed ==> Marked(w.c.trace, settled, w.exited))
    ensures var r := ExceptionWalk(t, w, faulting, g); !r.failed ==> Marked(r.c.trace, settled, r.exited)
    decreases |t.groups| - g
  {
    if g < |t.groups| && !w.failed {
      var runs := t.active(t.groups[g], w.c.states) && (t.groups[g].Scalar? ==> w.recovery.None?);
      WalkSitesMarks(t, w, faulting, SitesOf(t.groups[g]), settled);
      WalkMarks(t, if runs then WalkSites(t, w, faulting, SitesOf(t.groups[g])) else w, faulting, g + 1, settled);
    }
  }

  lemma ResumeMarks<C>(c: Config<C>, settled: seq<bool>, exited: set<nat>, origin: Option<nat>, f: nat, moved: bool)
    requires f < |settled| && !settled[f] && Marked(c.trace, settled, exited)
    ensures var r := Resume(c, Clear(settled, exited), origin, f, moved); Marked(r.c.trace, r.settled, {})
  {
    forall j: nat | j < |settled|
      ensures S.LastAbout(c.trace + [S.Settled(f)], j) == if j == f then Some(S.Settled(f)) else S.LastAbout(c.trace, j)
      ensures S.LastAbout(c.trace + [S.Recovered(f)], j) ==
                if j == f then Some(S.Recovered(f)) else S.LastAbout(c.trace, j)
    {
      S.LastAppend(c.trace, S.Settled(f), j);
      S.LastAppend(c.trace, S.Recovered(f), j);
    }
  }

  lemma TurnMarks<C>(t: Table<C>, c: Config<C>, settled: seq<bool>, origin: Option<nat>)
    requires Fits(t, c) && |settled| == t.count && Marked(c.trace, settled, {})
    requires !PassLeaves(t, c, settled, origin, 0)
    ensures match OneTurn(t, c, settled, origin)
            case Again(c', settled', _) => Marked(c'.trace, settled', {})
            case Return(out) => out.ok ==> Marked(out.c.trace, out.settled, {})
  {
    PassMarks(t, c, settled, origin, 0);
    var p := CompletionPass(t, c, settled, origin, 0);
    if p.fault.Some? {
      var w := ExceptionWalk(t, Walk(p.c, None, {}, false), p.fault.value, 0);
      WalkMarks(t, Walk(p.c, None, {}, false), p.fault.value, 0, settled);
      if !w.failed && w.recovery.Some? {
        ResumeMarks(w.c, settled, w.exited, origin, p.fault.value, w.recovery.value);
      }
    }
  }

  ghost predicate NeverLeaves<C>(t: Table<C>, cs: seq<Config<C>>, marks: seq<seq<bool>>, origins: seq<Option<nat>>)
    requires Turns(t, cs, marks, origins)
  {
    forall k :: 0 <= k < |cs| ==> !PassLeaves(t, cs[k], marks[k], origins[k], 0)
  }

  lemma {:induction false} TurnsKeepMarks<C>(t: Table<C>, cs: seq<Config<C>>, marks: seq<seq<bool>>,
                                             origins: seq<Option<nat>>, k: nat)
    requires Turns(t, cs, marks, origins) && NeverLeaves(t, cs, marks, origins) && k < |cs|
    requires Marked(cs[0].trace, marks[0], {})
    ensures Marked(cs[k].trace, marks[k], {})
    decreases k
  {
    if k > 0 {
      TurnsKeepMarks(t, cs, marks, origins, k - 1);
      TurnMarks(t, cs[k - 1], marks[k - 1], origins[k - 1]);
      assert OneTurn(t, cs[k - 1], marks[k - 1], origins[k - 1]) == Again(cs[k], marks[k], origins[k]);
    }
  }

  /** The marks on return are those of sites whose latest note is a fault recovered
      without progress, neither tried again nor left since, if no completion row
      that ran left a settled site. */
  lemma MarksOnReturn<C>(t: Table<C>, cs: seq<Config<C>>, marks: seq<seq<bool>>, origins: seq<Option<nat>>,
                         r: Outcome<C>)
    requires Turns(t, cs, marks, origins) && NeverLeaves(t, cs, marks, origins)
    requires cs[0].trace == [] && marks[0] == S.Nobody(t.count)
    requires var k := |cs| - 1; OneTurn(t, cs[k], marks[k], origins[k]) == Return(r)
    requires r.ok
    ensures |r.settled| == t.count
    ensures forall i: nat :: i < t.count ==> (r.settled[i] <==> S.LastAbout(r.c.trace, i) == Some(S.Settled(i)))
  {
    var k := |cs| - 1;
    TurnsKeepMarks(t, cs, marks, origins, k);
    TurnMarks(t, cs[k], marks[k], origins[k]);
  }

  // ---- When a completion row cannot leave a settled site -------------------------------------------

  datatype Place = Place(slot: nat, state: nat)

  /** Where the sites are nested, and which states are `X`. */
  datatype Nesting = Nesting(own: nat -> Option<Place>, depth: nat -> nat, terminal: (nat, nat) -> bool)

  predicate Inside(n: Nesting, d: nat, p: nat)
    decreases n.depth(d)
  {
    match n.own(d)
    case None => false
    case Some(at) => n.depth(at.slot) < n.depth(d) && (at.slot == p || Inside(n, at.slot, p))
  }

  predicate Active(n: Nesting, states: seq<nat>, d: nat)
    decreases n.depth(d)
  {
    match n.own(d)
    case None => true
    case Some(at) =>
      && n.depth(at.slot) < n.depth(d) && at.slot < |states| && states[at.slot] == at.state
      && Active(n, states, at.slot)
  }

  /** Active and not terminated. */
  predicate Live(n: Nesting, states: seq<nat>, d: nat) {
    Active(n, states, d) && d < |states| && !n.terminal(d, states[d])
  }

  lemma {:induction false} InsideIsDeeper(n: Nesting, d: nat, p: nat)
    requires Inside(n, d, p)
    ensures n.depth(p) < n.depth(d)
    decreases n.depth(d)
  {
    if n.own(d).value.slot != p {
      InsideIsDeeper(n, n.own(d).value.slot, p);
    }
  }

  lemma {:induction false} InsideTransitive(n: Nesting, d: nat, a: nat, p: nat)
    requires Inside(n, d, a) && Inside(n, a, p)
    ensures Inside(n, d, p)
    decreases n.depth(d)
  {
    if n.own(d).value.slot != a {
      InsideTransitive(n, n.own(d).value.slot, a, p);
    }
  }

  lemma {:induction false} SameAbove(n: Nesting, a: seq<nat>, b: seq<nat>, d: nat)
    requires |a| == |b| && forall p: nat :: p < |a| && Inside(n, d, p) ==> a[p] == b[p]
    ensures Active(n, a, d) == Active(n, b, d)
    decreases n.depth(d)
  {
    if n.own(d).Some? && n.depth(n.own(d).value.slot) < n.depth(d) {
      SameAbove(n, a, b, n.own(d).value.slot);
    }
  }

  /** What is active inside `s` is a kid of its state, or is nested in the current state of such a kid. */
  lemma {:induction false} ActiveInside(n: Nesting, states: seq<nat>, d: nat, s: nat) returns (k: nat, x: nat)
    requires Active(n, states, d) && Inside(n, d, s) && s < |states| && d < |states|
    ensures k < |states| && n.own(k) == Some(Place(s, states[s]))
    ensures d == k || n.own(x) == Some(Place(k, states[k]))
    decreases n.depth(d)
  {
    var at := n.own(d).value;
    if at.slot == s {
      k, x := d, d;
    } else {
      k, x := ActiveInside(n, states, at.slot, s);
      if at.slot == k {
        x := d;
      }
    }
  }

  /** Tables whose `X` states are final: nothing is nested in `X`, no completion row
      leaves it, a composite state completes only when everything nested in it is
      in `X`, and nothing can fail once `X` was entered. */
  ghost predicate Gated<C(!new)>(t: Table<C>, n: Nesting) {
    && (forall s: nat, d: nat {:trigger d in t.path(s)} ::
          s < t.count && d < t.count ==> (d in t.path(s) <==> d == s || Inside(n, d, s)))
    && (forall g, states: seq<nat> {:trigger t.active(t.groups[g], states)} ::
          0 <= g < |t.groups| && t.active(t.groups[g], states) ==> AllActive(n, states, SitesOf(t.groups[g])))
    && (forall g :: 0 <= g < |t.groups| ==> Siblings(n, SitesOf(t.groups[g])))
    && (forall s: nat, states: seq<nat>, origin: Option<nat> {:trigger t.completions(s, states, origin)} ::
          s < t.count == |states| && t.completions(s, states, origin) != [] ==> Finished(n, states, s))
    && (forall s: nat, q: nat, k: nat :: n.own(k) == Some(Place(s, q)) ==> !n.terminal(s, q))
    && (forall s: nat, row: Row, ctx: C, states: seq<nat> {:trigger t.fire(s, row, ctx, states)} ::
          t.fire(s, row, ctx, states).FailedAfter? ==> !n.terminal(s, row.target))
  }

  ghost predicate AllActive(n: Nesting, states: seq<nat>, sites: seq<nat>) {
    forall i :: 0 <= i < |sites| ==> Active(n, states, sites[i])
  }

  ghost predicate Siblings(n: Nesting, sites: seq<nat>) {
    forall i, j :: 0 <= i < |sites| && 0 <= j < |sites| ==> n.own(sites[i]) == n.own(sites[j])
  }

  /** Site `s` is not in `X`, and everything nested in its state is. */
  ghost predicate Finished(n: Nesting, states: seq<nat>, s: nat)
    requires s < |states|
  {
    && !n.terminal(s, states[s])
    && forall k: nat :: k < |states| && n.own(k) == Some(Place(s, states[s])) ==> n.terminal(k, states[k])
  }

  /** Every settled site is active and not in `X`. */
  ghost predicate Held(n: Nesting, states: seq<nat>, settled: seq<bool>) {
    forall j: nat :: j < |settled| && settled[j] ==> Live(n, states, j)
  }

  /** A site off the path of the row that ran is as it was. */
  lemma OffPath<C(!new)>(t: Table<C>, n: Nesting, c: Config<C>, s: nat, states: seq<nat>, d: nat)
    requires Fits(t, c) && Gated(t, n) && s < t.count && d < t.count && d !in t.path(s)
    requires |states| == t.count && forall i: nat :: i < t.count && i !in t.path(s) ==> states[i] == c.states[i]
    ensures states[d] == c.states[d] && Active(n, states, d) == Active(n, c.states, d)
    ensures Live(n, states, d) == Live(n, c.states, d)
  {
    forall p: nat | p < t.count && Inside(n, d, p)
      ensures states[p] == c.states[p]
    {
      if p in t.path(s) {
        if p != s {
          InsideTransitive(n, d, p, s);
        }
      }
    }
    SameAbove(n, states, c.states, d);
  }

  /** Attempts change states on the site's path only, and only if they move. */
  lemma {:induction false} RowsStates<C>(t: Table<C>, c: Config<C>, s: nat, rows: seq<Row>)
    requires Fits(t, c) && s < t.count
    ensures var a := TryRows(t, c, s, rows);
            && (forall i: nat :: i < t.count && i !in t.path(s) ==> a.c.states[i] == c.states[i])
            && (!a.moved ==> a.c.states == c.states)
    decreases |rows|
  {
    if rows != [] {
      var a := TryRow(t, c, s, rows[0]);
      if !a.handled && !a.fault {
        RowsStates(t, a.c, s, rows[1..]);
      }
    }
  }

  /** A row that faults after it moved is not in `X`. */
  lemma {:induction false} FaultIsLive<C(!new)>(t: Table<C>, n: Nesting, c: Config<C>, s: nat, rows: seq<Row>)
    requires Fits(t, c) && Gated(t, n) && s < t.count
    requires TryRows(t, c, s, rows).fault && TryRows(t, c, s, rows).moved
    ensures !n.terminal(s, TryRows(t, c, s, rows).c.states[s])
    decreases |rows|
  {
    var a := TryRow(t, c, s, rows[0]);
    if !a.handled && !a.fault {
      FaultIsLive(t, n, a.c, s, rows[1..]);
    } else {
      assert t.fire(s, rows[0], c.ctx, c.states).FailedAfter?;
    }
  }

  /** No settled site is nested in a site that completes. */
  lemma NothingSettledInside<C(!new)>(t: Table<C>, n: Nesting, c: Config<C>, settled: seq<bool>, s: nat)
    requires Fits(t, c) && Gated(t, n) && |settled| == t.count && s < t.count && !settled[s]
    requires Held(n, c.states, settled) && Finished(n, c.states, s)
    ensures !Hits(t.path(s), settled)
  {
    if Hits(t.path(s), settled) {
      var i :| 0 <= i < |t.path(s)| && t.path(s)[i] < |settled| && settled[t.path(s)[i]];
      var j := t.path(s)[i];
      assert j in t.path(s) && Inside(n, j, s);
      var k, x := ActiveInside(n, c.states, j, s);
    }
  }

  lemma SiteHolds<C(!new)>(t: Table<C>, n: Nesting, c: Config<C>, settled: seq<bool>, s: nat, origin: Option<nat>)
    requires Fits(t, c) && Gated(t, n) && |settled| == t.count && s < t.count && !settled[s]
    requires Held(n, c.states, settled) && Active(n, c.states, s)
    ensures var a := TrySite(t, c, s, origin);
            && !(a.moved && Hits(t.path(s), settled)) && Held(n, a.c.states, settled)
            && (a.fault ==> Live(n, a.c.states, s))
  {
    var tried := c.(trace := c.trace + [S.Tried(s)]);
    var rows := t.completions(s, c.states, origin);
    var a := TrySite(t, c, s, origin);
    RowsStates(t, tried, s, rows);
    if rows != [] {
      NothingSettledInside(t, n, c, settled, s);
      forall j: nat | j < |settled| && settled[j]
        ensures Live(n, a.c.states, j)
      {
        if a.moved {
          assert j !in t.path(s);
          OffPath(t, n, c, s, a.c.states, j);
        }
      }
      if a.fault {
        StaysActive(t, n, c, s, a.c.states, s);
        if a.moved {
          FaultIsLive(t, n, tried, s, rows);
        }
      }
    }
  }

  /** A row of a site does not change whether the site or its siblings are active. */
  lemma StaysActive<C(!new)>(t: Table<C>, n: Nesting, c: Config<C>, s: nat, states: seq<nat>, d: nat)
    requires Fits(t, c) && Gated(t, n) && s < t.count && d < t.count && n.own(d) == n.own(s)
    requires |states| == t.count && forall i: nat :: i < t.count && i !in t.path(s) ==> states[i] == c.states[i]
    requires Active(n, c.states, s)
    ensures Active(n, states, d) == Active(n, c.states, d)
  {
    forall p: nat | p < t.count && Inside(n, d, p)
      ensures states[p] == c.states[p]
    {
      SiblingInside(n, d, s, p);
      InsideIsDeeper(n, s, p);
      if p in t.path(s) && p != s {
        InsideIsDeeper(n, p, s);
      }
    }
    SameAbove(n, states, c.states, d);
  }

  lemma SiblingInside(n: Nesting, d: nat, s: nat, p: nat)
    requires n.own(d) == n.own(s) && Inside(n, d, p) && (n.own(s).Some? ==> n.depth(n.own(s).value.slot) < n.depth(s))
    ensures Inside(n, s, p)
  {
  }

  lemma {:induction false} SitesHold<C(!new)>(t: Table<C>, n: Nesting, c: Config<C>, settled: seq<bool>,
                                               origin: Option<nat>, sites: seq<nat>)
    requires Fits(t, c) && Gated(t, n) && |settled| == t.count && Below(sites, t.count)
    requires Held(n, c.states, settled) && AllActive(n, c.states, sites) && Siblings(n, sites)
    ensures var p := PassSites(t, c, settled, origin, sites);
            && !SitesLeave(t, c, settled, origin, sites) && Held(n, p.c.states, settled)
            && (p.fault.Some? ==> Live(n, p.c.states, p.fault.value))
    decreases |sites|
  {
    if sites != [] {
      var rest := sites[1..];
      assert forall i :: 0 < i < |sites| ==> sites[i] == rest[i - 1];
      if settled[sites[0]] {
        SitesHold(t, n, c, settled, origin, rest);
      } else {
        SiteHolds(t, n, c, settled, sites[0], origin);
        var a := TrySite(t, c, sites[0], origin);
        if !a.fault {
          RowsStates(t, c.(trace := c.trace + [S.Tried(sites[0])]), sites[0],
                     t.completions(sites[0], c.states, origin));
          forall i | 0 <= i < |rest|
            ensures Active(n, a.c.states, rest[i])
          {
            assert rest[i] == sites[i + 1];
            StaysActive(t, n, c, sites[0], a.c.states, rest[i]);
          }
          SitesHold(t, n, a.c, settled, origin, rest);
        }
      }
    }
  }

  lemma {:induction false} PassHolds<C(!new)>(t: Table<C>, n: Nesting, c: Config<C>, settled: seq<bool>,
                                               origin: Option<nat>, g: nat)
    requires Fits(t, c) && Gated(t, n) && |settled| == t.count && g <= |t.groups| && Held(n, c.states, settled)
    ensures var p := CompletionPass(t, c, settled, origin, g);
            && !PassLeaves(t, c, settled, origin, g) && Held(n, p.c.states, settled)
            && (p.fault.Some? ==> Live(n, p.c.states, p.fault.value))
    decreases |t.groups| - g
  {
    if g < |t.groups| {
      if !t.active(t.groups[g], c.states) {
        PassHolds(t, n, c, settled, origin, g + 1);
      } else {
        SitesHold(t, n, c, settled, origin, SitesOf(t.groups[g]));
        var p := PassSites(t, c, settled, origin, SitesOf(t.groups[g]));
        if !p.handled && p.fault.None? {
          PassHolds(t, n, p.c, settled, origin, g + 1);
        }
      }
    }
  }

  /** During an exception walk: settled sites and the faulting one are live unless
      they were left, and if the faulting one was, that is progress. */
  ghost predicate WalkHeld<C>(n: Nesting, w: Walk<C>, settled: seq<bool>, f: nat) {
    && (forall j: nat :: j < |settled| && (settled[j] || j == f) && j !in w.exited ==> Live(n, w.c.states, j))
    && (f in w.exited ==> w.recovery == Some(true))
  }

  lemma WalkSiteHolds<C(!new)>(t: Table<C>, n: Nesting, w: Walk<C>, f: nat, s: nat, settled: seq<bool>)
    requires Fits(t, w.c) && Gated(t, n) && |settled| == t.count && s < t.count && WalkHeld(n, w, settled, f)
    ensures var r := WalkSite(t, w, f, s); !r.failed ==> WalkHeld(n, r, settled, f)
  {
    var rows := t.exceptions(s, w.c.states);
    var a := TryRows(t, w.c, s, rows);
    var r := WalkSite(t, w, f, s);
    RowsStates(t, w.c, s, rows);
    RowsQuiet(t, w.c, s, rows);
    if !r.failed && a.moved {
      forall j: nat | j < |settled| && (settled[j] || j == f) && j !in r.exited
        ensures Live(n, r.c.states, j)
      {
        assert j !in t.path(s);
        OffPath(t, n, w.c, s, a.c.states, j);
      }
    }
  }

  lemma {:induction false} WalkSitesHold<C(!new)>(t: Table<C>, n: Nesting, w: Walk<C>, f: nat, sites: seq<nat>,
                                                   settled: seq<bool>)
    requires Fits(t, w.c) && Gated(t, n) && |settled| == t.count && Below(sites, t.count)
    requires !w.failed ==> WalkHeld(n, w, settled, f)
    ensures var r := WalkSites(t, w, f, sites); !r.failed ==> WalkHeld(n, r, settled, f)
    decreases |sites|
  {
    if sites != [] && !w.failed {
      WalkSiteHolds(t, n, w, f, sites[0], settled);
      WalkSitesHold(t, n, WalkSite(t, w, f, sites[0]), f, sites[1..], settled);
    }
  }

  lemma {:induction false} WalkHolds<C(!new)>(t: Table<C>, n: Nesting, w: Walk<C>, f: nat, g: nat, settled: seq<bool>)
    requires Fits(t, w.c) && Gated(t, n) && |settled| == t.count && g <= |t.groups|
    requires !w.failed ==> WalkHeld(n, w, settled, f)
    ensures var r := ExceptionWalk(t, w, f, g); !r.failed ==> WalkHeld(n, r, settled, f)
    decreases |t.groups| - g
  {
    if g < |t.groups| && !w.failed {
      var runs := t.active(t.groups[g], w.c.states) && (t.groups[g].Scalar? ==> w.recovery.None?);
      WalkSitesHold(t, n, w, f, SitesOf(t.groups[g]), settled);
      WalkHolds(t, n, if runs then WalkSites(t, w, f, SitesOf(t.groups[g])) else w, f, g + 1, settled);
    }
  }

  lemma TurnHolds<C(!new)>(t: Table<C>, n: Nesting, c: Config<C>, settled: seq<bool>, origin: Option<nat>)
    requires Fits(t, c) && Gated(t, n) && |settled| == t.count && Held(n, c.states, settled)
    ensures !PassLeaves(t, c, settled, origin, 0)
    ensures var r := OneTurn(t, c, settled, origin); r.Again? ==> Held(n, r.c.states, r.settled)
  {
    PassHolds(t, n, c, settled, origin, 0);
    var p := CompletionPass(t, c, settled, origin, 0);
    if p.fault.Some? {
      WalkHolds(t, n, Walk(p.c, None, {}, false), p.fault.value, 0, settled);
    }
  }

  lemma {:induction false} TurnsHold<C(!new)>(t: Table<C>, n: Nesting, cs: seq<Config<C>>, marks: seq<seq<bool>>,
                                               origins: seq<Option<nat>>, k: nat)
    requires Turns(t, cs, marks, origins) && Gated(t, n) && k < |cs| && Held(n, cs[0].states, marks[0])
    ensures Held(n, cs[k].states, marks[k]) && !PassLeaves(t, cs[k], marks[k], origins[k], 0)
    decreases k
  {
    if k > 0 {
      TurnsHold(t, n, cs, marks, origins, k - 1);
      TurnHolds(t, n, cs[k - 1], marks[k - 1], origins[k - 1]);
      assert OneTurn(t, cs[k - 1], marks[k - 1], origins[k - 1]) == Again(cs[k], marks[k], origins[k]);
    }
    TurnHolds(t, n, cs[k], marks[k], origins[k]);
  }

  /** In a table whose `X` states are final no completion row ever leaves a settled
      site, so a site marked on return has neither been tried again nor left since
      its fault was recovered without progress. */
  lemma MarksAreExact<C(!new)>(t: Table<C>, n: Nesting, cs: seq<Config<C>>, marks: seq<seq<bool>>,
                               origins: seq<Option<nat>>, r: Outcome<C>)
    requires Turns(t, cs, marks, origins) && Gated(t, n)
    requires cs[0].trace == [] && marks[0] == S.Nobody(t.count)
    requires var k := |cs| - 1; OneTurn(t, cs[k], marks[k], origins[k]) == Return(r)
    requires r.ok
    ensures NeverLeaves(t, cs, marks, origins) && |r.settled| == t.count
    ensures forall i: nat :: i < t.count ==> (r.settled[i] <==> S.LastAbout(r.c.trace, i) == Some(S.Settled(i)))
  {
    forall k | 0 <= k < |cs|
      ensures !PassLeaves(t, cs[k], marks[k], origins[k], 0)
    {
      TurnsHold(t, n, cs, marks, origins, k);
    }
    MarksOnReturn(t, cs, marks, origins, r);
  }

  // ---- A settled mark that outlives its occupancy ------------------------------------------------------

  // Site 0 is the slot of table C, sites 1 and 2 are the root's regions. Region 1
  // goes from state<C> (1) to a plain state (2) when C is in X (0), and back. The
  // entry hook of C's X fails, and an internal exception row on state<C> handles it.

  function CompletionsOf(s: nat, states: seq<nat>, origin: Option<nat>): seq<Row> {
    if |states| != 3 then []
    else if s == 0 && states[0] == 1 then [S.Row(0, 0, false)]
    else if s == 1 && states[1] == 1 && states[0] == 0 then [S.Row(1, 2, false)]
    else if s == 1 && states[1] == 2 then [S.Row(2, 1, false)]
    else []
  }

  function ExceptionsOf(s: nat, states: seq<nat>): seq<Row> {
    if |states| == 3 && s == 1 && states[1] == 1 then [S.Row(3, 0, true)] else []
  }

  function PathOf(s: nat): seq<nat> {
    if s == 1 then [1, 0] else [s]
  }

  function ActiveGroup(group: Group, states: seq<nat>): bool {
    group.Scalar? ==> |states| == 3 && states[1] == 1
  }

  function AlwaysPasses(row: Row, ctx: int): S.Verdict {
    S.Passed
  }

  /** C starts in its state 1. */
  function StartOver(s: nat): nat { 1 }

  function StaysInX(s: nat): nat { 0 }

  function FireRow(s: nat, row: Row, ctx: int, states: seq<nat>): Effect<int> {
    if row.id == 0 then FailedAfter(ctx, StartOver)
    else if row.id == 1 then Ran(ctx, StaysInX)
    else Ran(ctx, StartOver)
  }

  function Pair(): Table<int> {
    Table(3, [Scalar(0), Regions([1, 2])], PathOf, ActiveGroup, CompletionsOf, ExceptionsOf, AlwaysPasses, FireRow)
  }

  function PairStart(): Config<int> { Config([1, 1, 1], 0, []) }

  /** C's row into X failed after the move; the internal row handled it. */
  function PairSettled(): Config<int> {
    Config([0, 1, 1], 0, [S.Tried(0)] + LeftNotes([0]) + [S.Settled(0)])
  }

  function PairLeft(): Config<int> {
    Config([0, 2, 1], 0, PairSettled().trace + [S.Tried(1)] + LeftNotes([1, 0]) + [S.Tried(2)])
  }

  function PairBack(): Config<int> {
    Config([1, 1, 1], 0, PairLeft().trace + [S.Tried(1)] + LeftNotes([1, 0]) + [S.Tried(2)])
  }

  function PairStable(): Config<int> {
    PairBack().(trace := PairBack().trace + [S.Tried(1)] + [S.Tried(2)])
  }

  lemma PairSettles()
    ensures OneTurn(Pair(), PairStart(), [false, false, false], None) ==
            Again(PairSettled(), [true, false, false], None)
  {
    var t, c := Pair(), PairStart();
    var c1 := Config([0, 1, 1], 0, [S.Tried(0)] + LeftNotes([0]));
    assert Moved([1, 1, 1], [0], 0, 0, StartOver) == [0, 1, 1];
    assert TrySite(t, c, 0, None) == Attempt(c1, false, true, true);
    assert PassSites(t, c, [false, false, false], None, [0]) == Pass(c1, false, Some(0));
    var w := Walk(c1, None, {}, false);
    assert WalkSite(t, w, 0, 0) == w;
    assert WalkSites(t, w, 0, [0]) == w;
    var w1 := Walk(c1, Some(false), {}, false);
    assert WalkSite(t, w, 0, 1) == w1;
    assert WalkSite(t, w1, 0, 2) == w1;
    assert [1, 2][1..] == [2] && [2][1..] == [];
    assert WalkSites(t, w1, 0, [2]) == w1;
    assert WalkSites(t, w, 0, [1, 2]) == w1;
    assert ExceptionWalk(t, w, 0, 1) == w1;
    assert ExceptionWalk(t, w, 0, 0) == w1;
    assert Clear([false, false, false], {})[0 := true] == [true, false, false];
  }

  /** One turn of the root's regions, with C's site marked as settled. */
  lemma PairMoves(c: Config<int>, c1: Config<int>, row: Row, states: seq<nat>)
    requires |c.states| == 3 == |states| && CompletionsOf(1, c.states, None) == [row] && (row.id == 1 || row.id == 2)
    requires states == Moved(c.states, [1, 0], 1, row.target, if row.id == 1 then StaysInX else StartOver)
    requires S.Moves(row, c.states[1]) && CompletionsOf(2, states, None) == []
    requires c1 == Config(states, 0, c.trace + [S.Tried(1)] + LeftNotes([1, 0])) && c.ctx == 0
    ensures OneTurn(Pair(), c, [true, false, false], None)
         == Again(c1.(trace := c1.trace + [S.Tried(2)]), [true, false, false], None)
  {
    var t, settled := Pair(), [true, false, false];
    assert TrySite(t, c, 1, None) == Attempt(c1, true, false, true);
    var c2 := c1.(trace := c1.trace + [S.Tried(2)]);
    assert TrySite(t, c1, 2, None) == Attempt(c2, false, false, false);
    assert [1, 2][1..] == [2] && [2][1..] == [];
    assert PassSites(t, c2, settled, None, []) == Pass(c2, false, None);
    assert PassSites(t, c1, settled, None, [2]) == Pass(c2, false, None);
    assert PassSites(t, c, settled, None, [1, 2]) == Pass(c2, true, None);
    assert CompletionPass(t, c, settled, None, 1) == Pass(c2, true, None);
    SettledFirst(c, settled);
  }

  lemma SettledFirst(c: Config<int>, settled: seq<bool>)
    requires |c.states| == 3 == |settled| && settled[0]
    ensures CompletionPass(Pair(), c, settled, None, 0) == CompletionPass(Pair(), c, settled, None, 1)
  {
    assert [0][1..] == [];
    assert PassSites(Pair(), c, settled, None, []) == Pass(c, false, None);
    assert PassSites(Pair(), c, settled, None, [0]) == Pass(c, false, None);
  }

  lemma PairReturns()
    ensures OneTurn(Pair(), PairBack(), [true, false, false], None)
         == Return(Outcome(PairStable(), [true, false, false], None, true))
  {
    var t, c, settled := Pair(), PairBack(), [true, false, false];
    var c1 := c.(trace := c.trace + [S.Tried(1)]);
    assert TrySite(t, c, 1, None) == Attempt(c1, false, false, false);
    assert TrySite(t, c1, 2, None) == Attempt(PairStable(), false, false, false);
    assert [1, 2][1..] == [2] && [2][1..] == [];
    assert PassSites(t, PairStable(), settled, None, []) == Pass(PairStable(), false, None);
    assert PassSites(t, c1, settled, None, [2]) == Pass(PairStable(), false, None);
    assert PassSites(t, c, settled, None, [1, 2]) == Pass(PairStable(), false, None);
    assert CompletionPass(t, PairStable(), settled, None, 2) == Pass(PairStable(), false, None);
    assert CompletionPass(t, c, settled, None, 1) == Pass(PairStable(), false, None);
    SettledFirst(c, settled);
  }

  lemma PairLeaves()
    ensures OneTurn(Pair(), PairSettled(), [true, false, false], None) == Again(PairLeft(), [true, false, false], None)
  {
    assert Moved([0, 1, 1], [1, 0], 1, 2, StaysInX) == [0, 2, 1];
    PairMoves(PairSettled(), Config([0, 2, 1], 0, PairSettled().trace + [S.Tried(1)] + LeftNotes([1, 0])),
              S.Row(1, 2, false), [0, 2, 1]);
  }

  lemma PairComesBack()
    ensures OneTurn(Pair(), PairLeft(), [true, false, false], None) == Again(PairBack(), [true, false, false], None)
  {
    assert Moved([0, 2, 1], [1, 0], 1, 1, StartOver) == [1, 1, 1];
    PairMoves(PairLeft(), Config([1, 1, 1], 0, PairLeft().trace + [S.Tried(1)] + LeftNotes([1, 0])),
              S.Row(2, 1, false), [1, 1, 1]);
  }

  function PairConfigs(): seq<Config<int>> {
    [PairStart(), PairSettled(), PairLeft(), PairBack()]
  }

  function PairMarks(): seq<seq<bool>> {
    [[false, false, false], [true, false, false], [true, false, false], [true, false, false]]
  }

  lemma PairFits(c: Config<int>)
    requires |c.states| == 3
    ensures Fits(Pair(), c)
  {
  }

  lemma PairTurns()
    ensures Turns(Pair(), PairConfigs(), PairMarks(), [None, None, None, None])
  {
    forall k | 0 <= k < 4
      ensures Fits(Pair(), PairConfigs()[k]) && |PairMarks()[k]| == 3
    {
      PairFits(PairConfigs()[k]);
    }
    forall k | 0 <= k < 3
      ensures OneTurn(Pair(), PairConfigs()[k], PairMarks()[k], None) ==
              Again(PairConfigs()[k + 1], PairMarks()[k + 1], None)
    {
      if k == 0 {
        PairSettles();
      } else if k == 1 {
        PairLeaves();
      } else {
        PairComesBack();
      }
    }
  }

  /** Not so if something can fail after `X` was entered: C's site is settled in X,
      the region leaves C and comes back, and the mark stays. The loop then returns
      with an enabled completion row of an active site, in an occupancy that began
      after the fault. */
  lemma StaleMarkSuppresses()
    ensures var cs, marks := PairConfigs(), PairMarks();
            var r := Outcome(PairStable(), [true, false, false], None, true);
            && Turns(Pair(), cs, marks, [None, None, None, None])
            && OneTurn(Pair(), cs[3], marks[3], None) == Return(r)
            && r.settled[0] && ActiveGroup(Scalar(0), r.c.states) && !Quiet(Pair(), r.c, 0, None)
            && S.LastAbout(r.c.trace, 0) == Some(S.Left(0))
  {
    PairTurns();
    PairReturns();
    LastOfBack();
    RowIsEnabled();
  }

  lemma RowIsEnabled()
    ensures !Quiet(Pair(), PairStable(), 0, None)
  {
    var t, c := Pair(), PairStable();
    assert t.completions(0, c.states, None) == [S.Row(0, 0, false)];
    assert t.guard(t.completions(0, c.states, None)[0], c.ctx) == S.Passed;
  }

  lemma LastOfBack()
    ensures S.LastAbout(PairStable().trace, 0) == Some(S.Left(0))
  {
    var before := PairLeft().trace + [S.Tried(1)];
    LastOfPath(before, [1, 0], 0);
    S.LastAppend(before + LeftNotes([1, 0]), S.Tried(2), 0);
    S.LastAppend(PairBack().trace, S.Tried(1), 0);
    S.LastAppend(PairBack().trace + [S.Tried(1)], S.Tried(2), 0);
  }

  /** The same rows, with an entry hook of `X` that does not fail. */
  function FireSafely(s: nat, row: Row, ctx: int, states: seq<nat>): Effect<int> {
    if row.id == 0 || row.id == 1 then Ran(ctx, StaysInX) else Ran(ctx, StartOver)
  }

  function PairPlaces(s: nat): Option<Place> {
    if s == 0 then Some(Place(1, 1)) else None
  }

  function PairDepth(s: nat): nat {
    if s == 0 then 1 else 0
  }

  function PairFinal(s: nat, q: nat): bool {
    s == 0 && q == 0
  }

  /** That failing hook is all that is wrong with the table. */
  lemma WithoutItPairIsGated()
    ensures Gated(Pair().(fire := FireSafely), Nesting(PairPlaces, PairDepth, PairFinal))
  {
    var t, n := Pair().(fire := FireSafely), Nesting(PairPlaces, PairDepth, PairFinal);
    forall g, states: seq<nat> | 0 <= g < |t.groups| && t.active(t.groups[g], states)
      ensures AllActive(n, states, SitesOf(t.groups[g]))
    {
      if g == 0 {
        assert t.groups[g] == Scalar(0) && Active(n, states, 1) && Active(n, states, 0);
      } else {
        assert t.groups[g] == Regions([1, 2]) && Active(n, states, 1) && Active(n, states, 2);
      }
    }
  }
}
