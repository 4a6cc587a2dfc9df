/** Orthogonal regions (macros/src/orthogonal_codegen.rs, `discover_regions`):
    the states of a machine with several initial states are split into the
    connected components of its rows. */
module Regions {
  import opened Prelude

  type Name = string

  const TERMINAL: Name := "X"

  /** A row, as far as it connects states. */
  datatype Row = Row(source: Name, start: bool, wildcard: bool, internal: bool, target: Name)

  datatype Region = Region(initial: Name, states: set<Name>)

  datatype Error = Overlap(initial: Name, state: Name) | Unconnected(state: Name)

  // ---- What the rows connect ----------------------------------------------------------

  predicate Joins(row: Row) {
    !row.wildcard && !row.internal && row.target != TERMINAL
  }

  predicate Links(row: Row, a: Name, b: Name) {
    Joins(row) && ((a == row.source && b == row.target) || (a == row.target && b == row.source))
  }

  predicate Linked(rows: seq<Row>, a: Name, b: Name) {
    exists i :: 0 <= i < |rows| && Links(rows[i], a, b)
  }

  /** The states that have to be in a region. */
  predicate Mentions(row: Row, s: Name) {
    !row.wildcard && (s == row.source || (Joins(row) && s == row.target))
  }

  predicate Mentioned(rows: seq<Row>, s: Name) {
    exists i :: 0 <= i < |rows| && Mentions(rows[i], s)
  }

  ghost predicate IsPath(rows: seq<Row>, path: seq<Name>) {
    path != [] && forall i :: 0 <= i < |path| - 1 ==> Linked(rows, path[i], path[i + 1])
  }

  ghost predicate IsPathBetween(rows: seq<Row>, path: seq<Name>, a: Name, b: Name) {
    IsPath(rows, path) && path[0] == a && path[|path| - 1] == b
  }

  /** Undirected reachability along rows that are neither wildcard, internal nor into `X`. */
  ghost predicate Connected(rows: seq<Row>, a: Name, b: Name) {
    exists path :: IsPathBetween(rows, path, a, b)
  }

  function Initials(rows: seq<Row>): seq<Name> {
    if rows == [] then []
    else (if rows[0].start then [rows[0].source] else []) + Initials(rows[1..])
  }

  /** The initial states are those of the rows that begin, in table order. */
  lemma {:induction false} InitialsInOrder(a: seq<Row>, b: seq<Row>)
    ensures Initials(a + b) == Initials(a) + Initials(b)
    ensures |a| == 1 ==> Initials(a) == if a[0].start then [a[0].source] else []
    decreases |a|
  {
    if a == [] {
      assert a + b == b;
    } else {
      var first, rest, more := if a[0].start then [a[0].source] else [], Initials(a[1..]), Initials(b);
      assert (a + b)[1..] == a[1..] + b;
      InitialsInOrder(a[1..], b);
      assert first + (rest + more) == (first + rest) + more;
    }
  }

  /** The initial states lie in different components, and those cover every state. */
  ghost predicate Separable(rows: seq<Row>) {
    var initials := Initials(rows);
    && (forall i, j :: 0 <= i < j < |initials| ==> !Connected(rows, initials[i], initials[j]))
    && (forall s :: Mentioned(rows, s) ==> exists i :: 0 <= i < |initials| && Connected(rows, initials[i], s))
  }

  /** The region of an initial state is its component. */
  ghost predicate IsComponent(rows: seq<Row>, region: Region) {
    forall s :: s in region.states <==> Connected(rows, region.initial, s)
  }

  // ---- Paths ---------------------------------------------------------------------------------

  lemma ConnectedToItself(rows: seq<Row>, a: Name)
    ensures Connected(rows, a, a)
  {
    assert IsPathBetween(rows, [a], a, a);
  }

  lemma ConnectedByLink(rows: seq<Row>, a: Name, b: Name, c: Name)
    requires Connected(rows, a, b) && Linked(rows, b, c)
    ensures Connected(rows, a, c)
  {
    var path :| IsPathBetween(rows, path, a, b);
    assert IsPathBetween(rows, path + [c], a, c);
  }

  lemma ConnectedBack(rows: seq<Row>, a: Name, b: Name)
    requires Connected(rows, a, b)
    ensures Connected(rows, b, a)
  {
    var path :| IsPathBetween(rows, path, a, b);
    var back := seq(|path|, i requires 0 <= i < |path| => path[|path| - 1 - i]);
    forall i | 0 <= i < |back| - 1
      ensures Linked(rows, back[i], back[i + 1])
    {
      LinkedBack(rows, path[|path| - 2 - i], path[|path| - 1 - i]);
    }
    assert IsPathBetween(rows, back, b, a);
  }

  lemma LinkedBack(rows: seq<Row>, a: Name, b: Name)
    requires Linked(rows, a, b)
    ensures Linked(rows, b, a)
  {
    var i :| 0 <= i < |rows| && Links(rows[i], a, b);
    assert Links(rows[i], b, a);
  }

  lemma ConnectedThrough(rows: seq<Row>, a: Name, b: Name, c: Name)
    requires Connected(rows, a, b) && Connected(rows, b, c)
    ensures Connected(rows, a, c)
  {
    var left :| IsPathBetween(rows, left, a, b);
    var right :| IsPathBetween(rows, right, b, c);
    var path := left + right[1..];
    forall i | 0 <= i < |path| - 1
      ensures Linked(rows, path[i], path[i + 1])
    {
      if i >= |left| - 1 {
        assert path[i] == right[i - |left| + 1] && path[i + 1] == right[i - |left| + 2];
      }
    }
    assert IsPathBetween(rows, path, a, c);
  }

  /** A set closed under links that contains one state contains its whole component. */
  lemma {:induction false} ClosedHoldsPath(rows: seq<Row>, path: seq<Name>, states: set<Name>)
    requires IsPath(rows, path) && path[0] in states
    requires forall a, b :: a in states && Linked(rows, a, b) ==> b in states
    ensures path[|path| - 1] in states
    decreases |path|
  {
    if |path| > 1 {
      assert Linked(rows, path[0], path[1]);
      forall i | 0 <= i < |path| - 2
        ensures Linked(rows, path[1..][i], path[1..][i + 1])
      {
        assert Linked(rows, path[i + 1], path[i + 2]);
      }
      ClosedHoldsPath(rows, path[1..], states);
    }
  }

  lemma ClosedHoldsComponent(rows: seq<Row>, a: Name, states: set<Name>)
    requires a in states
    requires forall b, c :: b in states && Linked(rows, b, c) ==> c in states
    ensures forall b :: Connected(rows, a, b) ==> b in states
  {
    forall b | Connected(rows, a, b)
      ensures b in states
    {
      var path :| IsPathBetween(rows, path, a, b);
      ClosedHoldsPath(rows, path, states);
    }
  }

  // ---- The algorithm -----------------------------------------------------------------------------

  type Adjacency = map<Name, seq<Name>>

  /** `adjacency` has an entry for every state and lists its neighbours. */
  ghost predicate Represents(adjacency: Adjacency, rows: seq<Row>) {
    && (forall s :: s in adjacency <==> Mentioned(rows, s))
    && (forall a, b :: a in adjacency ==> (b in adjacency[a] <==> Linked(rows, a, b)))
  }

  function Entry(adjacency: Adjacency, s: Name): seq<Name> {
    if s in adjacency then adjacency[s] else []
  }

  method BuildAdjacency(rows: seq<Row>) returns (adjacency: Adjacency)
    ensures Represents(adjacency, rows)
  {
    adjacency := map[];
    var i := 0;
    assert rows[..0] == [];
    while i < |rows|
      invariant i <= |rows| && Represents(adjacency, rows[..i])
    {
      var row := rows[i];
      ghost var before := adjacency;
      if !row.wildcard {
        adjacency := adjacency[row.source := Entry(adjacency, row.source)];
        if Joins(row) {
          adjacency := adjacency[row.source := Entry(adjacency, row.source) + [row.target]];
          adjacency := adjacency[row.target := Entry(adjacency, row.target) + [row.source]];
        }
      }
      RowAdds(rows, i, before, adjacency);
      i := i + 1;
    }
    assert rows[..|rows|] == rows;
  }

  /** The effect of one row on the adjacency lists. */
  ghost predicate Adds(row: Row, before: Adjacency, after: Adjacency) {
    && (forall s :: s in after <==> s in before || Mentions(row, s))
    && (forall a, b :: a in after ==> (b in after[a] <==> b in Entry(before, a) || Links(row, a, b)))
  }

  lemma RowAdds(rows: seq<Row>, i: nat, before: Adjacency, after: Adjacency)
    requires i < |rows| && Represents(before, rows[..i]) && Adds(rows[i], before, after)
    ensures Represents(after, rows[..i + 1])
  {
    forall s
      ensures Mentioned(rows[..i + 1], s) <==> Mentioned(rows[..i], s) || Mentions(rows[i], s)
    {
      Snoc(rows, i);
      if Mentioned(rows[..i], s) {
        var k :| 0 <= k < i && Mentions(rows[..i][k], s);
        assert Mentions(rows[..i + 1][k], s);
      }
      if Mentions(rows[i], s) {
        assert Mentions(rows[..i + 1][i], s);
      }
    }
    forall a, b
      ensures Linked(rows[..i + 1], a, b) <==> Linked(rows[..i], a, b) || Links(rows[i], a, b)
    {
      Snoc(rows, i);
      if Linked(rows[..i], a, b) {
        var k :| 0 <= k < i && Links(rows[..i][k], a, b);
        assert Links(rows[..i + 1][k], a, b);
      }
      if Links(rows[i], a, b) {
        assert Links(rows[..i + 1][i], a, b);
      }
    }
    forall a, b | a in after
      ensures b in after[a] <==> Linked(rows[..i + 1], a, b)
    {
      if Linked(rows[..i], a, b) {
        var k :| 0 <= k < i && Links(rows[..i][k], a, b);
        assert Mentions(rows[..i][k], a);
      }
    }
  }

  lemma Snoc(rows: seq<Row>, i: nat)
    requires i < |rows|
    ensures rows[..i + 1] == rows[..i] + [rows[i]]
  {
  }

  /** What the search of one initial state has to keep. `claimed` maps states to
      the index of the initial state that reached them. */
  ghost predicate Searching(rows: seq<Row>, initial: Name, index: nat, claimed: map<Name, nat>, queue: seq<Name>) {
    && (forall s :: s in claimed && claimed[s] == index ==> Connected(rows, initial, s))
    && (forall s :: s in queue ==> Connected(rows, initial, s))
    && (initial in queue || (initial in claimed && claimed[initial] == index))
    && (forall a, b :: a in claimed && claimed[a] == index && Linked(rows, a, b) ==>
          b in queue || (b in claimed && claimed[b] == index))
  }

  /** The components of the first `n` initial states are claimed, and nothing else. */
  ghost predicate ClaimedSoFar(rows: seq<Row>, initials: seq<Name>, n: nat, claimed: map<Name, nat>) {
    && n <= |initials|
    && (forall s :: s in claimed ==> claimed[s] < n)
    && (forall k: nat, s :: k < n ==> (s in claimed && claimed[s] == k <==> Connected(rows, initials[k], s)))
  }

  function ClaimedBy(claimed: map<Name, nat>, index: nat): set<Name> {
    set s | s in claimed && claimed[s] == index
  }

  ghost predicate OthersKept(before: map<Name, nat>, claimed: map<Name, nat>, index: nat) {
    && (forall s :: s in before ==> s in claimed && claimed[s] == before[s])
    && (forall s :: s in claimed && claimed[s] != index ==> s in before && before[s] == claimed[s])
  }

  lemma SearchDone(rows: seq<Row>, initials: seq<Name>, index: nat, before: map<Name, nat>, claimed: map<Name, nat>)
    requires index < |initials| && ClaimedSoFar(rows, initials, index, before)
    requires Searching(rows, initials[index], index, claimed, [])
    requires OthersKept(before, claimed, index)
    ensures ClaimedSoFar(rows, initials, index + 1, claimed)
  {
    ClosedHoldsComponent(rows, initials[index], ClaimedBy(claimed, index));
    forall s | s in claimed
      ensures claimed[s] < index + 1
    {
      if claimed[s] != index {
        assert s in before && before[s] == claimed[s];
      }
    }
  }

  /** A state reached from two initial states joins their components. */
  lemma Meet(rows: seq<Row>, initials: seq<Name>, i: nat, j: nat, s: Name)
    requires i < j < |initials| && Connected(rows, initials[i], s) && Connected(rows, initials[j], s)
    ensures !Separable(rows) || initials != Initials(rows)
  {
    ConnectedBack(rows, initials[j], s);
    ConnectedThrough(rows, initials[i], s, initials[j]);
  }

  /** One state is claimed and its neighbours queued. */
  lemma Claim(rows: seq<Row>, adjacency: Adjacency, initial: Name, index: nat, claimed: map<Name, nat>,
              queue: seq<Name>, state: Name)
    requires Represents(adjacency, rows) && Searching(rows, initial, index, claimed, [state] + queue)
    requires state !in claimed
    ensures Searching(rows, initial, index, claimed[state := index], queue + Entry(adjacency, state))
    ensures forall b :: b in Entry(adjacency, state) ==> b in adjacency
  {
    LinksAreListed(rows, adjacency, state);
    assert state in [state] + queue;
    forall b | Linked(rows, state, b)
      ensures Connected(rows, initial, b) && b in adjacency
    {
      ConnectedByLink(rows, initial, state, b);
      LinkedIsMentioned(rows, state, b);
    }
  }

  method Search(ghost rows: seq<Row>, adjacency: Adjacency, ghost initials: seq<Name>, index: nat, initial: Name,
                before: map<Name, nat>)
    returns (claimed: map<Name, nat>, overlap: Option<Name>)
    requires Represents(adjacency, rows) && initials == Initials(rows)
    requires index < |initials| && initial == initials[index] && ClaimedSoFar(rows, initials, index, before)
    ensures overlap.Some? ==> !Separable(rows)
    ensures overlap.None? ==> ClaimedSoFar(rows, initials, index + 1, claimed)
  {
    claimed := before;
    var queue := [initial];
    ConnectedToItself(rows, initial);
    ghost var names := adjacency.Keys + {initial};
    while queue != []
      invariant Searching(rows, initial, index, claimed, queue)
      invariant forall s :: s in queue ==> s in names
      invariant OthersKept(before, claimed, index)
      decreases names - claimed.Keys, |queue|
    {
      var state := queue[0];
      ghost var all := queue;
      queue := queue[1..];
      assert all == [state] + queue;
      if state in claimed {
        if claimed[state] != index {
          Meet(rows, initials, claimed[state], index, state);
          return claimed, Some(state);
        }
      } else {
        Claim(rows, adjacency, initial, index, claimed, queue, state);
        ghost var open := names - claimed.Keys;
        claimed := claimed[state := index];
        assert state in open && names - claimed.Keys == open - {state};
        queue := queue + Entry(adjacency, state);
      }
    }
    SearchDone(rows, initials, index, before, claimed);
    overlap := None;
  }

  lemma LinkedIsMentioned(rows: seq<Row>, a: Name, b: Name)
    requires Linked(rows, a, b)
    ensures Mentioned(rows, a) && Mentioned(rows, b)
  {
    var i :| 0 <= i < |rows| && Links(rows[i], a, b);
    assert Mentions(rows[i], a) && Mentions(rows[i], b);
  }

  lemma LinksAreListed(rows: seq<Row>, adjacency: Adjacency, s: Name)
    requires Represents(adjacency, rows)
    ensures forall b :: b in Entry(adjacency, s) <==> Linked(rows, s, b)
  {
    forall b | Linked(rows, s, b)
      ensures s in adjacency
    {
      LinkedIsMentioned(rows, s, b);
    }
  }

  /** `discover_regions` ends, succeeds exactly on separable machines, and its
      regions are then the components of the initial states, in their order. */
  method Discover(rows: seq<Row>) returns (r: Result<seq<Region>, Error>)
    ensures r.Ok? <==> Separable(rows)
    ensures r.Ok? ==> |r.value| == |Initials(rows)|
    ensures r.Ok? ==> forall k :: 0 <= k < |r.value| ==>
              r.value[k].initial == Initials(rows)[k] && IsComponent(rows, r.value[k])
  {
    var initials := Initials(rows);
    var adjacency := BuildAdjacency(rows);
    var claimed: map<Name, nat> := map[];
    var regions: seq<Region> := [];
    var index := 0;
    while index < |initials|
      invariant index == |regions| <= |initials| && ClaimedSoFar(rows, initials, index, claimed)
      invariant forall k :: 0 <= k < index ==> regions[k].initial == initials[k] && IsComponent(rows, regions[k])
    {
      var overlap;
      claimed, overlap := Search(rows, adjacency, initials, index, initials[index], claimed);
      if overlap.Some? {
        return Err(Overlap(initials[index], overlap.value));
      }
      regions := regions + [Region(initials[index], ClaimedBy(claimed, index))];
      index := index + 1;
    }
    var unseen := adjacency.Keys;
    while unseen != {}
      invariant unseen <= adjacency.Keys
      invariant forall s :: s in adjacency && s !in unseen ==> s in claimed
      decreases unseen
    {
      var state :| state in unseen;
      if state !in claimed {
        return Err(Unconnected(state));
      }
      unseen := unseen - {state};
    }
    AllClaimed(rows, initials, claimed);
    return Ok(regions);
  }

  lemma AllClaimed(rows: seq<Row>, initials: seq<Name>, claimed: map<Name, nat>)
    requires initials == Initials(rows) && ClaimedSoFar(rows, initials, |initials|, claimed)
    requires forall s :: Mentioned(rows, s) ==> s in claimed
    ensures Separable(rows)
  {
    forall i, j | 0 <= i < j < |initials|
      ensures !Connected(rows, initials[i], initials[j])
    {
      ConnectedToItself(rows, initials[j]);
      assert initials[j] in claimed && claimed[initials[j]] == j;
    }
    forall s | Mentioned(rows, s)
      ensures exists i :: 0 <= i < |initials| && Connected(rows, initials[i], s)
    {
      assert s in claimed && Connected(rows, initials[claimed[s]], s);
    }
  }

  // ---- Runs stay in their region -----------------------------------------------------------------------

  /** One row of a region's dispatch: only rows out of the region's states are in its arms. */
  predicate CanRun(rows: seq<Row>, region: Region, state: Name, row: Row) {
    row in rows && !row.wildcard && row.source == state && state in region.states
  }

  function After(state: Name, row: Row): Name {
    if row.internal then state else row.target
  }

  ghost predicate IsRun(rows: seq<Row>, region: Region, ran: seq<Row>, states: seq<Name>) {
    && |states| == |ran| + 1 && states[0] == region.initial
    && forall i :: 0 <= i < |ran| ==>
       CanRun(rows, region, states[i], ran[i]) && states[i + 1] == After(states[i], ran[i])
  }

  /** Whatever rows a region runs, its state stays in its region or is `X`, and
      so in no other region that has a state but `X`. */
  lemma {:induction false} RunsStayInRegion(rows: seq<Row>, region: Region, ran: seq<Row>, states: seq<Name>, i: nat)
    requires IsComponent(rows, region) && IsRun(rows, region, ran, states) && i <= |ran|
    ensures states[i] in region.states || states[i] == TERMINAL
    decreases i
  {
    if i == 0 {
      ConnectedToItself(rows, region.initial);
    } else {
      RunsStayInRegion(rows, region, ran, states, i - 1);
      var row := ran[i - 1];
      assert CanRun(rows, region, states[i - 1], row);
      if Joins(row) {
        var k :| 0 <= k < |rows| && rows[k] == row;
        assert Links(rows[k], states[i - 1], row.target);
        ConnectedByLink(rows, region.initial, states[i - 1], row.target);
      }
    }
  }

  /** The regions of one machine have no state in common. */
  lemma RegionsAreDisjoint(rows: seq<Row>, initials: seq<Name>, i: nat, j: nat, a: Region, b: Region)
    requires Separable(rows) && initials == Initials(rows) && i < j < |initials|
    requires a.initial == initials[i] && b.initial == initials[j] && IsComponent(rows, a) && IsComponent(rows, b)
    ensures a.states !! b.states
  {
    if !(a.states !! b.states) {
      var s :| s in a.states && s in b.states;
      ConnectedBack(rows, b.initial, s);
      ConnectedThrough(rows, a.initial, s, b.initial);
    }
  }
}
