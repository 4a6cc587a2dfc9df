/** Settle sites from the tables themselves (macros/src/composite_codegen.rs,
    `TreeSettleSites::number` and `region_paths`): the tree is the one `Trees`
    builds from the tables, a node takes as many sites as `Regions` finds regions
    in its rows, and a child belongs to the region that has its state. */
module TreeSites {
  import opened Prelude
  import opened Trees
  import opened Sites
  import Regions

  /** A row and the tables it names as composite states, if any. */
  datatype Row = Row(plain: Regions.Row, source: Option<Name>, target: Option<Name>)

  datatype Machine = Machine(name: Name, rows: seq<Row>, valid: bool)

  function Plain(rows: seq<Row>): (r: seq<Regions.Row>)
    ensures |r| == |rows| && forall i :: 0 <= i < |rows| ==> r[i] == rows[i].plain
  {
    seq(|rows|, i requires 0 <= i < |rows| => rows[i].plain)
  }

  function Named(row: Row): seq<Name> {
    (if row.source.Some? then [row.source.value] else []) + (if row.target.Some? then [row.target.value] else [])
  }

  /** The tables named by the rows, in order. */
  function Mentions(rows: seq<Row>): seq<Name> {
    if rows == [] then [] else Named(rows[0]) + Mentions(rows[1..])
  }

  /** In a row the source is named before the target. */
  lemma NamedInOrder(row: Row)
    ensures Named(row) == match row.source
                          case Some(s) => (match row.target case Some(t) => [s, t] case None => [s])
                          case None => (match row.target case Some(t) => [t] case None => [])
  {
  }

  /** Tables are mentioned in the order of the rows. */
  lemma {:induction false} MentionsInOrder(a: seq<Row>, b: seq<Row>)
    ensures Mentions(a + b) == Mentions(a) + Mentions(b)
    ensures |a| == 1 ==> Mentions(a) == Named(a[0])
    decreases |a|
  {
    if a == [] {
      assert a + b == b;
    } else {
      var named, rest, more := Named(a[0]), Mentions(a[1..]), Mentions(b);
      assert (a + b)[1..] == a[1..] + b;
      MentionsInOrder(a[1..], b);
      assert named + (rest + more) == (named + rest) + more;
    }
  }

  lemma {:induction false} MentionedInRow(rows: seq<Row>, c: Name)
    ensures c in Mentions(rows) <==> exists i :: 0 <= i < |rows| && c in Named(rows[i])
    decreases |rows|
  {
    if rows != [] {
      MentionedInRow(rows[1..], c);
      if c in Mentions(rows[1..]) {
        var i :| 0 <= i < |rows| - 1 && c in Named(rows[1..][i]);
        assert c in Named(rows[i + 1]);
      }
      if i :| 0 < i < |rows| && c in Named(rows[i]) {
        assert c in Named(rows[1..][i - 1]);
      }
    }
  }

  function Tables(machines: seq<Machine>): (r: seq<Table>)
    ensures |r| == |machines|
    ensures forall i :: 0 <= i < |r| ==> r[i] == Table(machines[i].name, Mentions(machines[i].rows), machines[i].valid)
  {
    seq(|machines|, i requires 0 <= i < |machines| =>
      Table(machines[i].name, Mentions(machines[i].rows), machines[i].valid))
  }

  /** The rows of the first machine of that name. */
  function RowsOf(machines: seq<Machine>, name: Name): seq<Row> {
    if machines == [] then []
    else if machines[0].name == name then machines[0].rows
    else RowsOf(machines[1..], name)
  }

  lemma {:induction false} FoundRows(machines: seq<Machine>, name: Name)
    ensures var found := Find(Tables(machines), name);
            Mentions(RowsOf(machines, name)) == if found.Some? then found.value.mentions else []
    decreases |machines|
  {
    if machines != [] {
      assert Tables(machines)[1..] == Tables(machines[1..]);
      FoundRows(machines[1..], name);
    }
  }

  /** The children of a table are the known tables its rows name. */
  lemma KidsAreMentioned(machines: seq<Machine>, owner: Name, c: Name)
    ensures c in Kids(Tables(machines), owner) <==>
              c in Mentions(RowsOf(machines, owner)) && Known(Tables(machines), c)
  {
    FoundRows(machines, owner);
  }

  // ---- Numbering ------------------------------------------------------------------------------

  predicate Orthogonal(rows: seq<Row>) {
    |Regions.Initials(Plain(rows))| > 1
  }

  function RegionCount(rows: seq<Row>): nat {
    if Orthogonal(rows) then |Regions.Initials(Plain(rows))| else 1
  }

  function Counts(machines: seq<Machine>): Name -> nat {
    n => RegionCount(RowsOf(machines, n))
  }

  ghost predicate Splits(rows: seq<Row>) {
    Orthogonal(rows) ==> Regions.Separable(Plain(rows))
  }

  /** How many sites a node takes: one for each region, or one if it is scalar. */
  method CountRegions(rows: seq<Row>) returns (r: Result<nat, Regions.Error>)
    ensures r.Ok? <==> Splits(rows)
    ensures r.Ok? ==> r.value == RegionCount(rows)
  {
    if !Orthogonal(rows) {
      return Ok(1);
    }
    var regions := Regions.Discover(Plain(rows));
    match regions {
      case Ok(found) => return Ok(|found|);
      case Err(error) => return Err(error);
    }
  }

  ghost predicate AllSplit(machines: seq<Machine>, nodes: seq<Name>) {
    forall n :: n in nodes ==> Splits(RowsOf(machines, n))
  }

  /** The next node takes the sites from `next` on. */
  lemma NextInRow(nodes: seq<Name>, ranges: map<Name, Span>, counts: Name -> nat, next: nat, i: nat)
    requires Distinct(nodes) && i < |nodes| && InRow(nodes[..i], ranges, counts, next)
    ensures var end := next + counts(nodes[i]);
            InRow(nodes[..i + 1], ranges[nodes[i] := Span(next, end)], counts, end)
  {
    var row, all := nodes[..i], nodes[..i + 1];
    assert all == row + [nodes[i]] && all[..i] == row;
    forall j | 0 <= j <= i
      ensures Total(all, counts, j) == Total(row, counts, j)
    {
      TotalPrefix(all, counts, i, j);
    }
    var after := ranges[nodes[i] := Span(next, next + counts(nodes[i]))];
    forall j | 0 <= j <= i
      ensures after[all[j]] == Span(Total(all, counts, j), Total(all, counts, j + 1))
    {
      if j < i {
        assert all[j] == row[j] && all[j] != nodes[i] && ranges[row[j]].from == Total(row, counts, j);
      }
    }
  }

  /** `number`: a node takes one site for each of its regions, the root the last
      ones; it succeeds exactly if every orthogonal node splits into regions. */
  method Number(machines: seq<Machine>, nodes: seq<Name>, rootRegions: Option<seq<Regions.Region>>)
    returns (r: Result<Numbering, Regions.Error>)
    requires Distinct(nodes)
    ensures r.Ok? <==> AllSplit(machines, nodes)
    ensures r.Ok? ==>
              && InRow(nodes, r.value.nodes, Counts(machines), r.value.root.from)
              && r.value.root.to == r.value.root.from + (if rootRegions.Some? then |rootRegions.value| else 1)
  {
    ghost var counts := Counts(machines);
    var next: nat := 0;
    var ranges: map<Name, Span> := map[];
    var i := 0;
    while i < |nodes|
      invariant i <= |nodes| && InRow(nodes[..i], ranges, counts, next)
      invariant AllSplit(machines, nodes[..i])
    {
      assert nodes[..i + 1] == nodes[..i] + [nodes[i]];
      var size := CountRegions(RowsOf(machines, nodes[i]));
      if size.Err? {
        assert nodes[i] in nodes;
        return Err(size.error);
      }
      NextInRow(nodes, ranges, counts, next, i);
      var end := next + size.value;
      ranges := ranges[nodes[i] := Span(next, end)];
      next := end;
      i := i + 1;
    }
    assert nodes[..i] == nodes;
    return Ok(Numbering(ranges, Span(next, next + match rootRegions case Some(regions) => |regions| case None => 1)));
  }

  /** What `number` gives for the tree and the root's own regions. */
  ghost predicate IsNumbering(machines: seq<Machine>, root: Name, t: Tree, r: Numbering) {
    && InRow(t.nodes, r.nodes, Counts(machines), r.root.from)
    && r.root.to == r.root.from + RegionCount(RowsOf(machines, root))
  }

  // ---- Regions of an owner's states ---------------------------------------------------------------

  /** What `discover_regions` gives for these rows. */
  ghost predicate AreRegions(rows: seq<Regions.Row>, regions: seq<Regions.Region>) {
    && Regions.Separable(rows) && |regions| == |Regions.Initials(rows)|
    && forall k :: 0 <= k < |regions| ==>
         regions[k].initial == Regions.Initials(rows)[k] && Regions.IsComponent(rows, regions[k])
  }

  /** `position`: the first region that has the state. */
  function Position(regions: seq<Regions.Region>, s: Name): (r: Option<nat>)
    ensures r.Some? ==> r.value < |regions| && s in regions[r.value].states
    ensures r.None? ==> forall k :: 0 <= k < |regions| ==> s !in regions[k].states
  {
    if regions == [] then None
    else if s in regions[0].states then Some(0)
    else
      match Position(regions[1..], s)
      case None =>
        assert forall k :: 0 < k < |regions| ==> regions[k] == regions[1..][k - 1];
        None
      case Some(k) => Some(k + 1)
  }

  ghost predicate StartsNamed(rows: seq<Regions.Row>) {
    forall i :: 0 <= i < |rows| && rows[i].start ==> !rows[i].wildcard
  }

  lemma {:induction false} InitialIsMentioned(rows: seq<Regions.Row>, k: nat)
    requires StartsNamed(rows) && k < |Regions.Initials(rows)|
    ensures Regions.Mentioned(rows, Regions.Initials(rows)[k])
    decreases |rows|
  {
    if rows[0].start && k == 0 {
      assert Regions.Mentions(rows[0], rows[0].source);
    } else {
      var rest := if rows[0].start then k - 1 else k;
      var s := Regions.Initials(rows[1..])[rest];
      InitialIsMentioned(rows[1..], rest);
      var i :| 0 <= i < |rows| - 1 && Regions.Mentions(rows[1..][i], s);
      assert Regions.Mentions(rows[i + 1], s);
    }
  }

  /** A state connected to another by rows is mentioned by them. */
  lemma ConnectedIsMentioned(rows: seq<Regions.Row>, a: Name, b: Name)
    requires Regions.Connected(rows, a, b)
    ensures a == b || Regions.Mentioned(rows, b)
  {
    var path :| Regions.IsPathBetween(rows, path, a, b);
    if |path| > 1 {
      assert Regions.Linked(rows, path[|path| - 2], path[|path| - 2 + 1]);
      Regions.LinkedIsMentioned(rows, path[|path| - 2], b);
    }
  }

  /** A state is placed exactly if a row that is no wildcard mentions it, and then in one region only. */
  lemma PlacedIfMentioned(rows: seq<Regions.Row>, regions: seq<Regions.Region>, s: Name)
    requires AreRegions(rows, regions) && StartsNamed(rows)
    ensures Position(regions, s).Some? <==> Regions.Mentioned(rows, s)
    ensures forall k :: 0 <= k < |regions| && s in regions[k].states ==> Position(regions, s) == Some(k)
  {
    var initials := Regions.Initials(rows);
    if Regions.Mentioned(rows, s) {
      var i :| 0 <= i < |initials| && Regions.Connected(rows, initials[i], s);
      assert s in regions[i].states;
    }
    if Position(regions, s).Some? {
      var p := Position(regions, s).value;
      ConnectedIsMentioned(rows, initials[p], s);
      InitialIsMentioned(rows, p);
      forall k | 0 <= k < |regions| && s in regions[k].states
        ensures k == p
      {
        if k < p {
          Regions.RegionsAreDisjoint(rows, initials, k, p, regions[k], regions[p]);
        } else if p < k {
          Regions.RegionsAreDisjoint(rows, initials, p, k, regions[p], regions[k]);
        }
      }
    }
  }

  // ---- The paths partition the sites ---------------------------------------------------------------

  /** A row as the parser leaves it: wildcards are neither initial nor composite,
      internal rows name no target, and a composite state is called as `variant` says. */
  predicate Parsed(variant: Name -> Name, row: Row) {
    && (row.plain.start ==> !row.plain.wildcard)
    && (row.source.Some? ==> !row.plain.wildcard && row.plain.source == variant(row.source.value))
    && (row.target.Some? ==> !row.plain.internal && row.plain.target == variant(row.target.value))
  }

  predicate AllParsed(variant: Name -> Name, rows: seq<Row>) {
    forall i :: 0 <= i < |rows| ==> Parsed(variant, rows[i])
  }

  /** The region that has a child's state. */
  function RegionFinder(regions: seq<Regions.Region>, variant: Name -> Name): RegionOf {
    c => Position(regions, variant(c))
  }

  /** A row that is no wildcard mentions every child's state. */
  predicate ChildrenMentioned(t: Tree, owner: Name, rows: seq<Row>, variant: Name -> Name) {
    forall c :: c in t.nodes && IsChild(t, c, owner) ==> Regions.Mentioned(Plain(rows), variant(c))
  }

  lemma NumberingIsNumbered(machines: seq<Machine>, root: Name, t: Tree, r: Numbering, owner: Name)
    requires root !in t.nodes && Distinct(t.nodes) && IsNumbering(machines, root, t, r) && IsOwner(root, t, owner)
    ensures Numbered(root, t, Counts(machines), r)
    ensures Size(SpanOf(root, r, owner)) == RegionCount(RowsOf(machines, owner))
  {
    if owner != root {
      var i := IndexOf(t.nodes, owner);
    }
  }

  lemma FinderIsSited(machines: seq<Machine>, variant: Name -> Name, root: Name, t: Tree, r: Numbering, owner: Name,
                      regions: seq<Regions.Region>)
    requires root !in t.nodes && Distinct(t.nodes) && IsNumbering(machines, root, t, r) && IsOwner(root, t, owner)
    requires |regions| == RegionCount(RowsOf(machines, owner))
    ensures Sited(root, t, Counts(machines), r, owner, RegionFinder(regions, variant))
    ensures Size(SpanOf(root, r, owner)) == |regions|
  {
    NumberingIsNumbered(machines, root, t, r, owner);
  }

  /** The children in a region are those a row that is no wildcard mentions. */
  lemma PlacedExactly(machines: seq<Machine>, variant: Name -> Name, root: Name, t: Tree, r: Numbering, owner: Name,
                      regions: seq<Regions.Region>)
    requires AllParsed(variant, RowsOf(machines, owner)) && AreRegions(Plain(RowsOf(machines, owner)), regions)
    requires Size(SpanOf(root, r, owner)) == |regions| && forall n :: n in t.parents <==> n in t.nodes
    ensures AllPlaced(root, t, r, owner, RegionFinder(regions, variant)) <==>
              ChildrenMentioned(t, owner, RowsOf(machines, owner), variant)
  {
    var rows := Plain(RowsOf(machines, owner));
    var finder := RegionFinder(regions, variant);
    forall c
      ensures finder(c).Some? <==> Regions.Mentioned(rows, variant(c))
      ensures finder(c).Some? ==> finder(c).value < |regions|
    {
      PlacedIfMentioned(rows, regions, variant(c));
    }
    assert forall c :: c in t.nodes && IsChild(t, c, owner) <==> c in t.parents && t.parents[c] == owner;
  }

  /** The paths of the regions of an orthogonal owner have no site in common and
      lie in its subtree. They partition the sites of the subtree exactly if every
      child of the owner is mentioned by a row that is no wildcard. */
  lemma RegionPathsPartition(machines: seq<Machine>, variant: Name -> Name, root: Name, t: Tree, r: Numbering,
                             owner: Name, regions: seq<Regions.Region>)
    requires IsTree(GraphOf(Tables(machines)), root, t) && IsNumbering(machines, root, t, r)
    requires IsOwner(root, t, owner) && AllParsed(variant, RowsOf(machines, owner)) &&
             Orthogonal(RowsOf(machines, owner))
    requires AreRegions(Plain(RowsOf(machines, owner)), regions)
    ensures var g := GraphOf(Tables(machines));
            var paths := RegionPaths(g, root, t, r, owner, RegionFinder(regions, variant));
            && |paths| == |regions| && Apart(paths)
            && (forall site: nat :: Covers(paths, site) ==> InSubtree(g, root, t, r, owner, site))
            && ((forall site: nat :: InSubtree(g, root, t, r, owner, site) ==> Covers(paths, site)) <==>
                  ChildrenMentioned(t, owner, RowsOf(machines, owner), variant))
  {
    var g := GraphOf(Tables(machines));
    var finder := RegionFinder(regions, variant);
    FinderIsSited(machines, variant, root, t, r, owner, regions);
    PathsPartitionSubtree(g, root, t, Counts(machines), r, owner, finder);
    PlacedExactly(machines, variant, root, t, r, owner, regions);
  }

  /** Without wildcard rows every child is mentioned, unless it is called like the terminal state. */
  lemma WithoutWildcards(machines: seq<Machine>, variant: Name -> Name, root: Name, t: Tree, owner: Name)
    requires IsTree(GraphOf(Tables(machines)), root, t) && IsOwner(root, t, owner)
    requires AllParsed(variant, RowsOf(machines, owner))
    requires forall i :: 0 <= i < |RowsOf(machines, owner)| ==> !RowsOf(machines, owner)[i].plain.wildcard
    requires forall c :: IsChild(t, c, owner) ==> variant(c) != Regions.TERMINAL
    ensures ChildrenMentioned(t, owner, RowsOf(machines, owner), variant)
  {
    var rows := RowsOf(machines, owner);
    forall c | c in t.nodes && IsChild(t, c, owner)
      ensures Regions.Mentioned(Plain(rows), variant(c))
    {
      assert c in GraphOf(Tables(machines)).kids(owner);
      KidsAreMentioned(machines, owner, c);
      MentionedInRow(rows, c);
      var i :| 0 <= i < |rows| && c in Named(rows[i]);
      assert Parsed(variant, rows[i]) && Regions.Mentions(Plain(rows)[i], variant(c));
    }
  }

  /** The paths of the regions of an orthogonal root partition all sites. */
  lemma RootRegionPathsPartition(machines: seq<Machine>, variant: Name -> Name, root: Name, t: Tree, r: Numbering,
                                 regions: seq<Regions.Region>)
    requires IsTree(GraphOf(Tables(machines)), root, t) && IsNumbering(machines, root, t, r)
    requires AllParsed(variant, RowsOf(machines, root)) && Orthogonal(RowsOf(machines, root))
    requires AreRegions(Plain(RowsOf(machines, root)), regions)
    ensures var paths := RegionPaths(GraphOf(Tables(machines)), root, t, r, root, RegionFinder(regions, variant));
            && |paths| == |regions| && Apart(paths)
            && (forall site: nat :: Covers(paths, site) ==> site < r.root.to)
            && ((forall site: nat :: site < r.root.to ==> Covers(paths, site)) <==>
                  ChildrenMentioned(t, root, RowsOf(machines, root), variant))
  {
    var g := GraphOf(Tables(machines));
    RegionPathsPartition(machines, variant, root, t, r, root, regions);
    NumberingIsNumbered(machines, root, t, r, root);
    forall site: nat
      ensures site < r.root.to <==> InSubtree(g, root, t, r, root, site)
    {
      RootSubtreeIsAll(g, root, t, Counts(machines), r, site);
    }
  }

  // ---- A child that only a wildcard row enters -----------------------------------------------------------

  /** Two regions, `A` and `B`, and a wildcard row into the table `C`. */
  function WildcardRows(): seq<Row> {
    [Row(Regions.Row("A", true, false, true, "_"), None, None),
     Row(Regions.Row("B", true, false, true, "_"), None, None),
     Row(Regions.Row("_", false, true, false, "C"), None, Some("C"))]
  }

  /** Such a table splits into regions and names its child, but none has the child's
      state, so by `RegionPathsPartition` the child's sites are on no path. */
  lemma WildcardChildIsUnplaced()
    ensures AllParsed(n => n, WildcardRows()) && Orthogonal(WildcardRows())
    ensures Regions.Separable(Plain(WildcardRows()))
    ensures "C" in Mentions(WildcardRows()) && !Regions.Mentioned(Plain(WildcardRows()), "C")
  {
    var rows := WildcardRows();
    MentionedInRow(rows, "C");
    assert "C" in Named(rows[2]);
    var plain := Plain(rows);
    assert Regions.Initials(plain) == ["A", "B"] by {
      assert plain == [rows[0].plain, rows[1].plain, rows[2].plain];
      assert plain[1..] == [rows[1].plain, rows[2].plain] && plain[1..][1..] == [rows[2].plain];
      assert Regions.Initials([rows[2].plain]) == [];
    }
    Regions.ClosedHoldsComponent(plain, "A", {"A"});
    Regions.ConnectedToItself(plain, "A");
    Regions.ConnectedToItself(plain, "B");
    forall s | Regions.Mentioned(plain, s)
      ensures exists i :: 0 <= i < 2 && Regions.Connected(plain, Regions.Initials(plain)[i], s)
    {
      var i :| 0 <= i < |plain| && Regions.Mentions(plain[i], s);
      assert Regions.Initials(plain)[i] == s;
    }
  }
}
