/** Settle sites of a composite tree (macros/src/composite_codegen.rs,
    `TreeSettleSites`, `tree_is_descendant`, `tree_descendant_region`). */
module Sites {
  import opened Prelude
  import opened Trees

  /** The sites `from..to`. */
  datatype Span = Span(from: nat, to: nat)

  predicate In(span: Span, site: nat) {
    span.from <= site < span.to
  }

  datatype Numbering = Numbering(nodes: map<Name, Span>, root: Span)

  // ---- Numbering ------------------------------------------------------------------------

  /** How many sites the first `i` nodes take. */
  function Total(nodes: seq<Name>, counts: Name -> nat, i: nat): nat
    requires i <= |nodes|
  {
    if i == 0 then 0 else Total(nodes, counts, i - 1) + counts(nodes[i - 1])
  }

  /** The spans of `nodes` follow one another from 0 to `next`. */
  ghost predicate InRow(nodes: seq<Name>, spans: map<Name, Span>, counts: Name -> nat, next: nat) {
    && (forall n :: n in spans <==> n in nodes)
    && (forall i {:trigger spans[nodes[i]]} :: 0 <= i < |nodes| ==>
          spans[nodes[i]] == Span(Total(nodes, counts, i), Total(nodes, counts, i + 1)))
    && next == Total(nodes, counts, |nodes|)
  }

  lemma {:induction false} TotalPrefix(nodes: seq<Name>, counts: Name -> nat, n: nat, i: nat)
    requires i <= n <= |nodes|
    ensures Total(nodes[..n], counts, i) == Total(nodes, counts, i)
    decreases i
  {
    if i > 0 {
      TotalPrefix(nodes, counts, n, i - 1);
    }
  }

  lemma {:induction false} TotalAscends(nodes: seq<Name>, counts: Name -> nat, i: nat, j: nat)
    requires i <= j <= |nodes|
    ensures Total(nodes, counts, i) <= Total(nodes, counts, j)
    decreases j
  {
    if i < j {
      TotalAscends(nodes, counts, i, j - 1);
    }
  }

  ghost predicate Numbered(root: Name, t: Tree, counts: Name -> nat, r: Numbering) {
    && root !in t.nodes && Distinct(t.nodes)
    && InRow(t.nodes, r.nodes, counts, r.root.from) && r.root.from <= r.root.to
  }

  function SpanOf(root: Name, r: Numbering, owner: Name): Span {
    if owner == root then r.root else if owner in r.nodes then r.nodes[owner] else Span(0, 0)
  }

  /** `site` is one of `o`'s own. */
  predicate Owns(root: Name, t: Tree, r: Numbering, o: Name, site: nat) {
    IsOwner(root, t, o) && In(SpanOf(root, r, o), site)
  }

  lemma SpansAscend(nodes: seq<Name>, spans: map<Name, Span>, counts: Name -> nat, next: nat, i: nat, j: nat)
    requires InRow(nodes, spans, counts, next) && i < j < |nodes|
    ensures spans[nodes[i]].to <= spans[nodes[j]].from
  {
    TotalAscends(nodes, counts, i + 1, j);
  }

  lemma SpansEnd(nodes: seq<Name>, spans: map<Name, Span>, counts: Name -> nat, next: nat, i: nat)
    requires InRow(nodes, spans, counts, next) && i < |nodes|
    ensures spans[nodes[i]].to <= next
  {
    TotalAscends(nodes, counts, i + 1, |nodes|);
  }

  /** Two owners of one site are the same. */
  lemma OneOwner(root: Name, t: Tree, counts: Name -> nat, r: Numbering, o: Name, p: Name, site: nat)
    requires Numbered(root, t, counts, r) && Owns(root, t, r, o, site) && Owns(root, t, r, p, site)
    ensures o == p
  {
    if o != root {
      var i := IndexOf(t.nodes, o);
      SpansEnd(t.nodes, r.nodes, counts, r.root.from, i);
      if p != root {
        var j := IndexOf(t.nodes, p);
        if i < j {
          SpansAscend(t.nodes, r.nodes, counts, r.root.from, i, j);
        } else if j < i {
          SpansAscend(t.nodes, r.nodes, counts, r.root.from, j, i);
        }
      }
    } else if p != root {
      var j := IndexOf(t.nodes, p);
      SpansEnd(t.nodes, r.nodes, counts, r.root.from, j);
    }
  }

  lemma {:induction false} OwnerBelow(nodes: seq<Name>, spans: map<Name, Span>, counts: Name -> nat, next: nat,
                                      site: nat, k: nat)
    requires InRow(nodes, spans, counts, next) && k <= |nodes| && site < Total(nodes, counts, k)
    ensures exists i :: 0 <= i < k && In(spans[nodes[i]], site)
    decreases k
  {
    if site >= Total(nodes, counts, k - 1) {
      assert In(spans[nodes[k - 1]], site);
    } else {
      OwnerBelow(nodes, spans, counts, next, site, k - 1);
    }
  }

  /** Every site from 0 to the count has exactly one owner, and owners have no other sites. */
  lemma SitesAreOwned(root: Name, t: Tree, counts: Name -> nat, r: Numbering, site: nat)
    requires Numbered(root, t, counts, r)
    ensures site < r.root.to <==> exists o :: Owns(root, t, r, o, site)
    ensures forall o, p :: Owns(root, t, r, o, site) && Owns(root, t, r, p, site) ==> o == p
  {
    forall o, p | Owns(root, t, r, o, site) && Owns(root, t, r, p, site)
      ensures o == p
    {
      OneOwner(root, t, counts, r, o, p, site);
    }
    if site < r.root.from {
      OwnerBelow(t.nodes, r.nodes, counts, r.root.from, site, |t.nodes|);
      var i :| 0 <= i < |t.nodes| && In(r.nodes[t.nodes[i]], site);
      assert Owns(root, t, r, t.nodes[i], site);
    } else if site < r.root.to {
      assert Owns(root, t, r, root, site);
    } else {
      forall o | IsOwner(root, t, o)
        ensures !Owns(root, t, r, o, site)
      {
        if o != root {
          var i := IndexOf(t.nodes, o);
          SpansEnd(t.nodes, r.nodes, counts, r.root.from, i);
        }
      }
    }
  }

  // ---- Walking up the tree ---------------------------------------------------------------------

  /** The child of `owner` that `node` is or is nested in. */
  function TopUnder(g: Graph, root: Name, t: Tree, node: Name, owner: Name): Option<Name>
    requires Rooted(g, root, t)
    decreases DepthOf(root, t, node)
  {
    if node !in t.parents then None
    else if t.parents[node] == owner then Some(node)
    else TopUnder(g, root, t, t.parents[node], owner)
  }

  /** `tree_is_descendant`. */
  method IsDescendant(g: Graph, root: Name, t: Tree, node: Name, ancestor: Name) returns (yes: bool)
    requires Rooted(g, root, t)
    ensures yes <==> TopUnder(g, root, t, node, ancestor).Some?
  {
    var top := node;
    while top in t.parents
      invariant TopUnder(g, root, t, top, ancestor) == TopUnder(g, root, t, node, ancestor)
      decreases DepthOf(root, t, top)
    {
      if t.parents[top] == ancestor {
        return true;
      }
      top := t.parents[top];
    }
    return false;
  }

  type RegionOf = Name -> Option<nat>

  /** `tree_descendant_region`; `regionOf` finds the region that has a state. */
  method DescendantRegion(g: Graph, root: Name, t: Tree, node: Name, owner: Name,
                          regionOf: RegionOf) returns (r: Option<nat>)
    requires Rooted(g, root, t)
    ensures r == RegionUnder(g, root, t, node, owner, regionOf)
  {
    var top := node;
    while top in t.parents
      invariant TopUnder(g, root, t, top, owner) == TopUnder(g, root, t, node, owner)
      decreases DepthOf(root, t, top)
    {
      if t.parents[top] == owner {
        return regionOf(top);
      }
      top := t.parents[top];
    }
    return None;
  }

  function RegionUnder(g: Graph, root: Name, t: Tree, node: Name, owner: Name, regionOf: RegionOf): Option<nat>
    requires Rooted(g, root, t)
  {
    match TopUnder(g, root, t, node, owner)
    case None => None
    case Some(top) => regionOf(top)
  }

  /** What is nested in an owner is deeper than it, so not the owner itself. */
  lemma {:induction false} NestedIsDeeper(g: Graph, root: Name, t: Tree, node: Name, owner: Name)
    requires Rooted(g, root, t) && TopUnder(g, root, t, node, owner).Some?
    ensures DepthOf(root, t, node) > DepthOf(root, t, owner)
    ensures var top := TopUnder(g, root, t, node, owner).value; top in t.parents && t.parents[top] == owner
    decreases DepthOf(root, t, node)
  {
    if t.parents[node] != owner {
      NestedIsDeeper(g, root, t, t.parents[node], owner);
    }
  }

  /** Every node is nested in the root. */
  lemma {:induction false} AllUnderRoot(g: Graph, root: Name, t: Tree, node: Name)
    requires Rooted(g, root, t) && node in t.nodes
    ensures TopUnder(g, root, t, node, root).Some?
    decreases DepthOf(root, t, node)
  {
    if t.parents[node] != root {
      assert IsOwner(root, t, t.parents[node]);
      AllUnderRoot(g, root, t, t.parents[node]);
    }
  }

  // ---- Region paths ---------------------------------------------------------------------------------

  function Size(span: Span): nat {
    if span.from <= span.to then span.to - span.from else 0
  }

  function SitesOf(span: Span): (r: seq<nat>)
    ensures |r| == Size(span)
    ensures forall s: nat :: s in r <==> In(span, s)
    ensures Ascending(r)
  {
    var r := seq(Size(span), i requires 0 <= i => span.from + i);
    assert forall s: nat :: In(span, s) ==> r[s - span.from] == s;
    r
  }

  predicate Ascending(s: seq<nat>) {
    forall i, j :: 0 <= i < j < |s| ==> s[i] < s[j]
  }

  /** Spans in list order do not overlap. */
  ghost predicate Chained(nodes: seq<Name>, spans: map<Name, Span>) {
    && (forall n :: n in nodes ==> n in spans && spans[n].from <= spans[n].to)
    && (forall i, j :: 0 <= i < j < |nodes| ==> spans[nodes[i]].to <= spans[nodes[j]].from)
  }

  /** The sites of the nodes that `regions` puts into region `k`. */
  function Nested(nodes: seq<Name>, spans: map<Name, Span>, regions: RegionOf, k: nat): seq<nat> {
    if nodes == [] then []
    else
      var n := nodes[|nodes| - 1];
      Nested(nodes[..|nodes| - 1], spans, regions, k)
      + (if regions(n) == Some(k) && n in spans then SitesOf(spans[n]) else [])
  }

  ghost predicate IsNested(nodes: seq<Name>, spans: map<Name, Span>, regions: RegionOf, k: nat, site: nat)
    requires Chained(nodes, spans)
  {
    exists i :: 0 <= i < |nodes| && regions(nodes[i]) == Some(k) && In(spans[nodes[i]], site)
  }

  lemma {:induction false} NestedSites(nodes: seq<Name>, spans: map<Name, Span>, regions: RegionOf, k: nat)
    requires Chained(nodes, spans)
    ensures Ascending(Nested(nodes, spans, regions, k))
    ensures forall s :: s in Nested(nodes, spans, regions, k) ==> nodes != [] && s < spans[nodes[|nodes| - 1]].to
    ensures forall s: nat :: s in Nested(nodes, spans, regions, k) <==> IsNested(nodes, spans, regions, k, s)
    decreases |nodes|
  {
    if nodes != [] {
      var last := |nodes| - 1;
      var shorter := nodes[..last];
      NestedSites(shorter, spans, regions, k);
      var before, all := Nested(shorter, spans, regions, k), Nested(nodes, spans, regions, k);
      assert last > 0 ==> spans[nodes[last - 1]].to <= spans[nodes[last]].from;
      assert forall i :: 0 <= i < |before| ==> before[i] in before;
      forall s: nat
        ensures IsNested(nodes, spans, regions, k, s) <==>
                  IsNested(shorter, spans, regions, k, s) ||
                      (regions(nodes[last]) == Some(k) && In(spans[nodes[last]], s))
      {
        if IsNested(shorter, spans, regions, k, s) {
          var i :| 0 <= i < last && regions(shorter[i]) == Some(k) && In(spans[shorter[i]], s);
          assert regions(nodes[i]) == Some(k) && In(spans[nodes[i]], s);
        }
        if IsNested(nodes, spans, regions, k, s) {
          var i :| 0 <= i <= last && regions(nodes[i]) == Some(k) && In(spans[nodes[i]], s);
          assert i < last ==> shorter[i] == nodes[i];
        }
      }
    }
  }

  lemma NestedAscends(nodes: seq<Name>, spans: map<Name, Span>, regions: RegionOf, k: nat)
    requires Chained(nodes, spans)
    ensures Ascending(Nested(nodes, spans, regions, k))
  {
    NestedSites(nodes, spans, regions, k);
  }

  lemma NumberedIsChained(root: Name, t: Tree, counts: Name -> nat, r: Numbering)
    requires Numbered(root, t, counts, r)
    ensures Chained(t.nodes, r.nodes)
  {
    forall n | n in t.nodes
      ensures r.nodes[n].from <= r.nodes[n].to
    {
      var i := IndexOf(t.nodes, n);
      TotalAscends(t.nodes, counts, i, i + 1);
    }
    forall i, j | 0 <= i < j < |t.nodes|
      ensures r.nodes[t.nodes[i]].to <= r.nodes[t.nodes[j]].from
    {
      SpansAscend(t.nodes, r.nodes, counts, r.root.from, i, j);
    }
  }

  function Placing(g: Graph, root: Name, t: Tree, owner: Name, regionOf: RegionOf): Name -> Option<nat>
    requires Rooted(g, root, t)
  {
    var places: map<Name, Option<nat>> := map n | n in t.nodes :: RegionUnder(g, root, t, n, owner, regionOf);
    n => if n in places then places[n] else None
  }

  function PathFrom(site: nat, nodes: seq<Name>, spans: map<Name, Span>, places: RegionOf, k: nat): seq<nat> {
    [site] + Nested(nodes, spans, places, k)
  }

  /** `region_paths`: for each region of `owner` its own site and those of the nodes nested in it. */
  function RegionPaths(g: Graph, root: Name, t: Tree, r: Numbering, owner: Name,
                       regionOf: RegionOf): (paths: seq<seq<nat>>)
    requires Rooted(g, root, t)
  {
    var own := SpanOf(root, r, owner);
    var places := Placing(g, root, t, owner, regionOf);
    seq(Size(own), k requires 0 <= k => PathFrom(own.from + k, t.nodes, r.nodes, places, k))
  }

  lemma PathAt(g: Graph, root: Name, t: Tree, r: Numbering, owner: Name, regionOf: RegionOf, k: nat)
    requires Rooted(g, root, t) && SpanOf(root, r, owner).from + k < SpanOf(root, r, owner).to
    ensures RegionPaths(g, root, t, r, owner, regionOf)[k]
         == PathFrom(SpanOf(root, r, owner).from + k, t.nodes, r.nodes, Placing(g, root, t, owner, regionOf), k)
  {
  }

  predicate Covers(paths: seq<seq<nat>>, site: nat) {
    exists k: nat :: k < |paths| && site in paths[k]
  }

  /** No site is twice on a path or on two paths. */
  ghost predicate Apart(paths: seq<seq<nat>>) {
    && (forall k: nat :: k < |paths| ==> Distinct(paths[k]))
    && (forall k: nat, l: nat, site: nat {:trigger site in paths[k], site in paths[l]} ::
          k < |paths| && l < |paths| && site in paths[k] && site in paths[l] ==> k == l)
  }

  /** A site of a region's path, by what it belongs to. */
  ghost predicate OnPath(g: Graph, root: Name, t: Tree, r: Numbering, owner: Name, regionOf: RegionOf, k: nat,
                         site: nat)
    requires Rooted(g, root, t)
  {
    || site == SpanOf(root, r, owner).from + k
    || exists n :: n in t.nodes && RegionUnder(g, root, t, n, owner, regionOf) == Some(k) && Owns(root, t, r, n, site)
  }

  /** The sites of `owner` and of everything nested in it. */
  ghost predicate InSubtree(g: Graph, root: Name, t: Tree, r: Numbering, owner: Name, site: nat)
    requires Rooted(g, root, t)
  {
    exists n :: IsOwner(root, t, n) && (n == owner || TopUnder(g, root, t, n, owner).Some?) && Owns(root, t, r, n, site)
  }

  /** Every child of `owner` is a state of one of its regions. */
  ghost predicate AllPlaced(root: Name, t: Tree, r: Numbering, owner: Name, regionOf: RegionOf) {
    forall c :: c in t.parents && t.parents[c] == owner ==>
      regionOf(c).Some? && regionOf(c).value < Size(SpanOf(root, r, owner))
  }

  lemma PathHas(g: Graph, root: Name, t: Tree, counts: Name -> nat, r: Numbering, owner: Name, regionOf: RegionOf,
                k: nat, site: nat)
    requires Rooted(g, root, t) && Numbered(root, t, counts, r) && Chained(t.nodes, r.nodes)
    requires IsOwner(root, t, owner) && SpanOf(root, r, owner).from + k < SpanOf(root, r, owner).to
    ensures site in RegionPaths(g, root, t, r, owner, regionOf)[k] <==> OnPath(g, root, t, r, owner, regionOf, k, site)
  {
    var places := Placing(g, root, t, owner, regionOf);
    PathAt(g, root, t, r, owner, regionOf, k);
    NestedSites(t.nodes, r.nodes, places, k);
    PlacedSite(g, root, t, r, owner, regionOf, k, site);
    HeadOrTail(SpanOf(root, r, owner).from + k, Nested(t.nodes, r.nodes, places, k), site);
  }

  lemma PathIsDistinct(g: Graph, root: Name, t: Tree, counts: Name -> nat, r: Numbering, owner: Name,
                       regionOf: RegionOf, k: nat)
    requires Rooted(g, root, t) && Numbered(root, t, counts, r) && Chained(t.nodes, r.nodes)
    requires IsOwner(root, t, owner) && SpanOf(root, r, owner).from + k < SpanOf(root, r, owner).to
    ensures Distinct(RegionPaths(g, root, t, r, owner, regionOf)[k])
  {
    var places := Placing(g, root, t, owner, regionOf);
    PathAt(g, root, t, r, owner, regionOf, k);
    NestedAscends(t.nodes, r.nodes, places, k);
    OwnIsNotNested(g, root, t, counts, r, owner, regionOf, k);
    AscendingIsDistinct(SpanOf(root, r, owner).from + k, Nested(t.nodes, r.nodes, places, k));
  }

  lemma HeadOrTail(own: nat, nested: seq<nat>, site: nat)
    ensures site in [own] + nested <==> site == own || site in nested
  {
  }

  lemma AscendingIsDistinct(own: nat, nested: seq<nat>)
    requires own !in nested && Ascending(nested)
    ensures Distinct([own] + nested)
  {
  }

  lemma OwnIsNotNested(g: Graph, root: Name, t: Tree, counts: Name -> nat, r: Numbering, owner: Name,
                       regionOf: RegionOf, k: nat)
    requires Rooted(g, root, t) && Numbered(root, t, counts, r) && Chained(t.nodes, r.nodes)
    requires IsOwner(root, t, owner) && SpanOf(root, r, owner).from + k < SpanOf(root, r, owner).to
    ensures SpanOf(root, r, owner).from + k !in Nested(t.nodes, r.nodes, Placing(g, root, t, owner, regionOf), k)
  {
    var own := SpanOf(root, r, owner).from + k;
    NestedSites(t.nodes, r.nodes, Placing(g, root, t, owner, regionOf), k);
    PlacedSite(g, root, t, r, owner, regionOf, k, own);
    if n :| n in t.nodes && RegionUnder(g, root, t, n, owner, regionOf) == Some(k) && Owns(root, t, r, n, own) {
      NestedIsDeeper(g, root, t, n, owner);
      assert Owns(root, t, r, owner, own);
      OneOwner(root, t, counts, r, n, owner, own);
    }
  }

  lemma PlaceOf(g: Graph, root: Name, t: Tree, n: Name, owner: Name, regionOf: RegionOf)
    requires Rooted(g, root, t) && n in t.nodes
    ensures Placing(g, root, t, owner, regionOf)(n) == RegionUnder(g, root, t, n, owner, regionOf)
  {
  }

  lemma NestedByOwner(root: Name, t: Tree, r: Numbering, places: RegionOf, k: nat, site: nat)
    requires Chained(t.nodes, r.nodes) && root !in t.nodes
    ensures IsNested(t.nodes, r.nodes, places, k, site) <==>
              exists n :: n in t.nodes && places(n) == Some(k) && Owns(root, t, r, n, site)
  {
    if IsNested(t.nodes, r.nodes, places, k, site) {
      var i :| 0 <= i < |t.nodes| && places(t.nodes[i]) == Some(k) && In(r.nodes[t.nodes[i]], site);
      assert t.nodes[i] in t.nodes && Owns(root, t, r, t.nodes[i], site);
    }
    if n :| n in t.nodes && places(n) == Some(k) && Owns(root, t, r, n, site) {
      var i := IndexOf(t.nodes, n);
      assert places(t.nodes[i]) == Some(k) && In(r.nodes[t.nodes[i]], site);
    }
  }

  lemma PlacedSite(g: Graph, root: Name, t: Tree, r: Numbering, owner: Name, regionOf: RegionOf, k: nat, site: nat)
    requires Rooted(g, root, t) && Chained(t.nodes, r.nodes) && root !in t.nodes
    ensures IsNested(t.nodes, r.nodes, Placing(g, root, t, owner, regionOf), k, site) <==>
              exists n :: n in t.nodes && RegionUnder(g, root, t, n, owner, regionOf) == Some(k) &&
                  Owns(root, t, r, n, site)
  {
    var places := Placing(g, root, t, owner, regionOf);
    NestedByOwner(root, t, r, places, k, site);
    forall n | n in t.nodes
      ensures places(n) == RegionUnder(g, root, t, n, owner, regionOf)
    {
      PlaceOf(g, root, t, n, owner, regionOf);
    }
  }

  /** Two regions of one owner have no site in common. */
  lemma PathsAreApart(g: Graph, root: Name, t: Tree, counts: Name -> nat, r: Numbering, owner: Name,
                      regionOf: RegionOf,
                      k: nat, l: nat, site: nat)
    requires Rooted(g, root, t) && Numbered(root, t, counts, r) && IsOwner(root, t, owner)
    requires var own := SpanOf(root, r, owner); own.from + k < own.to && own.from + l < own.to
    requires OnPath(g, root, t, r, owner, regionOf, k, site) && OnPath(g, root, t, r, owner, regionOf, l, site)
    ensures k == l
  {
    var own := SpanOf(root, r, owner);
    if In(own, site) {
      OnlyOwnSite(g, root, t, counts, r, owner, regionOf, k, site);
      OnlyOwnSite(g, root, t, counts, r, owner, regionOf, l, site);
    } else {
      var n :| n in t.nodes && RegionUnder(g, root, t, n, owner, regionOf) == Some(k) && Owns(root, t, r, n, site);
      var m :| m in t.nodes && RegionUnder(g, root, t, m, owner, regionOf) == Some(l) && Owns(root, t, r, m, site);
      OneOwner(root, t, counts, r, n, m, site);
    }
  }

  lemma OnlyOwnSite(g: Graph, root: Name, t: Tree, counts: Name -> nat, r: Numbering, owner: Name,
                    regionOf: RegionOf, k: nat, site: nat)
    requires Rooted(g, root, t) && Numbered(root, t, counts, r) && IsOwner(root, t, owner)
    requires In(SpanOf(root, r, owner), site) && OnPath(g, root, t, r, owner, regionOf, k, site)
    ensures site == SpanOf(root, r, owner).from + k
  {
    if site != SpanOf(root, r, owner).from + k {
      var n :| n in t.nodes && RegionUnder(g, root, t, n, owner, regionOf) == Some(k) && Owns(root, t, r, n, site);
      NestedIsDeeper(g, root, t, n, owner);
      OneOwner(root, t, counts, r, n, owner, site);
    }
  }

  /** What is on a path of `owner` is in its subtree, and what is in the subtree is
      on a path if the child it is nested in is placed. */
  lemma SubtreeIsOnPaths(g: Graph, root: Name, t: Tree, r: Numbering, owner: Name, regionOf: RegionOf, site: nat)
    requires Rooted(g, root, t) && IsOwner(root, t, owner)
    ensures OnSomePath(g, root, t, r, owner, regionOf, site) ==> InSubtree(g, root, t, r, owner, site)
    ensures AllPlaced(root, t, r, owner, regionOf) && InSubtree(g, root, t, r, owner, site) ==>
              OnSomePath(g, root, t, r, owner, regionOf, site)
  {
    var own := SpanOf(root, r, owner);
    if AllPlaced(root, t, r, owner, regionOf) && InSubtree(g, root, t, r, owner, site) {
      var n :| IsOwner(root, t, n) && (n == owner || TopUnder(g, root, t, n, owner).Some?) && Owns(root, t, r, n, site);
      if n == owner {
        assert OnPath(g, root, t, r, owner, regionOf, site - own.from, site);
      } else {
        NestedIsDeeper(g, root, t, n, owner);
        var top := TopUnder(g, root, t, n, owner).value;
        var k := regionOf(top).value;
        assert RegionUnder(g, root, t, n, owner, regionOf) == Some(k);
        assert n in t.nodes && OnPath(g, root, t, r, owner, regionOf, k, site);
      }
    }
    if k: nat :| own.from + k < own.to && OnPath(g, root, t, r, owner, regionOf, k, site) {
      if site == own.from + k {
        assert Owns(root, t, r, owner, site);
      } else {
        var n :| n in t.nodes && RegionUnder(g, root, t, n, owner, regionOf) == Some(k) && Owns(root, t, r, n, site);
        assert IsOwner(root, t, n) && TopUnder(g, root, t, n, owner).Some?;
      }
    }
  }

  ghost predicate OnSomePath(g: Graph, root: Name, t: Tree, r: Numbering, owner: Name, regionOf: RegionOf, site: nat)
    requires Rooted(g, root, t)
  {
    exists k: nat :: SpanOf(root, r, owner).from + k < SpanOf(root, r, owner).to
                     && OnPath(g, root, t, r, owner, regionOf, k, site)
  }

  /** The site of a child that is in no region is on no path. */
  lemma UnplacedIsOnNoPath(g: Graph, root: Name, t: Tree, counts: Name -> nat, r: Numbering, owner: Name,
                           regionOf: RegionOf, c: Name, site: nat)
    requires Rooted(g, root, t) && Numbered(root, t, counts, r) && IsOwner(root, t, owner)
    requires c in t.parents && t.parents[c] == owner && regionOf(c).None? && Owns(root, t, r, c, site)
    ensures InSubtree(g, root, t, r, owner, site) && !OnSomePath(g, root, t, r, owner, regionOf, site)
  {
    assert TopUnder(g, root, t, c, owner) == Some(c);
    NestedIsDeeper(g, root, t, c, owner);
    var own := SpanOf(root, r, owner);
    if k: nat :| own.from + k < own.to && OnPath(g, root, t, r, owner, regionOf, k, site) {
      if site == own.from + k {
        OneOwner(root, t, counts, r, c, owner, site);
      } else {
        var n :| n in t.nodes && RegionUnder(g, root, t, n, owner, regionOf) == Some(k) && Owns(root, t, r, n, site);
        OneOwner(root, t, counts, r, c, n, site);
      }
    }
  }

  /** A path is covered as its regions say. */
  lemma CoveredIsOnPath(g: Graph, root: Name, t: Tree, counts: Name -> nat, r: Numbering, owner: Name,
                        regionOf: RegionOf,
                        site: nat)
    requires Rooted(g, root, t) && Numbered(root, t, counts, r) && IsOwner(root, t, owner)
    ensures Covers(RegionPaths(g, root, t, r, owner, regionOf), site) <==>
            OnSomePath(g, root, t, r, owner, regionOf, site)
  {
    NumberedIsChained(root, t, counts, r);
    var paths := RegionPaths(g, root, t, r, owner, regionOf);
    forall k: nat | k < |paths|
      ensures site in paths[k] <==> OnPath(g, root, t, r, owner, regionOf, k, site)
    {
      PathHas(g, root, t, counts, r, owner, regionOf, k, site);
    }
    if OnSomePath(g, root, t, r, owner, regionOf, site) {
      var k: nat :| SpanOf(root, r, owner).from + k < SpanOf(root, r, owner).to
                    && OnPath(g, root, t, r, owner, regionOf, k, site);
      assert site in paths[k];
    }
  }

  lemma PathsApart(g: Graph, root: Name, t: Tree, counts: Name -> nat, r: Numbering, owner: Name, regionOf: RegionOf)
    requires Rooted(g, root, t) && Numbered(root, t, counts, r) && IsOwner(root, t, owner)
    ensures Apart(RegionPaths(g, root, t, r, owner, regionOf))
  {
    NumberedIsChained(root, t, counts, r);
    var paths := RegionPaths(g, root, t, r, owner, regionOf);
    forall k: nat | k < |paths|
      ensures Distinct(paths[k])
    {
      PathIsDistinct(g, root, t, counts, r, owner, regionOf, k);
    }
    forall k: nat, l: nat, site: nat | k < |paths| && l < |paths| && site in paths[k] && site in paths[l]
      ensures k == l
    {
      PathHas(g, root, t, counts, r, owner, regionOf, k, site);
      PathHas(g, root, t, counts, r, owner, regionOf, l, site);
      PathsAreApart(g, root, t, counts, r, owner, regionOf, k, l, site);
    }
  }

  /** Every node has a site of its own, and what `regionOf` finds is a region of the owner. */
  ghost predicate Sited(root: Name, t: Tree, counts: Name -> nat, r: Numbering, owner: Name, regionOf: RegionOf) {
    && Numbered(root, t, counts, r)
    && (forall n :: n in t.nodes ==> counts(n) > 0)
    && (forall c :: regionOf(c).Some? ==> regionOf(c).value < Size(SpanOf(root, r, owner)))
  }

  /** The paths of an owner's regions have no site in common and lie in its subtree;
      they partition it exactly if every child is a state of one of the regions. */
  lemma PathsPartitionSubtree(g: Graph, root: Name, t: Tree, counts: Name -> nat, r: Numbering, owner: Name,
                              regionOf: RegionOf)
    requires Rooted(g, root, t) && IsOwner(root, t, owner) && Sited(root, t, counts, r, owner, regionOf)
    ensures var paths := RegionPaths(g, root, t, r, owner, regionOf);
            && |paths| == Size(SpanOf(root, r, owner)) && Apart(paths)
            && (forall site: nat :: Covers(paths, site) ==> InSubtree(g, root, t, r, owner, site))
            && ((forall site: nat :: InSubtree(g, root, t, r, owner, site) ==> Covers(paths, site)) <==>
                  AllPlaced(root, t, r, owner, regionOf))
  {
    var paths := RegionPaths(g, root, t, r, owner, regionOf);
    PathsApart(g, root, t, counts, r, owner, regionOf);
    forall site: nat
      ensures Covers(paths, site) ==> InSubtree(g, root, t, r, owner, site)
      ensures AllPlaced(root, t, r, owner, regionOf) && InSubtree(g, root, t, r, owner, site) ==> Covers(paths, site)
    {
      CoveredIsOnPath(g, root, t, counts, r, owner, regionOf, site);
      SubtreeIsOnPaths(g, root, t, r, owner, regionOf, site);
    }
    if !AllPlaced(root, t, r, owner, regionOf) {
      var c :| c in t.parents && t.parents[c] == owner && regionOf(c).None?;
      var site := FirstSite(root, t, counts, r, c);
      UnplacedIsOnNoPath(g, root, t, counts, r, owner, regionOf, c, site);
      CoveredIsOnPath(g, root, t, counts, r, owner, regionOf, site);
    }
  }

  lemma FirstSite(root: Name, t: Tree, counts: Name -> nat, r: Numbering, c: Name) returns (site: nat)
    requires Numbered(root, t, counts, r) && c in t.nodes && counts(c) > 0
    ensures Owns(root, t, r, c, site)
  {
    var i := IndexOf(t.nodes, c);
    site := r.nodes[t.nodes[i]].from;
  }

  /** The subtree of the root is all sites. */
  lemma RootSubtreeIsAll(g: Graph, root: Name, t: Tree, counts: Name -> nat, r: Numbering, site: nat)
    requires Rooted(g, root, t) && Numbered(root, t, counts, r)
    ensures site < r.root.to <==> InSubtree(g, root, t, r, root, site)
  {
    SitesAreOwned(root, t, counts, r, site);
    if site < r.root.to {
      var o :| Owns(root, t, r, o, site);
      if o != root {
        AllUnderRoot(g, root, t, o);
      }
    }
  }
}
