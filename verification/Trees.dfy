/** Building the tree of composite tables (macros/src/composite_codegen.rs, the
    queue loop of `generate_multi_code`). */
module Trees {
  import opened Prelude

  type Name = string

  /** A table: the tables it mentions as composite states, in order, and whether
      `validate` finds nothing wrong with it. */
  datatype Table = Table(name: Name, mentions: seq<Name>, valid: bool)

  predicate Known(tables: seq<Table>, name: Name) {
    exists i :: 0 <= i < |tables| && tables[i].name == name
  }

  predicate WellNamed(tables: seq<Table>) {
    forall i, j :: 0 <= i < j < |tables| ==> tables[i].name != tables[j].name
  }

  function Find(tables: seq<Table>, name: Name): (r: Option<Table>)
    ensures r.Some? <==> Known(tables, name)
    ensures r.Some? ==> r.value.name == name && r.value in tables
  {
    if tables == [] then None
    else if tables[0].name == name then Some(tables[0])
    else
      var r := Find(tables[1..], name);
      assert r.Some? ==> exists i :: 0 < i < |tables| && tables[i].name == name by {
        if r.Some? {
          var i :| 0 <= i < |tables[1..]| && tables[1..][i].name == name;
          assert tables[i + 1].name == name;
        }
      }
      assert Known(tables, name) ==> Known(tables[1..], name) by {
        if Known(tables, name) {
          var i :| 0 <= i < |tables| && tables[i].name == name;
          assert tables[1..][i - 1].name == name;
        }
      }
      r
  }

  /** The known tables among `mentions`, each once, in order of first mention. */
  function Direct(tables: seq<Table>, mentions: seq<Name>): (r: seq<Name>)
    ensures Distinct(r)
    ensures forall c :: c in r <==> c in mentions && Known(tables, c)
  {
    if mentions == [] then []
    else
      var n := |mentions| - 1;
      var r := Direct(tables, mentions[..n]);
      assert mentions == mentions[..n] + [mentions[n]];
      if Known(tables, mentions[n]) && mentions[n] !in r then r + [mentions[n]] else r
  }

  /** The place of the first mention. */
  ghost predicate FirstAt(mentions: seq<Name>, c: Name, i: nat) {
    i < |mentions| && mentions[i] == c && c !in mentions[..i]
  }

  /** Earlier in the list means first mentioned earlier. */
  lemma {:induction false} DirectInOrder(tables: seq<Table>, mentions: seq<Name>, a: nat, b: nat) returns (i: nat,
        j: nat)
    requires a < b < |Direct(tables, mentions)|
    ensures i < j && FirstAt(mentions, Direct(tables, mentions)[a], i) &&
            FirstAt(mentions, Direct(tables, mentions)[b], j)
    decreases |mentions|
  {
    var n := |mentions| - 1;
    var before := Direct(tables, mentions[..n]);
    if b < |before| {
      i, j := DirectInOrder(tables, mentions[..n], a, b);
      assert mentions[..n][..i] == mentions[..i] && mentions[..n][..j] == mentions[..j];
    } else {
      i := FirstMention(mentions[..n], before[a]);
      j := n;
      assert before[a] in before && mentions[..n][..i] == mentions[..i];
    }
  }

  lemma {:induction false} FirstMention(mentions: seq<Name>, c: Name) returns (i: nat)
    requires c in mentions
    ensures FirstAt(mentions, c, i)
    decreases |mentions|
  {
    var n := |mentions| - 1;
    if c in mentions[..n] {
      i := FirstMention(mentions[..n], c);
      assert mentions[..n][..i] == mentions[..i];
    } else {
      i := n;
    }
  }

  function Kids(tables: seq<Table>, owner: Name): (r: seq<Name>)
    ensures Distinct(r)
    ensures forall c :: c in r ==> Known(tables, c)
  {
    match Find(tables, owner)
    case None => []
    case Some(t) => Direct(tables, t.mentions)
  }

  predicate IsValid(tables: seq<Table>, name: Name) {
    Find(tables, name).Some? && Find(tables, name).value.valid
  }

  // ---- What a forest of tables has to look like ----------------------------------------------

  /** The direct children of each table, and which tables are valid. */
  datatype Graph = Graph(kids: Name -> seq<Name>, ok: Name -> bool, names: set<Name>)

  /** No table is listed twice, and only tables are. */
  ghost predicate Neat(g: Graph) {
    && (forall n :: Distinct(g.kids(n)))
    && (forall n, c :: c in g.kids(n) ==> c in g.names)
  }

  function GraphOf(tables: seq<Table>): (g: Graph)
    ensures Neat(g)
  {
    Graph(n => Kids(tables, n), n => IsValid(tables, n), set i | 0 <= i < |tables| :: tables[i].name)
  }

  ghost predicate IsPath(g: Graph, path: seq<Name>, root: Name, name: Name) {
    && path != [] && path[0] == root && path[|path| - 1] == name
    && forall i :: 0 <= i < |path| - 1 ==> path[i + 1] in g.kids(path[i])
  }

  ghost predicate Reachable(g: Graph, root: Name, name: Name) {
    exists path :: IsPath(g, path, root, name)
  }

  /** From the root on, every table has one owner, the root has none, and all are valid. */
  ghost predicate IsTreelike(g: Graph, root: Name) {
    && (forall o :: Reachable(g, root, o) ==> root !in g.kids(o))
    && (forall o, p, c :: Reachable(g, root, o) && Reachable(g, root, p) && c in g.kids(o) && c in g.kids(p) ==> o == p)
    && (forall c :: Reachable(g, root, c) && g.kids(root) != [] ==> g.ok(c))
  }

  /** `all_child_references`, `node_parents` and `node_depths`. */
  datatype Tree = Tree(nodes: seq<Name>, parents: map<Name, Name>, depths: map<Name, nat>)

  predicate IsOwner(root: Name, t: Tree, name: Name) {
    name == root || name in t.nodes
  }

  function DepthOf(root: Name, t: Tree, name: Name): nat {
    if name == root then 0 else if name in t.depths then t.depths[name] else 0
  }

  /** Every node has one parent, which mentions it and is one level up, so every
      walk up ends at the root, which is under no node. */
  ghost predicate Rooted(g: Graph, root: Name, t: Tree) {
    && root !in t.nodes && Distinct(t.nodes)
    && (forall n :: n in t.parents <==> n in t.nodes) && (forall n :: n in t.depths <==> n in t.nodes)
    && (forall n {:trigger t.parents[n]} :: n in t.parents ==>
          && n in g.kids(t.parents[n]) && IsOwner(root, t, t.parents[n])
          && n in t.depths && t.depths[n] == DepthOf(root, t, t.parents[n]) + 1)
  }

  predicate IsChild(t: Tree, node: Name, owner: Name) {
    node in t.nodes && node in t.parents && t.parents[node] == owner
  }

  /** The tree of `root`: exactly the tables reachable from it. */
  ghost predicate IsTree(g: Graph, root: Name, t: Tree) {
    && Rooted(g, root, t)
    && (forall o, c {:trigger IsChild(t, c, o)} :: IsOwner(root, t, o) && c in g.kids(o) ==> IsChild(t, c, o))
    && (forall n :: Reachable(g, root, n) <==> IsOwner(root, t, n))
  }

  // ---- Reachability ---------------------------------------------------------------------------

  lemma RootReachable(g: Graph, root: Name)
    ensures Reachable(g, root, root)
  {
    assert IsPath(g, [root], root, root);
  }

  lemma KidReachable(g: Graph, root: Name, owner: Name, c: Name)
    requires Reachable(g, root, owner) && c in g.kids(owner)
    ensures Reachable(g, root, c)
  {
    var path :| IsPath(g, path, root, owner);
    assert IsPath(g, path + [c], root, c);
  }

  lemma {:induction false} PathStaysInside(g: Graph, root: Name, path: seq<Name>, name: Name, inside: set<Name>)
    requires IsPath(g, path, root, name) && root in inside
    requires forall o, c :: o in inside && c in g.kids(o) ==> c in inside
    ensures name in inside
    decreases |path|
  {
    if |path| > 1 {
      var shorter := path[..|path| - 1];
      assert IsPath(g, shorter, root, path[|path| - 2]);
      PathStaysInside(g, root, shorter, path[|path| - 2], inside);
      assert path[|path| - 2 + 1] in g.kids(path[|path| - 2]);
    }
  }

  // ---- The loop ----------------------------------------------------------------------------------

  datatype Pending = Pending(node: Name, owner: Name, depth: nat)

  predicate Waits(queue: seq<Pending>, node: Name, owner: Name) {
    exists i :: 0 <= i < |queue| && queue[i].node == node && queue[i].owner == owner
  }

  /** What was taken is reachable and valid; the first node taken is a child of the root. */
  ghost predicate Reached(g: Graph, root: Name, t: Tree) {
    && (forall n :: IsOwner(root, t, n) ==> Reachable(g, root, n))
    && (forall n :: n in t.nodes ==> g.ok(root) && g.ok(n))
    && (t.nodes != [] ==> t.nodes[0] in g.kids(root))
  }

  /** What waits is a child of an owner, at its depth, and waits once. */
  ghost predicate QueueFits(g: Graph, root: Name, t: Tree, queue: seq<Pending>) {
    && (forall i {:trigger queue[i]} :: 0 <= i < |queue| ==>
          && IsOwner(root, t, queue[i].owner) && queue[i].node in g.kids(queue[i].owner)
          && queue[i].depth == DepthOf(root, t, queue[i].owner) + 1
          && !IsChild(t, queue[i].node, queue[i].owner))
    && (forall i, j :: 0 <= i < j < |queue| ==> queue[i].node != queue[j].node || queue[i].owner != queue[j].owner)
  }

  ghost predicate Served(g: Graph, root: Name, t: Tree, queue: seq<Pending>) {
    forall o, c {:trigger IsChild(t, c, o)} {:trigger Waits(queue, c, o)} ::
      IsOwner(root, t, o) && c in g.kids(o) ==> IsChild(t, c, o) || Waits(queue, c, o)
  }

  /** Everything is in order so far. */
  ghost predicate Growing(g: Graph, root: Name, t: Tree, queue: seq<Pending>) {
    Rooted(g, root, t) && Reached(g, root, t) && QueueFits(g, root, t, queue) && Served(g, root, t, queue)
  }

  /** The root has become a node; the loop will find a node for the second time. */
  ghost predicate Doomed(g: Graph, root: Name, nodes: seq<Name>, queue: seq<Pending>) {
    && !IsTreelike(g, root)
    && exists i :: 0 <= i < |queue| && queue[i].node in nodes
  }

  ghost predicate Running(g: Graph, root: Name, t: Tree, queue: seq<Pending>) {
    && Distinct(t.nodes)
    && (forall n :: n in t.nodes ==> n in g.names)
    && (forall i {:trigger queue[i]} :: 0 <= i < |queue| ==> queue[i].node in g.names)
    && (if root in t.nodes then Doomed(g, root, t.nodes, queue) else Growing(g, root, t, queue))
  }

  function Enqueue(kids: seq<Name>, owner: Name, depth: nat): (r: seq<Pending>)
    ensures |r| == |kids|
    ensures forall i {:trigger r[i]} :: 0 <= i < |r| ==> r[i] == Pending(kids[i], owner, depth)
  {
    seq(|kids|, i requires 0 <= i < |kids| => Pending(kids[i], owner, depth))
  }

  function Insert(t: Tree, e: Pending): Tree {
    Tree(t.nodes + [e.node], t.parents[e.node := e.owner], t.depths[e.node := e.depth])
  }

  lemma IndexOf(names: seq<Name>, n: Name) returns (k: nat)
    requires n in names
    ensures k < |names| && names[k] == n
  {
    k :| 0 <= k < |names| && names[k] == n;
  }

  lemma StartsGrowing(g: Graph, root: Name)
    requires Neat(g)
    ensures Growing(g, root, Tree([], map[], map[]), Enqueue(g.kids(root), root, 1))
  {
    RootReachable(g, root);
    var queue := Enqueue(g.kids(root), root, 1);
    forall c | c in g.kids(root)
      ensures Waits(queue, c, root)
    {
      var i := IndexOf(g.kids(root), c);
      assert queue[i].node == c;
    }
  }

  /** A node met for the second time has two owners. */
  lemma MetTwice(g: Graph, root: Name, t: Tree, queue: seq<Pending>)
    requires Growing(g, root, t, queue) && queue != [] && queue[0].node in t.nodes
    ensures !IsTreelike(g, root)
  {
    var p := t.parents[queue[0].node];
    assert IsOwner(root, t, p) && p != queue[0].owner;
  }

  lemma InvalidNode(g: Graph, root: Name, t: Tree, queue: seq<Pending>)
    requires Growing(g, root, t, queue) && queue != []
    requires !g.ok(root) || !g.ok(queue[0].node)
    ensures !IsTreelike(g, root)
  {
    var e := queue[0];
    KidReachable(g, root, e.owner, e.node);
    RootReachable(g, root);
    RootHasKids(g, root, t, queue);
  }

  lemma RootHasKids(g: Graph, root: Name, t: Tree, queue: seq<Pending>)
    requires Growing(g, root, t, queue) && queue != []
    ensures g.kids(root) != []
    ensures t.nodes != [] ==> t.nodes[0] in g.kids(root)
    ensures t.nodes == [] ==> queue[0].owner == root
  {
    assert IsOwner(root, t, queue[0].owner);
  }

  /** Taking the root for a node dooms the loop. */
  lemma RootAsNode(g: Graph, root: Name, t: Tree, queue: seq<Pending>)
    requires Growing(g, root, t, queue) && queue != [] && queue[0].node == root
    ensures Doomed(g, root, t.nodes + [root], queue[1..] + Enqueue(g.kids(root), root, queue[0].depth + 1))
  {
    var added := Enqueue(g.kids(root), root, queue[0].depth + 1);
    var rest := queue[1..] + added;
    RootHasKids(g, root, t, queue);
    var c := if t.nodes == [] then root else t.nodes[0];
    var k := IndexOf(g.kids(root), c);
    assert rest[|queue| - 1 + k] == added[k];
    assert IsOwner(root, t, queue[0].owner) && root in g.kids(queue[0].owner);
  }

  lemma StaysDoomed(g: Graph, root: Name, nodes: seq<Name>, queue: seq<Pending>, e: Pending, added: seq<Pending>)
    requires Doomed(g, root, nodes, queue) && queue != [] && e == queue[0] && e.node !in nodes
    ensures Doomed(g, root, nodes + [e.node], queue[1..] + added)
  {
    var i :| 0 <= i < |queue| && queue[i].node in nodes;
    assert (queue[1..] + added)[i - 1] == queue[i];
  }

  lemma InsertKeepsRooted(g: Graph, root: Name, t: Tree, queue: seq<Pending>)
    requires Growing(g, root, t, queue) && queue != []
    requires queue[0].node !in t.nodes && queue[0].node != root
    ensures Rooted(g, root, Insert(t, queue[0]))
  {
    var e := queue[0];
    var t' := Insert(t, e);
    assert IsOwner(root, t, e.owner) && e.owner != e.node;
    forall n {:trigger t'.parents[n]} | n in t'.parents
      ensures n in g.kids(t'.parents[n]) && IsOwner(root, t', t'.parents[n])
      ensures t'.depths[n] == DepthOf(root, t', t'.parents[n]) + 1
    {
      if n != e.node {
        assert t.parents[n] == t'.parents[n] && IsOwner(root, t, t.parents[n]);
      }
    }
  }

  lemma InsertKeepsQueue(g: Graph, root: Name, t: Tree, queue: seq<Pending>)
    requires Neat(g) && Growing(g, root, t, queue) && queue != []
    requires queue[0].node !in t.nodes && queue[0].node != root
    ensures var e := queue[0]; var t' := Insert(t, e);
            var rest := queue[1..] + Enqueue(g.kids(e.node), e.node, e.depth + 1);
            QueueFits(g, root, t', rest)
  {
    var e := queue[0];
    var t' := Insert(t, e);
    var rest := queue[1..] + Enqueue(g.kids(e.node), e.node, e.depth + 1);
    var n := |queue| - 1;
    assert forall i :: 0 <= i < n ==> rest[i] == queue[i + 1];
    forall i {:trigger rest[i]} | 0 <= i < |rest|
      ensures IsOwner(root, t', rest[i].owner) && rest[i].node in g.kids(rest[i].owner)
      ensures rest[i].depth == DepthOf(root, t', rest[i].owner) + 1
      ensures i < n ==> rest[i].owner != e.node
      ensures !IsChild(t', rest[i].node, rest[i].owner)
    {
      if i < n {
        assert IsOwner(root, t, queue[i + 1].owner);
      } else {
        assert rest[i].owner == e.node;
        if rest[i].node in t.nodes && rest[i].node != e.node {
          assert IsOwner(root, t, t.parents[rest[i].node]);
        }
      }
    }
  }

  lemma InsertKeepsWaiting(g: Graph, root: Name, t: Tree, queue: seq<Pending>, o: Name, c: Name)
    requires Growing(g, root, t, queue) && queue != []
    requires queue[0].node !in t.nodes && queue[0].node != root
    requires IsOwner(root, Insert(t, queue[0]), o) && c in g.kids(o)
    ensures var e := queue[0]; var t' := Insert(t, e);
            var rest := queue[1..] + Enqueue(g.kids(e.node), e.node, e.depth + 1);
            IsChild(t', c, o) || Waits(rest, c, o)
  {
    var e := queue[0];
    var added := Enqueue(g.kids(e.node), e.node, e.depth + 1);
    if o == e.node {
      var k := IndexOf(g.kids(o), c);
      assert (queue[1..] + added)[|queue| - 1 + k] == added[k];
    } else if IsChild(t, c, o) {
      assert IsChild(Insert(t, e), c, o);
    } else if IsOwner(root, t, o) && e.node == c && e.owner == o {
      assert IsChild(Insert(t, e), c, o);
    } else {
      assert Waits(queue, c, o);
      StillWaits(queue, added, c, o);
    }
  }

  lemma StillWaits(queue: seq<Pending>, added: seq<Pending>, c: Name, o: Name)
    requires queue != [] && Waits(queue, c, o) && (queue[0].node != c || queue[0].owner != o)
    ensures Waits(queue[1..] + added, c, o)
  {
    var i :| 0 <= i < |queue| && queue[i].node == c && queue[i].owner == o;
    assert (queue[1..] + added)[i - 1] == queue[i];
  }

  lemma InsertKeepsReach(g: Graph, root: Name, t: Tree, queue: seq<Pending>)
    requires Growing(g, root, t, queue) && queue != []
    requires g.ok(root) && g.ok(queue[0].node)
    ensures Reached(g, root, Insert(t, queue[0]))
  {
    var e := queue[0];
    assert IsOwner(root, t, e.owner);
    KidReachable(g, root, e.owner, e.node);
    RootHasKids(g, root, t, queue);
  }

  lemma InsertKeepsGrowing(g: Graph, root: Name, t: Tree, queue: seq<Pending>)
    requires Neat(g) && Growing(g, root, t, queue) && queue != []
    requires queue[0].node !in t.nodes && queue[0].node != root
    requires g.ok(root) && g.ok(queue[0].node)
    ensures var e := queue[0];
            Growing(g, root, Insert(t, e), queue[1..] + Enqueue(g.kids(e.node), e.node, e.depth + 1))
  {
    var e := queue[0];
    InsertKeepsRooted(g, root, t, queue);
    InsertKeepsQueue(g, root, t, queue);
    InsertKeepsReach(g, root, t, queue);
    InsertKeepsServed(g, root, t, queue);
  }

  lemma InsertKeepsServed(g: Graph, root: Name, t: Tree, queue: seq<Pending>)
    requires Growing(g, root, t, queue) && queue != []
    requires queue[0].node !in t.nodes && queue[0].node != root
    ensures var e := queue[0];
            Served(g, root, Insert(t, e), queue[1..] + Enqueue(g.kids(e.node), e.node, e.depth + 1))
  {
    forall o, c | IsOwner(root, Insert(t, queue[0]), o) && c in g.kids(o)
      ensures var e := queue[0];
              || IsChild(Insert(t, e), c, o)
              || Waits(queue[1..] + Enqueue(g.kids(e.node), e.node, e.depth + 1), c, o)
    {
      InsertKeepsWaiting(g, root, t, queue, o, c);
    }
  }

  lemma GrownIsTree(g: Graph, root: Name, t: Tree)
    requires Growing(g, root, t, [])
    ensures IsTree(g, root, t) && IsTreelike(g, root)
  {
    AllServed(g, root, t);
    forall n | Reachable(g, root, n)
      ensures IsOwner(root, t, n)
    {
      ReachableIsOwner(g, root, t, n);
    }
    TreeIsTreelike(g, root, t);
  }

  lemma AllServed(g: Graph, root: Name, t: Tree)
    requires Growing(g, root, t, [])
    ensures forall o, c {:trigger IsChild(t, c, o)} :: IsOwner(root, t, o) && c in g.kids(o) ==> IsChild(t, c, o)
  {
  }

  lemma ReachableIsOwner(g: Graph, root: Name, t: Tree, n: Name)
    requires Reachable(g, root, n)
    requires forall o, c {:trigger IsChild(t, c, o)} :: IsOwner(root, t, o) && c in g.kids(o) ==> IsChild(t, c, o)
    ensures IsOwner(root, t, n)
  {
    var inside := {root} + set n | n in t.nodes;
    forall o, c | o in inside && c in g.kids(o)
      ensures c in inside
    {
      assert IsOwner(root, t, o) && IsChild(t, c, o);
    }
    var path :| IsPath(g, path, root, n);
    PathStaysInside(g, root, path, n, inside);
  }

  lemma TreeIsTreelike(g: Graph, root: Name, t: Tree)
    requires IsTree(g, root, t) && forall n :: n in t.nodes ==> g.ok(root) && g.ok(n)
    ensures IsTreelike(g, root)
  {
    forall o, p, c | Reachable(g, root, o) && Reachable(g, root, p) && c in g.kids(o) && c in g.kids(p)
      ensures o == p
    {
      assert IsChild(t, c, o) && IsChild(t, c, p);
    }
    forall o | Reachable(g, root, o)
      ensures root !in g.kids(o)
    {
      assert root in g.kids(o) ==> IsChild(t, root, o);
    }
    if g.kids(root) != [] {
      assert g.kids(root)[0] in g.kids(root);
      assert IsOwner(root, t, root) && IsChild(t, g.kids(root)[0], root);
    }
  }

  datatype Error = ManyOwnersOrCycle(node: Name) | MissingTable(node: Name) | Invalid(node: Name)

  lemma TakeNode(g: Graph, root: Name, t: Tree, queue: seq<Pending>)
    requires Neat(g) && Running(g, root, t, queue) && queue != [] && queue[0].node !in t.nodes
    requires g.ok(root) && g.ok(queue[0].node)
    ensures var e := queue[0];
            Running(g, root, Insert(t, e), queue[1..] + Enqueue(g.kids(e.node), e.node, e.depth + 1))
  {
    var e := queue[0];
    var added := Enqueue(g.kids(e.node), e.node, e.depth + 1);
    var rest := queue[1..] + added;
    forall i {:trigger rest[i]} | 0 <= i < |rest|
      ensures rest[i].node in g.names
    {
      if i < |queue| - 1 {
        assert rest[i] == queue[i + 1];
      } else {
        assert rest[i] == added[i - |queue| + 1] && rest[i].node in g.kids(e.node);
      }
    }
    if root in t.nodes {
      StaysDoomed(g, root, t.nodes, queue, e, added);
    } else if e.node == root {
      RootAsNode(g, root, t, queue);
    } else {
      InsertKeepsGrowing(g, root, t, queue);
    }
  }

  /** The first node in the queue cannot be taken: the tables are no tree. */
  lemma NodeRefused(g: Graph, root: Name, t: Tree, queue: seq<Pending>)
    requires Running(g, root, t, queue) && queue != []
    requires queue[0].node in t.nodes || !g.ok(root) || !g.ok(queue[0].node)
    ensures !IsTreelike(g, root)
  {
    if root !in t.nodes {
      if queue[0].node in t.nodes {
        MetTwice(g, root, t, queue);
      } else {
        InvalidNode(g, root, t, queue);
      }
    }
  }

  ghost function NodeSet(t: Tree): set<Name> {
    set n | n in t.nodes
  }

  lemma NodeIsNew(g: Graph, root: Name, t: Tree, queue: seq<Pending>)
    requires Running(g, root, t, queue) && queue != [] && queue[0].node !in t.nodes
    ensures g.names - NodeSet(Insert(t, queue[0])) < g.names - NodeSet(t)
  {
    assert queue[0].node in g.names - NodeSet(t);
    assert NodeSet(Insert(t, queue[0])) == NodeSet(t) + {queue[0].node};
  }

  /** The queue after its first node was taken: its children wait behind the others. */
  function Rest(tables: seq<Table>, queue: seq<Pending>): seq<Pending>
    requires queue != []
  {
    var e := queue[0];
    queue[1..] + Enqueue(Kids(tables, e.node), e.node, e.depth + 1)
  }

  lemma TakeTable(tables: seq<Table>, root: Name, t: Tree, queue: seq<Pending>)
    requires Running(GraphOf(tables), root, t, queue) && queue != [] && queue[0].node !in t.nodes
    requires IsValid(tables, root) && IsValid(tables, queue[0].node)
    ensures Running(GraphOf(tables), root, Insert(t, queue[0]), Rest(tables, queue))
    ensures GraphOf(tables).names - NodeSet(Insert(t, queue[0])) < GraphOf(tables).names - NodeSet(t)
  {
    TakeNode(GraphOf(tables), root, t, queue);
    NodeIsNew(GraphOf(tables), root, t, queue);
  }

  lemma RefuseTable(tables: seq<Table>, root: Name, t: Tree, queue: seq<Pending>)
    requires Running(GraphOf(tables), root, t, queue) && queue != []
    requires queue[0].node in t.nodes || !IsValid(tables, root) || !IsValid(tables, queue[0].node)
    ensures !IsTreelike(GraphOf(tables), root)
  {
    NodeRefused(GraphOf(tables), root, t, queue);
  }

  /** Whether the first node in the queue can be taken; the errors of the loop, in order. */
  method Examine(tables: seq<Table>, root: Name, t: Tree, queue: seq<Pending>) returns (error: Option<Error>)
    requires Running(GraphOf(tables), root, t, queue) && queue != []
    ensures error.Some? ==> !IsTreelike(GraphOf(tables), root)
    ensures error.None? ==> queue[0].node !in t.nodes && IsValid(tables, root) && IsValid(tables, queue[0].node)
  {
    var e := queue[0];
    if e.node in t.nodes || !IsValid(tables, root) || !IsValid(tables, e.node) {
      RefuseTable(tables, root, t, queue);
      return Some(if e.node in t.nodes then ManyOwnersOrCycle(e.node)
                  else if Find(tables, e.node).None? then MissingTable(e.node) else Invalid(e.node));
    }
    return None;
  }

  /** The first node joins the tree and its children join the queue. */
  method Take(tables: seq<Table>, root: Name, t: Tree, queue: seq<Pending>) returns (t': Tree, queue': seq<Pending>)
    requires Running(GraphOf(tables), root, t, queue) && queue != [] && queue[0].node !in t.nodes
    requires IsValid(tables, root) && IsValid(tables, queue[0].node)
    ensures t' == Insert(t, queue[0])
    ensures Running(GraphOf(tables), root, t', queue')
    ensures GraphOf(tables).names - NodeSet(t') < GraphOf(tables).names - NodeSet(t)
  {
    TakeTable(tables, root, t, queue);
    queue' := Rest(tables, queue);
    t' := Insert(t, queue[0]);
  }

  /** The loop ends; it succeeds exactly if the tables below the root form a tree
      of valid tables, and then returns that tree. */
  method Build(tables: seq<Table>, root: Name) returns (r: Result<Tree, Error>)
    requires WellNamed(tables) && Known(tables, root)
    ensures r.Ok? <==> IsTreelike(GraphOf(tables), root)
    ensures r.Ok? ==> IsTree(GraphOf(tables), root, r.value)
  {
    var queue := Enqueue(Kids(tables, root), root, 1);
    var t := Tree([], map[], map[]);
    StartsRunning(tables, root);
    while queue != []
      invariant Running(GraphOf(tables), root, t, queue)
      decreases GraphOf(tables).names - NodeSet(t)
    {
      var error := Examine(tables, root, t, queue);
      if error.Some? {
        return Err(error.value);
      }
      t, queue := Take(tables, root, t, queue);
    }
    EndsAsTree(GraphOf(tables), root, t);
    return Ok(t);
  }

  lemma StartsRunning(tables: seq<Table>, root: Name)
    ensures Running(GraphOf(tables), root, Tree([], map[], map[]), Enqueue(Kids(tables, root), root, 1))
  {
    var g := GraphOf(tables);
    StartsGrowing(g, root);
    var queue := Enqueue(Kids(tables, root), root, 1);
    forall i {:trigger queue[i]} | 0 <= i < |queue|
      ensures queue[i].node in g.names
    {
      assert queue[i].node in g.kids(root);
    }
  }

  lemma EndsAsTree(g: Graph, root: Name, t: Tree)
    requires Running(g, root, t, [])
    ensures IsTree(g, root, t) && IsTreelike(g, root)
  {
    GrownIsTree(g, root, t);
  }
}
