/** `_get_nodes`, `DAG._build` and the cached `root_nodes`, `leaf_nodes` and
    `trigger_nodes` properties. */
module Classify {
  import opened Wrappers
  import opened DagBase
  import opened Wiring

  /** The nodes one step away from `x` in the chosen direction. */
  function Stream(w: World, x: NodeId, isUpstream: bool): seq<NodeId>
    requires x in w.nodes
  {
    if isUpstream then w.nodes[x].up else w.nodes[x].down
  }

  /** `s` is a set of known nodes that contains every node one step away from
      each of its members. */
  ghost predicate Closed(w: World, s: set<NodeId>, isUpstream: bool) {
    forall a :: a in s ==> a in w.nodes && forall b :: b in Stream(w, a, isUpstream) ==> b in s
  }

  /** Depth-first search from `frontier`, skipping the nodes already `visited`.
      The source recurses without a visited set; on an acyclic graph the two
      collect the same nodes, and here a cycle does not loop forever. */
  function Reach(w: World, frontier: seq<NodeId>, visited: set<NodeId>, isUpstream: bool): (r: set<NodeId>)
    requires EdgeEndsKnown(w.nodes)
    requires forall x :: x in frontier ==> x in w.nodes
    requires visited <= w.nodes.Keys
    ensures visited <= r <= w.nodes.Keys
    ensures forall x :: x in frontier ==> x in r
    decreases w.nodes.Keys - visited, |frontier|
  {
    if frontier == [] then visited
    else
      var x := frontier[0];
      if x in visited then Reach(w, frontier[1..], visited, isUpstream)
      else Reach(w, Stream(w, x, isUpstream) + frontier[1..], visited + {x}, isUpstream)
  }

  /** Every step out of a visited node lands on a visited node or on the frontier. */
  ghost predicate Pending(w: World, frontier: seq<NodeId>, visited: set<NodeId>, isUpstream: bool) {
    forall v :: v in visited ==> v in w.nodes && forall b :: b in Stream(w, v, isUpstream) ==> b in visited || b in frontier
  }

  /** The search result is closed. */
  lemma {:induction false} ReachClosed(w: World, frontier: seq<NodeId>, visited: set<NodeId>, isUpstream: bool)
    requires EdgeEndsKnown(w.nodes)
    requires forall x :: x in frontier ==> x in w.nodes
    requires visited <= w.nodes.Keys
    requires Pending(w, frontier, visited, isUpstream)
    ensures Closed(w, Reach(w, frontier, visited, isUpstream), isUpstream)
    decreases w.nodes.Keys - visited, |frontier|
  {
    if frontier != [] {
      var x := frontier[0];
      var rest := frontier[1..];
      assert forall y :: y in frontier ==> y == x || y in rest;
      if x in visited {
        ReachClosed(w, rest, visited, isUpstream);
      } else {
        var next := Stream(w, x, isUpstream) + rest;
        assert forall y :: y in Stream(w, x, isUpstream) ==> y in w.nodes;
        assert Pending(w, next, visited + {x}, isUpstream);
        ReachClosed(w, next, visited + {x}, isUpstream);
      }
    }
  }

  /** The search result is the least closed set: any closed set holding the
      start holds all of it. */
  lemma {:induction false} ReachLeast(w: World, frontier: seq<NodeId>, visited: set<NodeId>, isUpstream: bool, s: set<NodeId>)
    requires EdgeEndsKnown(w.nodes)
    requires forall x :: x in frontier ==> x in w.nodes
    requires visited <= w.nodes.Keys
    requires Closed(w, s, isUpstream) && visited <= s && forall x :: x in frontier ==> x in s
    ensures Reach(w, frontier, visited, isUpstream) <= s
    decreases w.nodes.Keys - visited, |frontier|
  {
    if frontier != [] {
      var x := frontier[0];
      var rest := frontier[1..];
      assert forall y :: y in rest ==> y in frontier;
      if x in visited {
        ReachLeast(w, rest, visited, isUpstream, s);
      } else {
        var next := Stream(w, x, isUpstream) + rest;
        assert forall y :: y in Stream(w, x, isUpstream) ==> y in w.nodes;
        ReachLeast(w, next, visited + {x}, isUpstream, s);
      }
    }
  }

  /** `_get_nodes(node, is_upstream)`: `node` and everything reachable from it in
      the chosen direction. */
  function GetNodes(w: World, n: NodeId, isUpstream: bool): (r: set<NodeId>)
    requires EdgeEndsKnown(w.nodes) && n in w.nodes
    ensures n in r && Closed(w, r, isUpstream)
    ensures forall s :: Closed(w, s, isUpstream) && n in s ==> r <= s
  {
    ReachClosed(w, [n], {}, isUpstream);
    forall s | Closed(w, s, isUpstream) && n in s
      ensures Reach(w, [n], {}, isUpstream) <= s
    {
      ReachLeast(w, [n], {}, isUpstream, s);
    }
    Reach(w, [n], {}, isUpstream)
  }

  /** The nodes `_build` collects: the union of `_get_nodes` over `node_map`,
      that is the least upstream-closed set holding every registered node. */
  function Collect(w: World, d: DagId): (r: set<NodeId>)
    requires EdgeEndsKnown(w.nodes) && d in w.dags
    requires forall x :: x in w.dags[d].nodeMap ==> x in w.nodes
    ensures forall x :: x in w.dags[d].nodeMap ==> x in r
    ensures Closed(w, r, true)
    ensures forall s :: Closed(w, s, true) && (forall x :: x in w.dags[d].nodeMap ==> x in s) ==> r <= s
  {
    var ns := w.dags[d].nodeMap;
    ReachClosed(w, ns, {}, true);
    forall s | Closed(w, s, true) && (forall x :: x in ns ==> x in s)
      ensures Reach(w, ns, {}, true) <= s
    {
      ReachLeast(w, ns, {}, true, s);
    }
    Reach(w, ns, {}, true)
  }

  /** `Collect` is exactly the union of `_get_nodes` over `node_map`. */
  lemma CollectIsUnion(w: World, d: DagId)
    requires EdgeEndsKnown(w.nodes) && d in w.dags
    requires forall x :: x in w.dags[d].nodeMap ==> x in w.nodes
    ensures forall x :: x in Collect(w, d) <==>
      exists n :: n in w.dags[d].nodeMap && x in GetNodes(w, n, true)
  {
    CollectWithinUnion(w, d);
    forall n | n in w.dags[d].nodeMap
      ensures GetNodes(w, n, true) <= Collect(w, d)
    {
      GetNodesWithinCollect(w, d, n);
    }
  }

  lemma GetNodesWithinCollect(w: World, d: DagId, n: NodeId)
    requires EdgeEndsKnown(w.nodes) && d in w.dags
    requires forall x :: x in w.dags[d].nodeMap ==> x in w.nodes
    requires n in w.dags[d].nodeMap
    ensures GetNodes(w, n, true) <= Collect(w, d)
  {
    ReachClosed(w, w.dags[d].nodeMap, {}, true);
  }

  /** The union of `_get_nodes` over `node_map`. */
  ghost function Union(w: World, ns: seq<NodeId>): set<NodeId>
    requires EdgeEndsKnown(w.nodes) && forall x :: x in ns ==> x in w.nodes
  {
    set n, x | n in ns && x in GetNodes(w, n, true) :: x
  }

  lemma UnionClosed(w: World, ns: seq<NodeId>)
    requires EdgeEndsKnown(w.nodes) && forall x :: x in ns ==> x in w.nodes
    ensures Closed(w, Union(w, ns), true)
    ensures forall n :: n in ns ==> n in Union(w, ns)
  {
    var u := Union(w, ns);
    forall a | a in u
      ensures a in w.nodes && forall b :: b in Stream(w, a, true) ==> b in u
    {
      var n :| n in ns && a in GetNodes(w, n, true);
      assert Closed(w, GetNodes(w, n, true), true);
    }
    forall n | n in ns
      ensures n in u
    {
      assert n in GetNodes(w, n, true);
    }
  }

  lemma CollectWithinUnion(w: World, d: DagId)
    requires EdgeEndsKnown(w.nodes) && d in w.dags
    requires forall x :: x in w.dags[d].nodeMap ==> x in w.nodes
    ensures forall x :: x in Collect(w, d) ==> exists n :: n in w.dags[d].nodeMap && x in GetNodes(w, n, true)
  {
    var ns := w.dags[d].nodeMap;
    UnionClosed(w, ns);
    ReachLeast(w, ns, {}, true, Union(w, ns));
  }

  /** In a well-formed world `_build` collects exactly the registered nodes: an
      upstream edge never leaves its DAG. */
  lemma CollectIsRegistry(w: World, d: DagId)
    requires WellFormed(w) && d in w.dags
    ensures forall x :: x in w.dags[d].nodeMap ==> x in w.nodes
    ensures forall x :: x in Collect(w, d) <==> x in w.dags[d].nodeMap
  {
    var ns := w.dags[d].nodeMap;
    assert RegistryOf(w, d);
    var s := set x | x in ns;
    assert Closed(w, s, true) by {
      forall a, b | a in s && b in Stream(w, a, true)
        ensures b in s
      {
        assert b in w.nodes[a].up;
      }
    }
    ReachLeast(w, ns, {}, true, s);
  }

  // ---------------------------------------------------------------------------
  // The classifications and their caches.

  /** The reference classifications of a DAG: its registered nodes without
      upstream, without downstream, and marked as triggers. */
  ghost function TrueRoots(w: World, d: DagId): set<NodeId>
    requires d in w.dags
  {
    set x | x in w.dags[d].nodeMap && x in w.nodes && w.nodes[x].up == []
  }

  ghost function TrueLeaves(w: World, d: DagId): set<NodeId>
    requires d in w.dags
  {
    set x | x in w.dags[d].nodeMap && x in w.nodes && w.nodes[x].down == []
  }

  ghost function TrueTriggers(w: World, d: DagId): set<NodeId>
    requires d in w.dags
  {
    set x | x in w.dags[d].nodeMap && x in w.nodes && w.nodes[x].isTrigger
  }

  /** Every cached classification of `d` that is present is up to date. */
  ghost predicate CacheSound(w: World, d: DagId)
    requires d in w.dags
  {
    var g := w.dags[d];
    && (g.roots.Some? ==> g.roots.value == TrueRoots(w, d))
    && (g.leaves.Some? ==> g.leaves.value == TrueLeaves(w, d))
    && (g.triggers.Some? ==> g.triggers.value == TrueTriggers(w, d))
  }

  ghost predicate CachesSound(w: World) {
    forall d :: d in w.dags ==> CacheSound(w, d)
  }

  /** `DAG._build`: collect the nodes, then store all three classifications. */
  function Build(w: World, d: DagId): (r: World)
    requires WellFormed(w) && d in w.dags
    ensures r.nodes == w.nodes && r.dags.Keys == w.dags.Keys
    ensures forall g :: g in w.dags && g != d ==> r.dags[g] == w.dags[g]
    ensures r.dags[d].nodeMap == w.dags[d].nodeMap && r.dags[d].nameMap == w.dags[d].nameMap
    ensures r.dags[d].roots.Some? && r.dags[d].leaves.Some? && r.dags[d].triggers.Some?
    ensures WellFormed(r)
  {
    CollectIsRegistry(w, d);
    var nodes := Collect(w, d);
    SetCaches(w, d,
      Some(set x | x in nodes && w.nodes[x].up == []),
      Some(set x | x in nodes && w.nodes[x].down == []),
      Some(set x | x in nodes && w.nodes[x].isTrigger))
  }

  /** `_build` stores the true classifications, and leaves the other DAGs' caches
      as they were. */
  lemma BuildSound(w: World, d: DagId)
    requires WellFormed(w) && d in w.dags
    ensures CacheSound(Build(w, d), d)
    ensures forall g :: g in w.dags && CacheSound(w, g) ==> CacheSound(Build(w, d), g)
  {
    CollectIsRegistry(w, d);
    var r := Build(w, d);
    forall g | g in w.dags && g != d && CacheSound(w, g)
      ensures CacheSound(r, g)
    {
      assert TrueRoots(r, g) == TrueRoots(w, g);
      assert TrueLeaves(r, g) == TrueLeaves(w, g);
      assert TrueTriggers(r, g) == TrueTriggers(w, g);
    }
  }

  /** Python's `if not cache:` — a missing or empty list triggers a rebuild. */
  predicate Stale(c: Option<set<NodeId>>) {
    c.None? || c.value == {}
  }

  /** `DAG.root_nodes`: the cached list, rebuilt first when it is missing or
      empty. A rebuilt answer is the true root set, and so is the cached one when
      the caches are sound. */
  function RootNodes(w: World, d: DagId): (r: (World, set<NodeId>))
    requires WellFormed(w) && d in w.dags
    ensures WellFormed(r.0) && r.0.nodes == w.nodes && r.0.dags.Keys == w.dags.Keys
    ensures !Stale(w.dags[d].roots) ==> r == (w, w.dags[d].roots.value)
    ensures Stale(w.dags[d].roots) ==> r.1 == TrueRoots(w, d) && CacheSound(r.0, d)
    ensures CacheSound(w, d) ==> r.1 == TrueRoots(w, d) && CacheSound(r.0, d)
    ensures CachesSound(w) ==> CachesSound(r.0)
  {
    BuildSound(w, d);
    if Stale(w.dags[d].roots) then
      var w1 := Build(w, d);
      (w1, w1.dags[d].roots.value)
    else (w, w.dags[d].roots.value)
  }

  /** `DAG.leaf_nodes`. */
  function LeafNodes(w: World, d: DagId): (r: (World, set<NodeId>))
    requires WellFormed(w) && d in w.dags
    ensures WellFormed(r.0) && r.0.nodes == w.nodes && r.0.dags.Keys == w.dags.Keys
    ensures !Stale(w.dags[d].leaves) ==> r == (w, w.dags[d].leaves.value)
    ensures Stale(w.dags[d].leaves) ==> r.1 == TrueLeaves(w, d) && CacheSound(r.0, d)
    ensures CacheSound(w, d) ==> r.1 == TrueLeaves(w, d) && CacheSound(r.0, d)
    ensures CachesSound(w) ==> CachesSound(r.0)
  {
    BuildSound(w, d);
    if Stale(w.dags[d].leaves) then
      var w1 := Build(w, d);
      (w1, w1.dags[d].leaves.value)
    else (w, w.dags[d].leaves.value)
  }

  /** `DAG.trigger_nodes`. */
  function TriggerNodes(w: World, d: DagId): (r: (World, set<NodeId>))
    requires WellFormed(w) && d in w.dags
    ensures WellFormed(r.0) && r.0.nodes == w.nodes && r.0.dags.Keys == w.dags.Keys
    ensures !Stale(w.dags[d].triggers) ==> r == (w, w.dags[d].triggers.value)
    ensures Stale(w.dags[d].triggers) ==> r.1 == TrueTriggers(w, d) && CacheSound(r.0, d)
    ensures CacheSound(w, d) ==> r.1 == TrueTriggers(w, d) && CacheSound(r.0, d)
    ensures CachesSound(w) ==> CachesSound(r.0)
  {
    BuildSound(w, d);
    if Stale(w.dags[d].triggers) then
      var w1 := Build(w, d);
      (w1, w1.dags[d].triggers.value)
    else (w, w.dags[d].triggers.value)
  }

  // ---------------------------------------------------------------------------
  // Wiring and the caches.

  /** Dropping the caches of `d` while changing only nodes that could join `d`
      keeps every cache sound: the other DAGs' members are untouched. */
  lemma ClearKeepsCachesSound(w: World, r: World, d: DagId)
    requires RegistryValid(w) && CachesSound(w) && d in w.dags
    requires r.nodes.Keys == w.nodes.Keys && r.dags.Keys == w.dags.Keys
    requires forall g :: g in w.dags && g != d ==> r.dags[g] == w.dags[g]
    requires forall x :: x in w.nodes && r.nodes[x] != w.nodes[x] ==> Joinable(w.nodes[x].dag, d)
    requires r.dags[d].roots.None? && r.dags[d].leaves.None? && r.dags[d].triggers.None?
    ensures CachesSound(r)
  {
    forall g | g in r.dags
      ensures CacheSound(r, g)
    {
      if g != d {
        assert RegistryOf(w, g);
        assert CacheSound(w, g);
        assert forall x :: x in w.dags[g].nodeMap ==> r.nodes[x] == w.nodes[x];
        assert TrueRoots(r, g) == TrueRoots(w, g);
        assert TrueLeaves(r, g) == TrueLeaves(w, g);
        assert TrueTriggers(r, g) == TrueTriggers(w, g);
      }
    }
  }

  /** The corrected wiring keeps every cache of every DAG sound: the DAG it wires
      into has its caches dropped, and no node of another DAG changes. */
  lemma WireKeepsCachesSound(w: World, self: NodeId, deps: Deps, isUpstream: bool)
    requires WellFormed(w) && self in w.nodes && ArgsKnown(w, Normalize(deps))
    requires CachesSound(w)
    ensures CachesSound(Wire(w, self, deps, isUpstream).world)
  {
    var v := Validate(w, self, Normalize(deps));
    if v.Success? {
      var s := Connect(w, self, deps, isUpstream, Intended);
      ConnectFacts(w, self, deps, isUpstream, Intended);
      ConnectFrame(w, self, deps, isUpstream, Intended);
      ClearKeepsCachesSound(w, ClearCaches(s.world, v.value), v.value);
    }
  }

  /** After a corrected wiring call in a world whose caches are sound, every DAG
      reports its true roots, leaves and triggers. */
  lemma ClassifyAfterWire(w: World, self: NodeId, deps: Deps, isUpstream: bool, d: DagId)
    requires WellFormed(w) && self in w.nodes && ArgsKnown(w, Normalize(deps))
    requires CachesSound(w) && d in w.dags
    ensures var r := Wire(w, self, deps, isUpstream).world;
      && RootNodes(r, d).1 == TrueRoots(r, d)
      && LeafNodes(r, d).1 == TrueLeaves(r, d)
      && TriggerNodes(r, d).1 == TrueTriggers(r, d)
  {
    WireKeepsCachesSound(w, self, deps, isUpstream);
    assert CacheSound(Wire(w, self, deps, isUpstream).world, d);
  }

  /** Recording an edge `a -> b` without touching the caches leaves `b` among
      the cached roots and `a` among the cached leaves, though neither is one any
      more. */
  lemma StaleAfterEdge(w: World, d: DagId, a: NodeId, b: NodeId)
    requires d in w.dags && a in w.nodes && b in w.nodes
    requires WellFormed(AddEdge(w, a, b))
    requires CacheSound(w, d) && w.dags[d].roots.Some? && b in TrueRoots(w, d)
    ensures var r := AddEdge(w, a, b);
      && b in RootNodes(r, d).1 && b !in TrueRoots(r, d)
      && (w.dags[d].leaves.Some? && a in TrueLeaves(w, d) ==>
            a in LeafNodes(r, d).1 && a !in TrueLeaves(r, d))
  {
    var r := AddEdge(w, a, b);
    assert a in r.nodes[b].up;
    assert b in r.nodes[a].down;
  }

  /** `a >> b` between two members of one DAG registers nothing, so
      the cached roots and leaves survive it: `b`, which now has `a` upstream, is
      still reported as a root, and `a`, which now has `b` downstream, is still
      reported as a leaf. */
  lemma StaleRootsAfterWiring(w: World, d: DagId, a: NodeId, b: NodeId)
    requires WellFormed(w) && d in w.dags && a in w.nodes && b in w.nodes
    requires w.nodes[a].dag == Some(d) && w.nodes[b].dag == Some(d)
    requires a in w.dags[d].nodeMap && b in w.dags[d].nodeMap
    requires CacheSound(w, d) && w.dags[d].roots.Some? && b in TrueRoots(w, d)
    ensures ArgsKnown(w, Normalize(One(NodeArg(b))))
    ensures var s := ShiftRight(w, a, One(NodeArg(b))).0;
      && s.error.None? && WellFormed(s.world)
      && b in RootNodes(s.world, d).1 && b !in TrueRoots(s.world, d)
      && (w.dags[d].leaves.Some? && a in TrueLeaves(w, d) ==>
            a in LeafNodes(s.world, d).1 && a !in TrueLeaves(s.world, d))
  {
    RootEdgeIsAdded(w, d, a, b);
    StaleRootsAfterEdge(w, d, a, b);
    assert ShiftRight(w, a, One(NodeArg(b))).0 == Connect(w, a, One(NodeArg(b)), false, AsWritten);
  }

  /** Between two members of one DAG, wiring a root `b` below `a` adds exactly
      the edge `a -> b`. */
  lemma RootEdgeIsAdded(w: World, d: DagId, a: NodeId, b: NodeId)
    requires DagRefsValid(w) && d in w.dags && a in w.nodes && b in w.nodes
    requires w.nodes[a].dag == Some(d) && w.nodes[b].dag == Some(d)
    requires a in w.dags[d].nodeMap && b in w.dags[d].nodeMap
    requires EdgesSymmetric(w.nodes) && w.nodes[b].up == []
    ensures ArgsKnown(w, Normalize(One(NodeArg(b))))
    ensures Connect(w, a, One(NodeArg(b)), false, AsWritten) == Step(AddEdge(w, a, b), None)
  {
    assert b !in w.nodes[a].down;
    assert ChooseLink(w.nodes[a].up, w.nodes[a].down, b, false, AsWritten) == LinkDown;
    ConnectBetweenMembers(w, a, b, false, AsWritten);
  }

  /** The edge `a -> b` inside DAG `d` keeps the world well formed and leaves
      the cached roots and leaves stale. */
  lemma StaleRootsAfterEdge(w: World, d: DagId, a: NodeId, b: NodeId)
    requires WellFormed(w) && d in w.dags && a in w.nodes && b in w.nodes
    requires w.nodes[a].dag == Some(d) && w.nodes[b].dag == Some(d)
    requires a in w.dags[d].nodeMap && b in w.dags[d].nodeMap
    requires CacheSound(w, d) && w.dags[d].roots.Some? && b in TrueRoots(w, d)
    ensures var r := AddEdge(w, a, b);
      && WellFormed(r)
      && b in RootNodes(r, d).1 && b !in TrueRoots(r, d)
      && (w.dags[d].leaves.Some? && a in TrueLeaves(w, d) ==>
            a in LeafNodes(r, d).1 && a !in TrueLeaves(r, d))
  {
    assert w.nodes[b].up == [];
    AddEdgePreservesWellFormed(w, a, b, d);
    StaleAfterEdge(w, d, a, b);
  }

  /** As written, registering a new trigger node clears the cached roots and
      leaves but not the cached triggers: the new node is a trigger of the DAG,
      and `trigger_nodes` keeps answering without it. */
  lemma StaleTriggersAfterRegistration(w: World, d: DagId, n: NodeId)
    requires WellFormed(w) && d in w.dags && n in w.nodes
    requires w.nodes[n].dag == Some(d) && w.nodes[n].isTrigger && n !in w.dags[d].nodeMap
    requires CacheSound(w, d) && w.dags[d].triggers.Some? && w.dags[d].triggers.value != {}
    requires Register(w, d, n).Success?
    ensures var r := Register(w, d, n).value;
      && WellFormed(r)
      && n in TrueTriggers(r, d)
      && TriggerNodes(r, d).1 == w.dags[d].triggers.value
      && n !in TriggerNodes(r, d).1
  {
    RegisterPreservesWellFormed(w, d, n);
  }
}
