/** The object graph of `DAG` and `DAGNode`: every node and every DAG lives in one
    `World` value, keyed by id, and the Python object references become ids.

    A node's identity is its id (`DAGNode.__eq__` and `__hash__` compare ids), so a
    node is a key of `World.nodes`; a DAG is a key of `World.dags`. */
module DagBase {
  import opened Wrappers
  import DagVar

  type NodeId = string
  type DagId = string

  /** A `DAGNode`: owning DAG, optional name, upstream and downstream lists, and
      whether it is a trigger (the source's `isinstance(x, TriggerOperator)`). */
  datatype NodeRec = NodeRec(
    dag: Option<DagId>,
    name: Option<string>,
    up: seq<NodeId>,
    down: seq<NodeId>,
    isTrigger: bool)

  /** A `DAG`: `node_map` (insertion-ordered, as a Python dict), `node_name_to_node`,
      and the three cached classifications (`None` = not computed). */
  datatype DagRec = DagRec(
    nodeMap: seq<NodeId>,
    nameMap: map<string, NodeId>,
    roots: Option<set<NodeId>>,
    leaves: Option<set<NodeId>>,
    triggers: Option<set<NodeId>>)

  datatype World = World(nodes: map<NodeId, NodeRec>, dags: map<DagId, DagRec>)

  /** The `ValueError`s raised while wiring and registering. */
  datatype DagError = NotANode | NoDagContext | MultipleDags | NameConflict(name: string)

  /** A node name that takes part in name registration (`if node.node_name:`). */
  predicate Named(name: Option<string>) {
    name.Some? && name.value != ""
  }

  predicate NoDup<T(==)>(s: seq<T>) {
    forall i, j :: 0 <= i < j < |s| ==> s[i] != s[j]
  }

  /** A node may join DAG `d` when it has no DAG yet or already belongs to `d`. */
  predicate Joinable(dag: Option<DagId>, d: DagId) {
    dag.None? || dag == Some(d)
  }

  // ---------------------------------------------------------------------------
  // The invariant kept by every operation of the model.

  ghost predicate DagRefsValid(w: World) {
    forall n :: n in w.nodes && w.nodes[n].dag.Some? ==> w.nodes[n].dag.value in w.dags
  }

  /** Edge ends are known nodes. */
  ghost predicate EdgeEndsKnown(ns: map<NodeId, NodeRec>) {
    && (forall a, b {:trigger b in ns[a].up} :: a in ns && b in ns[a].up ==> b in ns)
    && (forall a, b {:trigger b in ns[a].down} :: a in ns && b in ns[a].down ==> b in ns)
  }

  /** Both directions of every edge are recorded. */
  ghost predicate EdgesSymmetric(ns: map<NodeId, NodeRec>) {
    forall a, b {:trigger b in ns[a].up} {:trigger a in ns[b].down} :: a in ns && b in ns ==> (b in ns[a].up <==> a in ns[b].down)
  }

  /** No edge is recorded twice. */
  ghost predicate NoParallelEdges(ns: map<NodeId, NodeRec>) {
    forall a :: a in ns ==> NoDup(ns[a].up) && NoDup(ns[a].down)
  }

  /** Both ends of every edge belong to one DAG and are registered in it. */
  ghost predicate EdgesInsideDags(w: World) {
    forall a, b {:trigger b in w.nodes[a].up} :: a in w.nodes && b in w.nodes[a].up ==>
      && b in w.nodes
      && w.nodes[a].dag.Some?
      && w.nodes[b].dag == w.nodes[a].dag
      && w.nodes[a].dag.value in w.dags
      && a in w.dags[w.nodes[a].dag.value].nodeMap
      && b in w.dags[w.nodes[a].dag.value].nodeMap
  }

  /** `node_map` has no repeats and holds only this DAG's nodes; `node_name_to_node`
      maps every name to the registered node carrying it, and every registered
      named node is found under its name. */
  ghost predicate RegistryOf(w: World, d: DagId)
    requires d in w.dags
  {
    var g := w.dags[d];
    && NoDup(g.nodeMap)
    && (forall n :: n in g.nodeMap ==> n in w.nodes && w.nodes[n].dag == Some(d))
    && (forall nm :: nm in g.nameMap ==>
          g.nameMap[nm] in g.nodeMap && g.nameMap[nm] in w.nodes && w.nodes[g.nameMap[nm]].name == Some(nm))
    && (forall n :: n in g.nodeMap && n in w.nodes && Named(w.nodes[n].name) ==>
          w.nodes[n].name.value in g.nameMap && g.nameMap[w.nodes[n].name.value] == n)
  }

  ghost predicate RegistryValid(w: World) {
    forall d :: d in w.dags ==> RegistryOf(w, d)
  }

  ghost predicate WellFormed(w: World) {
    && DagRefsValid(w)
    && EdgeEndsKnown(w.nodes) && EdgesSymmetric(w.nodes) && NoParallelEdges(w.nodes)
    && EdgesInsideDags(w)
    && RegistryValid(w)
  }

  /** Every node keeps its DAG, name and trigger flag. */
  ghost predicate SameLabels(w: World, r: World) {
    && r.nodes.Keys == w.nodes.Keys
    && forall x :: x in w.nodes ==>
         r.nodes[x].dag == w.nodes[x].dag && r.nodes[x].name == w.nodes[x].name
         && r.nodes[x].isTrigger == w.nodes[x].isTrigger
  }

  /** Every DAG keeps its `node_map` and `node_name_to_node`. */
  ghost predicate SameRegistries(w: World, r: World) {
    && r.dags.Keys == w.dags.Keys
    && forall d :: d in w.dags ==> r.dags[d].nodeMap == w.dags[d].nodeMap && r.dags[d].nameMap == w.dags[d].nameMap
  }

  /** The registries and DAG references depend only on labels and registries. */
  lemma RegistryFrame(w: World, r: World)
    requires SameLabels(w, r) && SameRegistries(w, r)
    ensures DagRefsValid(w) ==> DagRefsValid(r)
    ensures RegistryValid(w) ==> RegistryValid(r)
  {
    if RegistryValid(w) {
      forall d | d in r.dags
        ensures RegistryOf(r, d)
      {
        assert RegistryOf(w, d);
      }
    }
  }

  function EmptyWorld(): (r: World)
    ensures WellFormed(r)
  {
    World(map[], map[])
  }

  // ---------------------------------------------------------------------------
  // DAG construction and registration.

  /** `DAG(dag_id)`: a DAG with empty maps and no cached classification. */
  function NewDag(w: World, d: DagId): (r: World)
    requires WellFormed(w) && d !in w.dags
    ensures WellFormed(r)
    ensures r.nodes == w.nodes && r.dags.Keys == w.dags.Keys + {d}
    ensures forall x :: x in w.dags ==> r.dags[x] == w.dags[x]
    ensures r.dags[d].nodeMap == [] && r.dags[d].nameMap == map[]
    ensures r.dags[d].roots.None? && r.dags[d].leaves.None? && r.dags[d].triggers.None?
  {
    var r := w.(dags := w.dags[d := DagRec([], map[], None, None, None)]);
    NewDagKeepsRegistry(w, d);
    r
  }

  lemma NewDagKeepsRegistry(w: World, d: DagId)
    requires RegistryValid(w) && d !in w.dags
    ensures RegistryValid(w.(dags := w.dags[d := DagRec([], map[], None, None, None)]))
  {
    var r := w.(dags := w.dags[d := DagRec([], map[], None, None, None)]);
    forall x | x in r.dags
      ensures RegistryOf(r, x)
    {
      if x != d {
        assert RegistryOf(w, x);
      }
    }
  }

  /** `DAG._append_node`: an id already in `node_map` changes nothing; a name
      already in `node_name_to_node` is a conflict that changes nothing; otherwise
      the id (and the name, when it has one) is registered and the root and leaf
      caches are cleared. The trigger cache is kept, as in the source. */
  function AppendNode(g: DagRec, id: NodeId, name: Option<string>): (r: Result<DagRec, DagError>)
    ensures id in g.nodeMap ==> r == Success(g)
    ensures r.Failure? <==> id !in g.nodeMap && Named(name) && name.value in g.nameMap
    ensures r.Failure? ==> r.error == NameConflict(name.value)
    ensures r.Success? ==> id in r.value.nodeMap && g.nodeMap <= r.value.nodeMap
    ensures r.Success? ==> forall x :: x in r.value.nodeMap ==> x in g.nodeMap || x == id
    ensures r.Success? ==> r.value.nodeMap == g.nodeMap + (if id in g.nodeMap then [] else [id])
    ensures r.Success? && id !in g.nodeMap ==>
      && r.value.roots.None? && r.value.leaves.None? && r.value.triggers == g.triggers
      && (Named(name) ==> r.value.nameMap == g.nameMap[name.value := id])
      && (!Named(name) ==> r.value.nameMap == g.nameMap)
  {
    if id in g.nodeMap then Success(g)
    else if Named(name) && name.value in g.nameMap then Failure(NameConflict(name.value))
    else
      var names := if Named(name) then g.nameMap[name.value := id] else g.nameMap;
      Success(DagRec(g.nodeMap + [id], names, None, None, g.triggers))
  }

  /** Registering an id twice is the same as registering it once. */
  lemma AppendNodeIdempotent(g: DagRec, id: NodeId, name: Option<string>)
    requires AppendNode(g, id, name).Success?
    ensures AppendNode(AppendNode(g, id, name).value, id, name) == AppendNode(g, id, name)
  {
  }

  /** Name uniqueness is per DAG: a name taken in one DAG is free in another. */
  lemma NameConflictIsPerDag(g1: DagRec, g2: DagRec, id: NodeId, name: Option<string>)
    requires Named(name) && id !in g1.nodeMap && name.value in g1.nameMap
    requires name.value !in g2.nameMap
    ensures AppendNode(g1, id, name) == Failure(NameConflict(name.value))
    ensures AppendNode(g2, id, name).Success?
  {
  }

  /** Registering `n` in `d` clashes: `n` is not registered there yet and its
      non-empty name is already taken in `d`. */
  predicate NameTaken(w: World, d: DagId, n: NodeId)
    requires d in w.dags && n in w.nodes
  {
    n !in w.dags[d].nodeMap && Named(w.nodes[n].name) && w.nodes[n].name.value in w.dags[d].nameMap
  }

  /** `dag._append_node(node)` on the world: the node's own name is used. */
  function Register(w: World, d: DagId, n: NodeId): (r: Result<World, DagError>)
    requires d in w.dags && n in w.nodes
    ensures r.Success? ==> r.value.nodes == w.nodes && r.value.dags.Keys == w.dags.Keys
    ensures r.Success? ==> forall x :: x in w.dags && x != d ==> r.value.dags[x] == w.dags[x]
    ensures r.Success? ==> n in r.value.dags[d].nodeMap && w.dags[d].nodeMap <= r.value.dags[d].nodeMap
    ensures r.Success? ==> forall x :: x in r.value.dags[d].nodeMap ==> x in w.dags[d].nodeMap || x == n
    ensures r.Success? ==>
      r.value.dags[d].nodeMap == w.dags[d].nodeMap + (if n in w.dags[d].nodeMap then [] else [n])
    ensures n in w.dags[d].nodeMap ==> r == Success(w)
    ensures r.Failure? <==> NameTaken(w, d, n)
    ensures r.Failure? ==> r.error.NameConflict?
  {
    match AppendNode(w.dags[d], n, w.nodes[n].name)
    case Success(g) =>
      assert g == w.dags[d] ==> w.dags[d := g] == w.dags;
      Success(w.(dags := w.dags[d := g]))
    case Failure(e) => Failure(e)
  }

  /** Registering adds at most the node's own name to `d`'s name map. */
  lemma RegisterNames(w: World, d: DagId, n: NodeId)
    requires d in w.dags && n in w.nodes && Register(w, d, n).Success?
    ensures forall x :: x in Register(w, d, n).value.dags[d].nameMap ==>
      x in w.dags[d].nameMap || (n !in w.dags[d].nodeMap && Named(w.nodes[n].name) && x == w.nodes[n].name.value)
  {
  }

  lemma PrefixMember<T>(a: seq<T>, b: seq<T>, x: T)
    requires a <= b && x in a
    ensures x in b
  {
    var i :| 0 <= i < |a| && a[i] == x;
    assert b[i] == x;
  }

  lemma RegisterKeepsEdgesInside(w: World, d: DagId, n: NodeId)
    requires EdgesInsideDags(w) && d in w.dags && n in w.nodes
    requires Register(w, d, n).Success?
    ensures EdgesInsideDags(Register(w, d, n).value)
  {
    var r := Register(w, d, n).value;
    forall a, b | a in r.nodes && b in r.nodes[a].up
      ensures b in r.nodes && r.nodes[a].dag.Some? && r.nodes[b].dag == r.nodes[a].dag
        && r.nodes[a].dag.value in r.dags
        && a in r.dags[r.nodes[a].dag.value].nodeMap && b in r.dags[r.nodes[a].dag.value].nodeMap
    {
      assert r.nodes == w.nodes;
      assert b in w.nodes[a].up;
      var e := w.nodes[a].dag.value;
      assert a in w.dags[e].nodeMap && b in w.dags[e].nodeMap;
      if e == d {
        PrefixMember(w.dags[d].nodeMap, r.dags[d].nodeMap, a);
        PrefixMember(w.dags[d].nodeMap, r.dags[d].nodeMap, b);
      }
    }
  }

  lemma RegisterKeepsRegistry(w: World, d: DagId, n: NodeId)
    requires RegistryValid(w) && d in w.dags && n in w.nodes && w.nodes[n].dag == Some(d)
    requires Register(w, d, n).Success?
    ensures RegistryValid(Register(w, d, n).value)
  {
    var r := Register(w, d, n).value;
    if n !in w.dags[d].nodeMap {
      var g := w.dags[d];
      var g' := r.dags[d];
      assert g'.nodeMap == g.nodeMap + [n];
      assert RegistryOf(w, d);
      forall x | x in r.dags
        ensures RegistryOf(r, x)
      {
        if x != d {
          assert RegistryOf(w, x);
        } else {
          assert NoDup(g'.nodeMap);
          forall m | m in g'.nodeMap
            ensures m in r.nodes && r.nodes[m].dag == Some(d)
          {
          }
          forall nm | nm in g'.nameMap
            ensures g'.nameMap[nm] in g'.nodeMap && g'.nameMap[nm] in r.nodes && r.nodes[g'.nameMap[nm]].name == Some(nm)
          {
            if !(Named(w.nodes[n].name) && nm == w.nodes[n].name.value) {
              assert nm in g.nameMap && g'.nameMap[nm] == g.nameMap[nm];
            }
          }
          forall m | m in g'.nodeMap && m in r.nodes && Named(r.nodes[m].name)
            ensures r.nodes[m].name.value in g'.nameMap && g'.nameMap[r.nodes[m].name.value] == m
          {
            if m != n {
              assert m in g.nodeMap;
            }
          }
        }
      }
    }
  }

  lemma RegisterPreservesWellFormed(w: World, d: DagId, n: NodeId)
    requires WellFormed(w) && d in w.dags && n in w.nodes && w.nodes[n].dag == Some(d)
    requires Register(w, d, n).Success?
    ensures WellFormed(Register(w, d, n).value)
  {
    RegisterKeepsEdgesInside(w, d, n);
    RegisterKeepsRegistry(w, d, n);
  }

  /** The node record with its DAG set (`node._dag = dag`). */
  function SetNodeDag(w: World, n: NodeId, d: DagId): (r: World)
    requires n in w.nodes
    ensures r.dags == w.dags && r.nodes.Keys == w.nodes.Keys
    ensures r.nodes[n] == w.nodes[n].(dag := Some(d))
    ensures forall x :: x in w.nodes && x != n ==> r.nodes[x] == w.nodes[x]
    ensures w.nodes[n].dag == Some(d) ==> r == w
  {
    var r := w.(nodes := w.nodes[n := w.nodes[n].(dag := Some(d))]);
    assert w.nodes[n].dag == Some(d) ==> r.nodes == w.nodes;
    r
  }

  /** The edge predicates depend only on the edge lists. */
  lemma EdgeFrame(w: World, r: World)
    requires r.nodes.Keys == w.nodes.Keys
    requires forall x :: x in w.nodes ==> r.nodes[x].up == w.nodes[x].up && r.nodes[x].down == w.nodes[x].down
    ensures EdgeEndsKnown(w.nodes) ==> EdgeEndsKnown(r.nodes)
    ensures EdgesSymmetric(w.nodes) ==> EdgesSymmetric(r.nodes)
    ensures NoParallelEdges(w.nodes) ==> NoParallelEdges(r.nodes)
  {
  }

  lemma SetNodeDagKeepsEdgesInside(w: World, n: NodeId, d: DagId)
    requires EdgesInsideDags(w) && n in w.nodes && w.nodes[n].dag.None?
    ensures EdgesInsideDags(SetNodeDag(w, n, d))
  {
    var r := SetNodeDag(w, n, d);
    forall a, b | a in r.nodes && b in r.nodes[a].up
      ensures b in r.nodes && r.nodes[a].dag.Some? && r.nodes[b].dag == r.nodes[a].dag
        && r.nodes[a].dag.value in r.dags
        && a in r.dags[r.nodes[a].dag.value].nodeMap && b in r.dags[r.nodes[a].dag.value].nodeMap
    {
      assert b in w.nodes[a].up;
      assert w.nodes[a].dag.Some? && w.nodes[b].dag == w.nodes[a].dag;
      assert a != n && b != n;
    }
  }

  lemma SetNodeDagKeepsRegistry(w: World, n: NodeId, d: DagId)
    requires RegistryValid(w) && n in w.nodes && w.nodes[n].dag.None?
    ensures RegistryValid(SetNodeDag(w, n, d))
  {
    var r := SetNodeDag(w, n, d);
    forall x | x in r.dags
      ensures RegistryOf(r, x)
    {
      assert RegistryOf(w, x);
      assert n !in w.dags[x].nodeMap;
      assert forall m :: m in w.dags[x].nodeMap ==> r.nodes[m] == w.nodes[m];
    }
  }

  lemma SetNodeDagPreservesWellFormed(w: World, n: NodeId, d: DagId)
    requires WellFormed(w) && n in w.nodes && d in w.dags && Joinable(w.nodes[n].dag, d)
    ensures WellFormed(SetNodeDag(w, n, d))
  {
    if w.nodes[n].dag.None? {
      var r := SetNodeDag(w, n, d);
      EdgeFrame(w, r);
      SetNodeDagKeepsEdgesInside(w, n, d);
      SetNodeDagKeepsRegistry(w, n, d);
    }
  }

  /** Records the edge `src -> dst`: `dst.upstream` gains `src` and `src.downstream`
      gains `dst`. */
  function AddEdge(w: World, src: NodeId, dst: NodeId): (r: World)
    requires src in w.nodes && dst in w.nodes
    ensures r.dags == w.dags && SameLabels(w, r)
    ensures forall x :: x in w.nodes ==>
      && r.nodes[x].up == w.nodes[x].up + (if x == dst then [src] else [])
      && r.nodes[x].down == w.nodes[x].down + (if x == src then [dst] else [])
  {
    var w1 := w.(nodes := w.nodes[dst := w.nodes[dst].(up := w.nodes[dst].up + [src])]);
    w1.(nodes := w1.nodes[src := w1.nodes[src].(down := w1.nodes[src].down + [dst])])
  }

  lemma AppendKeepsNoDup<T>(s: seq<T>, x: T)
    requires NoDup(s) && x !in s
    ensures NoDup(s + [x])
  {
  }

  lemma AddEdgeKeepsEdges(w: World, src: NodeId, dst: NodeId)
    requires EdgeEndsKnown(w.nodes) && EdgesSymmetric(w.nodes) && NoParallelEdges(w.nodes)
    requires src in w.nodes && dst in w.nodes && src !in w.nodes[dst].up
    ensures EdgeEndsKnown(AddEdge(w, src, dst).nodes)
    ensures EdgesSymmetric(AddEdge(w, src, dst).nodes)
    ensures NoParallelEdges(AddEdge(w, src, dst).nodes)
  {
    var r := AddEdge(w, src, dst);
    assert dst !in w.nodes[src].down;
    forall a | a in r.nodes
      ensures NoDup(r.nodes[a].up) && NoDup(r.nodes[a].down)
    {
      if a == dst {
        AppendKeepsNoDup(w.nodes[a].up, src);
      }
      if a == src {
        AppendKeepsNoDup(w.nodes[a].down, dst);
      }
    }
  }

  lemma AddEdgeKeepsEdgesInside(w: World, src: NodeId, dst: NodeId, d: DagId)
    requires EdgesInsideDags(w) && src in w.nodes && dst in w.nodes && d in w.dags
    requires w.nodes[src].dag == Some(d) && w.nodes[dst].dag == Some(d)
    requires src in w.dags[d].nodeMap && dst in w.dags[d].nodeMap
    ensures EdgesInsideDags(AddEdge(w, src, dst))
  {
    var r := AddEdge(w, src, dst);
    forall a, b | a in r.nodes && b in r.nodes[a].up
      ensures b in r.nodes && r.nodes[a].dag.Some? && r.nodes[b].dag == r.nodes[a].dag
        && r.nodes[a].dag.value in r.dags
        && a in r.dags[r.nodes[a].dag.value].nodeMap && b in r.dags[r.nodes[a].dag.value].nodeMap
    {
      if !(a == dst && b == src) {
        assert b in w.nodes[a].up;
      }
    }
  }

  lemma AddEdgePreservesWellFormed(w: World, src: NodeId, dst: NodeId, d: DagId)
    requires WellFormed(w) && src in w.nodes && dst in w.nodes && d in w.dags
    requires w.nodes[src].dag == Some(d) && w.nodes[dst].dag == Some(d)
    requires src in w.dags[d].nodeMap && dst in w.dags[d].nodeMap
    requires src !in w.nodes[dst].up
    ensures WellFormed(AddEdge(w, src, dst))
  {
    var r := AddEdge(w, src, dst);
    AddEdgeKeepsEdges(w, src, dst);
    AddEdgeKeepsEdgesInside(w, src, dst, d);
    RegistryFrame(w, r);
  }

  /** Forgets the three cached classifications of DAG `d`. */
  function ClearCaches(w: World, d: DagId): (r: World)
    requires d in w.dags
    ensures r.nodes == w.nodes && r.dags.Keys == w.dags.Keys
    ensures forall x :: x in w.dags && x != d ==> r.dags[x] == w.dags[x]
    ensures r.dags[d].nodeMap == w.dags[d].nodeMap && r.dags[d].nameMap == w.dags[d].nameMap
    ensures r.dags[d].roots.None? && r.dags[d].leaves.None? && r.dags[d].triggers.None?
    ensures WellFormed(w) ==> WellFormed(r)
  {
    SetCaches(w, d, None, None, None)
  }

  /** Stores the three cached classifications of `d`; nothing else changes. */
  function SetCaches(w: World, d: DagId, roots: Option<set<NodeId>>, leaves: Option<set<NodeId>>,
                     triggers: Option<set<NodeId>>): (r: World)
    requires d in w.dags
    ensures r.nodes == w.nodes && r.dags.Keys == w.dags.Keys
    ensures forall x :: x in w.dags && x != d ==> r.dags[x] == w.dags[x]
    ensures r.dags[d] == w.dags[d].(roots := roots, leaves := leaves, triggers := triggers)
    ensures WellFormed(w) ==> WellFormed(r)
  {
    var r := w.(dags := w.dags[d := w.dags[d].(roots := roots, leaves := leaves, triggers := triggers)]);
    RegistryFrame(w, r);
    r
  }

  // ---------------------------------------------------------------------------
  // Node construction and the DAG as a scope manager.

  /** The DAG a new node is bound to: the explicit argument, else the current DAG
      of the construction context, else none. */
  function ResolveNodeDag(explicit: Option<DagId>, current: Option<DagId>): (r: Option<DagId>)
    ensures explicit.Some? ==> r == explicit
    ensures explicit.None? ==> r == current
  {
    if explicit.Some? then explicit else current
  }

  /** The id of a new node: a fresh one when no (or an empty) id was given and the
      node is bound to a DAG, otherwise the given one. A node given no id and no
      DAG keeps `None` in the source; the model gives it the new id too. */
  function ResolveNodeId(nodeId: Option<NodeId>, dag: Option<DagId>, newId: NodeId): (r: NodeId)
    ensures nodeId.Some? && nodeId.value != "" ==> r == nodeId.value
    ensures (nodeId.None? || nodeId.value == "") && dag.Some? ==> r == newId
  {
    if (nodeId.None? || nodeId.value == "") && dag.Some? then newId else nodeId.GetOr(newId)
  }

  /** The system app and executor a node keeps. */
  datatype Handles<A, E> = Handles(systemApp: Option<A>, executor: Option<E>)

  /** `system_app or DAGVar.get_current_system_app()` and `executor or
      DAGVar.get_executor()`: each explicit handle, else the process-wide one,
      which may itself be unset. */
  function ResolveHandles<A, E>(v: DagVar.DagVar<DagId, A, E>, systemApp: Option<A>, executor: Option<E>): (r: Handles<A, E>)
    ensures systemApp.Some? ==> r.systemApp == systemApp
    ensures systemApp.None? ==> r.systemApp == v.systemApp
    ensures executor.Some? ==> r.executor == executor
    ensures executor.None? ==> r.executor == v.executor
  {
    Handles(if systemApp.Some? then systemApp else v.systemApp,
            if executor.Some? then executor else v.executor)
  }

  /** `DAGNode.__init__`: binds the node to its resolved DAG without registering it
      there, with no edges, and resolves its system app and executor. `newId`
      stands for `DAG._new_node_id()`. */
  function NewNode<A, E>(w: World, v: DagVar.DagVar<DagId, A, E>, dag: Option<DagId>,
                         nodeId: Option<NodeId>, name: Option<string>, systemApp: Option<A>,
                         executor: Option<E>, isTrigger: bool,
                         newId: NodeId): (r: (World, NodeId, Handles<A, E>))
    requires WellFormed(w)
    requires dag.Some? ==> dag.value in w.dags
    requires forall i :: 0 <= i < |v.stack| ==> v.stack[i] in w.dags
    requires ResolveNodeId(nodeId, ResolveNodeDag(dag, DagVar.GetCurrentDag(v)), newId) !in w.nodes
    ensures WellFormed(r.0)
    ensures r.1 !in w.nodes && r.0.nodes.Keys == w.nodes.Keys + {r.1}
    ensures forall x :: x in w.nodes ==> r.0.nodes[x] == w.nodes[x]
    ensures r.0.dags == w.dags
    ensures r.0.nodes[r.1].dag == ResolveNodeDag(dag, DagVar.GetCurrentDag(v))
    ensures r.0.nodes[r.1].up == [] && r.0.nodes[r.1].down == []
    ensures r.0.nodes[r.1].name == name && r.0.nodes[r.1].isTrigger == isTrigger
    ensures forall x :: x in r.0.dags ==> r.1 !in r.0.dags[x].nodeMap
    ensures r.2.systemApp == (if systemApp.Some? then systemApp else v.systemApp)
    ensures r.2.executor == (if executor.Some? then executor else v.executor)
  {
    var d := ResolveNodeDag(dag, DagVar.GetCurrentDag(v));
    var id := ResolveNodeId(nodeId, d, newId);
    (InsertNode(w, id, NodeRec(d, name, [], [], isTrigger)), id, ResolveHandles(v, systemApp, executor))
  }

  /** Adds a fresh, unwired node that no DAG has registered yet. */
  function InsertNode(w: World, id: NodeId, rec: NodeRec): (r: World)
    requires WellFormed(w) && id !in w.nodes
    requires rec.dag.Some? ==> rec.dag.value in w.dags
    requires rec.up == [] && rec.down == []
    ensures WellFormed(r)
    ensures r.nodes.Keys == w.nodes.Keys + {id} && r.nodes[id] == rec
    ensures forall x :: x in w.nodes ==> r.nodes[x] == w.nodes[x]
    ensures r.dags == w.dags
    ensures forall x :: x in r.dags ==> id !in r.dags[x].nodeMap
  {
    var r := w.(nodes := w.nodes[id := rec]);
    assert RegistryValid(r) by {
      forall x | x in r.dags
        ensures RegistryOf(r, x)
      {
        assert RegistryOf(w, x);
      }
    }
    assert forall x :: x in r.dags ==> id !in r.dags[x].nodeMap by {
      forall x | x in r.dags
        ensures id !in r.dags[x].nodeMap
      {
        assert RegistryOf(w, x);
      }
    }
    r
  }

  /** `DAG.__enter__`: pushes the DAG and returns it. */
  function EnterDagScope<A, E>(v: DagVar.DagVar<DagId, A, E>, d: DagId): (r: (DagVar.DagVar<DagId, A, E>, DagId))
    ensures DagVar.GetCurrentDag(r.0) == Some(d) && r.1 == d
    ensures ExitDagScope(r.0) == v
  {
    (DagVar.EnterDag(v, d), d)
  }

  /** `DAG.__exit__`: pops the scope stack, whatever ended the block. */
  function ExitDagScope<A, E>(v: DagVar.DagVar<DagId, A, E>): (r: DagVar.DagVar<DagId, A, E>)
    ensures v.stack != [] ==> r.stack + [v.stack[|v.stack| - 1]] == v.stack
    ensures v.stack == [] ==> r == v
    ensures r.systemApp == v.systemApp && r.executor == v.executor
  {
    DagVar.ExitDag(v)
  }
}
