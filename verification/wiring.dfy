/** `DAGNode.set_dependency` and the four shift operators of `DependencyMixin`:
    validating the argument, resolving the one DAG the edge lives in, binding and
    registering every node, and recording the edges in both directions.

    Two readings of the edge loop are modelled. `AsWritten` is the loop of the
    source, whose `elif` is reached by an upstream call whose node is already
    upstream; `Intended` keeps the two directions apart. `SetDependency` is the
    source as written, and the four operators are built on it; `Wire` is the
    corrected operation, which also drops the DAG's cached classifications. */
module Wiring {
  import opened Wrappers
  import opened DagBase

  /** One element of a wiring argument: a `DAGNode` (by id) or any other value. */
  datatype Dep = NodeArg(id: NodeId) | NonNode

  /** The `nodes` argument: a single value or a sequence of values. */
  datatype Deps = One(dep: Dep) | Many(deps: seq<Dep>)

  /** `if not isinstance(nodes, Sequence): nodes = [nodes]`. */
  function Normalize(x: Deps): seq<Dep> {
    match x
    case One(d) => [d]
    case Many(ds) => ds
  }

  predicate AllNodes(ds: seq<Dep>) {
    forall i :: 0 <= i < |ds| ==> ds[i].NodeArg?
  }

  function Ids(ds: seq<Dep>): (r: seq<NodeId>)
    requires AllNodes(ds)
    ensures |r| == |ds| && forall i :: 0 <= i < |ds| ==> r[i] == ds[i].id
  {
    seq(|ds|, i requires 0 <= i < |ds| => ds[i].id)
  }

  /** Every node argument refers to a node of the world. */
  ghost predicate ArgsKnown(w: World, ds: seq<Dep>) {
    forall i :: 0 <= i < |ds| && ds[i].NodeArg? ==> ds[i].id in w.nodes
  }

  /** The nodes taking part in one wiring call: `self` and its arguments. */
  function Party(self: NodeId, ids: seq<NodeId>): seq<NodeId> {
    [self] + ids
  }

  ghost predicate Known(w: World, ns: seq<NodeId>) {
    forall a :: a in ns ==> a in w.nodes
  }

  /** No participant is bound to a DAG. */
  ghost predicate Unbound(w: World, ns: seq<NodeId>)
    requires Known(w, ns)
  {
    forall a :: a in ns ==> w.nodes[a].dag.None?
  }

  /** Two participants are bound to different DAGs. */
  ghost predicate Conflicting(w: World, ns: seq<NodeId>)
    requires Known(w, ns)
  {
    exists a, b :: a in ns && b in ns && w.nodes[a].dag.Some? && w.nodes[b].dag.Some? && w.nodes[a].dag != w.nodes[b].dag
  }

  /** DAG `d` is one some participant is in, and every participant may join it. */
  ghost predicate Chosen(w: World, ns: seq<NodeId>, d: DagId)
    requires Known(w, ns)
  {
    && (forall a :: a in ns ==> Joinable(w.nodes[a].dag, d))
    && (exists a :: a in ns && w.nodes[a].dag == Some(d))
  }

  /** `set(node.dag for node in nodes if node.dag)`, plus `self.dag` when set. */
  function DagsOf(w: World, ns: seq<NodeId>): (r: set<DagId>)
    requires Known(w, ns)
    ensures forall d :: d in r <==> exists a :: a in ns && w.nodes[a].dag == Some(d)
  {
    set a | a in ns && w.nodes[a].dag.Some? :: w.nodes[a].dag.value
  }

  lemma SizeOne<T>(s: set<T>)
    ensures |s| == 1 <==> s != {} && forall a, b :: a in s && b in s ==> a == b
  {
    if s != {} {
      var x :| x in s;
      if |s| == 1 {
        assert |s - {x}| == 0;
        assert s == {x};
      }
      if forall a, b :: a in s && b in s ==> a == b {
        assert s == {x};
      }
    }
  }

  /** The validation steps of `set_dependency`, before anything is changed: the
      argument must hold only nodes, and the participants must name exactly one
      DAG between them. */
  function Validate(w: World, self: NodeId, ds: seq<Dep>): (r: Result<DagId, DagError>)
    requires DagRefsValid(w) && self in w.nodes && ArgsKnown(w, ds)
    ensures r.Success? ==> r.value in w.dags
    ensures r == Failure(NotANode) <==> !AllNodes(ds)
    ensures r == Failure(NoDagContext) <==> AllNodes(ds) && Unbound(w, Party(self, Ids(ds)))
    ensures r == Failure(MultipleDags) <==>
      AllNodes(ds) && !Unbound(w, Party(self, Ids(ds))) && Conflicting(w, Party(self, Ids(ds)))
    ensures r.Failure? ==> r.error in {NotANode, NoDagContext, MultipleDags}
    ensures r.Success? ==> Known(w, Party(self, Ids(ds))) && Chosen(w, Party(self, Ids(ds)), r.value)
  {
    if !AllNodes(ds) then Failure(NotANode)
    else
      PartyKnown(w, self, ds);
      var dags := DagsOf(w, Party(self, Ids(ds)));
      SizeOne(dags);
      ValidateFacts(w, Party(self, Ids(ds)), dags);
      if |dags| == 0 then Failure(NoDagContext)
      else if |dags| != 1 then Failure(MultipleDags)
      else
        var d :| d in dags;
        Success(d)
  }

  lemma PartyKnown(w: World, self: NodeId, ds: seq<Dep>)
    requires self in w.nodes && ArgsKnown(w, ds) && AllNodes(ds)
    ensures Known(w, Party(self, Ids(ds)))
  {
    forall a | a in Party(self, Ids(ds))
      ensures a in w.nodes
    {
      if a != self {
        var i :| 0 <= i < |Ids(ds)| && Ids(ds)[i] == a;
        assert ds[i].NodeArg?;
      }
    }
  }

  lemma ValidateFacts(w: World, ns: seq<NodeId>, dags: set<DagId>)
    requires DagRefsValid(w) && Known(w, ns) && dags == DagsOf(w, ns)
    ensures |dags| == 0 <==> Unbound(w, ns)
    ensures |dags| >= 2 <==> Conflicting(w, ns)
    ensures dags <= w.dags.Keys
  {
    SizeOne(dags);
    if !Unbound(w, ns) {
      var a :| a in ns && w.nodes[a].dag.Some?;
      assert w.nodes[a].dag.value in dags;
    }
    if Unbound(w, ns) {
      assert dags == {};
    }
    if |dags| >= 2 {
      var x :| x in dags;
      var y :| y in dags && y != x;
      var a :| a in ns && w.nodes[a].dag == Some(x);
      var b :| b in ns && w.nodes[b].dag == Some(y);
      assert w.nodes[a].dag != w.nodes[b].dag;
    }
    if Conflicting(w, ns) {
      var a, b :| a in ns && b in ns && w.nodes[a].dag.Some? && w.nodes[b].dag.Some? && w.nodes[a].dag != w.nodes[b].dag;
      assert w.nodes[a].dag.value in dags && w.nodes[b].dag.value in dags;
    }
  }

  // ---------------------------------------------------------------------------
  // The edge loop.

  datatype Semantics = AsWritten | Intended

  /** What one loop iteration does with `node`: make it upstream of `self`, make
      it downstream of `self`, or nothing. */
  datatype Link = LinkUp | LinkDown | Skip

  function ChooseLink(up: seq<NodeId>, down: seq<NodeId>, n: NodeId, isUpstream: bool, sem: Semantics): (r: Link)
    ensures r == LinkUp ==> isUpstream && n !in up
    ensures r == LinkDown ==> n !in down
    ensures sem == Intended && r == LinkDown ==> !isUpstream
  {
    match sem
    case AsWritten =>
      if isUpstream && n !in up then LinkUp
      else if n !in down then LinkDown
      else Skip
    case Intended =>
      if isUpstream then (if n !in up then LinkUp else Skip)
      else if n !in down then LinkDown
      else Skip
  }

  /** What a finished iteration leaves behind for `node`. */
  predicate Linked(up: seq<NodeId>, down: seq<NodeId>, n: NodeId, isUpstream: bool) {
    if isUpstream then n in up else n in down
  }

  /** `self` is bound to and registered in `d`. */
  ghost predicate Bound(w: World, d: DagId, self: NodeId) {
    && d in w.dags && self in w.nodes
    && w.nodes[self].dag == Some(d) && self in w.dags[d].nodeMap
  }

  /** `n` is bound to and registered in `d`, and linked to `self`. */
  ghost predicate Attached(w: World, d: DagId, self: NodeId, n: NodeId, isUpstream: bool) {
    && d in w.dags && self in w.nodes && n in w.nodes && w.nodes[n].dag == Some(d) && n in w.dags[d].nodeMap
    && Linked(w.nodes[self].up, w.nodes[self].down, n, isUpstream)
  }

  /** Wiring only adds: edge lists and registries grow at the end, a bound node
      stays bound, an unbound node is bound to `d` at most, and names and trigger
      flags are kept. */
  ghost predicate Grows(w: World, r: World, d: DagId) {
    && r.nodes.Keys == w.nodes.Keys && r.dags.Keys == w.dags.Keys
    && (forall x :: x in w.nodes ==>
          && w.nodes[x].up <= r.nodes[x].up && w.nodes[x].down <= r.nodes[x].down
          && (r.nodes[x].dag == w.nodes[x].dag || (w.nodes[x].dag.None? && r.nodes[x].dag == Some(d)))
          && r.nodes[x].name == w.nodes[x].name && r.nodes[x].isTrigger == w.nodes[x].isTrigger)
    && (forall g :: g in w.dags ==> w.dags[g].nodeMap <= r.dags[g].nodeMap)
  }

  lemma PrefixTrans<T>(a: seq<T>, b: seq<T>, c: seq<T>)
    requires a <= b && b <= c
    ensures a <= c
  {
    assert c[..|a|] == c[..|b|][..|a|];
  }

  lemma GrowsTrans(w1: World, w2: World, w3: World, d: DagId)
    requires Grows(w1, w2, d) && Grows(w2, w3, d)
    ensures Grows(w1, w3, d)
  {
    forall x | x in w1.nodes
      ensures w1.nodes[x].up <= w3.nodes[x].up && w1.nodes[x].down <= w3.nodes[x].down
    {
      PrefixTrans(w1.nodes[x].up, w2.nodes[x].up, w3.nodes[x].up);
      PrefixTrans(w1.nodes[x].down, w2.nodes[x].down, w3.nodes[x].down);
    }
    forall g | g in w1.dags
      ensures w1.dags[g].nodeMap <= w3.dags[g].nodeMap
    {
      PrefixTrans(w1.dags[g].nodeMap, w2.dags[g].nodeMap, w3.dags[g].nodeMap);
    }
  }

  lemma AttachedPersists(w: World, r: World, d: DagId, self: NodeId, n: NodeId, isUpstream: bool, sem: Semantics)
    requires Bound(w, d, self) && Bound(r, d, self) && Grows(w, r, d)
    requires Attached(w, d, self, n, isUpstream)
    ensures Attached(r, d, self, n, isUpstream)
  {
    PrefixMember(w.dags[d].nodeMap, r.dags[d].nodeMap, n);
    if n in w.nodes[self].up {
      PrefixMember(w.nodes[self].up, r.nodes[self].up, n);
    }
    if n in w.nodes[self].down {
      PrefixMember(w.nodes[self].down, r.nodes[self].down, n);
    }
  }

  datatype Step = Step(world: World, error: Option<DagError>)

  /** One iteration of the loop for `node`: bind it to `d`, register it, and
      record the chosen edge; a name conflict stops with the binding done. */
  function Attach(w: World, d: DagId, self: NodeId, n: NodeId, isUpstream: bool, sem: Semantics): (r: Step)
    requires d in w.dags && self in w.nodes && n in w.nodes
    ensures r.world.nodes.Keys == w.nodes.Keys && r.world.dags.Keys == w.dags.Keys
    ensures r.error.Some? ==> r.error.value.NameConflict?
    ensures r.error.Some? <==> ChooseLink(w.nodes[self].up, w.nodes[self].down, n, isUpstream, sem) != Skip && NameTaken(w, d, n)
    ensures ChooseLink(w.nodes[self].up, w.nodes[self].down, n, isUpstream, sem) == Skip ==> r == Step(w, None)
    ensures ChooseLink(w.nodes[self].up, w.nodes[self].down, n, isUpstream, sem) != Skip && r.error.None? ==>
      Linked(r.world.nodes[self].up, r.world.nodes[self].down, n, isUpstream)
  {
    var me := w.nodes[self];
    var link := ChooseLink(me.up, me.down, n, isUpstream, sem);
    if link == Skip then
      Step(w, None)
    else
      var w1 := SetNodeDag(w, n, d);
      match Register(w1, d, n)
      case Failure(e) => Step(w1, Some(e))
      case Success(w2) =>
        if link == LinkUp then Step(AddEdge(w2, n, self), None)
        else Step(AddEdge(w2, self, n), None)
  }

  lemma GrowsSetNodeDag(w: World, n: NodeId, d: DagId)
    requires n in w.nodes && Joinable(w.nodes[n].dag, d)
    ensures Grows(w, SetNodeDag(w, n, d), d)
  {
  }

  lemma GrowsRegister(w: World, d: DagId, n: NodeId)
    requires d in w.dags && n in w.nodes && Register(w, d, n).Success?
    ensures Grows(w, Register(w, d, n).value, d)
  {
  }

  lemma GrowsAddEdge(w: World, src: NodeId, dst: NodeId, d: DagId)
    requires src in w.nodes && dst in w.nodes
    ensures Grows(w, AddEdge(w, src, dst), d)
  {
  }

  /** The nodes a step changes are `self` and `n`, and the DAG it changes is `d`. */
  ghost predicate Touches(w: World, r: World, d: DagId, self: NodeId, n: NodeId) {
    && (forall x :: x in w.nodes && x != self && x != n && x in r.nodes ==> r.nodes[x] == w.nodes[x])
    && (forall g :: g in w.dags && g != d && g in r.dags ==> r.dags[g] == w.dags[g])
  }

  lemma TouchesTrans(w1: World, w2: World, w3: World, d: DagId, self: NodeId, n: NodeId)
    requires Touches(w1, w2, d, self, n) && Touches(w2, w3, d, self, n)
    requires w2.nodes.Keys == w1.nodes.Keys && w2.dags.Keys == w1.dags.Keys
    ensures Touches(w1, w3, d, self, n)
  {
  }

  /** Binding and registering `n`. */
  lemma BindFacts(w: World, d: DagId, self: NodeId, n: NodeId)
    requires Bound(w, d, self) && n in w.nodes && Joinable(w.nodes[n].dag, d)
    ensures var w1 := SetNodeDag(w, n, d);
      && Bound(w1, d, self) && Grows(w, w1, d) && Touches(w, w1, d, self, n)
      && (Register(w1, d, n).Failure? ==> Register(w1, d, n).error.NameConflict?)
      && (Register(w1, d, n).Success? ==>
            var w2 := Register(w1, d, n).value;
            && Bound(w2, d, self) && Grows(w, w2, d) && Touches(w, w2, d, self, n)
            && w2.nodes[n].dag == Some(d) && n in w2.dags[d].nodeMap
            && w2.nodes[self].up == w.nodes[self].up && w2.nodes[self].down == w.nodes[self].down)
  {
    var w1 := SetNodeDag(w, n, d);
    GrowsSetNodeDag(w, n, d);
    if Register(w1, d, n).Success? {
      var w2 := Register(w1, d, n).value;
      GrowsRegister(w1, d, n);
      GrowsTrans(w, w1, w2, d);
      PrefixMember(w1.dags[d].nodeMap, w2.dags[d].nodeMap, self);
    }
  }

  /** Recording the chosen edge between two registered members of `d`. */
  lemma LinkFacts(w: World, d: DagId, self: NodeId, n: NodeId, isUpstream: bool, sem: Semantics)
    requires Bound(w, d, self) && n in w.nodes && w.nodes[n].dag == Some(d) && n in w.dags[d].nodeMap
    requires ChooseLink(w.nodes[self].up, w.nodes[self].down, n, isUpstream, sem) != Skip
    ensures var link := ChooseLink(w.nodes[self].up, w.nodes[self].down, n, isUpstream, sem);
      var r := if link == LinkUp then AddEdge(w, n, self) else AddEdge(w, self, n);
      && Bound(r, d, self) && Grows(w, r, d) && Touches(w, r, d, self, n)
      && Attached(r, d, self, n, isUpstream)
  {
    var link := ChooseLink(w.nodes[self].up, w.nodes[self].down, n, isUpstream, sem);
    if link == LinkUp {
      GrowsAddEdge(w, n, self, d);
    } else {
      GrowsAddEdge(w, self, n, d);
    }
  }

  /** One iteration only adds to the world; when it succeeds `node` is bound,
      registered and linked; it touches no node but `self` and `node` and no DAG
      but `d`. */
  lemma AttachFacts(w: World, d: DagId, self: NodeId, n: NodeId, isUpstream: bool, sem: Semantics)
    requires Bound(w, d, self) && n in w.nodes && Joinable(w.nodes[n].dag, d)
    ensures var r := Attach(w, d, self, n, isUpstream, sem);
      && Bound(r.world, d, self) && Grows(w, r.world, d) && Touches(w, r.world, d, self, n)
      && (r.error.Some? ==> r.error.value.NameConflict?)
      && (ChooseLink(w.nodes[self].up, w.nodes[self].down, n, isUpstream, sem) == Skip ==> r == Step(w, None))
      && (ChooseLink(w.nodes[self].up, w.nodes[self].down, n, isUpstream, sem) != Skip && r.error.None? ==>
            Attached(r.world, d, self, n, isUpstream))
  {
    var me := w.nodes[self];
    var link := ChooseLink(me.up, me.down, n, isUpstream, sem);
    if link != Skip {
      BindFacts(w, d, self, n);
      var w1 := SetNodeDag(w, n, d);
      if Register(w1, d, n).Success? {
        var w2 := Register(w1, d, n).value;
        assert ChooseLink(w2.nodes[self].up, w2.nodes[self].down, n, isUpstream, sem) == link;
        LinkFacts(w2, d, self, n, isUpstream, sem);
        var w3 := if link == LinkUp then AddEdge(w2, n, self) else AddEdge(w2, self, n);
        assert Attach(w, d, self, n, isUpstream, sem) == Step(w3, None);
        GrowsTrans(w, w2, w3, d);
        TouchesTrans(w, w2, w3, d, self, n);
      }
    }
  }

  /** An argument the loop skips is already linked to `self`, hence (the world
      being well formed) bound to and registered in `self`'s DAG. */
  lemma SkipAttached(w: World, d: DagId, self: NodeId, n: NodeId, isUpstream: bool, sem: Semantics)
    requires WellFormed(w) && Bound(w, d, self) && n in w.nodes
    requires ChooseLink(w.nodes[self].up, w.nodes[self].down, n, isUpstream, sem) == Skip
    ensures Attached(w, d, self, n, isUpstream)
  {
    assert n in w.nodes[self].up || n in w.nodes[self].down;
  }

  /** One iteration keeps the world well formed: the edge it records is new, so
      no edge is recorded twice, and both its ends are registered in `d`. */
  lemma AttachWellFormed(w: World, d: DagId, self: NodeId, n: NodeId, isUpstream: bool, sem: Semantics)
    requires WellFormed(w) && Bound(w, d, self) && n in w.nodes && Joinable(w.nodes[n].dag, d)
    ensures WellFormed(Attach(w, d, self, n, isUpstream, sem).world)
  {
    var me := w.nodes[self];
    var link := ChooseLink(me.up, me.down, n, isUpstream, sem);
    if link != Skip {
      BindFacts(w, d, self, n);
      SetNodeDagPreservesWellFormed(w, n, d);
      var w1 := SetNodeDag(w, n, d);
      if Register(w1, d, n).Success? {
        RegisterPreservesWellFormed(w1, d, n);
        var w2 := Register(w1, d, n).value;
        if link == LinkUp {
          AddEdgePreservesWellFormed(w2, n, self, d);
        } else {
          assert self !in w.nodes[n].up;
          AddEdgePreservesWellFormed(w2, self, n, d);
        }
      }
    }
  }

  /** `for node in nodes: ...`, stopping at the first registration error. */
  function WireEach(w: World, d: DagId, self: NodeId, ids: seq<NodeId>, isUpstream: bool, sem: Semantics): (r: Step)
    requires d in w.dags && self in w.nodes && forall n :: n in ids ==> n in w.nodes
    ensures r.world.nodes.Keys == w.nodes.Keys && r.world.dags.Keys == w.dags.Keys
    ensures r.error.Some? ==> r.error.value.NameConflict?
    ensures Known(w, ids) && NamesFree(w, d, ids) ==> r.error.None?
    decreases |ids|
  {
    if ids == [] then Step(w, None)
    else
      AttachKeepsNamesFree(w, d, self, ids, isUpstream, sem);
      var s := Attach(w, d, self, ids[0], isUpstream, sem);
      if s.error.Some? then s
      else WireEach(s.world, d, self, ids[1..], isUpstream, sem)
  }

  /** The whole loop only adds to the world, and its only error is a name
      conflict. */
  lemma {:induction false} WireEachFacts(w: World, d: DagId, self: NodeId, ids: seq<NodeId>, isUpstream: bool, sem: Semantics)
    requires Bound(w, d, self) && forall n :: n in ids ==> n in w.nodes && Joinable(w.nodes[n].dag, d)
    ensures var r := WireEach(w, d, self, ids, isUpstream, sem);
      && Bound(r.world, d, self) && Grows(w, r.world, d)
      && (r.error.Some? ==> r.error.value.NameConflict?)
    decreases |ids|
  {
    if ids != [] {
      var n := ids[0];
      AttachFacts(w, d, self, n, isUpstream, sem);
      var s := Attach(w, d, self, n, isUpstream, sem);
      if s.error.None? {
        assert forall m :: m in ids[1..] ==> m in ids;
        WireEachFacts(s.world, d, self, ids[1..], isUpstream, sem);
        GrowsTrans(w, s.world, WireEach(s.world, d, self, ids[1..], isUpstream, sem).world, d);
      }
    }
  }

  /** The whole loop keeps the world well formed. */
  lemma {:induction false} WireEachWellFormed(w: World, d: DagId, self: NodeId, ids: seq<NodeId>, isUpstream: bool, sem: Semantics)
    requires WellFormed(w) && Bound(w, d, self) && forall n :: n in ids ==> n in w.nodes && Joinable(w.nodes[n].dag, d)
    ensures WellFormed(WireEach(w, d, self, ids, isUpstream, sem).world)
    decreases |ids|
  {
    if ids != [] {
      var n := ids[0];
      AttachFacts(w, d, self, n, isUpstream, sem);
      AttachWellFormed(w, d, self, n, isUpstream, sem);
      var s := Attach(w, d, self, n, isUpstream, sem);
      if s.error.None? {
        assert forall m :: m in ids[1..] ==> m in ids;
        WireEachWellFormed(s.world, d, self, ids[1..], isUpstream, sem);
      }
    }
  }

  /** When no registration fails, every argument ends up bound, registered and
      linked to `self`. */
  lemma {:induction false} WireEachAttaches(w: World, d: DagId, self: NodeId, ids: seq<NodeId>, isUpstream: bool, sem: Semantics)
    requires WellFormed(w) && Bound(w, d, self) && forall n :: n in ids ==> n in w.nodes && Joinable(w.nodes[n].dag, d)
    requires WireEach(w, d, self, ids, isUpstream, sem).error.None?
    ensures forall n :: n in ids ==> Attached(WireEach(w, d, self, ids, isUpstream, sem).world, d, self, n, isUpstream)
    decreases |ids|
  {
    if ids != [] {
      var n := ids[0];
      AttachFacts(w, d, self, n, isUpstream, sem);
      AttachWellFormed(w, d, self, n, isUpstream, sem);
      if ChooseLink(w.nodes[self].up, w.nodes[self].down, n, isUpstream, sem) == Skip {
        SkipAttached(w, d, self, n, isUpstream, sem);
      }
      var w1 := Attach(w, d, self, n, isUpstream, sem).world;
      assert forall m :: m in ids[1..] ==> m in ids;
      var r := WireEach(w1, d, self, ids[1..], isUpstream, sem);
      WireEachFacts(w1, d, self, ids[1..], isUpstream, sem);
      WireEachAttaches(w1, d, self, ids[1..], isUpstream, sem);
      AttachedPersists(w1, r.world, d, self, n, isUpstream, sem);
      assert forall m :: m in ids ==> m == n || m in ids[1..];
    }
  }

  /** The loop changes no node but `self` and the arguments, and no DAG but `d`. */
  lemma {:induction false} WireEachFrame(w: World, d: DagId, self: NodeId, ids: seq<NodeId>, isUpstream: bool, sem: Semantics)
    requires Bound(w, d, self) && forall n :: n in ids ==> n in w.nodes && Joinable(w.nodes[n].dag, d)
    ensures var r := WireEach(w, d, self, ids, isUpstream, sem);
      && (forall x :: x in w.nodes && x != self && x !in ids ==> r.world.nodes[x] == w.nodes[x])
      && (forall g :: g in w.dags && g != d ==> r.world.dags[g] == w.dags[g])
    decreases |ids|
  {
    if ids != [] {
      var n := ids[0];
      AttachFacts(w, d, self, n, isUpstream, sem);
      var s := Attach(w, d, self, n, isUpstream, sem);
      if s.error.None? {
        assert forall m :: m in ids[1..] ==> m in ids;
        WireEachFrame(s.world, d, self, ids[1..], isUpstream, sem);
        assert forall x :: x !in ids ==> x != n && x !in ids[1..];
      }
    }
  }

  // ---------------------------------------------------------------------------
  // `set_dependency` and the operators.

  lemma IdsKnown(w: World, ds: seq<Dep>)
    requires AllNodes(ds) && ArgsKnown(w, ds)
    ensures forall n :: n in Ids(ds) ==> n in w.nodes
  {
    forall n | n in Ids(ds)
      ensures n in w.nodes
    {
      var i :| 0 <= i < |Ids(ds)| && Ids(ds)[i] == n;
      assert ds[i].NodeArg?;
    }
  }

  /** `self` is bound to some DAG it is registered in, and every argument is
      attached to it there. */
  ghost predicate Joined(w: World, self: NodeId, ids: seq<NodeId>, isUpstream: bool) {
    && self in w.nodes && w.nodes[self].dag.Some?
    && Bound(w, w.nodes[self].dag.value, self)
    && forall n :: n in ids ==> Attached(w, w.nodes[self].dag.value, self, n, isUpstream)
  }

  /** No edge is lost. */
  ghost predicate EdgesKept(w: World, r: World) {
    forall x :: x in w.nodes ==> x in r.nodes && w.nodes[x].up <= r.nodes[x].up && w.nodes[x].down <= r.nodes[x].down
  }

  /** The body of `set_dependency` for either reading of the loop: validate, bind
      and register `self`, then run the loop. */
  function Connect(w: World, self: NodeId, deps: Deps, isUpstream: bool, sem: Semantics): (r: Step)
    requires DagRefsValid(w) && self in w.nodes && ArgsKnown(w, Normalize(deps))
    ensures r.world.nodes.Keys == w.nodes.Keys && r.world.dags.Keys == w.dags.Keys
  {
    var ds := Normalize(deps);
    match Validate(w, self, ds)
    case Failure(e) => Step(w, Some(e))
    case Success(d) =>
      var w1 := SetNodeDag(w, self, d);
      match Register(w1, d, self)
      case Failure(e) => Step(w1, Some(e))
      case Success(w2) =>
        IdsKnown(w, ds);
        WireEach(w2, d, self, Ids(ds), isUpstream, sem)
  }

  /** What `Connect` guarantees: validation errors change nothing; after
      validation the world only grows and only a name conflict can stop the call;
      `self` ends up in the DAG the validation chose. */
  lemma ConnectFacts(w: World, self: NodeId, deps: Deps, isUpstream: bool, sem: Semantics)
    requires DagRefsValid(w) && self in w.nodes && ArgsKnown(w, Normalize(deps))
    ensures var r := Connect(w, self, deps, isUpstream, sem);
      var v := Validate(w, self, Normalize(deps));
      && (v.Failure? ==> r == Step(w, Some(v.error)))
      && (v.Success? ==> r.error.None? || r.error.value.NameConflict?)
      && (v.Success? ==> forall g :: g in w.dags && g != v.value ==> r.world.dags[g] == w.dags[g])
      && (v.Success? ==> Grows(w, r.world, v.value))
      && (r.error.None? ==> v.Success? && r.world.nodes[self].dag == Some(v.value))
  {
    var ds := Normalize(deps);
    var v := Validate(w, self, ds);
    if v.Success? {
      var d := v.value;
      assert self in Party(self, Ids(ds));
      var w1 := SetNodeDag(w, self, d);
      GrowsSetNodeDag(w, self, d);
      if Register(w1, d, self).Success? {
        var w2 := Register(w1, d, self).value;
        GrowsRegister(w1, d, self);
        GrowsTrans(w, w1, w2, d);
        IdsKnown(w, ds);
        var ids := Ids(ds);
        assert forall n :: n in ids ==> n in Party(self, ids);
        assert Bound(w2, d, self);
        WireEachFacts(w2, d, self, ids, isUpstream, sem);
        WireEachFrame(w2, d, self, ids, isUpstream, sem);
        GrowsTrans(w, w2, WireEach(w2, d, self, ids, isUpstream, sem).world, d);
      }
    }
  }

  /** A `Connect` without error leaves every argument attached to `self`. */
  lemma ConnectJoins(w: World, self: NodeId, deps: Deps, isUpstream: bool, sem: Semantics)
    requires WellFormed(w) && self in w.nodes && ArgsKnown(w, Normalize(deps))
    ensures Connect(w, self, deps, isUpstream, sem).error.None? ==>
      Joined(Connect(w, self, deps, isUpstream, sem).world, self, Ids(Normalize(deps)), isUpstream)
  {
    if Connect(w, self, deps, isUpstream, sem).error.None? {
      ConnectJoinsOk(w, self, deps, isUpstream, sem);
    }
  }

  lemma ConnectJoinsOk(w: World, self: NodeId, deps: Deps, isUpstream: bool, sem: Semantics)
    requires WellFormed(w) && self in w.nodes && ArgsKnown(w, Normalize(deps))
    requires Connect(w, self, deps, isUpstream, sem).error.None?
    ensures Joined(Connect(w, self, deps, isUpstream, sem).world, self, Ids(Normalize(deps)), isUpstream)
  {
    var ds := Normalize(deps);
    var v := Validate(w, self, ds);
    var d := v.value;
    assert self in Party(self, Ids(ds));
    SetNodeDagPreservesWellFormed(w, self, d);
    var w1 := SetNodeDag(w, self, d);
    RegisterPreservesWellFormed(w1, d, self);
    var w2 := Register(w1, d, self).value;
    IdsKnown(w, ds);
    var ids := Ids(ds);
    assert forall n :: n in ids ==> n in Party(self, ids);
    WireEachFacts(w2, d, self, ids, isUpstream, sem);
    WireEachAttaches(w2, d, self, ids, isUpstream, sem);
  }

  /** `Connect` keeps the world well formed. */
  lemma ConnectWellFormed(w: World, self: NodeId, deps: Deps, isUpstream: bool, sem: Semantics)
    requires WellFormed(w) && self in w.nodes && ArgsKnown(w, Normalize(deps))
    ensures WellFormed(Connect(w, self, deps, isUpstream, sem).world)
  {
    var ds := Normalize(deps);
    var v := Validate(w, self, ds);
    if v.Success? {
      var d := v.value;
      assert self in Party(self, Ids(ds));
      SetNodeDagPreservesWellFormed(w, self, d);
      var w1 := SetNodeDag(w, self, d);
      if Register(w1, d, self).Success? {
        RegisterPreservesWellFormed(w1, d, self);
        var w2 := Register(w1, d, self).value;
        IdsKnown(w, ds);
        var ids := Ids(ds);
        assert forall n :: n in ids ==> n in Party(self, ids);
        WireEachWellFormed(w2, d, self, ids, isUpstream, sem);
      }
    }
  }

  /** `Connect` changes no node but `self` and its arguments, and every node it
      changes could join the DAG the validation chose. */
  lemma ConnectFrame(w: World, self: NodeId, deps: Deps, isUpstream: bool, sem: Semantics)
    requires DagRefsValid(w) && self in w.nodes && ArgsKnown(w, Normalize(deps))
    ensures var r := Connect(w, self, deps, isUpstream, sem);
      forall x :: x in w.nodes && r.world.nodes[x] != w.nodes[x] ==>
        && AllNodes(Normalize(deps)) && x in Party(self, Ids(Normalize(deps)))
        && Validate(w, self, Normalize(deps)).Success?
        && Joinable(w.nodes[x].dag, Validate(w, self, Normalize(deps)).value)
  {
    var ds := Normalize(deps);
    var v := Validate(w, self, ds);
    var r := Connect(w, self, deps, isUpstream, sem);
    if v.Failure? {
      assert r.world == w;
    } else {
      var d := v.value;
      assert self in Party(self, Ids(ds));
      assert Chosen(w, Party(self, Ids(ds)), d);
      var w1 := SetNodeDag(w, self, d);
      GrowsSetNodeDag(w, self, d);
      if Register(w1, d, self).Success? {
        var w2 := Register(w1, d, self).value;
        GrowsRegister(w1, d, self);
        IdsKnown(w, ds);
        var ids := Ids(ds);
        assert forall n :: n in ids ==> n in Party(self, ids);
        assert Bound(w2, d, self);
        WireEachFrame(w2, d, self, ids, isUpstream, sem);
        assert r == WireEach(w2, d, self, ids, isUpstream, sem);
        assert forall x :: x in w.nodes && x != self && x !in ids ==> r.world.nodes[x] == w.nodes[x];
      } else {
        assert r.world == w1;
      }
    }
  }

  /** `DAGNode.set_dependency` as written. The three validation errors are raised
      before anything changes; on success `self` and every argument are bound to
      and registered in one DAG, the one a participant already belonged to, and
      each argument is linked to `self`. */
  function SetDependency(w: World, self: NodeId, deps: Deps, isUpstream: bool): (r: Step)
    requires WellFormed(w) && self in w.nodes && ArgsKnown(w, Normalize(deps))
    ensures WellFormed(r.world) && r.world.nodes.Keys == w.nodes.Keys && r.world.dags.Keys == w.dags.Keys
    ensures EdgesKept(w, r.world)
    ensures r.error == Some(NotANode) <==> !AllNodes(Normalize(deps))
    ensures r.error == Some(NoDagContext) <==> AllNodes(Normalize(deps)) && Unbound(w, Party(self, Ids(Normalize(deps))))
    ensures r.error == Some(MultipleDags) <==>
      AllNodes(Normalize(deps)) && !Unbound(w, Party(self, Ids(Normalize(deps)))) && Conflicting(w, Party(self, Ids(Normalize(deps))))
    ensures r.error.Some? && !r.error.value.NameConflict? ==> r.world == w
    ensures r.error.None? ==> Joined(r.world, self, Ids(Normalize(deps)), isUpstream)
    ensures r.error.None? ==> forall a :: a in Party(self, Ids(Normalize(deps))) && w.nodes[a].dag.Some? ==>
      r.world.nodes[self].dag == w.nodes[a].dag
  {
    ConnectFacts(w, self, deps, isUpstream, AsWritten);
    ConnectWellFormed(w, self, deps, isUpstream, AsWritten);
    ConnectJoins(w, self, deps, isUpstream, AsWritten);
    Connect(w, self, deps, isUpstream, AsWritten)
  }

  lemma ClearCachesKeepsJoined(w: World, d: DagId, self: NodeId, deps: Deps, isUpstream: bool)
    requires d in w.dags && AllNodes(Normalize(deps))
    ensures Joined(w, self, Ids(Normalize(deps)), isUpstream) ==>
      Joined(ClearCaches(w, d), self, Ids(Normalize(deps)), isUpstream)
  {
    var r := ClearCaches(w, d);
    if Joined(w, self, Ids(Normalize(deps)), isUpstream) {
      var e := w.nodes[self].dag.value;
      forall n | n in Ids(Normalize(deps))
        ensures Attached(r, e, self, n, isUpstream)
      {
        assert Attached(w, e, self, n, isUpstream);
      }
    }
  }

  /** The corrected `set_dependency`: the upstream and downstream branches are
      kept apart, and the cached classifications of the DAG are dropped whenever
      the call got past validation, since edges may have changed. */
  function Wire(w: World, self: NodeId, deps: Deps, isUpstream: bool): (r: Step)
    requires WellFormed(w) && self in w.nodes && ArgsKnown(w, Normalize(deps))
    ensures WellFormed(r.world) && r.world.nodes.Keys == w.nodes.Keys && r.world.dags.Keys == w.dags.Keys
    ensures EdgesKept(w, r.world)
    ensures r.error == Some(NotANode) <==> !AllNodes(Normalize(deps))
    ensures r.error == Some(NoDagContext) <==> AllNodes(Normalize(deps)) && Unbound(w, Party(self, Ids(Normalize(deps))))
    ensures r.error == Some(MultipleDags) <==>
      AllNodes(Normalize(deps)) && !Unbound(w, Party(self, Ids(Normalize(deps)))) && Conflicting(w, Party(self, Ids(Normalize(deps))))
    ensures r.error.Some? && !r.error.value.NameConflict? ==> r.world == w
    ensures r.error.None? ==> Joined(r.world, self, Ids(Normalize(deps)), isUpstream)
    ensures r.error.None? ==> forall a :: a in Party(self, Ids(Normalize(deps))) && w.nodes[a].dag.Some? ==>
      r.world.nodes[self].dag == w.nodes[a].dag
    ensures r.error.None? ==>
      var g := r.world.dags[r.world.nodes[self].dag.value];
      g.roots.None? && g.leaves.None? && g.triggers.None?
  {
    ConnectFacts(w, self, deps, isUpstream, Intended);
    ConnectWellFormed(w, self, deps, isUpstream, Intended);
    ConnectJoins(w, self, deps, isUpstream, Intended);
    var s := Connect(w, self, deps, isUpstream, Intended);
    match Validate(w, self, Normalize(deps))
    case Failure(_) => s
    case Success(d) =>
      var r := ClearCaches(s.world, d);
      ClearCachesKeepsJoined(s.world, d, self, deps, isUpstream);
      Step(r, s.error)
  }

  /** Whether `n` is now upstream (`isUpstream`) or downstream of `self`, recorded
      on both ends. */
  ghost predicate EdgeTo(w: World, self: NodeId, n: NodeId, isUpstream: bool)
    requires self in w.nodes && n in w.nodes
  {
    if isUpstream then n in w.nodes[self].up && self in w.nodes[n].down
    else n in w.nodes[self].down && self in w.nodes[n].up
  }

  lemma JoinedEdges(w: World, self: NodeId, ids: seq<NodeId>, isUpstream: bool)
    requires WellFormed(w) && Joined(w, self, ids, isUpstream)
    ensures forall n :: n in ids ==> n in w.nodes && EdgeTo(w, self, n, isUpstream)
  {
    forall n | n in ids
      ensures n in w.nodes && EdgeTo(w, self, n, isUpstream)
    {
      assert Attached(w, w.nodes[self].dag.value, self, n, isUpstream);
    }
  }

  /** `self >> nodes`, which is `set_downstream`, that is `set_dependency` as
      written: every argument becomes downstream of `self`; the argument is
      returned, so that `a >> b >> c` chains left to right. As in the program,
      the cached classifications of an already registered DAG are kept. */
  function ShiftRight(w: World, self: NodeId, deps: Deps): (r: (Step, Deps))
    requires WellFormed(w) && self in w.nodes && ArgsKnown(w, Normalize(deps))
    ensures r.0 == SetDependency(w, self, deps, false)
    ensures r.1 == deps && WellFormed(r.0.world) && EdgesKept(w, r.0.world)
    ensures r.0.error.None? ==>
      AllNodes(Normalize(deps)) && forall n :: n in Ids(Normalize(deps)) ==> n in r.0.world.nodes && self in r.0.world.nodes && EdgeTo(r.0.world, self, n, false)
  {
    var s := SetDependency(w, self, deps, false);
    if s.error.None? then JoinedEdges(s.world, self, Ids(Normalize(deps)), false); (s, deps)
    else (s, deps)
  }

  /** `self << nodes`, which is `set_upstream` as written: every argument becomes
      upstream of `self` (a repeated call may also make it downstream, see
      `RepeatedUpstreamAddsReverseEdge`); the argument is returned. */
  function ShiftLeft(w: World, self: NodeId, deps: Deps): (r: (Step, Deps))
    requires WellFormed(w) && self in w.nodes && ArgsKnown(w, Normalize(deps))
    ensures r.0 == SetDependency(w, self, deps, true)
    ensures r.1 == deps && WellFormed(r.0.world) && EdgesKept(w, r.0.world)
    ensures r.0.error.None? ==>
      AllNodes(Normalize(deps)) && forall n :: n in Ids(Normalize(deps)) ==> n in r.0.world.nodes && self in r.0.world.nodes && EdgeTo(r.0.world, self, n, true)
  {
    var s := SetDependency(w, self, deps, true);
    if s.error.None? then JoinedEdges(s.world, self, Ids(Normalize(deps)), true); (s, deps)
    else (s, deps)
  }

  /** `nodes >> self` (Python's reflected `__rrshift__`): every argument becomes
      upstream of `self`, and `self` is returned. */
  function ReflectedShiftRight(w: World, self: NodeId, deps: Deps): (r: (Step, NodeId))
    requires WellFormed(w) && self in w.nodes && ArgsKnown(w, Normalize(deps))
    ensures r.0 == SetDependency(w, self, deps, true)
    ensures r.1 == self && WellFormed(r.0.world) && EdgesKept(w, r.0.world)
    ensures r.0.error.None? ==>
      AllNodes(Normalize(deps)) && forall n :: n in Ids(Normalize(deps)) ==> n in r.0.world.nodes && self in r.0.world.nodes && EdgeTo(r.0.world, self, n, true)
  {
    (ShiftLeft(w, self, deps).0, self)
  }

  /** `nodes << self` (Python's reflected `__rlshift__`): every argument becomes
      downstream of `self`, and `self` is returned. */
  function ReflectedShiftLeft(w: World, self: NodeId, deps: Deps): (r: (Step, NodeId))
    requires WellFormed(w) && self in w.nodes && ArgsKnown(w, Normalize(deps))
    ensures r.0 == SetDependency(w, self, deps, false)
    ensures r.1 == self && WellFormed(r.0.world) && EdgesKept(w, r.0.world)
    ensures r.0.error.None? ==>
      AllNodes(Normalize(deps)) && forall n :: n in Ids(Normalize(deps)) ==> n in r.0.world.nodes && self in r.0.world.nodes && EdgeTo(r.0.world, self, n, false)
  {
    (ShiftRight(w, self, deps).0, self)
  }

  // ---------------------------------------------------------------------------
  // When no name conflict stops a wiring call.

  /** Two different nodes, neither registered in `d`, carry the same non-empty name. */
  ghost predicate SameFreshName(w: World, d: DagId, a: NodeId, b: NodeId)
    requires d in w.dags && a in w.nodes && b in w.nodes
  {
    && a != b && a !in w.dags[d].nodeMap && b !in w.dags[d].nodeMap
    && Named(w.nodes[a].name) && w.nodes[a].name == w.nodes[b].name
  }

  /** Registering the nodes `ns` in `d` one after another meets no name conflict:
      no unregistered node's name is taken in `d`, and no two unregistered nodes
      share a name. */
  ghost predicate NamesFree(w: World, d: DagId, ns: seq<NodeId>)
    requires d in w.dags && Known(w, ns)
  {
    forall k :: 0 <= k < |ns| ==>
      && !NameTaken(w, d, ns[k])
      && forall j :: 0 <= j < k ==> !SameFreshName(w, d, ns[j], ns[k])
  }

  /** `NamesFree` survives registering the first node and nothing else. */
  lemma NamesFreeAfter(w: World, r: World, d: DagId, ns: seq<NodeId>)
    requires d in w.dags && d in r.dags && Known(w, ns) && Known(r, ns) && ns != []
    requires NamesFree(w, d, ns)
    requires forall x :: x in ns ==> r.nodes[x].name == w.nodes[x].name
    requires w.dags[d].nodeMap <= r.dags[d].nodeMap
    requires forall x :: x in r.dags[d].nameMap ==>
      || x in w.dags[d].nameMap
      || (ns[0] !in w.dags[d].nodeMap && ns[0] in r.dags[d].nodeMap && Named(w.nodes[ns[0]].name) && x == w.nodes[ns[0]].name.value)
    ensures Known(r, ns[1..]) && NamesFree(r, d, ns[1..])
  {
    var t := ns[1..];
    assert forall k :: 0 <= k < |t| ==> t[k] == ns[k + 1];
    forall k | 0 <= k < |t|
      ensures !NameTaken(r, d, t[k])
      ensures forall j :: 0 <= j < k ==> !SameFreshName(r, d, t[j], t[k])
    {
      var x := t[k];
      assert x == ns[k + 1];
      assert !NameTaken(w, d, x) && !SameFreshName(w, d, ns[0], x);
      StillUnregistered(w, r, d, x);
      forall j | 0 <= j < k
        ensures !SameFreshName(r, d, t[j], t[k])
      {
        assert t[j] == ns[j + 1];
        assert !SameFreshName(w, d, t[j], x);
        StillUnregistered(w, r, d, t[j]);
      }
    }
  }

  /** A node that is unregistered after the registry grew was unregistered before. */
  lemma StillUnregistered(w: World, r: World, d: DagId, x: NodeId)
    requires d in w.dags && d in r.dags && w.dags[d].nodeMap <= r.dags[d].nodeMap
    ensures x !in r.dags[d].nodeMap ==> x !in w.dags[d].nodeMap
  {
    if x in w.dags[d].nodeMap {
      PrefixMember(w.dags[d].nodeMap, r.dags[d].nodeMap, x);
    }
  }

  /** One iteration over the first node of a conflict-free list succeeds, and
      the rest of the list stays conflict-free. */
  lemma AttachNamesFree(w: World, d: DagId, self: NodeId, ns: seq<NodeId>, isUpstream: bool, sem: Semantics)
    requires d in w.dags && self in w.nodes && Known(w, ns) && ns != []
    requires NamesFree(w, d, ns)
    ensures var s := Attach(w, d, self, ns[0], isUpstream, sem);
      s.error.None? && Known(s.world, ns[1..]) && NamesFree(s.world, d, ns[1..])
  {
    var n := ns[0];
    assert !NameTaken(w, d, n);
    var link := ChooseLink(w.nodes[self].up, w.nodes[self].down, n, isUpstream, sem);
    if link == Skip {
      NamesFreeAfter(w, w, d, ns);
    } else {
      var w1 := SetNodeDag(w, n, d);
      assert !NameTaken(w1, d, n);
      var w2 := Register(w1, d, n).value;
      RegisterNames(w1, d, n);
      var r := if link == LinkUp then AddEdge(w2, n, self) else AddEdge(w2, self, n);
      assert Attach(w, d, self, n, isUpstream, sem) == Step(r, None);
      NamesFreeAfter(w, r, d, ns);
    }
  }

  /** The same, for any list: what `WireEach` needs at each step. */
  lemma AttachKeepsNamesFree(w: World, d: DagId, self: NodeId, ns: seq<NodeId>, isUpstream: bool, sem: Semantics)
    requires d in w.dags && self in w.nodes && Known(w, ns) && ns != []
    ensures NamesFree(w, d, ns) ==>
      var s := Attach(w, d, self, ns[0], isUpstream, sem);
      s.error.None? && Known(s.world, ns[1..]) && NamesFree(s.world, d, ns[1..])
  {
    if NamesFree(w, d, ns) {
      AttachNamesFree(w, d, self, ns, isUpstream, sem);
    }
  }

  /** Past validation, a wiring call whose participants, `self` first, are
      conflict-free succeeds, in both readings of the loop. */
  lemma ConnectSucceeds(w: World, self: NodeId, deps: Deps, isUpstream: bool, sem: Semantics)
    requires DagRefsValid(w) && self in w.nodes && ArgsKnown(w, Normalize(deps))
    requires Validate(w, self, Normalize(deps)).Success?
    requires NamesFree(w, Validate(w, self, Normalize(deps)).value, Party(self, Ids(Normalize(deps))))
    ensures Connect(w, self, deps, isUpstream, sem).error.None?
  {
    var ds := Normalize(deps);
    var d := Validate(w, self, ds).value;
    var ns := Party(self, Ids(ds));
    assert ns[0] == self && ns[1..] == Ids(ds);
    SelfRegisters(w, d, ns);
    var w2 := Register(SetNodeDag(w, self, d), d, self).value;
    IdsKnown(w, ds);
    assert Connect(w, self, deps, isUpstream, sem) == WireEach(w2, d, self, Ids(ds), isUpstream, sem);
  }

  /** Binding and registering the first node of a conflict-free list succeeds,
      and the rest of the list stays conflict-free. */
  lemma SelfRegisters(w: World, d: DagId, ns: seq<NodeId>)
    requires d in w.dags && Known(w, ns) && ns != [] && NamesFree(w, d, ns)
    ensures Register(SetNodeDag(w, ns[0], d), d, ns[0]).Success?
    ensures var w2 := Register(SetNodeDag(w, ns[0], d), d, ns[0]).value;
      Known(w2, ns[1..]) && NamesFree(w2, d, ns[1..])
  {
    var self := ns[0];
    assert !NameTaken(w, d, self);
    var w1 := SetNodeDag(w, self, d);
    assert !NameTaken(w1, d, self);
    var w2 := Register(w1, d, self).value;
    RegisterNames(w1, d, self);
    NamesFreeAfter(w, w2, d, ns);
  }

  /** `set_dependency`, as written and corrected, raises no name conflict when
      the participants that are not yet registered in the chosen DAG have
      distinct names that the DAG does not use yet. */
  lemma WiringSucceeds(w: World, self: NodeId, deps: Deps, isUpstream: bool)
    requires WellFormed(w) && self in w.nodes && ArgsKnown(w, Normalize(deps))
    requires Validate(w, self, Normalize(deps)).Success?
    requires NamesFree(w, Validate(w, self, Normalize(deps)).value, Party(self, Ids(Normalize(deps))))
    ensures SetDependency(w, self, deps, isUpstream).error.None?
    ensures Wire(w, self, deps, isUpstream).error.None?
  {
    ConnectSucceeds(w, self, deps, isUpstream, AsWritten);
    ConnectSucceeds(w, self, deps, isUpstream, Intended);
  }

  // ---------------------------------------------------------------------------
  // Repeating a wiring call.

  /** A loop in which every node is skipped changes nothing. */
  lemma {:induction false} WireEachSkips(w: World, d: DagId, self: NodeId, ids: seq<NodeId>, isUpstream: bool, sem: Semantics)
    requires d in w.dags && self in w.nodes && forall n :: n in ids ==> n in w.nodes
    requires forall n :: n in ids ==> ChooseLink(w.nodes[self].up, w.nodes[self].down, n, isUpstream, sem) == Skip
    ensures WireEach(w, d, self, ids, isUpstream, sem) == Step(w, None)
    decreases |ids|
  {
    if ids != [] {
      assert Attach(w, d, self, ids[0], isUpstream, sem) == Step(w, None);
      assert forall m :: m in ids[1..] ==> m in ids;
      WireEachSkips(w, d, self, ids[1..], isUpstream, sem);
    }
  }

  /** Once every argument is joined to `self` in a way the loop skips, calling
      again changes nothing and succeeds. */
  lemma ConnectAgain(w: World, self: NodeId, deps: Deps, isUpstream: bool, sem: Semantics)
    requires WellFormed(w) && self in w.nodes && ArgsKnown(w, Normalize(deps)) && AllNodes(Normalize(deps))
    requires Joined(w, self, Ids(Normalize(deps)), isUpstream)
    requires forall n :: n in Ids(Normalize(deps)) ==>
      ChooseLink(w.nodes[self].up, w.nodes[self].down, n, isUpstream, sem) == Skip
    ensures Connect(w, self, deps, isUpstream, sem) == Step(w, None)
  {
    var ds := Normalize(deps);
    var ids := Ids(ds);
    var d := w.nodes[self].dag.value;
    var ns := Party(self, ids);
    assert !Unbound(w, ns) by {
      assert self in ns;
    }
    assert !Conflicting(w, ns) by {
      forall a | a in ns
        ensures w.nodes[a].dag == Some(d)
      {
        if a != self {
          assert a in ids;
          assert Attached(w, d, self, a, isUpstream);
        }
      }
    }
    var v := Validate(w, self, ds);
    assert self in ns;
    assert v == Success(d);
    assert SetNodeDag(w, self, d) == w;
    assert Register(w, d, self) == Success(w);
    IdsKnown(w, ds);
    WireEachSkips(w, d, self, ids, isUpstream, sem);
  }

  /** Every argument joined to `self` is skipped by the corrected loop. */
  lemma JoinedSkips(w: World, self: NodeId, ids: seq<NodeId>, isUpstream: bool)
    requires Joined(w, self, ids, isUpstream)
    ensures forall n :: n in ids ==>
      ChooseLink(w.nodes[self].up, w.nodes[self].down, n, isUpstream, Intended) == Skip
  {
    forall n | n in ids
      ensures ChooseLink(w.nodes[self].up, w.nodes[self].down, n, isUpstream, Intended) == Skip
    {
      assert Attached(w, w.nodes[self].dag.value, self, n, isUpstream);
    }
  }

  /** The corrected call on arguments already joined to `self`, in a DAG whose
      caches are already dropped, succeeds and changes nothing. */
  lemma WireAgain(w: World, self: NodeId, deps: Deps, isUpstream: bool)
    requires WellFormed(w) && self in w.nodes && ArgsKnown(w, Normalize(deps)) && AllNodes(Normalize(deps))
    requires Joined(w, self, Ids(Normalize(deps)), isUpstream)
    requires var g := w.dags[w.nodes[self].dag.value]; g.roots.None? && g.leaves.None? && g.triggers.None?
    ensures Wire(w, self, deps, isUpstream) == Step(w, None)
  {
    var ds := Normalize(deps);
    var ids := Ids(ds);
    var d := w.nodes[self].dag.value;
    assert Connect(w, self, deps, isUpstream, Intended) == Step(w, None) by {
      JoinedSkips(w, self, ids, isUpstream);
      ConnectAgain(w, self, deps, isUpstream, Intended);
    }
    assert Validate(w, self, ds) == Success(d) by {
      assert self in Party(self, ids);
    }
    assert ClearCaches(w, d) == w by {
      assert w.dags[d := w.dags[d].(roots := None, leaves := None, triggers := None)] == w.dags;
    }
  }

  /** The corrected wiring is idempotent in both directions: a second identical
      call succeeds and changes nothing. */
  lemma WireIdempotent(w: World, self: NodeId, deps: Deps, isUpstream: bool)
    requires WellFormed(w) && self in w.nodes && ArgsKnown(w, Normalize(deps))
    requires Wire(w, self, deps, isUpstream).error.None?
    ensures var w1 := Wire(w, self, deps, isUpstream).world;
      ArgsKnown(w1, Normalize(deps)) && Wire(w1, self, deps, isUpstream) == Step(w1, None)
  {
    var w1 := Wire(w, self, deps, isUpstream).world;
    assert ArgsKnown(w1, Normalize(deps));
    WireAgain(w1, self, deps, isUpstream);
  }

  /** As written, repeating a downstream call is harmless: it succeeds and changes
      nothing. */
  lemma SetDownstreamIdempotent(w: World, self: NodeId, deps: Deps)
    requires WellFormed(w) && self in w.nodes && ArgsKnown(w, Normalize(deps))
    requires SetDependency(w, self, deps, false).error.None?
    ensures var w1 := SetDependency(w, self, deps, false).world;
      ArgsKnown(w1, Normalize(deps)) && SetDependency(w1, self, deps, false) == Step(w1, None)
  {
    var w1 := SetDependency(w, self, deps, false).world;
    var ids := Ids(Normalize(deps));
    assert ArgsKnown(w1, Normalize(deps));
    forall n | n in ids
      ensures ChooseLink(w1.nodes[self].up, w1.nodes[self].down, n, false, AsWritten) == Skip
    {
      assert Attached(w1, w1.nodes[self].dag.value, self, n, false);
    }
    ConnectAgain(w1, self, deps, false, AsWritten);
  }

  lemma {:induction false} NoDupCountOne<T>(s: seq<T>, x: T)
    requires NoDup(s) && x in s
    ensures multiset(s)[x] == 1
    decreases |s|
  {
    assert s == [s[0]] + s[1..];
    if s[0] == x {
      assert x !in s[1..];
    } else {
      NoDupCountOne(s[1..], x);
    }
  }

  /** In a well-formed world an edge is recorded exactly once on each end. */
  lemma EdgeRecordedOnce(w: World, a: NodeId, b: NodeId, isUpstream: bool)
    requires WellFormed(w) && a in w.nodes && b in w.nodes && EdgeTo(w, a, b, isUpstream)
    ensures !isUpstream ==> multiset(w.nodes[a].down)[b] == 1 && multiset(w.nodes[b].up)[a] == 1
    ensures isUpstream ==> multiset(w.nodes[a].up)[b] == 1 && multiset(w.nodes[b].down)[a] == 1
  {
    if isUpstream {
      NoDupCountOne(w.nodes[a].up, b);
      NoDupCountOne(w.nodes[b].down, a);
    } else {
      NoDupCountOne(w.nodes[a].down, b);
      NoDupCountOne(w.nodes[b].up, a);
    }
  }

  /** After `self >> nodes` (or `self << nodes`), each new edge is recorded
      exactly once on each of its two ends. */
  lemma WireOnce(w: World, self: NodeId, deps: Deps, isUpstream: bool)
    requires WellFormed(w) && self in w.nodes && ArgsKnown(w, Normalize(deps))
    requires Wire(w, self, deps, isUpstream).error.None?
    ensures var w1 := Wire(w, self, deps, isUpstream).world;
      && AllNodes(Normalize(deps)) && self in w1.nodes
      && forall n :: n in Ids(Normalize(deps)) ==>
           && n in w1.nodes
           && (!isUpstream ==> multiset(w1.nodes[self].down)[n] == 1 && multiset(w1.nodes[n].up)[self] == 1)
           && (isUpstream ==> multiset(w1.nodes[self].up)[n] == 1 && multiset(w1.nodes[n].down)[self] == 1)
  {
    var w1 := Wire(w, self, deps, isUpstream).world;
    var ids := Ids(Normalize(deps));
    JoinedEdges(w1, self, ids, isUpstream);
    forall n | n in ids
      ensures (!isUpstream ==> multiset(w1.nodes[self].down)[n] == 1 && multiset(w1.nodes[n].up)[self] == 1)
      ensures (isUpstream ==> multiset(w1.nodes[self].up)[n] == 1 && multiset(w1.nodes[n].down)[self] == 1)
    {
      EdgeRecordedOnce(w1, self, n, isUpstream);
    }
  }

  // ---------------------------------------------------------------------------
  // Repeating `self << m` as written.

  /** The first `self << m` between two nodes not yet linked records `m` as
      upstream of `self` only. */
  lemma UpstreamFirstCall(w: World, self: NodeId, m: NodeId)
    requires DagRefsValid(w) && self in w.nodes && m in w.nodes && self != m
    requires m !in w.nodes[self].up && m !in w.nodes[self].down
    requires Connect(w, self, One(NodeArg(m)), true, AsWritten).error.None?
    ensures var w1 := Connect(w, self, One(NodeArg(m)), true, AsWritten).world;
      m in w1.nodes[self].up && m !in w1.nodes[self].down
  {
    ConnectOneIsLoop(w, self, m);
    var d, w2 :| LoopOf(w, self, m, d, w2);
    UpstreamFirstIteration(w2, d, self, m);
  }

  /** `w2` is `w` with `self` bound to and registered in `d` and no edge
      recorded, and the upstream call on `m` is the loop over `[m]` from `w2`. */
  ghost predicate LoopOf(w: World, self: NodeId, m: NodeId, d: DagId, w2: World)
    requires DagRefsValid(w) && self in w.nodes && m in w.nodes
  {
    && d in w2.dags && self in w2.nodes && m in w2.nodes
    && w2.nodes[self].up == w.nodes[self].up && w2.nodes[self].down == w.nodes[self].down
    && Connect(w, self, One(NodeArg(m)), true, AsWritten) == WireEach(w2, d, self, [m], true, AsWritten)
  }

  lemma ConnectOneIsLoop(w: World, self: NodeId, m: NodeId)
    requires DagRefsValid(w) && self in w.nodes && m in w.nodes
    requires Connect(w, self, One(NodeArg(m)), true, AsWritten).error.None?
    ensures exists d, w2 :: LoopOf(w, self, m, d, w2)
  {
    var deps := One(NodeArg(m));
    var ds := Normalize(deps);
    assert Ids(ds) == [m];
    ConnectUnfold(w, self, deps, true, AsWritten);
    var d := Validate(w, self, ds).value;
    var w2 := Register(SetNodeDag(w, self, d), d, self).value;
    assert LoopOf(w, self, m, d, w2);
  }

  /** A wiring call past validation and the registration of `self` is the loop
      over the arguments, and binding and registering `self` records no edge. */
  lemma ConnectUnfold(w: World, self: NodeId, deps: Deps, isUpstream: bool, sem: Semantics)
    requires DagRefsValid(w) && self in w.nodes && ArgsKnown(w, Normalize(deps))
    requires Connect(w, self, deps, isUpstream, sem).error.None?
    ensures Validate(w, self, Normalize(deps)).Success?
    ensures var d := Validate(w, self, Normalize(deps)).value;
      && Register(SetNodeDag(w, self, d), d, self).Success?
      && var w2 := Register(SetNodeDag(w, self, d), d, self).value;
      && self in w2.nodes && w2.nodes[self].up == w.nodes[self].up && w2.nodes[self].down == w.nodes[self].down
      && d in w2.dags && (forall n :: n in Ids(Normalize(deps)) ==> n in w2.nodes)
      && Connect(w, self, deps, isUpstream, sem) == WireEach(w2, d, self, Ids(Normalize(deps)), isUpstream, sem)
  {
    IdsKnown(w, Normalize(deps));
  }

  /** The loop for a single node that is neither upstream nor downstream of
      `self`, as written for `set_upstream`: it is made upstream only. */
  lemma UpstreamFirstIteration(w: World, d: DagId, self: NodeId, m: NodeId)
    requires d in w.dags && self in w.nodes && m in w.nodes && self != m
    requires m !in w.nodes[self].up && m !in w.nodes[self].down
    requires WireEach(w, d, self, [m], true, AsWritten).error.None?
    ensures var r := WireEach(w, d, self, [m], true, AsWritten).world;
      m in r.nodes[self].up && m !in r.nodes[self].down
  {
    var s := Attach(w, d, self, m, true, AsWritten);
    assert WireEach(s.world, d, self, [m][1..], true, AsWritten) == Step(s.world, None);
    var w4 := Register(SetNodeDag(w, m, d), d, m).value;
    assert s.world == AddEdge(w4, m, self);
  }

  /** Wiring one member of `self`'s DAG to `self`, when the loop does not skip
      it, succeeds and records exactly the chosen edge: nothing needs binding or
      registering. */
  lemma ConnectBetweenMembers(w: World, self: NodeId, m: NodeId, isUpstream: bool, sem: Semantics)
    requires DagRefsValid(w) && self in w.nodes && m in w.nodes
    requires w.nodes[self].dag.Some? && w.nodes[m].dag == w.nodes[self].dag
    requires self in w.dags[w.nodes[self].dag.value].nodeMap && m in w.dags[w.nodes[self].dag.value].nodeMap
    requires ChooseLink(w.nodes[self].up, w.nodes[self].down, m, isUpstream, sem) != Skip
    ensures var link := ChooseLink(w.nodes[self].up, w.nodes[self].down, m, isUpstream, sem);
      Connect(w, self, One(NodeArg(m)), isUpstream, sem) ==
        Step(if link == LinkUp then AddEdge(w, m, self) else AddEdge(w, self, m), None)
  {
    var d := w.nodes[self].dag.value;
    MembersValidate(w, self, m);
    var link := ChooseLink(w.nodes[self].up, w.nodes[self].down, m, isUpstream, sem);
    var r := if link == LinkUp then AddEdge(w, m, self) else AddEdge(w, self, m);
    assert Attach(w, d, self, m, isUpstream, sem) == Step(r, None);
    assert WireEach(r, d, self, [m][1..], isUpstream, sem) == Step(r, None);
  }

  /** Two nodes of one DAG pass validation, which picks that DAG. */
  lemma MembersValidate(w: World, self: NodeId, m: NodeId)
    requires DagRefsValid(w) && self in w.nodes && m in w.nodes
    requires w.nodes[self].dag.Some? && w.nodes[m].dag == w.nodes[self].dag
    ensures var ds := Normalize(One(NodeArg(m)));
      && AllNodes(ds) && Ids(ds) == [m]
      && Validate(w, self, ds) == Success(w.nodes[self].dag.value)
  {
    var ds := Normalize(One(NodeArg(m)));
    assert AllNodes(ds) && Ids(ds) == [m];
    var d := w.nodes[self].dag.value;
    var ns := Party(self, Ids(ds));
    assert !Unbound(w, ns) by {
      assert self in ns;
    }
    assert !Conflicting(w, ns) by {
      forall a | a in ns
        ensures w.nodes[a].dag == Some(d)
      {
        assert a == self || a == m;
      }
    }
    assert self in ns;
  }

  /** `m` is both upstream and downstream of `self`, on both ends. */
  ghost predicate BothWays(w: World, self: NodeId, m: NodeId) {
    && self in w.nodes && m in w.nodes
    && m in w.nodes[self].up && m in w.nodes[self].down
    && self in w.nodes[m].up && self in w.nodes[m].down
  }

  /** As written, `self << m` twice leaves `m` both upstream and downstream of
      `self`: the edges `m -> self` and `self -> m` form a two-node cycle. The
      corrected wiring is idempotent instead (`WireIdempotent`). `SetDependency`
      is `Connect` with the as-written loop. */
  lemma RepeatedUpstreamAddsReverseEdge(w: World, self: NodeId, m: NodeId)
    requires WellFormed(w) && self in w.nodes && m in w.nodes && self != m
    requires m !in w.nodes[self].up && m !in w.nodes[self].down
    requires Connect(w, self, One(NodeArg(m)), true, AsWritten).error.None?
    ensures var w1 := Connect(w, self, One(NodeArg(m)), true, AsWritten).world;
      && DagRefsValid(w1)
      && var w2 := Connect(w1, self, One(NodeArg(m)), true, AsWritten);
      && w2.error.None? && BothWays(w2.world, self, m)
  {
    FirstUpstreamFacts(w, self, m);
    SecondUpstreamCall(Connect(w, self, One(NodeArg(m)), true, AsWritten).world, self, m);
  }

  lemma FirstUpstreamFacts(w: World, self: NodeId, m: NodeId)
    requires WellFormed(w) && self in w.nodes && m in w.nodes && self != m
    requires m !in w.nodes[self].up && m !in w.nodes[self].down
    requires Connect(w, self, One(NodeArg(m)), true, AsWritten).error.None?
    ensures var w1 := Connect(w, self, One(NodeArg(m)), true, AsWritten).world;
      && WellFormed(w1) && self in w1.nodes && m in w1.nodes
      && m in w1.nodes[self].up && m !in w1.nodes[self].down
  {
    ConnectWellFormed(w, self, One(NodeArg(m)), true, AsWritten);
    UpstreamFirstCall(w, self, m);
  }

  /** As written, `self << m` with `m` upstream of `self` only takes the `elif`
      and makes `m` downstream as well. */
  lemma SecondUpstreamCall(w: World, self: NodeId, m: NodeId)
    requires WellFormed(w) && self in w.nodes && m in w.nodes && self != m
    requires m in w.nodes[self].up && m !in w.nodes[self].down
    ensures var r := Connect(w, self, One(NodeArg(m)), true, AsWritten);
      r.error.None? && BothWays(r.world, self, m)
  {
    assert self in w.nodes[m].down;
    assert ChooseLink(w.nodes[self].up, w.nodes[self].down, m, true, AsWritten) == LinkDown;
    ConnectBetweenMembers(w, self, m, true, AsWritten);
    var r := AddEdge(w, self, m);
    PrefixMember(w.nodes[m].down, r.nodes[m].down, self);
  }
}
