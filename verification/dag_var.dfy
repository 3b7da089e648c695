/** `DAGVar`: the "which DAG is being built" stack of one construction context,
    plus the process-wide system-app and executor handles.

    The source keeps one stack per thread and one per asynchronous task and picks
    between them at every call; here a `DagVar` value is the state of ONE such
    context, so the selection is not modelled. */
module DagVar {
  import opened Wrappers

  datatype DagVar<D, A, E> = DagVar(stack: seq<D>, systemApp: Option<A>, executor: Option<E>)

  /** The state of a fresh context: empty stack, no handles set. */
  function Initial<D, A, E>(): DagVar<D, A, E> {
    DagVar([], None, None)
  }

  /** `get_current_dag`: the top of the stack, `None` on an empty stack. */
  function GetCurrentDag<D, A, E>(v: DagVar<D, A, E>): (r: Option<D>)
    ensures v.stack == [] <==> r.None?
    ensures r.Some? ==> r.value == v.stack[|v.stack| - 1]
  {
    if |v.stack| == 0 then None else Some(v.stack[|v.stack| - 1])
  }

  /** `enter_dag`: afterwards `d` is the current DAG, and one `exit_dag` undoes it. */
  function EnterDag<D, A, E>(v: DagVar<D, A, E>, d: D): (r: DagVar<D, A, E>)
    ensures GetCurrentDag(r) == Some(d)
    ensures ExitDag(r) == v
    ensures |r.stack| == |v.stack| + 1
  {
    var r := v.(stack := v.stack + [d]);
    assert r.stack[..|r.stack| - 1] == v.stack;
    r
  }

  /** `exit_dag`: drops the top of the stack; an empty stack is left alone. */
  function ExitDag<D, A, E>(v: DagVar<D, A, E>): (r: DagVar<D, A, E>)
    ensures v.stack == [] ==> r == v
    ensures v.stack != [] ==> r.stack + [v.stack[|v.stack| - 1]] == v.stack
    ensures r.systemApp == v.systemApp && r.executor == v.executor
  {
    if |v.stack| == 0 then v else v.(stack := v.stack[..|v.stack| - 1])
  }

  /** One step of scope manipulation: a `DAG.__enter__` or a `DAG.__exit__`. */
  datatype ScopeOp<D> = Enter(dag: D) | Exit

  function Run<D, A, E>(v: DagVar<D, A, E>, ops: seq<ScopeOp<D>>): DagVar<D, A, E>
    decreases |ops|
  {
    if ops == [] then v
    else
      var v' := match ops[0] case Enter(d) => EnterDag(v, d) case Exit => ExitDag(v);
      Run(v', ops[1..])
  }

  lemma {:induction false} RunAppend<D, A, E>(v: DagVar<D, A, E>, a: seq<ScopeOp<D>>, b: seq<ScopeOp<D>>)
    ensures Run(v, a + b) == Run(Run(v, a), b)
    decreases |a|
  {
    if a != [] {
      assert (a + b)[0] == a[0];
      assert (a + b)[1..] == a[1..] + b;
      var v' := match a[0] case Enter(d) => EnterDag(v, d) case Exit => ExitDag(v);
      assert Run(v, a) == Run(v', a[1..]);
      assert Run(v, a + b) == Run(v', a[1..] + b);
      RunAppend(v', a[1..], b);
    } else {
      assert a + b == b;
    }
  }

  /** A `with dag:` block: entering `dag`, running the nested blocks, exiting.
      Python's `with` runs `__exit__` on every exit path, so a block always
      contributes a matched enter/exit pair. */
  datatype WithBlock<D> = With(dag: D, body: seq<WithBlock<D>>)

  function Ops<D>(b: WithBlock<D>): seq<ScopeOp<D>>
    decreases b
  {
    [Enter(b.dag)] + BodyOps(b.body) + [Exit]
  }

  function BodyOps<D>(bs: seq<WithBlock<D>>): seq<ScopeOp<D>>
    decreases bs
  {
    if bs == [] then [] else Ops(bs[0]) + BodyOps(bs[1..])
  }

  /** Running any nest of `with` blocks restores the enclosing stack, and inside
      a block, once its nested blocks have run, its own DAG is current again. */
  lemma {:induction false} WithBlockRestores<D, A, E>(v: DagVar<D, A, E>, b: WithBlock<D>)
    ensures Run(v, Ops(b)) == v
    ensures GetCurrentDag(Run(v, [Enter(b.dag)] + BodyOps(b.body))) == Some(b.dag)
    decreases b
  {
    var inner := EnterDag(v, b.dag);
    assert Run(v, [Enter(b.dag)]) == inner;
    BodyRestores(inner, b.body);
    RunAppend(v, [Enter(b.dag)], BodyOps(b.body));
    RunAppend(v, [Enter(b.dag)] + BodyOps(b.body), [Exit]);
    assert Run(inner, [Exit]) == ExitDag(inner);
  }

  lemma {:induction false} BodyRestores<D, A, E>(v: DagVar<D, A, E>, bs: seq<WithBlock<D>>)
    ensures Run(v, BodyOps(bs)) == v
    decreases bs
  {
    if bs != [] {
      WithBlockRestores(v, bs[0]);
      BodyRestores(v, bs[1..]);
      RunAppend(v, Ops(bs[0]), BodyOps(bs[1..]));
    }
  }

  /** `get_current_system_app`. */
  function GetCurrentSystemApp<D, A, E>(v: DagVar<D, A, E>): Option<A> {
    v.systemApp
  }

  /** `set_current_system_app`: only the first call takes effect. */
  function SetCurrentSystemApp<D, A, E>(v: DagVar<D, A, E>, app: A): (r: DagVar<D, A, E>)
    ensures r.stack == v.stack && r.executor == v.executor
    ensures v.systemApp.None? ==> GetCurrentSystemApp(r) == Some(app)
    ensures v.systemApp.Some? ==> r == v
  {
    if v.systemApp.Some? then v else v.(systemApp := Some(app))
  }

  function SetAll<D, A, E>(v: DagVar<D, A, E>, apps: seq<A>): DagVar<D, A, E>
    decreases |apps|
  {
    if apps == [] then v else SetAll(SetCurrentSystemApp(v, apps[0]), apps[1..])
  }

  /** However many times the system app is set, the first value stays. */
  lemma {:induction false} FirstSystemAppWins<D, A, E>(v: DagVar<D, A, E>, apps: seq<A>)
    requires v.systemApp.None? && apps != []
    ensures GetCurrentSystemApp(SetAll(v, apps)) == Some(apps[0])
  {
    var v1 := SetCurrentSystemApp(v, apps[0]);
    SetAllKeepsSet(v1, apps[1..]);
  }

  lemma {:induction false} SetAllKeepsSet<D, A, E>(v: DagVar<D, A, E>, apps: seq<A>)
    requires v.systemApp.Some?
    ensures SetAll(v, apps) == v
    decreases |apps|
  {
    if apps != [] {
      SetAllKeepsSet(SetCurrentSystemApp(v, apps[0]), apps[1..]);
    }
  }

  /** `get_executor`. */
  function GetExecutor<D, A, E>(v: DagVar<D, A, E>): Option<E> {
    v.executor
  }

  /** `set_executor`: unlike the system app, every call replaces the executor. */
  function SetExecutor<D, A, E>(v: DagVar<D, A, E>, e: E): (r: DagVar<D, A, E>)
    ensures GetExecutor(r) == Some(e)
    ensures r.stack == v.stack && r.systemApp == v.systemApp
  {
    v.(executor := Some(e))
  }
}
