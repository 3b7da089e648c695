/** `DAGContext`: the state shared by the tasks of one DAG run — the share-data
    store, the task outputs by node id and the node ids by task name — and the
    key `_build_task_key` makes for task-scoped share data. */
module DagContext {
  import opened Wrappers
  import opened Strings

  /** The `ValueError`s of the context, and the `AttributeError` of reading
      `.task_output` off a missing task context. */
  datatype CtxError = TaskNameNone | KeyNone | TaskNotFound(name: string) | KeyExists(key: string) | NoOutput

  /** A `DAGContext` over share-data values `V` and task outputs `O`. */
  datatype Context<V, O> = Context(
    streamingCall: bool,
    shareData: map<string, V>,
    outputs: map<string, O>,
    nameToIds: map<string, string>)

  /** `DAGContext.__init__`: absent maps become empty ones; the share data starts
      empty. */
  function NewContext<V, O>(streamingCall: bool, outputs: Option<map<string, O>>,
                            nameToIds: Option<map<string, string>>): (r: Context<V, O>)
    ensures r.streamingCall == streamingCall && r.shareData == map[]
    ensures r.outputs == outputs.GetOr(map[]) && r.nameToIds == nameToIds.GetOr(map[])
  {
    Context(streamingCall, map[], outputs.GetOr(map[]), nameToIds.GetOr(map[]))
  }

  // ---------------------------------------------------------------------------
  // Share data.

  /** `get_from_share_data`: the stored value, `None` when the key is absent. */
  function GetFromShareData<V, O>(c: Context<V, O>, key: string): (r: Option<V>)
    ensures r.Some? <==> key in c.shareData
    ensures r.Some? ==> r.value == c.shareData[key]
  {
    if key in c.shareData then Some(c.shareData[key]) else None
  }

  /** `save_to_share_data`: refuses to replace a stored key unless `overwrite` is
      truthy; otherwise stores `data` under `key` and leaves the rest alone. */
  function SaveToShareData<V, O>(c: Context<V, O>, key: string, data: V, overwrite: Option<string>): (r: Result<Context<V, O>, CtxError>)
    ensures r.Failure? <==> key in c.shareData && !Truthy(overwrite)
    ensures r.Failure? ==> r.error == KeyExists(key)
    ensures r.Success? ==> GetFromShareData(r.value, key) == Some(data)
    ensures r.Success? ==> forall k :: k != key ==> GetFromShareData(r.value, k) == GetFromShareData(c, k)
    ensures r.Success? ==> r.value.outputs == c.outputs && r.value.nameToIds == c.nameToIds
  {
    if key in c.shareData && !Truthy(overwrite) then Failure(KeyExists(key))
    else Success(c.(shareData := c.shareData[key := data]))
  }

  /** Without `overwrite`, the first value saved under a key is the one that
      stays: a second save fails and the store keeps the first value. */
  lemma FirstSaveWins<V, O>(c: Context<V, O>, key: string, a: V, b: V)
    requires SaveToShareData(c, key, a, None).Success?
    ensures var c1 := SaveToShareData(c, key, a, None).value;
      && SaveToShareData(c1, key, b, None) == Failure(KeyExists(key))
      && GetFromShareData(c1, key) == Some(a)
  {
  }

  // ---------------------------------------------------------------------------
  // Task-scoped keys.

  /** The separator `_build_task_key` puts between the task name and the key. */
  const TaskKeySep: string := "___$$$$$$___"

  /** `_build_task_key`. */
  function BuildTaskKey(taskName: string, key: string): (r: string)
    ensures |r| == |taskName| + |TaskKeySep| + |key|
    ensures r[..|taskName|] == taskName && r[|taskName| + |TaskKeySep|..] == key
    ensures OccursAt(r, TaskKeySep, |taskName|)
  {
    var r := taskName + TaskKeySep + key;
    assert r[|taskName|..|taskName| + |TaskKeySep|] == TaskKeySep;
    r
  }

  /** For one key, different task names give different task keys. */
  lemma TaskKeySameKey(t1: string, t2: string, key: string)
    requires t1 != t2
    ensures BuildTaskKey(t1, key) != BuildTaskKey(t2, key)
  {
    if |t1| == |t2| {
      assert BuildTaskKey(t1, key)[..|t1|] == t1;
      assert BuildTaskKey(t2, key)[..|t2|] == t2;
    }
  }

  /** For one task name, different keys give different task keys. */
  lemma TaskKeySameTask(taskName: string, k1: string, k2: string)
    requires k1 != k2
    ensures BuildTaskKey(taskName, k1) != BuildTaskKey(taskName, k2)
  {
    if |k1| == |k2| {
      assert BuildTaskKey(taskName, k1)[|taskName| + |TaskKeySep|..] == k1;
      assert BuildTaskKey(taskName, k2)[|taskName| + |TaskKeySep|..] == k2;
    }
  }

  /** In a task key whose task name has no `$`, the first `$` is the fourth
      character of the separator. */
  lemma FirstDollar(taskName: string, key: string)
    requires '$' !in taskName
    ensures IndexOf(BuildTaskKey(taskName, key), '$') == |taskName| + 3
  {
    var s := BuildTaskKey(taskName, key);
    assert s == taskName + TaskKeySep + key;
    assert s[|taskName| + 3] == '$';
    assert forall j :: 0 <= j < |taskName| + 3 ==> s[j] != '$' by {
      forall j | 0 <= j < |taskName| + 3
        ensures s[j] != '$'
      {
        if j < |taskName| {
          assert s[j] == taskName[j];
        } else {
          assert s[j] == TaskKeySep[j - |taskName|];
        }
      }
    }
  }

  /** Task keys identify their task and key as long as task names have no `$`. */
  lemma TaskKeyInjective(t1: string, k1: string, t2: string, k2: string)
    requires '$' !in t1 && '$' !in t2
    requires BuildTaskKey(t1, k1) == BuildTaskKey(t2, k2)
    ensures t1 == t2 && k1 == k2
  {
    FirstDollar(t1, k1);
    FirstDollar(t2, k2);
  }

  /** Without that restriction keys collide, even between task names that do not
      contain the separator: the separator overlaps itself. */
  lemma TaskKeyCollision()
    ensures var t1, k1, t2, k2 := "a", "$$$$$$___b", "a___$$$$$$", "b";
      && !Contains(t1, TaskKeySep) && !Contains(t2, TaskKeySep)
      && (t1, k1) != (t2, k2)
      && BuildTaskKey(t1, k1) == BuildTaskKey(t2, k2)
  {
    CollidingKeys();
    ShortNamesLackSep("a");
    ShortNamesLackSep("a___$$$$$$");
  }

  lemma CollidingKeys()
    ensures BuildTaskKey("a", "$$$$$$___b") == BuildTaskKey("a___$$$$$$", "b")
  {
    var x, y := "$$$$$$___", "___$$$$$$";
    assert TaskKeySep + x == y + TaskKeySep by {
      assert TaskKeySep == y + "___";
      assert "___" + x == TaskKeySep;
    }
    assert "$$$$$$___b" == x + "b";
    assert "a___$$$$$$" == "a" + y;
    assert BuildTaskKey("a", x + "b") == "a" + (TaskKeySep + x) + "b";
    assert BuildTaskKey("a" + y, "b") == "a" + (y + TaskKeySep) + "b";
  }

  lemma ShortNamesLackSep(s: string)
    requires |s| < |TaskKeySep|
    ensures !Contains(s, TaskKeySep)
  {
  }

  /** `get_task_share_data`: the value saved for `key` of `taskName`. The source
      returns the coroutine of `get_from_share_data` without awaiting it; this
      model returns the value that coroutine yields. */
  function GetTaskShareData<V, O>(c: Context<V, O>, taskName: Option<string>, key: Option<string>): (r: Result<Option<V>, CtxError>)
    ensures taskName.None? <==> r == Failure(TaskNameNone)
    ensures r == Failure(KeyNone) <==> taskName.Some? && key.None?
    ensures r.Success? <==> taskName.Some? && key.Some?
    ensures r.Success? ==> r.value == GetFromShareData(c, BuildTaskKey(taskName.value, key.value))
  {
    if taskName.None? then Failure(TaskNameNone)
    else if key.None? then Failure(KeyNone)
    else Success(GetFromShareData(c, BuildTaskKey(taskName.value, key.value)))
  }

  /** `save_task_share_data`. */
  function SaveTaskShareData<V, O>(c: Context<V, O>, taskName: Option<string>, key: Option<string>,
                                   data: V, overwrite: Option<string>): (r: Result<Context<V, O>, CtxError>)
    ensures taskName.None? <==> r == Failure(TaskNameNone)
    ensures r == Failure(KeyNone) <==> taskName.Some? && key.None?
    ensures taskName.Some? && key.Some? ==>
      r == SaveToShareData(c, BuildTaskKey(taskName.value, key.value), data, overwrite)
  {
    if taskName.None? then Failure(TaskNameNone)
    else if key.None? then Failure(KeyNone)
    else SaveToShareData(c, BuildTaskKey(taskName.value, key.value), data, overwrite)
  }

  /** What one task saves it reads back, and no other task sees it (task names
      without `$`). */
  lemma TaskShareRoundTrip<V, O>(c: Context<V, O>, t: string, k: string, data: V, overwrite: Option<string>,
                                 t2: string, k2: string)
    requires SaveTaskShareData(c, Some(t), Some(k), data, overwrite).Success?
    requires '$' !in t && '$' !in t2 && (t2, k2) != (t, k)
    ensures var c1 := SaveTaskShareData(c, Some(t), Some(k), data, overwrite).value;
      && GetTaskShareData(c1, Some(t), Some(k)) == Success(Some(data))
      && GetTaskShareData(c1, Some(t2), Some(k2)) == GetTaskShareData(c, Some(t2), Some(k2))
  {
    if BuildTaskKey(t2, k2) == BuildTaskKey(t, k) {
      TaskKeyInjective(t2, k2, t, k);
    }
  }

  // ---------------------------------------------------------------------------
  // Task outputs.

  /** `get_task_output` as written: the check on the looked-up id is inverted, so
      a task name that maps to a node id is reported missing, and a name that
      maps to nothing reaches `.task_output` of a missing entry. */
  function GetTaskOutputAsWritten<V, O>(c: Context<V, O>, taskName: Option<string>): (r: Result<O, CtxError>)
    ensures taskName.None? <==> r == Failure(TaskNameNone)
    ensures taskName.Some? ==>
      (r == Failure(TaskNotFound(taskName.value)) <==>
        taskName.value in c.nameToIds && c.nameToIds[taskName.value] != "")
    ensures r.Success? <==>
      taskName.Some? && taskName.value in c.nameToIds && c.nameToIds[taskName.value] == "" && "" in c.outputs
    ensures r.Success? ==> r.value == c.outputs[""]
  {
    if taskName.None? then Failure(TaskNameNone)
    else
      var nodeId := if taskName.value in c.nameToIds then Some(c.nameToIds[taskName.value]) else None;
      if Truthy(nodeId) then Failure(TaskNotFound(taskName.value))
      else
        var id := if nodeId.Some? then nodeId.value else "";
        if nodeId.Some? && id in c.outputs then Success(c.outputs[id]) else Failure(NoOutput)
  }

  /** As written, no task registered under a non-empty node id can have its
      output read. */
  lemma AsWrittenNeverFinds<V, O>(c: Context<V, O>, name: string)
    requires name in c.nameToIds && c.nameToIds[name] != ""
    ensures GetTaskOutputAsWritten(c, Some(name)) == Failure(TaskNotFound(name))
  {
  }

  /** The concrete case: one task `t` with node id `n1` and an output. */
  lemma AsWrittenMissesOutput(o: int)
    ensures var c: Context<int, int> := Context(false, map[], map["n1" := o], map["t" := "n1"]);
      && GetTaskOutputAsWritten(c, Some("t")) == Failure(TaskNotFound("t"))
      && GetTaskOutput(c, Some("t")) == Success(o)
  {
  }

  /** `get_task_output` with the evidently intended check: an unknown task name
      (or one without a node id) is reported, and a known one yields the output
      of its node. */
  function GetTaskOutput<V, O>(c: Context<V, O>, taskName: Option<string>): (r: Result<O, CtxError>)
    ensures taskName.None? <==> r == Failure(TaskNameNone)
    ensures taskName.Some? ==>
      (r == Failure(TaskNotFound(taskName.value)) <==>
        taskName.value !in c.nameToIds || c.nameToIds[taskName.value] == "")
    ensures r.Success? <==>
      taskName.Some? && taskName.value in c.nameToIds && c.nameToIds[taskName.value] != ""
      && c.nameToIds[taskName.value] in c.outputs
    ensures r.Success? ==> r.value == c.outputs[c.nameToIds[taskName.value]]
  {
    if taskName.None? then Failure(TaskNameNone)
    else if taskName.value !in c.nameToIds || c.nameToIds[taskName.value] == "" then
      Failure(TaskNotFound(taskName.value))
    else
      var id := c.nameToIds[taskName.value];
      if id in c.outputs then Success(c.outputs[id]) else Failure(NoOutput)
  }
}
