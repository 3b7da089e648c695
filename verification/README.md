# AWEL DAG construction and prompt-template records, in Dafny

This project models two parts of DB-GPT and proves properties of the models.

**AWEL graph construction** (`dbgpt/core/awel/dag/base.py`):
- how operators are wired into a `DAG` with `>>`, `<<` and `set_dependency`;
- how a `DAG` registers its nodes by id and by name;
- how it classifies them into roots, leaves and triggers, with the three cached lists;
- the `DAGVar` scope stack that `with DAG(...)` pushes and pops;
- the per-run `DAGContext` share data and task-scoped keys.

**Prompt-template records** (`dbgpt/core/interface/prompt.py`):
- the `PromptTemplateIdentifier` key;
- the `StoragePromptTemplate` record, with its checks and its conversions to and from `PromptTemplate`;
- the language-then-model preference filter of `PromptManager.prefer_query`.

Everything is an immutable value and every operation is a pure function:

- **The object graph** is one `DagBase.World`: a map from node id to `NodeRec` and a map from DAG id to `DagRec`.
  - A `NodeRec` holds the owning DAG, the name, the upstream and downstream lists and the trigger flag.
  - A `DagRec` holds `node_map` as an insertion-ordered sequence, `node_name_to_node`, and the three caches.
  - A node *is* its id, as `DAGNode.__eq__` and `__hash__` make it in the source. A DAG is its id.
- **`DagBase.WellFormed`** is the invariant every operation keeps, and `DagBase.EmptyWorld` has it:
  - edges are recorded on both ends, once each;
  - both ends of an edge belong to one DAG and are registered there;
  - each DAG's registries agree with its nodes.
- **A wiring call that fails part-way** still changes the world. A name conflict can stop the loop after earlier arguments were wired. So wiring returns a `Wiring.Step`: the world together with an optional error.
- **Two readings of the loop in `set_dependency`:**
  - `Wiring.SetDependency` is the loop as written: an `if`/`elif` that falls through to the downstream branch.
  - `Wiring.Wire` is the evidently intended loop: it keeps the two directions apart and drops the DAG's caches.
  - The shared body is `Wiring.Connect`, parameterised by `Semantics`.
  - The operators `>>` and `<<` and their reflected forms are built on `Wiring.SetDependency`, as in the source.
- **Python truthiness** (`if x:` on an optional string) is `Strings.Truthy`.
- **`str.strip`, `str.split(",")` and `sep.join`** are modelled exactly.
- **`str.lower`** is ASCII only.

Two behaviours of the code worth knowing:
- `DAGVar.set_executor` replaces the executor on every call (`DagVar.SetExecutor`), unlike `set_current_system_app`, which keeps the first value.
- `_build_task_key` accepts the separator inside either part, so two different pairs can share a task key (`DagContext.TaskKeyCollision`).

## Model

| member | source | states |
|---|---|---|
| DagVar.GetCurrentDag | dbgpt/core/awel/dag/base.py:135-147 | `None` exactly on an empty stack, otherwise the most recently entered DAG |
| DagVar.EnterDag | dbgpt/core/awel/dag/base.py:108-118 | after entering `d`, `d` is the current DAG and one exit restores the previous state exactly |
| DagVar.ExitDag | dbgpt/core/awel/dag/base.py:120-133 | an empty stack is left alone; otherwise exactly the top entry is removed (LIFO); the handles are untouched |
| DagVar.WithBlockRestores | dbgpt/core/awel/dag/base.py:498-503 | any nest of `with dag:` blocks leaves the stack as it found it, and after its nested blocks a block's own DAG is current again |
| DagVar.BodyRestores | dbgpt/core/awel/dag/base.py:498-503 | a sequence of sibling `with` blocks leaves the stack as it found it |
| DagVar.SetCurrentSystemApp | dbgpt/core/awel/dag/base.py:155-160 | the first call sets the system app; once set, a call changes nothing |
| DagVar.FirstSystemAppWins | dbgpt/core/awel/dag/base.py:155-160 | after any number of calls from an unset state, the system app is the first value given |
| DagVar.SetAllKeepsSet | dbgpt/core/awel/dag/base.py:155-160 | once the system app is set, no sequence of further calls changes anything |
| DagVar.SetExecutor | dbgpt/core/awel/dag/base.py:162-168 | the executor reads back as the last value set; the stack and system app are untouched |
| DagBase.NewDag | dbgpt/core/awel/dag/base.py:414-423 | a new DAG has empty `node_map` and `node_name_to_node` and no cached classification; other DAGs and all nodes are unchanged and the world stays well formed |
| DagBase.AppendNode | dbgpt/core/awel/dag/base.py:425-437 | a registered id changes nothing; an unregistered node whose non-empty name is taken fails with `NameConflict` and nothing changes; otherwise `node_map` becomes the old list followed by exactly the new id, the name (when it has one) is bound to it, and the root and leaf caches are dropped while the trigger cache is kept |
| DagBase.AppendNodeIdempotent | dbgpt/core/awel/dag/base.py:425-427 | registering a node a second time returns the same DAG record |
| DagBase.NameConflictIsPerDag | dbgpt/core/awel/dag/base.py:428-433 | name uniqueness is per DAG: the same node and name conflict in a DAG that has the name and register in one that does not |
| DagBase.Register | dbgpt/core/awel/dag/base.py:425-437 | on the world: only DAG `d` changes, its `node_map` becomes the old list followed by the node exactly when the node was not registered (and stays the same when it was), a registered node leaves the world unchanged, and it fails, with a name conflict, exactly when the node is unregistered and its non-empty name is taken in `d` |
| DagBase.RegisterPreservesWellFormed | dbgpt/core/awel/dag/base.py:425-437 | registering a node bound to `d` keeps the world well formed: no repeated ids, and the name map and node map agree both ways |
| DagBase.SetNodeDag | dbgpt/core/awel/dag/base.py:284 | binding a node to `d` changes only that node's DAG, and is the identity when it is already bound to `d` |
| DagBase.SetNodeDagPreservesWellFormed | dbgpt/core/awel/dag/base.py:284-289 | binding a node that is unbound or already in `d` keeps the world well formed |
| DagBase.AddEdge | dbgpt/core/awel/dag/base.py:292-293 | recording `src -> dst` appends `src` to `dst`'s upstream and `dst` to `src`'s downstream and changes no other list or label |
| DagBase.AddEdgePreservesWellFormed | dbgpt/core/awel/dag/base.py:288-299 | a new edge between two registered members of one DAG keeps both directions recorded, once each |
| DagBase.ClearCaches | dbgpt/core/awel/dag/base.py:435-437 | the corrected clearing: drops all three caches of one DAG, where the source drops only the root and leaf caches, and nothing else, keeping the world well formed |
| DagBase.ResolveNodeDag | dbgpt/core/awel/dag/base.py:199 | a new node's DAG is the explicit one when given, else the current DAG of the scope stack |
| DagBase.ResolveNodeId | dbgpt/core/awel/dag/base.py:204-206 | a non-empty given id is kept; a missing or empty id of a node in a DAG is replaced by a fresh one |
| DagBase.ResolveHandles | dbgpt/core/awel/dag/base.py:200-203 | each explicit handle is kept; a missing one falls back to the process-wide system app or executor |
| DagBase.InsertNode | dbgpt/core/awel/dag/base.py:187-207 | a fresh node without edges is added under its id, registered in no DAG; every other node and DAG is unchanged and the world stays well formed |
| DagBase.NewNode | dbgpt/core/awel/dag/base.py:187-207 | a new node gets the resolved DAG and id, its name and trigger flag, and empty edge lists; it is not registered anywhere; its system app and executor are the explicit ones or else the process-wide ones; nothing else changes; the world stays well formed |
| DagBase.EnterDagScope | dbgpt/core/awel/dag/base.py:498-500 | `with dag` makes `dag` current and returns it; the matching exit restores the scope stack |
| DagBase.ExitDagScope | dbgpt/core/awel/dag/base.py:502-503 | `__exit__` removes exactly the top entry of the stack, or nothing on an empty stack; the system app and executor are untouched |
| Wiring.DagsOf | dbgpt/core/awel/dag/base.py:274-276 | the DAGs named by the participants are exactly those some participant is bound to |
| Wiring.Validate | dbgpt/core/awel/dag/base.py:267-283 | validation fails with `NotANode` exactly when an argument is not a node; with `NoDagContext` exactly when no participant is bound; with `MultipleDags` exactly when two are bound to different DAGs; otherwise it picks a DAG some participant is in and every participant may join |
| Wiring.ValidateFacts | dbgpt/core/awel/dag/base.py:274-282 | no DAG named iff no participant bound; two or more iff two participants disagree |
| Wiring.ChooseLink | dbgpt/core/awel/dag/base.py:288-299 | an upstream link is chosen only for `set_upstream` and a node not yet upstream; a downstream link only for a node not yet downstream; in the corrected loop a downstream link only for `set_downstream` |
| Wiring.Attach | dbgpt/core/awel/dag/base.py:287-299 | one iteration: it fails, with a name conflict, exactly when the node is not skipped and its name is taken in the DAG; a skipped node changes nothing; otherwise, without error, the node ends up linked to `self` in the requested direction |
| Wiring.AttachFacts | dbgpt/core/awel/dag/base.py:287-299 | one iteration only adds to the world, touches only `self`, the node and the DAG, fails only by name conflict, changes nothing when the node is skipped, and otherwise leaves the node bound, registered and linked |
| Wiring.SkipAttached | dbgpt/core/awel/dag/base.py:288-294 | in a well-formed world a node the loop skips is already bound, registered and linked |
| Wiring.AttachWellFormed | dbgpt/core/awel/dag/base.py:287-299 | one iteration keeps the world well formed, in both readings of the loop |
| Wiring.WireEach | dbgpt/core/awel/dag/base.py:287-299 | the loop keeps the sets of nodes and DAGs, its only error is a name conflict, and it meets none when no unregistered argument has a name taken in the DAG or shared with an earlier unregistered argument |
| Wiring.NamesFreeAfter | dbgpt/core/awel/dag/base.py:428-434 | registering the first of a conflict-free list of nodes leaves the rest conflict-free |
| Wiring.AttachNamesFree | dbgpt/core/awel/dag/base.py:287-299 | one iteration over the first node of a conflict-free list succeeds and leaves the rest conflict-free |
| Wiring.AttachKeepsNamesFree | dbgpt/core/awel/dag/base.py:287-299 | the same, stated for any list as an implication |
| Wiring.WireEachFacts | dbgpt/core/awel/dag/base.py:287-299 | the whole loop only adds to the world and fails only by name conflict |
| Wiring.WireEachWellFormed | dbgpt/core/awel/dag/base.py:287-299 | the whole loop keeps the world well formed |
| Wiring.WireEachAttaches | dbgpt/core/awel/dag/base.py:287-299 | a loop without error leaves every argument bound, registered and linked to `self` |
| Wiring.WireEachFrame | dbgpt/core/awel/dag/base.py:287-299 | the loop changes no node but `self` and the arguments and no DAG but the chosen one |
| Wiring.Connect | dbgpt/core/awel/dag/base.py:266-299 | no node or DAG appears or disappears; the rest of its behaviour is stated by `Wiring.ConnectFacts` |
| Wiring.ConnectFacts | dbgpt/core/awel/dag/base.py:266-299 | a validation error changes nothing; past validation only DAG `d` changes, the world only grows, the only error is a name conflict, and on success `self` is in the chosen DAG |
| Wiring.ConnectSucceeds | dbgpt/core/awel/dag/base.py:266-299 | past validation, the call succeeds in both readings of the loop when the participants, `self` first, are conflict-free in the chosen DAG |
| Wiring.SelfRegisters | dbgpt/core/awel/dag/base.py:283-286 | binding and registering `self` first, when the participants are conflict-free, succeeds and leaves the arguments conflict-free |
| Wiring.ConnectJoins | dbgpt/core/awel/dag/base.py:283-299 | a call without error leaves `self` and every argument bound to and registered in one DAG, each argument linked to `self` |
| Wiring.ConnectWellFormed | dbgpt/core/awel/dag/base.py:266-299 | a wiring call keeps the world well formed |
| Wiring.ConnectFrame | dbgpt/core/awel/dag/base.py:266-299 | a node the call changes is `self` or an argument, and could join the chosen DAG |
| Wiring.SetDependency | dbgpt/core/awel/dag/base.py:266-299 | as written: each of the three validation errors is raised exactly in its case and changes nothing; no edge is lost; the world stays well formed; on success all participants share the DAG some of them already had, and each argument is on the requested side of `self` (for `set_upstream`, upstream, whatever else a repeat adds); when no name conflict can occur is stated by `Wiring.WiringSucceeds` |
| Wiring.Wire | dbgpt/core/awel/dag/base.py:266-299 | the corrected call: the same errors and guarantees, each argument linked in the requested direction, and the chosen DAG's caches dropped; when no name conflict can occur is stated by `Wiring.WiringSucceeds` |
| Wiring.WiringSucceeds | dbgpt/core/awel/dag/base.py:266-299 | after validation, both the as-written and the corrected `set_dependency` succeed when the unregistered participants have distinct names that the chosen DAG does not use |
| Wiring.ClearCachesKeepsJoined | dbgpt/core/awel/dag/base.py:435-437 | dropping caches, as the corrected call does, does not undo a wiring |
| Wiring.JoinedEdges | dbgpt/core/awel/dag/base.py:292-299 | after a wiring call without error, every argument is on the requested side of `self` and `self` on the opposite side of it |
| Wiring.ShiftRight | dbgpt/core/awel/dag/base.py:74-89 | `a >> b` is exactly `set_downstream` as written (`SetDependency` downward); it returns `b` and, without error, leaves each argument downstream of `a` with `a` upstream of it |
| Wiring.ShiftLeft | dbgpt/core/awel/dag/base.py:58-72 | `a << b` is exactly `set_upstream` as written (`SetDependency` upward); it returns `b` and, without error, leaves each argument upstream of `a` |
| Wiring.ReflectedShiftRight | dbgpt/core/awel/dag/base.py:91-94 | `[a, b] >> c` is exactly `c.set_upstream` as written; it returns `c` and, without error, leaves each of `a`, `b` upstream of `c` |
| Wiring.ReflectedShiftLeft | dbgpt/core/awel/dag/base.py:96-99 | `[a, b] << c` is exactly `c.set_downstream` as written; it returns `c` and, without error, leaves each of `a`, `b` downstream of `c` |
| Wiring.WireEachSkips | dbgpt/core/awel/dag/base.py:287-299 | a loop in which every node is skipped changes nothing |
| Wiring.ConnectAgain | dbgpt/core/awel/dag/base.py:266-299 | once all arguments are joined in a way the loop skips, calling again changes nothing |
| Wiring.WireAgain | dbgpt/core/awel/dag/base.py:266-299 | the corrected call on arguments already joined, with the caches already dropped, succeeds and changes nothing |
| Wiring.WireIdempotent | dbgpt/core/awel/dag/base.py:266-299 | the corrected call is idempotent in both directions |
| Wiring.SetDownstreamIdempotent | dbgpt/core/awel/dag/base.py:294-299 | as written, repeating `set_downstream` succeeds and changes nothing, so no second copy of an edge appears |
| Wiring.EdgeRecordedOnce | dbgpt/core/awel/dag/base.py:292-299 | in a well-formed world an edge appears exactly once in each of its two lists |
| Wiring.WireOnce | dbgpt/core/awel/dag/base.py:292-299 | after the corrected call each new edge appears exactly once on each end |
| Wiring.UpstreamFirstCall | dbgpt/core/awel/dag/base.py:288-293 | the first `self << m` between unlinked nodes puts `m` upstream of `self` only |
| Wiring.UpstreamFirstIteration | dbgpt/core/awel/dag/base.py:288-293 | the loop on one node linked neither way puts it upstream only |
| Wiring.ConnectBetweenMembers | dbgpt/core/awel/dag/base.py:283-299 | wiring a registered member of `self`'s DAG records exactly the chosen edge and nothing else |
| Wiring.MembersValidate | dbgpt/core/awel/dag/base.py:274-283 | two nodes of one DAG pass validation, which picks that DAG |
| Wiring.RepeatedUpstreamAddsReverseEdge | dbgpt/core/awel/dag/base.py:288-299 | as written, a second `self << m` succeeds and adds `self -> m`, so `m` is both upstream and downstream of `self` |
| Classify.Reach | dbgpt/core/awel/dag/base.py:506-514 | the search returns known nodes, including the visited set and the frontier |
| Classify.ReachClosed | dbgpt/core/awel/dag/base.py:506-514 | the search result contains every node one step away from each of its members |
| Classify.ReachLeast | dbgpt/core/awel/dag/base.py:506-514 | any closed set containing the start contains the search result |
| Classify.GetNodes | dbgpt/core/awel/dag/base.py:506-514 | `_get_nodes(n)` is the least closed set containing `n`: `n` and everything reachable from it |
| Classify.Collect | dbgpt/core/awel/dag/base.py:446-451 | the collected set holds every registered node, is closed under upstream steps, and lies inside every such closed set |
| Classify.CollectIsUnion | dbgpt/core/awel/dag/base.py:449-451 | the collected set is exactly the union of `_get_nodes` over `node_map` |
| Classify.UnionClosed | dbgpt/core/awel/dag/base.py:449-451 | the union of the closures is closed and contains every start node |
| Classify.CollectIsRegistry | dbgpt/core/awel/dag/base.py:446-451 | in a well-formed world `_build` collects exactly the registered nodes |
| Classify.Build | dbgpt/core/awel/dag/base.py:446-456 | `_build` fills all three caches of one DAG and changes nothing else |
| Classify.BuildSound | dbgpt/core/awel/dag/base.py:446-456 | the stored lists are the registered nodes without upstream, without downstream, and the triggers; other DAGs' caches keep their soundness |
| Classify.RootNodes | dbgpt/core/awel/dag/base.py:458-467 | a non-empty cache is returned as is; a missing or empty one is rebuilt and the answer is exactly the registered nodes without upstream; a cached answer is that set too when the caches are sound |
| Classify.LeafNodes | dbgpt/core/awel/dag/base.py:469-478 | likewise for the nodes without downstream |
| Classify.TriggerNodes | dbgpt/core/awel/dag/base.py:480-489 | likewise for the trigger nodes |
| Classify.ClearKeepsCachesSound | dbgpt/core/awel/dag/base.py:435-437 | dropping a DAG's caches while changing only nodes that may join it keeps every cache sound |
| Classify.WireKeepsCachesSound | dbgpt/core/awel/dag/base.py:266-299 | the corrected call keeps every cache of every DAG sound |
| Classify.ClassifyAfterWire | dbgpt/core/awel/dag/base.py:458-489 | after the corrected call every DAG reports its true roots, leaves and triggers |
| Classify.StaleAfterEdge | dbgpt/core/awel/dag/base.py:465-478 | an edge recorded without touching the caches leaves a former root and leaf reported, though neither is one any more |
| Classify.StaleRootsAfterEdge | dbgpt/core/awel/dag/base.py:465-478 | an edge from a member onto a root of the same DAG keeps the world well formed, and the cached roots and leaves go stale |
| Classify.RootEdgeIsAdded | dbgpt/core/awel/dag/base.py:288-299 | as written, wiring a root `b` below `a`, both registered in one DAG, records exactly the edge `a -> b` |
| Classify.StaleRootsAfterWiring | dbgpt/core/awel/dag/base.py:425-427 | `a >> b` between registered members succeeds and leaves `b` reported as a root and `a` as a leaf |
| Classify.StaleTriggersAfterRegistration | dbgpt/core/awel/dag/base.py:435-437 | as written, registering a new trigger node leaves it out of `trigger_nodes` |
| DagContext.NewContext | dbgpt/core/awel/dag/base.py:312-326 | absent output and name maps become empty; the share data starts empty |
| DagContext.GetFromShareData | dbgpt/core/awel/dag/base.py:366-367 | the stored value, `None` exactly when the key is absent |
| DagContext.SaveToShareData | dbgpt/core/awel/dag/base.py:369-374 | fails exactly when the key is present and `overwrite` is falsy; otherwise the value reads back and every other key reads as before |
| DagContext.FirstSaveWins | dbgpt/core/awel/dag/base.py:369-374 | without `overwrite` a second save fails and the first value stays |
| DagContext.BuildTaskKey | dbgpt/core/awel/dag/base.py:302-303 | the key is the task name, the separator, then the key |
| DagContext.TaskKeySameKey | dbgpt/core/awel/dag/base.py:302-303 | for one key, different task names give different task keys |
| DagContext.TaskKeySameTask | dbgpt/core/awel/dag/base.py:302-303 | for one task name, different keys give different task keys |
| DagContext.FirstDollar | dbgpt/core/awel/dag/base.py:302-303 | in a task key whose task name has no `$`, the first `$` is inside the separator |
| DagContext.TaskKeyInjective | dbgpt/core/awel/dag/base.py:302-303 | task keys determine task name and key when task names have no `$` |
| DagContext.TaskKeyCollision | dbgpt/core/awel/dag/base.py:302-303 | without that restriction two different pairs share a task key, even though neither name contains the separator |
| DagContext.GetTaskShareData | dbgpt/core/awel/dag/base.py:376-390 | a `None` task name or key is an error; otherwise the share-data value under the task key |
| DagContext.SaveTaskShareData | dbgpt/core/awel/dag/base.py:392-411 | a `None` task name or key is an error; otherwise a save under the task key |
| DagContext.TaskShareRoundTrip | dbgpt/core/awel/dag/base.py:376-411 | what a task saves it reads back, and another task or key is unaffected |
| DagContext.GetTaskOutputAsWritten | dbgpt/core/awel/dag/base.py:350-364 | as written: a `None` name is an error; a name mapped to a non-empty node id is reported as not existing; only a name mapped to the empty id can yield an output, the one stored under that empty id |
| DagContext.AsWrittenNeverFinds | dbgpt/core/awel/dag/base.py:359-364 | as written, a task name mapped to a node id is always reported missing |
| DagContext.AsWrittenMissesOutput | dbgpt/core/awel/dag/base.py:359-364 | one task with an output: as written it is not found; the corrected lookup returns the output |
| DagContext.GetTaskOutput | dbgpt/core/awel/dag/base.py:350-364 | corrected: a `None` name is an error; an unknown name is reported; a known one yields exactly its node's output |
| PromptIdentifier.Present | dbgpt/core/interface/prompt.py:125-134 | the present fields: the name first, then language, system code and model in that order when set; only the name iff no optional field is set |
| PromptIdentifier.MakeIdentifier | dbgpt/core/interface/prompt.py:105-121 | fails exactly when the name is `None`, or else exactly when a present field contains `___$$$$___`; otherwise the identifier of the given fields |
| PromptIdentifier.StrIdentifier | dbgpt/core/interface/prompt.py:123-134 | the string starts with the name, equals it iff no optional field is set, and otherwise has the separator right after the name |
| PromptIdentifier.StrIdentifierFields | dbgpt/core/interface/prompt.py:123-134 | the string is the name followed, for each of language, system code and model that is set, by the separator and its value |
| PromptIdentifier.StrIdentifierAllFields | dbgpt/core/interface/prompt.py:123-134 | with all four fields set the string is name, language, system code and model joined by `___$$$$___` |
| PromptIdentifier.StrIdentifierHasSep | dbgpt/core/interface/prompt.py:109-134 | for a valid identifier the separator appears iff some optional field is set |
| PromptIdentifier.StrIdentifierForgetsField | dbgpt/core/interface/prompt.py:123-134 | a language `v` and a model `v` give the same string |
| PromptIdentifier.StrIdentifierCollision | dbgpt/core/interface/prompt.py:109-134 | two different valid identifiers can share a string, since the separator overlaps itself |
| StoragePrompt.NewStorageTemplate | dbgpt/core/interface/prompt.py:160-167 | identifier errors come first, then a `None` content; on success every field is kept and the identifier is built from the record's own fields |
| StoragePrompt.Or | dbgpt/core/interface/prompt.py:209-227 | Python's `a or b`: `a` when truthy, else `b` |
| StoragePrompt.DecodeInputVariables | dbgpt/core/interface/prompt.py:171-175 | no list exactly for a `None` or empty string; otherwise comma-free pieces that join back with `,` to the stripped string, hence exactly its split on `,` |
| StoragePrompt.EncodeInputVariables | dbgpt/core/interface/prompt.py:209-213 | a non-empty list of the template wins and is joined with `,`; else the keyword value, a list joined and text kept; nothing exactly when neither gives anything |
| StoragePrompt.InputVariablesRoundTrip | dbgpt/core/interface/prompt.py:171-213 | a list without commas whose join is non-empty and unpadded is restored by storing and reading |
| StoragePrompt.InputTextRoundTrip | dbgpt/core/interface/prompt.py:171-213 | a non-empty unpadded stored string is restored by reading and storing |
| StoragePrompt.ToPromptTemplate | dbgpt/core/interface/prompt.py:169-181 | refused exactly when the stored input variables are missing or empty or the format is missing, since the template's list and format fields do not admit `None`; otherwise content, scene and format are carried over and the input variables are the comma-free pieces of the stripped stored string |
| StoragePrompt.FromPromptTemplate | dbgpt/core/interface/prompt.py:183-227 | content, format and scene from the template, falling back to the keywords when falsy; input variables encoded; fails exactly when the name or content is missing or a field holds the separator |
| StoragePrompt.StorageRoundTrip | dbgpt/core/interface/prompt.py:169-227 | a record with non-empty content, a non-empty format and non-empty unpadded input variables is accepted by the conversion to a template and survives the way back |
| StoragePrompt.TemplateRoundTrip | dbgpt/core/interface/prompt.py:169-227 | a template with truthy content and scene, a non-empty format and a non-empty list of comma-free variables survives conversion to a record and back |
| StoragePrompt.EmptyVariablesNotReloaded | dbgpt/core/interface/prompt.py:169-227 | a template with an empty variable list is stored with no input variables, and the stored record is then refused by the conversion back |
| StoragePrompt.EmptyContentLost | dbgpt/core/interface/prompt.py:169-227 | an empty content does not survive: when the conversion to a template accepts the record, the way back fails with a missing content |
| StoragePrompt.FromObject | dbgpt/core/interface/prompt.py:266-279 | exactly the eight listed fields are copied; name, language, system code and identifier are kept |
| StoragePrompt.Merge | dbgpt/core/interface/prompt.py:233-243 | fails exactly for an item of another kind; otherwise the result is `from_object` of the other record |
| StoragePrompt.MergeIdempotent | dbgpt/core/interface/prompt.py:233-279 | merging the same record twice equals merging it once |
| StoragePrompt.MergeSameIdentifier | dbgpt/core/interface/prompt.py:233-279 | merging a record with the same identifier keeps the identifier consistent |
| StoragePrompt.MergeOtherModel | dbgpt/core/interface/prompt.py:266-279 | merging a record for another model leaves the identifier naming the old model |
| PromptManager.Matches | dbgpt/core/interface/prompt.py:400-416 | a template matches exactly when its field is set, non-empty, as long as the preference, and equal to it character by character ignoring ASCII case |
| PromptManager.Keep | dbgpt/core/interface/prompt.py:399-405 | the comprehension result is a subsequence of the input whose elements all match |
| PromptManager.KeepCounts | dbgpt/core/interface/prompt.py:399-405 | every matching template is kept as often as it occurs |
| PromptManager.KeepEmpty | dbgpt/core/interface/prompt.py:399-407 | the comprehension is empty iff no template matches |
| PromptManager.KeepAllMatch | dbgpt/core/interface/prompt.py:399-405 | filtering templates that all match keeps them all |
| PromptManager.Prefer | dbgpt/core/interface/prompt.py:398-407 | one stage returns a non-empty subsequence of a non-empty input: all input when the preference is falsy or unmatched, otherwise exactly the matching templates |
| PromptManager.PreferIdempotent | dbgpt/core/interface/prompt.py:398-407 | a stage applied to its own result changes nothing |
| PromptManager.PreferQuery | dbgpt/core/interface/prompt.py:395-419 | empty iff the input is empty; an order-preserving subsequence of the input and of the language stage; the input itself without preferences; all in the preferred language when any template is; then, when some template of the language stage is for the preferred model, all for that model with every such template kept, and otherwise the language stage itself |
| PromptManager.PreferQueryBoth | dbgpt/core/interface/prompt.py:398-418 | when some template matches both preferences, every result matches both |
| PromptManager.LanguageFirst | dbgpt/core/interface/prompt.py:398-418 | when no template in the preferred language is for the preferred model, the result is the language matches, whatever other languages offer |
| PromptManager.PreferQueryIdempotent | dbgpt/core/interface/prompt.py:395-419 | filtering the result again with the same preferences changes nothing |
| Strings.SplitJoin | dbgpt/core/interface/prompt.py:174 | splitting a `,`-join of comma-free parts restores the parts |
| Strings.JoinSplit | dbgpt/core/interface/prompt.py:212 | joining the pieces of a split restores the string |
| Strings.Strip | dbgpt/core/interface/prompt.py:174 | the result has no outer whitespace and sits in the input with only whitespace before and after it; an input without outer whitespace is kept |
| Strings.Lower | dbgpt/core/interface/prompt.py:402-416 | lower-cases ASCII letters and keeps every other character |

## Left out

- The choice between the thread-local and the coroutine-local scope stack is left out because it depends on the concurrency runtime; `DagVar` models the stack of one construction context.
- `DAGLifecycle`, `_after_dag_end` and `asyncio.gather` are left out as asynchronous lifecycle hooks.
- `DAG._new_node_id` (a random UUID) is left out; `DagBase.NewNode` takes the fresh id as a parameter.
- The `TriggerOperator` class test is left out; it is a flag on the node record.
- `DAGNode.__eq__` and `__hash__` have no member of their own: node identity is the id, as map key. A comparison with a non-node value is left out.
- The `dag_id` of a DAG and its `ResourceGroup` are left out; a DAG is identified by its key.
- `DagBase.ResolveNodeId`: a node created with no id outside any DAG keeps `None` in the source, and such nodes then compare equal; the model gives it the fresh id instead, because every node needs a key.
- `DagBase.NewNode`: requires the new id not to be in use, because the world holds one record per id; the source would create a second object equal to the first.
- `Wiring.WireEach`: its success condition is sufficient, not necessary: a node the loop skips is never registered, so its name may clash without error. In a well-formed world a skipped node is already registered, and the exact per-step condition is the iff of `Wiring.Attach`.
- `Wiring.Connect`: its own contract states only that the sets of nodes and DAGs are kept; the error cases and the growth of the world are stated by `Wiring.ConnectFacts`, so that proofs which only call it stay small.
- `Wiring.SetDependency`: requires the world to be well formed; every operation of the model keeps that invariant and the empty world has it, so no reachable state is excluded.
- `Classify.GetNodes`: uses a visited set, so it stops on a cycle; the source recursion has no guard and fails with a recursion error there. Both give the same set on an acyclic graph.
- `Classify.RootNodes`: the root, leaf and trigger lists are sets, because the source builds them with `list(set(...))` and their order is unspecified.
- `DagContext.GetTaskShareData`: the source returns the coroutine of `get_from_share_data` without awaiting it; the model returns the value that coroutine yields.
- `DAGContext.current_task_context`, `set_current_task_context`, `streaming_call`, `DAGNode.system_app` and `set_system_app` are left out as plain accessors.
- `DagBase.NewNode` returns the node's system app and executor next to the world instead of on the node record, because no modelled operation reads them back.
- `DAGNode.set_node_id` is left out: renaming a node would break the id-keyed world.
- `StoragePrompt.EncodeInputVariables`: an empty list passed as the `input_variables` keyword reaches the record as `[]` in the source; the model stores `None`, which reads back the same (no variables).
- Keyword arguments of `from_prompt_template` other than `input_variables`, `content`, `prompt_format` and `chat_scene` are left out; the source reads no others.
- `PromptManager.Matches`: `str.lower` is modelled for ASCII letters only; other Unicode case mappings are left out.
- The storage query inside `prefer_query`, and `PromptManager.save`, `list` and `delete`, are left out as calls into a storage interface that is not part of this model; `PreferQuery` works on the list the query returns.
- `StoragePrompt.ToPromptTemplate`: of the `PromptTemplate` model's validation only the refusal of `None` for `input_variables` and `template_format` is modelled, as one `TemplateInvalid` error; the message of the validation error is not. The other optional fields (`template_define`, `response_format`) are taken to default to `None`, as pydantic's version-1 models do.
- The `QuerySpec` conditions and the `to_dict` methods are left out as framework plumbing.
- `PromptTemplate.format`, the f-string and jinja2 formatters, `PromptTemplateOperator` and `from_template` are left out as calls into template libraries and operator wrappers.

## Findings

| source | as written | input that shows it | evidently intended | confidence | as-written member | corrected member |
|---|---|---|---|---|---|---|
| dbgpt/core/awel/dag/base.py:425-427 | `_append_node` returns before clearing the caches when the id is already registered, so wiring two registered nodes keeps root and leaf lists computed before the edge | a DAG with registered `a`, `b` and root list `[a, b]`; then `a >> b`; `root_nodes` still lists `b` and `leaf_nodes` still lists `a` | the cached classifications are dropped whenever an edge is added | medium, not executed | Classify.StaleRootsAfterWiring | Classify.WireKeepsCachesSound |
| dbgpt/core/awel/dag/base.py:435-437 | `_append_node` clears the root and leaf caches but not the trigger cache | `trigger_nodes` computed as `[t1]`, then a new trigger `t2` is registered; `trigger_nodes` still returns `[t1]` | all three caches are dropped when a node is registered | medium, not executed | Classify.StaleTriggersAfterRegistration | Classify.ClassifyAfterWire |
| dbgpt/core/awel/dag/base.py:361-364 | the check is inverted: a known task name raises "not exists", an unknown one reaches `.task_output` of `None` | a context with `node_name_to_ids = {"t": "n1"}` and an output for `n1`; `get_task_output("t")` raises | raise when the name maps to no node id, otherwise return that node's output | high, not executed | DagContext.AsWrittenMissesOutput | DagContext.GetTaskOutput |
| dbgpt/core/awel/dag/base.py:288-299 | for `set_upstream`, a node already upstream falls through to the `elif` and is added downstream too | two unlinked nodes of one DAG; `b << a` twice; `a` is then both upstream and downstream of `b` | a repeated `set_upstream` changes nothing | high, not executed | Wiring.RepeatedUpstreamAddsReverseEdge | Wiring.WireIdempotent |
