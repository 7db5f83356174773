# TaskflowBridge registry and level-sequence decoder

This project models the core of `TaskflowBridge`, the C++ class in
`src/DeepTreeEcho/taskflow_bridge.cpp` that gives Julia access to Taskflow
task graphs. The model has two parts.

- **The registry.** One counter `next_id_` starts at 1 and numbers every
  handle the bridge creates: taskflows, atomspaces, atoms and tensors. A
  taskflow id is a key in two maps. `taskflows_` holds the graph.
  `task_handles_` maps each user-chosen task id to the graph node it was
  emplaced as.
  - `create_taskflow`, `add_task`, `add_dependency` and `num_taskflows` are
    modelled in full.
  - `create_atomspace`, `add_atom` and `create_tensor` are modelled only as
    far as ids go, because they share the counter.
- **The decoder.** `tree_to_taskgraph` turns a level sequence into a new
  taskflow. A level sequence lists a rooted tree's depths in pre-order. The
  decoder adds task `i` as node `i`, named `task_<i>`. Each node `i >= 1` then
  gets an edge from the nearest earlier node whose level is `levels[i] - 1`.
  When no such node exists, node `i` gets no edge.

The model has four modules.

- `TaskGraphs` (`task_graph.dfy`) reduces a `tf::Taskflow` to a value. A
  graph is a list of node names and a list of edges. `emplace` appends a node
  and `precede` appends an edge. It also defines walks, reachability and
  acyclicity.
- `LevelSequences` (`level_sequence.dfy`) is the decoder as pure functions,
  with the lemmas about the graph it produces.
- `Bridge` (`taskflow_bridge.dfy`) has the class `TaskflowBridge`.
  - Its fields are the counter and the registries. Its methods update them in
    place.
  - The invariant `Valid` says that the two taskflow maps share their keys.
    Every registered id lies in `1 .. nextId-1` and belongs to exactly one
    registry. Every handle and edge points at an existing node.
  - `tree_to_taskgraph` is imperative: its two loops and the inner backward
    scan are methods with loop invariants. They are proved to build exactly
    the graph `LevelSequences.Decoded` describes.
- `Scenarios` (`scenarios.dfy`) holds runs from a fresh bridge. These are
  the source's standalone test program and the unusual inputs the bridge
  accepts: self-loops, cycles and a task id added twice.

A thrown `std::runtime_error` is modelled as a returned `Fail`/`Err` value
whose state is left unchanged. That matches the source, because every check
comes before any update.

The code validates nothing beyond the existence checks:
- `add_dependency` accepts a self-loop and a cycle. `Scenarios.SelfLoopAccepted`
  and `Scenarios.CycleAccepted` show this.
- `tree_to_taskgraph` never rejects a sequence. A node without an earlier
  node one level up just gets no edge (`LevelSequences.ExampleMissingParent`).
- Well-formedness of the sequence is a property proved about the decoding
  (`LevelSequences.WellFormedIsTree`). The code never checks it.

## Model

| member | source | states |
|---|---|---|
| Bridge.TaskflowBridge.constructor | src/DeepTreeEcho/taskflow_bridge.cpp:41-47 | A new bridge has its counter at 1, no registered handles, and satisfies the registry invariant. The thread count is not modelled. |
| Bridge.TaskflowBridge.CreateTaskflow | src/DeepTreeEcho/taskflow_bridge.cpp:55-61 | Returns the counter's old value and raises the counter by one. That id was in no registry before. Both taskflow maps gain it: an empty graph and an empty handle table. The taskflow count grows by one. The invariant is kept. |
| Bridge.TaskflowBridge.AddTask | src/DeepTreeEcho/taskflow_bridge.cpp:63-76 | Passes exactly when the taskflow exists. On failure it reports TaskflowNotFound and changes nothing. On success the graph gains one node with the given name, and the task id's handle points at it, replacing any earlier handle. Nothing else changes. |
| Bridge.TaskflowBridge.AddDependency | src/DeepTreeEcho/taskflow_bridge.cpp:78-90 | A missing taskflow gives TaskflowNotFound. A missing from-task or to-task gives TaskNotFound. It passes exactly when all three exist. Failures change nothing. On success exactly one edge is appended, between the two handles' nodes, with no check for self-loops or cycles. Handles and counter are unchanged. |
| Bridge.TaskflowBridge.CreateAtomspace | src/DeepTreeEcho/taskflow_bridge.cpp:107-112 | Takes the next id from the shared counter. The id was unused and is now registered as an atomspace. |
| Bridge.TaskflowBridge.AddAtom | src/DeepTreeEcho/taskflow_bridge.cpp:114-125 | Fails with AtomSpaceNotFound exactly when the atomspace is unknown, and then takes no id. Otherwise it takes the next id from the shared counter and registers it as an atom. |
| Bridge.TaskflowBridge.CreateTensor | src/DeepTreeEcho/taskflow_bridge.cpp:145-163 | Takes the next id from the shared counter and registers a tensor of the given shape under it. |
| Bridge.TaskflowBridge.NumTaskflowsCountsHandleTables | src/DeepTreeEcho/taskflow_bridge.cpp:230-232 | `num_taskflows` (the size of the graph map) is also the number of handle tables, because the two maps keep the same keys. |
| Bridge.TaskflowBridge.TreeToTaskgraph | src/DeepTreeEcho/taskflow_bridge.cpp:204-226 | Never fails. Takes a fresh id from the shared counter and registers the graph `Decoded(levels)` under it, with task `i`'s handle on node `i` for every `i < \|levels\|`. The other registries are unchanged. |
| Bridge.TaskflowBridge.EmplaceTasks | src/DeepTreeEcho/taskflow_bridge.cpp:207-210 | The first loop turns the empty taskflow into nodes `0 .. n-1` named `task_<i>`, with task `i`'s handle on node `i`. |
| Bridge.TaskflowBridge.LinkParents | src/DeepTreeEcho/taskflow_bridge.cpp:212-223 | The second loop gives the taskflow exactly the edges `DecodedEdges(levels)`, in the order the decoder adds them. |
| Bridge.TaskflowBridge.LinkParent | src/DeepTreeEcho/taskflow_bridge.cpp:213-222 | One round of the second loop adds node `i`'s parent edge when there is one, and nothing otherwise. |
| Bridge.FindParent | src/DeepTreeEcho/taskflow_bridge.cpp:214-222 | The backward scan with `break` returns exactly `ParentOf(levels, i)`. |
| Bridge.EmplaceKeepsFlowValid | src/DeepTreeEcho/taskflow_bridge.cpp:68-75 | After an emplace and a handle update, every handle and edge still names a node of the graph. |
| Bridge.PrecedeKeepsFlowValid | src/DeepTreeEcho/taskflow_bridge.cpp:83-89 | An edge between two registered handles keeps every edge inside the graph. |
| Bridge.IdentityHandlesAt | src/DeepTreeEcho/taskflow_bridge.cpp:208-210 | After the first loop, task `t` has a handle exactly when `0 <= t < n`, and that handle is node `t`. |
| LevelSequences.ScanBack | src/DeepTreeEcho/taskflow_bridge.cpp:217-222 | A match is found at an index no greater than the starting point, and it holds the target level. |
| LevelSequences.ScanBackSpec | src/DeepTreeEcho/taskflow_bridge.cpp:217-222 | The scan stops at the last match: nothing after it matches. It finds nothing exactly when no index matches. |
| LevelSequences.ParentOf | src/DeepTreeEcho/taskflow_bridge.cpp:214-222 | A parent lies strictly before the child, and its level is one less than the child's. |
| LevelSequences.ParentOfSpec | src/DeepTreeEcho/taskflow_bridge.cpp:214-222 | The parent is the nearest earlier node one level up. A node has no parent exactly when no earlier node is one level up. |
| LevelSequences.EdgesBelowSpec | src/DeepTreeEcho/taskflow_bridge.cpp:213-223 | The edges added for children below `n` are exactly those children's parent edges. Each points forward. They come in strictly increasing order of child, so no node gets two parents. |
| LevelSequences.NearestIsParent | src/DeepTreeEcho/taskflow_bridge.cpp:217-221 | An earlier node one level up with no such node after it is the parent, and handling the child appends exactly that edge. |
| LevelSequences.DecodedEdgeIff | src/DeepTreeEcho/taskflow_bridge.cpp:213-223 | The edge `p -> c` is decoded if and only if `p < c`, `p` is one level above `c`, and no node between them is. |
| LevelSequences.DecodedShape | src/DeepTreeEcho/taskflow_bridge.cpp:213-223 | For any sequence, every decoded edge points forward, node 0 is never a child, no node is the child of two edges, and the graph is acyclic. |
| LevelSequences.TaskNames | src/DeepTreeEcho/taskflow_bridge.cpp:208-210 | The first loop names exactly `n` nodes. |
| LevelSequences.TaskNamesAt | src/DeepTreeEcho/taskflow_bridge.cpp:208-210 | Node `k` is named `task_<k>`. |
| LevelSequences.Decimal | src/DeepTreeEcho/taskflow_bridge.cpp:209 | `std::to_string` of a non-negative number is a non-empty string of digits with no leading zero. |
| LevelSequences.DigitCharValue | src/DeepTreeEcho/taskflow_bridge.cpp:209 | Each digit character stands for its digit value. |
| LevelSequences.DecimalRoundTrip | src/DeepTreeEcho/taskflow_bridge.cpp:209 | Reading the decimal spelling back gives the number. |
| LevelSequences.TaskNamesDistinct | src/DeepTreeEcho/taskflow_bridge.cpp:209 | Distinct nodes get distinct names. |
| LevelSequences.LevelOccurs | src/DeepTreeEcho/taskflow_bridge.cpp:213-223 | In a well-formed sequence, every level from 1 to `levels[k]` occurs at or before `k`. |
| LevelSequences.ParentExists | src/DeepTreeEcho/taskflow_bridge.cpp:214-222 | In a well-formed sequence, every node but the root finds a parent. |
| LevelSequences.WellFormedEdgeCount | src/DeepTreeEcho/taskflow_bridge.cpp:213-223 | In a well-formed sequence, the children below `n` contribute exactly `n - 1` edges. |
| LevelSequences.PathFromRoot | src/DeepTreeEcho/taskflow_bridge.cpp:213-223 | In a well-formed sequence, a walk along decoded edges leads from node 0 to every node. |
| LevelSequences.WellFormedIsTree | src/DeepTreeEcho/taskflow_bridge.cpp:204-226 | A well-formed sequence of length `n` decodes to a tree rooted at node 0: `n - 1` edges, a parent for every other node, and every node reachable from the root. |
| LevelSequences.Example1223 | src/DeepTreeEcho/taskflow_bridge.cpp:335-336 | `[1, 2, 2, 3]` decodes to the edges `0 -> 1`, `0 -> 2`, `2 -> 3`, in that order. |
| LevelSequences.ExampleMissingParent | src/DeepTreeEcho/taskflow_bridge.cpp:217-222 | `[1, 3]` decodes without error and without edges, because level 2 never occurs before node 1. |
| TaskGraphs.ForwardPathIncreases | src/DeepTreeEcho/taskflow_bridge.cpp:213-223 | Along forward edges, a walk of one or more edges ends at a larger node than it starts. |
| TaskGraphs.ForwardIsAcyclic | src/DeepTreeEcho/taskflow_bridge.cpp:213-223 | A graph whose edges all point forward has no cycle. |
| TaskGraphs.SelfLoopIsCycle | src/DeepTreeEcho/taskflow_bridge.cpp:89 | An edge from a node to itself makes any graph cyclic. |
| TaskGraphs.BackEdgeIsCycle | src/DeepTreeEcho/taskflow_bridge.cpp:89 | Two opposite edges make any graph cyclic. |
| Scenarios.AddDiamondTasks | src/DeepTreeEcho/taskflow_bridge.cpp:299-302 | Adding tasks 1 to 4 to an empty taskflow gives nodes `Task A` to `Task D`, with task `k`'s handle on node `k - 1`. |
| Scenarios.AddDiamondDependencies | src/DeepTreeEcho/taskflow_bridge.cpp:305-308 | The four dependencies append the edges `0 -> 1`, `0 -> 2`, `1 -> 3`, `2 -> 3`. |
| Scenarios.BuildDiamond | src/DeepTreeEcho/taskflow_bridge.cpp:296-308 | The first part of the test registers the diamond graph under the next id. |
| Scenarios.CognitiveHandles | src/DeepTreeEcho/taskflow_bridge.cpp:317-323 | The atomspace, the atom and the tensor take three consecutive ids. The taskflows are unchanged. |
| Scenarios.DecodeExample | src/DeepTreeEcho/taskflow_bridge.cpp:335-336 | Decoding `[1, 2, 2, 3]` registers a four-node taskflow named `task_0` to `task_3` with the edges `0 -> 1`, `0 -> 2`, `2 -> 3`. |
| Scenarios.StandaloneRun | src/DeepTreeEcho/taskflow_bridge.cpp:287-348 | The standalone test numbers its taskflow, atomspace, atom, tensor and decoded taskflow 1 to 5, builds the diamond and the tree graphs above, and ends with two taskflows. |
| Scenarios.SelfLoopAccepted | src/DeepTreeEcho/taskflow_bridge.cpp:78-90 | A dependency of a task on itself passes and leaves a cyclic graph. |
| Scenarios.AddTwoTasks | src/DeepTreeEcho/taskflow_bridge.cpp:63-76 | Two `add_task` calls give two nodes, with handles on nodes 0 and 1. |
| Scenarios.CycleAccepted | src/DeepTreeEcho/taskflow_bridge.cpp:78-90 | Two tasks depending on each other both pass and leave a cyclic graph. |
| Scenarios.TaskReadded | src/DeepTreeEcho/taskflow_bridge.cpp:63-76 | Adding a task id twice keeps both nodes and moves the handle to the second. A later dependency on the id uses the second node. |
| Scenarios.UnknownHandlesFail | src/DeepTreeEcho/taskflow_bridge.cpp:63-125 | An unknown taskflow, an unknown task and an unknown atomspace give their errors, and no id is taken. |

## Left out

- `execute_taskflow` and `wait_taskflow`: running a graph on Taskflow's executor involves threads and is outside the model.
- `taskgraph_to_tree`: it returns an empty sequence without reading the graph, and no decoded sequence is compared with it.
- `set_attention` and `get_attention` (atom attention values): floating-point state of foreign objects. Atoms are modelled only by their ids.
- `set_tensor_data` and `get_tensor_data`: tensor contents are floating point and foreign. Tensors are modelled only by their id and shape.
- `num_atomspaces` and `num_tensors`: simple sizes that no modelled property depends on.
- The atomspace object that `add_atom` fills: not modelled. The atom type and name do not affect ids.
- Console output and the destructor, which only logs.
- The Julia bindings (the commented-out CxxWrap module).
- Task bodies: they are empty placeholders, so a task is modelled by its node and name only.
- The thread count given to the constructor only sizes the executors, which are not modelled.
- Bridge.TaskflowBridge.CreateTaskflow: `next_id_` is a C++ `int` and its overflow is not modelled. Ids are unbounded integers, so "ids are never reused" holds without limit.
- Bridge.TaskflowBridge.TreeToTaskgraph: the `size_t` to `int` conversions of the loop index are not modelled, nor is `level_sequence[i] - 1` at the smallest `int`.
- Every thrown `std::runtime_error` (in `add_task`, `add_dependency` and `add_atom`) is reduced to an `Error` tag: the message text, including the taskflow id that `add_task` appends, is not modelled.
- `tf::Taskflow` internals are reduced to an append-only list of nodes and edges. A repeated `precede` appears as a duplicate edge.
