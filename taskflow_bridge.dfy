/**
 The registry kept by `TaskflowBridge`.

 One counter, starting at 1, hands out the ids of every kind of handle the
 bridge creates: taskflows, atomspaces, atoms and tensors. Each taskflow id is
 a key of two maps that always have the same keys: `taskflows` (the graph)
 and `taskHandles` (task id -> the graph node the task was emplaced as).
 Thrown `std::runtime_error`s are modelled as returned failures that leave
 the state untouched.
 */
module Bridge {
  import opened TaskGraphs
  import opened LevelSequences

  datatype Error = TaskflowNotFound | TaskNotFound | AtomSpaceNotFound

  /** The outcome of an operation returning `void`: it completes or throws. */
  datatype Outcome = Pass | Fail(error: Error)

  /** The outcome of an operation returning a value: the value, or the thrown error. */
  datatype Result<T> = Ok(value: T) | Err(error: Error)

  /** Every handle of `handles` names a node that exists in `g`. */
  ghost predicate HandlesIn(handles: map<int, nat>, g: TaskGraph) {
    forall t :: t in handles ==> handles[t] < |g.names|
  }

  /** A taskflow's handles and edges all refer to nodes of its graph. */
  ghost predicate FlowValid(g: TaskGraph, handles: map<int, nat>) {
    g.Valid() && HandlesIn(handles, g)
  }

  /** Emplacing a node and pointing a handle at it keeps a taskflow's references inside its graph. */
  lemma EmplaceKeepsFlowValid(g: TaskGraph, handles: map<int, nat>, taskId: int, name: string)
    requires FlowValid(g, handles)
    ensures FlowValid(g.Emplace(name), handles[taskId := |g.names|])
  {
  }

  /** Joining the nodes of two registered tasks keeps a taskflow's references inside its graph. */
  lemma PrecedeKeepsFlowValid(g: TaskGraph, handles: map<int, nat>, fromTask: int, toTask: int)
    requires FlowValid(g, handles) && fromTask in handles && toTask in handles
    ensures FlowValid(g.Precede(handles[fromTask], handles[toTask]), handles)
  {
  }

  /** The handle map of a taskflow whose tasks `0 .. n-1` were emplaced in that order. */
  function IdentityHandles(n: nat): map<int, nat> {
    if n == 0 then map[] else IdentityHandles(n - 1)[n - 1 := n - 1]
  }

  /** Task `t` is registered among the first `n` exactly when `0 <= t < n`, and its handle is node `t`. */
  lemma {:induction false} IdentityHandlesAt(n: nat, t: int)
    ensures t in IdentityHandles(n) <==> 0 <= t < n
    ensures t in IdentityHandles(n) ==> IdentityHandles(n)[t] == t
  {
    if n > 0 {
      IdentityHandlesAt(n - 1, t);
    }
  }

  /**
   The inner scan of `tree_to_taskgraph`: walk back from `i - 1` to the first
   node whose level is one less than node `i`'s.
   */
  method FindParent(levels: seq<int>, i: nat) returns (parent: Option<nat>)
    requires i < |levels|
    ensures parent == ParentOf(levels, i)
  {
    var parentLevel := levels[i] - 1;
    var j := i - 1;
    while j >= 0
      invariant -1 <= j < i
      invariant ScanBack(levels, parentLevel, i - 1) == ScanBack(levels, parentLevel, j)
    {
      if levels[j] == parentLevel {
        return Some(j);
      }
      j := j - 1;
    }
    return None;
  }

  class TaskflowBridge {
    var nextId: int
    var taskflows: map<int, TaskGraph>
    var taskHandles: map<int, map<int, nat>>
    var atomspaces: set<int>
    var atoms: set<int>
    var tensors: map<int, seq<int>>

    /** No registry of the bridge holds `id`. */
    ghost predicate Unused(id: int)
      reads this
    {
      id !in taskflows && id !in atomspaces && id !in atoms && id !in tensors
    }

    /**
     The registry invariant: the two taskflow maps have the same keys, every
     registered id was handed out by the counter (so lies in `1 .. nextId-1`)
     and belongs to exactly one registry, and every handle and edge of a
     taskflow refers to a node of its graph.
     */
    ghost predicate Valid()
      reads this
    {
      && 1 <= nextId
      && (forall id :: id in taskflows <==> id in taskHandles)
      && (forall id :: id in taskflows ==>
            && 1 <= id < nextId && id !in atomspaces && id !in atoms && id !in tensors
            && FlowValid(taskflows[id], taskHandles[id]))
      && (forall id :: id in atomspaces ==> 1 <= id < nextId && id !in atoms && id !in tensors)
      && (forall id :: id in atoms ==> 1 <= id < nextId && id !in tensors)
      && (forall id :: id in tensors ==> 1 <= id < nextId)
    }

    /** `num_taskflows`: the number of registered taskflows. */
    function NumTaskflows(): nat
      reads this
    {
      |taskflows|
    }

    /** The taskflow count is also the number of handle tables, since the two maps share their keys. */
    lemma NumTaskflowsCountsHandleTables()
      requires Valid()
      ensures NumTaskflows() == |taskHandles|
    {
      assert forall id :: id in taskflows.Keys <==> id in taskHandles.Keys;
      assert taskflows.Keys == taskHandles.Keys;
      assert |taskflows| == |taskflows.Keys| == |taskHandles.Keys| == |taskHandles|;
    }

    /** The thread count only sizes the executors, which are not modelled. */
    constructor (numThreads: int)
      ensures Valid()
      ensures nextId == 1
      ensures taskflows == map[] && taskHandles == map[]
      ensures atomspaces == {} && atoms == {} && tensors == map[]
    {
      nextId := 1;
      taskflows := map[];
      taskHandles := map[];
      atomspaces := {};
      atoms := {};
      tensors := map[];
    }

    /** `create_taskflow`: take the next id and register an empty graph with an empty handle table under it. */
    method CreateTaskflow() returns (id: int)
      requires Valid()
      modifies this
      ensures Valid()
      ensures id == old(nextId) && nextId == old(nextId) + 1
      ensures old(Unused(id))
      ensures taskflows == old(taskflows)[id := Empty]
      ensures taskHandles == old(taskHandles)[id := map[]]
      ensures NumTaskflows() == old(NumTaskflows()) + 1
      ensures atomspaces == old(atomspaces) && atoms == old(atoms) && tensors == old(tensors)
    {
      id := nextId;
      nextId := nextId + 1;
      taskflows := taskflows[id := Empty];
      taskHandles := taskHandles[id := map[]];
    }

    /**
     `add_task`: fails when the taskflow is unknown; otherwise emplaces a new
     node named `name` and points `taskId`'s handle at it, replacing any
     earlier handle (the earlier node stays in the graph).
     */
    method AddTask(tfId: int, taskId: int, name: string) returns (r: Outcome)
      requires Valid()
      modifies this
      ensures Valid()
      ensures r == Pass <==> tfId in old(taskflows)
      ensures r.Fail? ==> r.error == TaskflowNotFound && taskflows == old(taskflows) && taskHandles == old(taskHandles)
      ensures r == Pass ==>
        var g := old(taskflows)[tfId];
        var handles: map<int, nat> := old(taskHandles)[tfId][taskId := |g.names|];
        && taskflows == old(taskflows)[tfId := g.Emplace(name)]
        && taskHandles == old(taskHandles)[tfId := handles]
      ensures nextId == old(nextId) && atomspaces == old(atomspaces) && atoms == old(atoms) && tensors == old(tensors)
    {
      if tfId !in taskflows {
        return Fail(TaskflowNotFound);
      }
      var g := taskflows[tfId];
      var handles: map<int, nat> := taskHandles[tfId][taskId := |g.names|];
      EmplaceKeepsFlowValid(g, taskHandles[tfId], taskId, name);
      taskflows := taskflows[tfId := g.Emplace(name)];
      taskHandles := taskHandles[tfId := handles];
      r := Pass;
    }

    /**
     `add_dependency`: fails when the taskflow is unknown, or when either task
     id has no handle in it; otherwise appends the edge between the two
     handles' nodes. Neither self-loops nor cycles are rejected.
     */
    method AddDependency(tfId: int, fromTask: int, toTask: int) returns (r: Outcome)
      requires Valid()
      modifies this
      ensures Valid()
      ensures tfId !in old(taskHandles) ==> r == Fail(TaskflowNotFound)
      ensures tfId in old(taskHandles) && (fromTask !in old(taskHandles)[tfId] || toTask !in old(taskHandles)[tfId]) ==>
                r == Fail(TaskNotFound)
      ensures r == Pass <==>
                tfId in old(taskHandles) && fromTask in old(taskHandles)[tfId] && toTask in old(taskHandles)[tfId]
      ensures r.Fail? ==> taskflows == old(taskflows)
      ensures r == Pass ==>
        var g, h := old(taskflows)[tfId], old(taskHandles)[tfId];
        taskflows == old(taskflows)[tfId := g.Precede(h[fromTask], h[toTask])]
      ensures taskHandles == old(taskHandles)
      ensures nextId == old(nextId) && atomspaces == old(atomspaces) && atoms == old(atoms) && tensors == old(tensors)
    {
      if tfId !in taskHandles {
        return Fail(TaskflowNotFound);
      }
      var handles := taskHandles[tfId];
      if fromTask !in handles || toTask !in handles {
        return Fail(TaskNotFound);
      }
      var g := taskflows[tfId];
      PrecedeKeepsFlowValid(g, handles, fromTask, toTask);
      taskflows := taskflows[tfId := g.Precede(handles[fromTask], handles[toTask])];
      r := Pass;
    }

    /** `create_atomspace`, as far as ids go: take the next id and register it as an atomspace. */
    method CreateAtomspace() returns (id: int)
      requires Valid()
      modifies this
      ensures Valid()
      ensures id == old(nextId) && nextId == old(nextId) + 1 && old(Unused(id))
      ensures atomspaces == old(atomspaces) + {id}
      ensures taskflows == old(taskflows) && taskHandles == old(taskHandles)
      ensures atoms == old(atoms) && tensors == old(tensors)
    {
      id := nextId;
      nextId := nextId + 1;
      atomspaces := atomspaces + {id};
    }

    /**
     `add_atom`, as far as ids go: fails when the atomspace is unknown (without
     taking an id); otherwise takes the next id and registers it as an atom.
     */
    method AddAtom(spaceId: int, atomType: int, name: string) returns (r: Result<int>)
      requires Valid()
      modifies this
      ensures Valid()
      ensures r.Err? <==> spaceId !in old(atomspaces)
      ensures r.Err? ==> r.error == AtomSpaceNotFound && nextId == old(nextId) && atoms == old(atoms)
      ensures r.Ok? ==> r.value == old(nextId) && nextId == old(nextId) + 1 && old(Unused(r.value))
      ensures r.Ok? ==> atoms == old(atoms) + {r.value}
      ensures taskflows == old(taskflows) && taskHandles == old(taskHandles)
      ensures atomspaces == old(atomspaces) && tensors == old(tensors)
    {
      if spaceId !in atomspaces {
        return Err(AtomSpaceNotFound);
      }
      var atomId := nextId;
      nextId := nextId + 1;
      atoms := atoms + {atomId};
      r := Ok(atomId);
    }

    /** `create_tensor`, as far as ids go: take the next id and register a tensor of the given shape. */
    method CreateTensor(shape: seq<int>) returns (id: int)
      requires Valid()
      modifies this
      ensures Valid()
      ensures id == old(nextId) && nextId == old(nextId) + 1 && old(Unused(id))
      ensures tensors == old(tensors)[id := shape]
      ensures taskflows == old(taskflows) && taskHandles == old(taskHandles)
      ensures atomspaces == old(atomspaces) && atoms == old(atoms)
    {
      id := nextId;
      nextId := nextId + 1;
      tensors := tensors[id := shape];
    }

    /**
     The first loop of `tree_to_taskgraph`: into the empty taskflow `id`,
     add tasks `0 .. n-1` in order, task `i` named `task_<i>`.
     */
    method EmplaceTasks(id: int, n: nat)
      requires Valid()
      requires id in taskflows && taskflows[id] == Empty && taskHandles[id] == map[]
      modifies this
      ensures Valid()
      ensures taskflows == old(taskflows)[id := TaskGraph(TaskNames(n), [])]
      ensures taskHandles == old(taskHandles)[id := IdentityHandles(n)]
      ensures nextId == old(nextId) && atomspaces == old(atomspaces) && atoms == old(atoms) && tensors == old(tensors)
    {
      var i := 0;
      while i < n
        invariant Valid()
        invariant 0 <= i <= n
        invariant taskflows == old(taskflows)[id := TaskGraph(TaskNames(i), [])]
        invariant taskHandles == old(taskHandles)[id := IdentityHandles(i)]
        invariant nextId == old(nextId) && atomspaces == old(atomspaces) && atoms == old(atoms) && tensors == old(tensors)
      {
        var r := AddTask(id, i, TaskName(i));
        assert r == Pass;
        i := i + 1;
      }
    }

    /**
     One round of the second loop of `tree_to_taskgraph`: in taskflow `id`,
     whose edges are those of nodes `1 .. i-1`, add the edge from node `i`'s
     parent, if it has one.
     */
    method LinkParent(id: int, levels: seq<int>, i: nat, ghost others: map<int, TaskGraph>)
      requires Valid()
      requires 1 <= i < |levels|
      requires taskflows == others[id := TaskGraph(TaskNames(|levels|), EdgesBelow(levels, i))]
      requires id in taskHandles && taskHandles[id] == IdentityHandles(|levels|)
      modifies this
      ensures Valid()
      ensures taskflows == others[id := TaskGraph(TaskNames(|levels|), EdgesBelow(levels, i + 1))]
      ensures taskHandles == old(taskHandles)
      ensures nextId == old(nextId) && atomspaces == old(atomspaces) && atoms == old(atoms) && tensors == old(tensors)
    {
      var n := |levels|;
      ghost var after := TaskGraph(TaskNames(n), EdgesBelow(levels, i + 1));
      var parent := FindParent(levels, i);
      if parent.Some? {
        var j := parent.value;
        IdentityHandlesAt(n, j);
        IdentityHandlesAt(n, i);
        var r := AddDependency(id, j, i);
        assert r == Pass;
        assert old(taskflows)[id].Precede(j, i) == after;
      } else {
        assert EdgesBelow(levels, i + 1) == EdgesBelow(levels, i);
        assert old(taskflows)[id := after] == old(taskflows);
      }
    }

    /**
     The second loop of `tree_to_taskgraph`: in taskflow `id`, whose tasks
     `0 .. |levels|-1` are nodes `0 .. |levels|-1`, make every node `i >= 1`
     run after its parent, when it has one.
     */
    method LinkParents(id: int, levels: seq<int>)
      requires Valid()
      requires id in taskflows && taskflows[id] == TaskGraph(TaskNames(|levels|), [])
      requires taskHandles[id] == IdentityHandles(|levels|)
      modifies this
      ensures Valid()
      ensures taskflows == old(taskflows)[id := Decoded(levels)]
      ensures taskHandles == old(taskHandles)
      ensures nextId == old(nextId) && atomspaces == old(atomspaces) && atoms == old(atoms) && tensors == old(tensors)
    {
      var n := |levels|;
      if n == 0 {
        assert Decoded(levels) == TaskGraph(TaskNames(0), []);
        return;
      }
      var i := 1;
      while i < n
        invariant Valid()
        invariant 1 <= i <= n
        invariant taskflows == old(taskflows)[id := TaskGraph(TaskNames(n), EdgesBelow(levels, i))]
        invariant taskHandles == old(taskHandles)
        invariant nextId == old(nextId) && atomspaces == old(atomspaces) && atoms == old(atoms) && tensors == old(tensors)
      {
        LinkParent(id, levels, i, old(taskflows));
        i := i + 1;
      }
    }

    /**
     `tree_to_taskgraph`: create a fresh taskflow, emplace tasks `0 .. n-1`
     named `task_<i>`, then give each node `i >= 1` the edge from its parent
     in the level sequence, if it has one. It never fails.
     */
    method TreeToTaskgraph(levels: seq<int>) returns (id: int)
      requires Valid()
      modifies this
      ensures Valid()
      ensures id == old(nextId) && nextId == old(nextId) + 1 && old(Unused(id))
      ensures taskflows == old(taskflows)[id := Decoded(levels)]
      ensures taskHandles == old(taskHandles)[id := IdentityHandles(|levels|)]
      ensures atomspaces == old(atomspaces) && atoms == old(atoms) && tensors == old(tensors)
    {
      id := CreateTaskflow();
      EmplaceTasks(id, |levels|);
      LinkParents(id, levels);
    }
  }
}
