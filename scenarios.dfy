/**
 Runs of the bridge from a fresh instance, each proved to end in the stated
 registry: the standalone test program of the source, and the inputs the
 bridge accepts without complaint (self-loops, cycles, a task id added twice).
 */
module Scenarios {
  import opened TaskGraphs
  import opened LevelSequences
  import opened Bridge

  /** The graph of the standalone test's hand-built taskflow: B and C after A, D after B and C. */
  const Diamond: TaskGraph :=
    TaskGraph(["Task A", "Task B", "Task C", "Task D"], [Edge(0, 1), Edge(0, 2), Edge(1, 3), Edge(2, 3)])

  /** The standalone test's four `add_task` calls, tasks 1 to 4, on the empty taskflow `tf`. */
  method AddDiamondTasks(b: TaskflowBridge, tf: int)
    requires b.Valid() && tf in b.taskflows && b.taskflows[tf] == Empty && b.taskHandles[tf] == map[]
    modifies b
    ensures b.Valid() && b.nextId == old(b.nextId)
    ensures b.taskflows == old(b.taskflows)[tf := TaskGraph(Diamond.names, [])]
    ensures b.taskHandles[tf] == map[1 := 0, 2 := 1, 3 := 2, 4 := 3]
  {
    var _ := b.AddTask(tf, 1, "Task A");
    var _ := b.AddTask(tf, 2, "Task B");
    assert b.taskflows[tf].names == ["Task A", "Task B"];
    var _ := b.AddTask(tf, 3, "Task C");
    var _ := b.AddTask(tf, 4, "Task D");
    assert b.taskflows[tf] == TaskGraph(Diamond.names, []);
  }

  /** The standalone test's four `add_dependency` calls on the taskflow built by `AddDiamondTasks`. */
  method AddDiamondDependencies(b: TaskflowBridge, tf: int)
    requires b.Valid() && tf in b.taskflows && b.taskflows[tf] == TaskGraph(Diamond.names, [])
    requires b.taskHandles[tf] == map[1 := 0, 2 := 1, 3 := 2, 4 := 3]
    modifies b
    ensures b.Valid() && b.nextId == old(b.nextId)
    ensures b.taskflows == old(b.taskflows)[tf := Diamond]
  {
    var _ := b.AddDependency(tf, 1, 2);
    var _ := b.AddDependency(tf, 1, 3);
    assert b.taskflows[tf].edges == [Edge(0, 1), Edge(0, 2)];
    var _ := b.AddDependency(tf, 2, 4);
    var _ := b.AddDependency(tf, 3, 4);
    assert b.taskflows[tf] == Diamond;
  }

  /** The standalone test's first part: a new taskflow holding the diamond. */
  method BuildDiamond(b: TaskflowBridge) returns (tf: int)
    requires b.Valid()
    modifies b
    ensures b.Valid() && tf == old(b.nextId) && b.nextId == tf + 1
    ensures b.taskflows == old(b.taskflows)[tf := Diamond]
  {
    tf := b.CreateTaskflow();
    AddDiamondTasks(b, tf);
    AddDiamondDependencies(b, tf);
  }

  /** The standalone test's middle part: an atomspace, an atom in it and a 3 x 3 tensor, numbered in that order. */
  method CognitiveHandles(b: TaskflowBridge) returns (spaceId: int, atomId: int, tensorId: int)
    requires b.Valid()
    modifies b
    ensures b.Valid() && spaceId == old(b.nextId) && atomId == spaceId + 1 && tensorId == atomId + 1
    ensures b.nextId == tensorId + 1 && b.taskflows == old(b.taskflows)
  {
    spaceId := b.CreateAtomspace();
    var atom := b.AddAtom(spaceId, 1, "Concept1");
    atomId := atom.value;
    tensorId := b.CreateTensor([3, 3]);
  }

  /** The standalone test's last part: the taskflow decoded from `[1, 2, 2, 3]`. */
  method DecodeExample(b: TaskflowBridge) returns (treeId: int)
    requires b.Valid()
    modifies b
    ensures b.Valid() && treeId == old(b.nextId) && b.nextId == treeId + 1
    ensures treeId in b.taskflows && b.taskflows.Keys == old(b.taskflows.Keys) + {treeId}
    ensures b.taskflows[treeId].edges == [Edge(0, 1), Edge(0, 2), Edge(2, 3)]
    ensures |b.taskflows[treeId].names| == 4
    ensures b.taskflows[treeId].names[0] == TaskName(0) && b.taskflows[treeId].names[1] == TaskName(1)
    ensures b.taskflows[treeId].names[2] == TaskName(2) && b.taskflows[treeId].names[3] == TaskName(3)
  {
    treeId := b.TreeToTaskgraph([1, 2, 2, 3]);
    Example1223();
    TaskNamesAt(4, 0);
    TaskNamesAt(4, 1);
    TaskNamesAt(4, 2);
    TaskNamesAt(4, 3);
  }

  /**
   The standalone test program: one hand-built taskflow with a diamond of
   dependencies, an atomspace with one atom, a tensor, and the taskflow decoded
   from `[1, 2, 2, 3]`. The one counter numbers the handles 1 to 5 in creation
   order, and two taskflows end up registered.
   */
  method StandaloneRun() returns (tfId: int, spaceId: int, atomId: int, tensorId: int, treeId: int,
                                  count: nat, diamond: TaskGraph, tree: TaskGraph)
    ensures tfId == 1 && spaceId == 2 && atomId == 3 && tensorId == 4 && treeId == 5
    ensures count == 2
    ensures diamond.names == ["Task A", "Task B", "Task C", "Task D"]
    ensures diamond.edges == [Edge(0, 1), Edge(0, 2), Edge(1, 3), Edge(2, 3)]
    ensures tree.edges == [Edge(0, 1), Edge(0, 2), Edge(2, 3)]
    ensures |tree.names| == 4
    ensures tree.names[0] == TaskName(0) && tree.names[1] == TaskName(1)
    ensures tree.names[2] == TaskName(2) && tree.names[3] == TaskName(3)
  {
    var b := new TaskflowBridge(4);
    tfId := BuildDiamond(b);
    diamond := b.taskflows[tfId];
    spaceId, atomId, tensorId := CognitiveHandles(b);

    treeId := DecodeExample(b);
    tree := b.taskflows[treeId];
    count := b.NumTaskflows();
    assert b.taskflows.Keys == {tfId} + {treeId};
  }

  /** `add_dependency` accepts a task preceding itself: the call passes and the graph has a cycle. */
  method SelfLoopAccepted() returns (r: Outcome, looped: TaskGraph)
    ensures r == Pass && !Acyclic(looped.edges)
  {
    var b := new TaskflowBridge(0);
    var tf := b.CreateTaskflow();
    var _ := b.AddTask(tf, 7, "self");
    ghost var g := b.taskflows[tf];
    r := b.AddDependency(tf, 7, 7);
    looped := b.taskflows[tf];
    SelfLoopIsCycle(g, 0);
  }

  /** Tasks 1 and 2, named `a` and `b`, added to the empty taskflow `tf`. */
  method AddTwoTasks(b: TaskflowBridge, tf: int)
    requires b.Valid() && tf in b.taskflows && b.taskflows[tf] == Empty && b.taskHandles[tf] == map[]
    modifies b
    ensures b.Valid() && tf in b.taskflows
    ensures b.taskflows[tf] == TaskGraph(["a", "b"], [])
    ensures b.taskHandles[tf] == map[1 := 0, 2 := 1]
  {
    var _ := b.AddTask(tf, 1, "a");
    var _ := b.AddTask(tf, 2, "b");
  }

  /** `add_dependency` accepts two tasks preceding each other: both calls pass and the graph has a cycle. */
  method CycleAccepted() returns (forward: Outcome, backward: Outcome, cyclic: TaskGraph)
    ensures forward == Pass && backward == Pass && !Acyclic(cyclic.edges)
  {
    var b := new TaskflowBridge(0);
    var tf := b.CreateTaskflow();
    AddTwoTasks(b, tf);
    ghost var g := b.taskflows[tf];
    forward := b.AddDependency(tf, 1, 2);
    backward := b.AddDependency(tf, 2, 1);
    cyclic := b.taskflows[tf];
    BackEdgeIsCycle(g, 0, 1);
  }

  /**
   Adding a task id a second time emplaces a new node and moves the id's
   handle to it; the first node stays in the graph, unreachable by id, and a
   dependency on the id now joins the new node.
   */
  method TaskReadded() returns (g: TaskGraph, handle: nat)
    ensures g.names == ["old", "new"] && handle == 1
    ensures g.edges == [Edge(1, 1)]
  {
    var b := new TaskflowBridge(0);
    var tf := b.CreateTaskflow();
    var _ := b.AddTask(tf, 5, "old");
    var _ := b.AddTask(tf, 5, "new");
    var _ := b.AddDependency(tf, 5, 5);
    g := b.taskflows[tf];
    handle := b.taskHandles[tf][5];
  }

  /** Operations on an unknown taskflow, task or atomspace fail and take no id. */
  method UnknownHandlesFail() returns (onFlow: Outcome, onTask: Outcome, onSpace: Result<int>, next: int)
    ensures onFlow == Fail(TaskflowNotFound) && onTask == Fail(TaskNotFound)
    ensures onSpace == Err(AtomSpaceNotFound)
    ensures next == 2
  {
    var b := new TaskflowBridge(0);
    var tf := b.CreateTaskflow();
    onFlow := b.AddTask(tf + 1, 1, "x");
    onTask := b.AddDependency(tf, 1, 2);
    onSpace := b.AddAtom(tf, 0, "y");
    next := b.nextId;
  }
}
