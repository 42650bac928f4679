/** Accepted graphs on which running the compiled list differs from walking the drawn graph. */
module Counterexamples {
  import opened Graphs
  import opened Workflows
  import opened Compiler
  import opened Traversal
  import opened Meaning
  import opened Preservation
  import opened Customers
  import opened Utils

  const CHECK := Condition("visitCount", Gt, Num(3.0))

  const TRIGGER := Node("t", TriggerNode(Some(BIRTHDAY), map[]))
  const CONDITION := Node("c", ConditionNode(CHECK))
  const DELAY := Node("d", DelayNode(Some(60)))
  const ACTION := Node("a", ActionNode(Some(SEND_WHATSAPP), map["templateName" := Text("hello")]))
  const CONFIG := map["templateName" := Text("hello"), "langCode" := Text("en_US")]

  lemma DistinctIds()
    ensures "t" != "c" && "t" != "d" && "t" != "a" && "c" != "d" && "c" != "a" && "d" != "a"
    ensures "m" != "t" && "m" != "c" && "m" != "a"
  {
    assert "m"[0] != "t"[0] && "m"[0] != "c"[0] && "m"[0] != "a"[0];
    assert "t"[0] != "c"[0] && "t"[0] != "d"[0] && "t"[0] != "a"[0];
    assert "c"[0] != "d"[0] && "c"[0] != "a"[0] && "d"[0] != "a"[0];
  }

  lemma {:induction false} RankGrows(edges: seq<Edge>, rank: NodeId -> int, n: NodeId, p: Path, m: NodeId)
    requires IsPath(edges, n, p, m)
    requires forall e :: e in edges ==> rank(e.source) < rank(e.target)
    ensures rank(n) + |p| <= rank(m)
    decreases |p|
  {
    if p != [] {
      RankGrows(edges, rank, n, p[..|p| - 1], p[|p| - 1].source);
    }
  }

  lemma AcyclicByRank(edges: seq<Edge>, rank: NodeId -> int)
    requires forall e :: e in edges ==> rank(e.source) < rank(e.target)
    ensures !HasCycle(edges)
  {
    forall n, p | IsPath(edges, n, p, n) ensures p == [] {
      RankGrows(edges, rank, n, p, n);
    }
  }

  function Rank(n: NodeId): int {
    if n == "t" then 0 else if n == "m" then 1 else if n == "a" then 3 else 2
  }

  lemma OutgoingOfMore(edges: seq<Edge>, e: Edge, n: NodeId)
    ensures Outgoing(edges + [e], n) == if e.source == n then Outgoing(edges, n) + [e] else Outgoing(edges, n)
  {
    assert (edges + [e])[..|edges|] == edges;
  }

  lemma NodeMapOfMore(nodes: seq<Node>, node: Node)
    ensures NodeMap(nodes + [node]) == NodeMap(nodes)[node.id := node.kind]
  {
    assert (nodes + [node])[..|nodes|] == nodes;
  }

  /** One step of the traversal, on a queue given by its first entry and the rest. */
  lemma VisitFirst(kinds: Kinds, edges: seq<Edge>, n: NodeId, c: Context, rest: seq<QueueEntry>,
                   visited: set<NodeId>, order: nat)
    requires n in kinds && n !in visited
    ensures var next := rest + Children(kinds[n], Outgoing(edges, n), c);
            Traverse(kinds, edges, [QueueEntry(n, c)] + rest, visited, order) ==
            if kinds[n].ActionNode? then
              [ActionFor(kinds[n], n, c, order)]
              + Traverse(kinds, edges, next, visited + {n}, order + 1)
            else Traverse(kinds, edges, next, visited + {n}, order)
  {
    assert ([QueueEntry(n, c)] + rest)[1..] == rest;
  }

  /** A queue of one node that is no action and has one child. */
  lemma PassOn(kinds: Kinds, edges: seq<Edge>, n: NodeId, c: Context, e: Edge, visited: set<NodeId>)
    requires n in kinds && n !in visited && Outgoing(edges, n) == [e]
    requires !kinds[n].ActionNode? && !kinds[n].UnknownNode?
    ensures Traverse(kinds, edges, [QueueEntry(n, c)], visited, 0)
         == Traverse(kinds, edges, [QueueEntry(e.target, Advance(kinds[n], e.handle, c))], visited + {n}, 0)
  {
    hide Traverse, Children;
    assert [QueueEntry(n, c)] == [QueueEntry(n, c)] + [];
    VisitFirst(kinds, edges, n, c, [], visited, 0);
    ChildrenOfOne(kinds[n], e, c);
    assert [] + Children(kinds[n], [e], c) == [QueueEntry(e.target, Advance(kinds[n], e.handle, c))];
  }

  /** A queue of one action node without children. */
  lemma Arrive(kinds: Kinds, edges: seq<Edge>, n: NodeId, c: Context, visited: set<NodeId>)
    requires n in kinds && n !in visited && Outgoing(edges, n) == [] && kinds[n].ActionNode?
    ensures Traverse(kinds, edges, [QueueEntry(n, c)], visited, 0) == [ActionFor(kinds[n], n, c, 0)]
  {
    hide Traverse, ActionFor;
    assert [QueueEntry(n, c)] == [QueueEntry(n, c)] + [];
    VisitFirst(kinds, edges, n, c, [], visited, 0);
    assert [] + Children(kinds[n], [], c) == [];
    EmptyCases(kinds, edges, visited + {n}, 1);
  }

  lemma EmptyCases(kinds: Kinds, edges: seq<Edge>, visited: set<NodeId>, order: nat)
    ensures NodeMap([]) == map[]
    ensures forall n :: Outgoing([], n) == []
    ensures Traverse(kinds, edges, [], visited, order) == []
  {
  }

  lemma ActionCompiled(c: Context)
    ensures ActionFor(ACTION.kind, "a", c, 0)
         == CompiledAction(0, "a", Some(SEND_WHATSAPP), CONFIG, c.delay, c.conditions)
  {
  }

  // ---- trigger -> condition -no-> action ---------------------------------------------------------

  const TO_CHECK := Edge("e1", "t", "c", Plain)
  const IF_NOT := Edge("e2", "c", "a", No)
  const NEGATIVE_NODES := [TRIGGER, CONDITION, ACTION]
  const NEGATIVE_EDGES := [TO_CHECK, IF_NOT]

  lemma NegativeOutgoing()
    ensures Outgoing(NEGATIVE_EDGES, "t") == [TO_CHECK]
    ensures Outgoing(NEGATIVE_EDGES, "c") == [IF_NOT]
    ensures Outgoing(NEGATIVE_EDGES, "a") == []
  {
    hide Outgoing;
    DistinctIds();
    EmptyCases(map[], [], {}, 0);
    assert [TO_CHECK] == [] + [TO_CHECK] && NEGATIVE_EDGES == [TO_CHECK] + [IF_NOT];
    forall n
      ensures Outgoing(NEGATIVE_EDGES, n)
           == (if n == "t" then [TO_CHECK] else []) + if n == "c" then [IF_NOT] else []
    {
      OutgoingOfMore([], TO_CHECK, n);
      OutgoingOfMore([TO_CHECK], IF_NOT, n);
    }
  }

  lemma NegativeKinds()
    ensures NodeMap(NEGATIVE_NODES) == map["t" := TRIGGER.kind, "c" := CONDITION.kind, "a" := ACTION.kind]
    ensures Triggers(NEGATIVE_NODES) == [TRIGGER]
  {
    hide NodeMap;
    assert [ACTION] == [ACTION] + [] && [CONDITION, ACTION] == [CONDITION] + [ACTION];
    assert NEGATIVE_NODES == [TRIGGER] + [CONDITION, ACTION];
    TriggersOfMore(ACTION, []);
    TriggersOfMore(CONDITION, [ACTION]);
    TriggersOfMore(TRIGGER, [CONDITION, ACTION]);
    assert [TRIGGER] == [] + [TRIGGER] && [TRIGGER, CONDITION] == [TRIGGER] + [CONDITION];
    assert NEGATIVE_NODES == [TRIGGER, CONDITION] + [ACTION];
    NodeMapOfMore([], TRIGGER);
    NodeMapOfMore([TRIGGER], CONDITION);
    NodeMapOfMore([TRIGGER, CONDITION], ACTION);
    EmptyCases(map[], [], {}, 0);
  }

  lemma TriggersOfMore(node: Node, rest: seq<Node>)
    ensures Triggers([node] + rest) == (if node.kind.TriggerNode? then [node] else []) + Triggers(rest)
  {
    assert ([node] + rest)[1..] == rest;
  }

  lemma ChildrenOfOne(kind: NodeKind, e: Edge, c: Context)
    requires !kind.UnknownNode?
    ensures Children(kind, [e], c) == [QueueEntry(e.target, Advance(kind, e.handle, c))]
  {
  }

  lemma NegativeActions()
    ensures Triggers(NEGATIVE_NODES) == [TRIGGER]
    ensures ActionsOf(NEGATIVE_NODES, NEGATIVE_EDGES)
         == [CompiledAction(0, "a", Some(SEND_WHATSAPP), CONFIG, 0, [CompiledCondition(CHECK, NoBranch)])]
  {
    hide Traverse, Outgoing, NodeMap, Children, Triggers, ActionFor, ActionConfig;
    DistinctIds();
    NegativeOutgoing();
    NegativeKinds();
    var kinds := NodeMap(NEGATIVE_NODES);
    var tagged := Context(0, [CompiledCondition(CHECK, NoBranch)]);
    PassOn(kinds, NEGATIVE_EDGES, "t", START, TO_CHECK, {});
    PassOn(kinds, NEGATIVE_EDGES, "c", START, IF_NOT, {} + {"t"});
    assert Advance(kinds["c"], No, START) == tagged;
    ActionCompiled(tagged);
    Arrive(kinds, NEGATIVE_EDGES, "a", tagged, {} + {"t"} + {"c"});
  }

  lemma NegativeAcyclic()
    ensures !HasCycle(NEGATIVE_EDGES)
  {
    DistinctIds();
    AcyclicByRank(NEGATIVE_EDGES, Rank);
  }

  lemma NegativeAccepted()
    ensures Accepted(NEGATIVE_NODES, NEGATIVE_EDGES)
  {
    hide Traverse, Outgoing, NodeMap, HasCycle;
    DistinctIds();
    NegativeActions();
    NegativeAcyclic();
    assert TRIGGER in NEGATIVE_NODES && CONDITION in NEGATIVE_NODES && ACTION in NEGATIVE_NODES;
    assert NEGATIVE_NODES[2].kind.ActionNode?;
  }

  const REGULAR: CustomerRecord := map["visitCount" := Num(4.0)]
  const NEWCOMER: CustomerRecord := map["visitCount" := Num(0.0)]

  lemma CheckOutcomes(coerce: Coercion)
    ensures Holds(CHECK, REGULAR, coerce) && !Holds(CHECK, NEWCOMER, coerce)
  {
  }

  /** The message behind a `no` edge goes to the wrong customers: a customer with four visits, for whom the
      condition holds, is selected although no walk reaches the action; a customer with none is reached by the
      walk and not selected. */
  lemma NegativeEdgeInverts(coerce: Coercion)
    ensures Accepted(NEGATIVE_NODES, NEGATIVE_EDGES) && SingleIncoming(NEGATIVE_EDGES)
    ensures !AlwaysPreserved(NEGATIVE_NODES, NEGATIVE_EDGES)
    ensures ActionsOf(NEGATIVE_NODES, NEGATIVE_EDGES)
         == [CompiledAction(0, "a", Some(SEND_WHATSAPP), CONFIG, 0, [CompiledCondition(CHECK, NoBranch)])]
    ensures EvaluateActionConditions(ActionsOf(NEGATIVE_NODES, NEGATIVE_EDGES)[0], REGULAR, coerce)
    ensures forall delay :: !Walked(NEGATIVE_NODES, NEGATIVE_EDGES, OutcomesFor(REGULAR, coerce), "a", delay)
    ensures !EvaluateActionConditions(ActionsOf(NEGATIVE_NODES, NEGATIVE_EDGES)[0], NEWCOMER, coerce)
    ensures Walked(NEGATIVE_NODES, NEGATIVE_EDGES, OutcomesFor(NEWCOMER, coerce), "a", 0)
  {
    hide Traverse, Outgoing, NodeMap, Accepted, AlwaysPreserved, Walked, Holds;
    DistinctIds();
    NegativeAccepted();
    NegativeActions();
    CheckOutcomes(coerce);
    var actions := ActionsOf(NEGATIVE_NODES, NEGATIVE_EDGES);
    assert actions[0].branchConditions[0].branch == NoBranch;
    MeaningPreservedIffNoNegativeTag(NEGATIVE_NODES, NEGATIVE_EDGES);
    TreeEntry(NEGATIVE_NODES, NEGATIVE_EDGES, OutcomesFor(REGULAR, coerce), 0);
    TreeEntry(NEGATIVE_NODES, NEGATIVE_EDGES, OutcomesFor(NEWCOMER, coerce), 0);
  }

  // ---- trigger -> condition -> action and trigger -> delay -> action -----------------------------

  const TO_DELAY := Edge("e2", "t", "d", Plain)
  const IF_TRUE := Edge("e3", "c", "a", Yes)
  const LATER := Edge("e4", "d", "a", Plain)
  const MERGE_NODES := [TRIGGER, CONDITION, DELAY, ACTION]
  const MERGE_EDGES := [TO_CHECK, TO_DELAY, IF_TRUE, LATER]

  lemma MergeOut(n: NodeId)
    ensures Outgoing(MERGE_EDGES, n) == if n == "t" then [TO_CHECK, TO_DELAY]
                                       else if n == "c" then [IF_TRUE]
                                       else if n == "d" then [LATER]
                                       else []
  {
    hide Outgoing;
    DistinctIds();
    EmptyCases(map[], [], {}, 0);
    assert [TO_CHECK] == [] + [TO_CHECK] && [TO_CHECK, TO_DELAY] == [TO_CHECK] + [TO_DELAY];
    assert [TO_CHECK, TO_DELAY, IF_TRUE] == [TO_CHECK, TO_DELAY] + [IF_TRUE];
    assert MERGE_EDGES == [TO_CHECK, TO_DELAY, IF_TRUE] + [LATER];
    OutgoingOfMore([], TO_CHECK, n);
    OutgoingOfMore([TO_CHECK], TO_DELAY, n);
    OutgoingOfMore([TO_CHECK, TO_DELAY], IF_TRUE, n);
    OutgoingOfMore([TO_CHECK, TO_DELAY, IF_TRUE], LATER, n);
  }

  lemma MergeOutgoing()
    ensures Outgoing(MERGE_EDGES, "t") == [TO_CHECK, TO_DELAY]
    ensures Outgoing(MERGE_EDGES, "c") == [IF_TRUE]
    ensures Outgoing(MERGE_EDGES, "d") == [LATER]
    ensures Outgoing(MERGE_EDGES, "a") == []
  {
    hide Outgoing;
    DistinctIds();
    MergeOut("t");
    MergeOut("c");
    MergeOut("d");
    MergeOut("a");
  }

  lemma MergeKinds()
    ensures NodeMap(MERGE_NODES)
         == map["t" := TRIGGER.kind, "c" := CONDITION.kind, "d" := DELAY.kind, "a" := ACTION.kind]
    ensures Triggers(MERGE_NODES) == [TRIGGER]
  {
    hide NodeMap;
    assert [ACTION] == [ACTION] + [] && [DELAY, ACTION] == [DELAY] + [ACTION];
    assert [CONDITION, DELAY, ACTION] == [CONDITION] + [DELAY, ACTION];
    assert MERGE_NODES == [TRIGGER] + [CONDITION, DELAY, ACTION];
    TriggersOfMore(ACTION, []);
    TriggersOfMore(DELAY, [ACTION]);
    TriggersOfMore(CONDITION, [DELAY, ACTION]);
    TriggersOfMore(TRIGGER, [CONDITION, DELAY, ACTION]);
    assert [TRIGGER] == [] + [TRIGGER] && [TRIGGER, CONDITION] == [TRIGGER] + [CONDITION];
    assert [TRIGGER, CONDITION, DELAY] == [TRIGGER, CONDITION] + [DELAY];
    assert MERGE_NODES == [TRIGGER, CONDITION, DELAY] + [ACTION];
    NodeMapOfMore([], TRIGGER);
    NodeMapOfMore([TRIGGER], CONDITION);
    NodeMapOfMore([TRIGGER, CONDITION], DELAY);
    NodeMapOfMore([TRIGGER, CONDITION, DELAY], ACTION);
    EmptyCases(map[], [], {}, 0);
  }

  lemma MergeActions()
    ensures Triggers(MERGE_NODES) == [TRIGGER]
    ensures ActionsOf(MERGE_NODES, MERGE_EDGES)
         == [CompiledAction(0, "a", Some(SEND_WHATSAPP), CONFIG, 0, [CompiledCondition(CHECK, YesBranch)])]
  {
    hide Traverse, Outgoing, NodeMap, Children, Triggers, ActionFor, ActionConfig;
    DistinctIds();
    MergeOutgoing();
    MergeKinds();
    var kinds := NodeMap(MERGE_NODES);
    var tagged, waited := Context(0, [CompiledCondition(CHECK, YesBranch)]), Context(60, []);
    var c, d := QueueEntry("c", START), QueueEntry("d", START);
    var a, late := QueueEntry("a", tagged), QueueEntry("a", waited);
    var seen := {} + {"t"} + {"c"} + {"d"};
    assert [QueueEntry("t", START)] == [QueueEntry("t", START)] + [];
    VisitFirst(kinds, MERGE_EDGES, "t", START, [], {}, 0);
    ChildrenOfTwo(kinds["t"], TO_CHECK, TO_DELAY, START);
    VisitFirst(kinds, MERGE_EDGES, "c", START, [d], {} + {"t"}, 0);
    ChildrenOfOne(kinds["c"], IF_TRUE, START);
    assert Advance(kinds["c"], Yes, START) == tagged;
    VisitFirst(kinds, MERGE_EDGES, "d", START, [a], {} + {"t"} + {"c"}, 0);
    ChildrenOfOne(kinds["d"], LATER, START);
    assert Advance(kinds["d"], Plain, START) == waited;
    ActionCompiled(tagged);
    VisitFirst(kinds, MERGE_EDGES, "a", tagged, [late], seen, 0);
    assert [late] + Children(kinds["a"], [], tagged) == [late];
    SkipOnly(kinds, MERGE_EDGES, late, seen + {"a"}, 1);
  }

  lemma ChildrenOfTwo(kind: NodeKind, e: Edge, f: Edge, c: Context)
    requires !kind.UnknownNode?
    ensures [] + Children(kind, [e, f], c)
         == [QueueEntry(e.target, Advance(kind, e.handle, c))] + [QueueEntry(f.target, Advance(kind, f.handle, c))]
  {
  }

  lemma SkipOnly(kinds: Kinds, edges: seq<Edge>, entry: QueueEntry, visited: set<NodeId>, order: nat)
    requires entry.node in visited
    ensures Traverse(kinds, edges, [entry], visited, order) == []
  {
    assert [entry][1..] == [];
  }

  lemma IdsOfFour(a: Node, b: Node, c: Node, d: Node)
    ensures {a.id, b.id, c.id, d.id} <= Ids([a, b, c, d])
  {
    var nodes := [a, b, c, d];
    assert nodes[0] in nodes && nodes[1] in nodes && nodes[2] in nodes && nodes[3] in nodes;
  }

  lemma MergeAcyclic()
    ensures !HasCycle(MERGE_EDGES)
    ensures Within(MERGE_EDGES, Ids(MERGE_NODES))
  {
    hide HasCycle;
    DistinctIds();
    AcyclicByRank(MERGE_EDGES, Rank);
    IdsOfFour(TRIGGER, CONDITION, DELAY, ACTION);
  }

  lemma MergeAccepted()
    ensures Accepted(MERGE_NODES, MERGE_EDGES) && NoNegativeEdges(MERGE_NODES, MERGE_EDGES)
  {
    hide Traverse, Outgoing, HasCycle, Within, Triggers;
    DistinctIds();
    MergeActions();
    MergeKinds();
    MergeAcyclic();
    assert MERGE_NODES[3].kind.ActionNode?;
  }

  lemma LatePath()
    ensures IsPath(MERGE_EDGES, "t", [TO_DELAY, LATER], "a")
  {
    StepTo(MERGE_EDGES, "t", [], TO_DELAY);
    assert [] + [TO_DELAY] == [TO_DELAY] && [TO_DELAY] + [LATER] == [TO_DELAY, LATER];
    StepTo(MERGE_EDGES, "t", [TO_DELAY], LATER);
  }

  lemma LateContext()
    ensures ContextOf(NodeMap(MERGE_NODES), [TO_DELAY, LATER]) == Context(60, [])
  {
    hide NodeMap;
    MergeKinds();
    DistinctIds();
    var kinds, p := NodeMap(MERGE_NODES), [TO_DELAY, LATER];
    assert KindOf(kinds, "t") == TRIGGER.kind && KindOf(kinds, "d") == DELAY.kind;
    hide KindOf;
    assert p[..1] == [TO_DELAY];
    assert ContextOf(kinds, p[..1]) == START;
  }

  /** An action reached by two paths keeps only the first one found: a customer with no visits fails the
      condition, the walk still reaches the action by the other path after an hour, and the compiled list
      drops it. */
  lemma MergeLosesAction(coerce: Coercion)
    ensures Accepted(MERGE_NODES, MERGE_EDGES) && NoNegativeEdges(MERGE_NODES, MERGE_EDGES)
    ensures !AlwaysPreserved(MERGE_NODES, MERGE_EDGES)
    ensures forall action :: action in ActionsOf(MERGE_NODES, MERGE_EDGES) ==>
                               !EvaluateActionConditions(action, NEWCOMER, coerce)
    ensures Walked(MERGE_NODES, MERGE_EDGES, OutcomesFor(NEWCOMER, coerce), "a", 60)
  {
    hide Traverse, Outgoing, Accepted, NodeMap, IsPath, ContextOf, Holds, Walk, NoNegativeEdges;
    MergeAccepted();
    MergeActions();
    MergeKinds();
    DistinctIds();
    CheckOutcomes(coerce);
    LatePath();
    LateContext();
    var v := OutcomesFor(NEWCOMER, coerce);
    WalkOutcome(MERGE_NODES, MERGE_EDGES, [TO_DELAY, LATER], "a", v);
    assert TagsAgree([], v);
    assert KindOf(NodeMap(MERGE_NODES), "a").ActionNode?;
    assert Walked(MERGE_NODES, MERGE_EDGES, v, "a", 60);
    assert ActionsOf(MERGE_NODES, MERGE_EDGES)[0].branchConditions[0].condition == CHECK;
    assert !Selected(ActionsOf(MERGE_NODES, MERGE_EDGES), v, "a", 60);
    assert !Preserved(MERGE_NODES, MERGE_EDGES, v);
  }

  // ---- trigger -> a condition nobody meets -> condition -no-> action ------------------------------

  /** The value of an `in` condition should be a list; with anything else the condition never holds. */
  const MISTAKE := Condition("segment", In, Text("VIP"))
  const MISTAKEN := Node("m", ConditionNode(MISTAKE))
  const TO_MISTAKE := Edge("e1", "t", "m", Plain)
  const THROUGH := Edge("e3", "m", "c", Yes)
  const DEAD_NODES := [TRIGGER, MISTAKEN, CONDITION, ACTION]
  const DEAD_EDGES := [TO_MISTAKE, THROUGH, IF_NOT]

  lemma DeadOut(n: NodeId)
    ensures Outgoing(DEAD_EDGES, n) == if n == "t" then [TO_MISTAKE]
                                       else if n == "m" then [THROUGH]
                                       else if n == "c" then [IF_NOT]
                                       else []
  {
    hide Outgoing;
    DistinctIds();
    EmptyCases(map[], [], {}, 0);
    assert [TO_MISTAKE] == [] + [TO_MISTAKE] && [TO_MISTAKE, THROUGH] == [TO_MISTAKE] + [THROUGH];
    assert DEAD_EDGES == [TO_MISTAKE, THROUGH] + [IF_NOT];
    OutgoingOfMore([], TO_MISTAKE, n);
    OutgoingOfMore([TO_MISTAKE], THROUGH, n);
    OutgoingOfMore([TO_MISTAKE, THROUGH], IF_NOT, n);
  }

  lemma DeadKinds()
    ensures NodeMap(DEAD_NODES)
         == map["t" := TRIGGER.kind, "m" := MISTAKEN.kind, "c" := CONDITION.kind, "a" := ACTION.kind]
    ensures Triggers(DEAD_NODES) == [TRIGGER]
  {
    hide NodeMap;
    assert [ACTION] == [ACTION] + [] && [CONDITION, ACTION] == [CONDITION] + [ACTION];
    assert [MISTAKEN, CONDITION, ACTION] == [MISTAKEN] + [CONDITION, ACTION];
    assert DEAD_NODES == [TRIGGER] + [MISTAKEN, CONDITION, ACTION];
    TriggersOfMore(ACTION, []);
    TriggersOfMore(CONDITION, [ACTION]);
    TriggersOfMore(MISTAKEN, [CONDITION, ACTION]);
    TriggersOfMore(TRIGGER, [MISTAKEN, CONDITION, ACTION]);
    assert [TRIGGER] == [] + [TRIGGER] && [TRIGGER, MISTAKEN] == [TRIGGER] + [MISTAKEN];
    assert [TRIGGER, MISTAKEN, CONDITION] == [TRIGGER, MISTAKEN] + [CONDITION];
    assert DEAD_NODES == [TRIGGER, MISTAKEN, CONDITION] + [ACTION];
    NodeMapOfMore([], TRIGGER);
    NodeMapOfMore([TRIGGER], MISTAKEN);
    NodeMapOfMore([TRIGGER, MISTAKEN], CONDITION);
    NodeMapOfMore([TRIGGER, MISTAKEN, CONDITION], ACTION);
    EmptyCases(map[], [], {}, 0);
  }

  lemma DeadActions()
    ensures Triggers(DEAD_NODES) == [TRIGGER]
    ensures ActionsOf(DEAD_NODES, DEAD_EDGES)
         == [CompiledAction(0, "a", Some(SEND_WHATSAPP), CONFIG, 0,
                            [CompiledCondition(MISTAKE, YesBranch), CompiledCondition(CHECK, NoBranch)])]
  {
    hide Traverse, Outgoing, NodeMap, Children, Triggers, ActionFor, ActionConfig;
    DistinctIds();
    DeadOut("t");
    DeadOut("m");
    DeadOut("c");
    DeadOut("a");
    DeadKinds();
    var kinds := NodeMap(DEAD_NODES);
    var once := Context(0, [CompiledCondition(MISTAKE, YesBranch)]);
    var twice := Context(0, [CompiledCondition(MISTAKE, YesBranch), CompiledCondition(CHECK, NoBranch)]);
    PassOn(kinds, DEAD_EDGES, "t", START, TO_MISTAKE, {});
    PassOn(kinds, DEAD_EDGES, "m", START, THROUGH, {} + {"t"});
    assert Advance(kinds["m"], Yes, START) == once;
    PassOn(kinds, DEAD_EDGES, "c", once, IF_NOT, {} + {"t"} + {"m"});
    assert Advance(kinds["c"], No, once) == twice;
    ActionCompiled(twice);
    Arrive(kinds, DEAD_EDGES, "a", twice, {} + {"t"} + {"m"} + {"c"});
  }

  lemma DeadAcyclic()
    ensures !HasCycle(DEAD_EDGES) && Within(DEAD_EDGES, Ids(DEAD_NODES))
  {
    hide HasCycle;
    DistinctIds();
    AcyclicByRank(DEAD_EDGES, Rank);
    IdsOfFour(TRIGGER, MISTAKEN, CONDITION, ACTION);
  }

  lemma DeadAccepted()
    ensures Accepted(DEAD_NODES, DEAD_EDGES) && SingleIncoming(DEAD_EDGES)
  {
    hide Traverse, Outgoing, HasCycle, Within, Triggers;
    DistinctIds();
    DeadActions();
    DeadKinds();
    DeadAcyclic();
    assert DEAD_NODES[3].kind.ActionNode?;
  }

  lemma DeadNegative()
    requires Triggers(DEAD_NODES) == [TRIGGER]
    ensures NegativeOnTheWay(DEAD_NODES, DEAD_EDGES, IF_NOT, "a")
  {
    hide NodeMap, Triggers;
    DistinctIds();
    DeadKinds();
    StepTo(DEAD_EDGES, "t", [], TO_MISTAKE);
    StepTo(DEAD_EDGES, "t", [] + [TO_MISTAKE], THROUGH);
    assert IsPath(DEAD_EDGES, "a", [], "a");
  }

  /** Without independent conditions a `no` edge may do no harm: nobody meets the first condition, so nobody
      is selected and nobody's walk arrives, and every customer is served as drawn, although under other
      outcomes the meaning is not preserved. */
  lemma NobodyNotices(coerce: Coercion)
    ensures Accepted(DEAD_NODES, DEAD_EDGES) && SingleIncoming(DEAD_EDGES)
    ensures !AlwaysPreserved(DEAD_NODES, DEAD_EDGES)
    ensures ServedAsDrawn(DEAD_NODES, DEAD_EDGES, coerce)
    ensures !Independent(DEAD_NODES, coerce)
  {
    hide Traverse, Outgoing, NodeMap, Accepted, SingleIncoming, Walked, AlwaysPreserved, NegativeOnTheWay,
         Independent, ServedAsDrawn, Holds;
    DeadAccepted();
    DeadActions();
    DeadNegative();
    TreePreservedIffNoNegativeEdge(DEAD_NODES, DEAD_EDGES);
    MistakeNeverHolds(coerce);
    assert ActionsOf(DEAD_NODES, DEAD_EDGES)[0].branchConditions[0] == CompiledCondition(MISTAKE, YesBranch);
    OnlyEntryUnmeetable(DEAD_NODES, DEAD_EDGES, coerce, 0);
    if Independent(DEAD_NODES, coerce) {
      CustomersShowAll(DEAD_NODES, DEAD_EDGES, coerce);
    }
  }

  lemma MistakeNeverHolds(coerce: Coercion)
    ensures forall customer: CustomerRecord :: !Holds(MISTAKE, customer, coerce)
  {
  }

  lemma OnlyEntryUnmeetable(nodes: seq<Node>, edges: seq<Edge>, coerce: Coercion, k: nat)
    requires Accepted(nodes, edges) && SingleIncoming(edges) && |ActionsOf(nodes, edges)| == 1
    requires k < |ActionsOf(nodes, edges)[0].branchConditions|
    requires ActionsOf(nodes, edges)[0].branchConditions[k].branch == YesBranch
    requires forall customer: CustomerRecord ::
               !Holds(ActionsOf(nodes, edges)[0].branchConditions[k].condition, customer, coerce)
    ensures ServedAsDrawn(nodes, edges, coerce)
  {
    assert |Triggers(nodes)| == 1;
    hide Traverse, NodeMap, Accepted, SingleIncoming, Holds, Preserved, ActionsOf, Triggers;
    forall customer: CustomerRecord ensures Preserved(nodes, edges, OutcomesFor(customer, coerce)) {
      OnlyEntryUnmet(nodes, edges, OutcomesFor(customer, coerce), k);
    }
  }

  /** In a tree with one action, behind the `yes` side of a condition that does not hold. */
  lemma OnlyEntryUnmet(nodes: seq<Node>, edges: seq<Edge>, v: Valuation, k: nat)
    requires Accepted(nodes, edges) && SingleIncoming(edges) && |ActionsOf(nodes, edges)| == 1
    requires k < |ActionsOf(nodes, edges)[0].branchConditions|
    requires ActionsOf(nodes, edges)[0].branchConditions[k].branch == YesBranch
    requires !v(ActionsOf(nodes, edges)[0].branchConditions[k].condition)
    ensures Preserved(nodes, edges, v)
  {
    assert |Triggers(nodes)| == 1;
    hide Traverse, NodeMap, Accepted, SingleIncoming, Walked, ActionsOf, Triggers, TagsAgree, ConditionsHold;
    var action := ActionsOf(nodes, edges)[0];
    UnmetTags(action.branchConditions, v, k);
    TreeEntry(nodes, edges, v, 0);
    forall a, delay ensures !Walked(nodes, edges, v, a, delay) {
      OnlyThatIsWalked(nodes, edges, v, a, delay);
    }
  }

  lemma UnmetTags(tags: seq<CompiledCondition>, v: Valuation, k: nat)
    requires k < |tags| && tags[k].branch == YesBranch && !v(tags[k].condition)
    ensures !TagsAgree(tags, v) && !ConditionsHold(tags, v)
  {
  }

  lemma OnlyThatIsWalked(nodes: seq<Node>, edges: seq<Edge>, v: Valuation, a: NodeId, delay: int)
    requires Accepted(nodes, edges) && |ActionsOf(nodes, edges)| == 1
    ensures Walked(nodes, edges, v, a, delay) ==> a == ActionsOf(nodes, edges)[0].nodeId
  {
    assert |Triggers(nodes)| == 1;
    hide Traverse, NodeMap, Accepted, Walk, IsPath, ActionsOf, Triggers, KindOf;
    if Walked(nodes, edges, v, a, delay) {
      var p :| IsPath(edges, TriggerId(nodes), p, a) && KindOf(NodeMap(nodes), a).ActionNode?
               && Walk(NodeMap(nodes), v, p, 0) == Some(delay);
      var i := EntryFor(nodes, edges, p, a);
    }
  }
}
