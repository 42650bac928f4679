/** Compilation of a graph: breadth-first traversal from the trigger into a flat list of actions. */
module Compiler {
  import opened CycleDetection
  import opened Graphs
  import opened Workflows
  import opened Utils

  type Kinds = map<NodeId, NodeKind>

  function KindOf(kinds: Kinds, n: NodeId): NodeKind {
    if n in kinds then kinds[n] else UnknownNode("")
  }

  /** What a queue entry carries besides its node. */
  datatype Context = Context(delay: int, conditions: seq<CompiledCondition>)

  const START := Context(0, [])

  datatype QueueEntry = QueueEntry(node: NodeId, context: Context)

  function BranchOf(handle: Handle): Branch {
    if handle == No then NoBranch else YesBranch
  }

  /** The context handed to the target of an edge with the given handle. */
  function Advance(kind: NodeKind, handle: Handle, c: Context): Context {
    match kind
    case TriggerNode(_, _) => START
    case DelayNode(minutes) => c.(delay := c.delay + if minutes.Some? then minutes.value else 0)
    case ConditionNode(condition) =>
      c.(conditions := c.conditions + [CompiledCondition(condition, BranchOf(handle))])
    case _ => c
  }

  function Children(kind: NodeKind, out: seq<Edge>, c: Context): (children: seq<QueueEntry>)
    ensures |children| == if kind.UnknownNode? then 0 else |out|
    ensures forall i :: 0 <= i < |children| ==>
              children[i] == QueueEntry(out[i].target, Advance(kind, out[i].handle, c))
  {
    if kind.UnknownNode? then []
    else seq(|out|, i requires 0 <= i < |out| => QueueEntry(out[i].target, Advance(kind, out[i].handle, c)))
  }

  function OrElse(v: Value, other: Value): Value {
    if v.Undefined? || v.Null? then other else v
  }

  /** The configuration an action of a given type keeps of its node's data. */
  function ActionConfig(action: Option<ActionType>, data: Data): Data {
    match action
    case Some(SEND_WHATSAPP) =>
      map["templateName" := Field(data, "templateName"), "langCode" := OrElse(Field(data, "langCode"), Text("en_US"))]
    case Some(SEND_EMAIL) =>
      map["templateId" := Field(data, "emailTemplateId"), "subject" := Field(data, "emailSubject")]
    case Some(AWARD_POINTS) =>
      map["points" := Field(data, "points"), "reason" := OrElse(Field(data, "reason"), Text("AWARD_POINTS"))]
    case Some(DEDUCT_POINTS) =>
      map["points" := Field(data, "points"), "reason" := OrElse(Field(data, "reason"), Text("DEDUCT_POINTS"))]
    case Some(CHANGE_SEGMENT) => map["targetSegment" := Field(data, "targetSegment")]
    case Some(CREATE_COUPON) =>
      map["type" := Field(data, "couponType"), "value" := Field(data, "couponValue"),
          "expiryDays" := OrElse(Field(data, "expiryDays"), Num(30.0))]
    case Some(MANAGER_ALERT) =>
      map["message" := Field(data, "alertMessage"),
          "priority" := OrElse(Field(data, "alertPriority"), Text("MEDIUM"))]
    case None => map[]
  }

  /** The trigger fields the compiled form keeps, those that are there. */
  function TriggerConfig(config: Data): Data {
    map name | name in {"daysInactive", "visitCount", "spendThreshold"} && Field(config, name) != Undefined
      :: Field(config, name)
  }

  function ActionFor(kind: NodeKind, n: NodeId, c: Context, order: nat): CompiledAction
    requires kind.ActionNode?
  {
    CompiledAction(order, n, kind.action, ActionConfig(kind.action, kind.data), c.delay, c.conditions)
  }

  /** The actions emitted from a queue, given the ids visited so far and the next order number. */
  function Traverse(kinds: Kinds, edges: seq<Edge>, queue: seq<QueueEntry>, visited: set<NodeId>, order: nat)
    : (actions: seq<CompiledAction>)
    decreases kinds.Keys - visited, |queue|
  {
    if queue == [] then []
    else
      var n, c, rest := queue[0].node, queue[0].context, queue[1..];
      if n in visited then Traverse(kinds, edges, rest, visited, order)
      else if n !in kinds then Traverse(kinds, edges, rest, visited + {n}, order)
      else
        var next := rest + Children(kinds[n], Outgoing(edges, n), c);
        if kinds[n].ActionNode? then
          [ActionFor(kinds[n], n, c, order)]
          + Traverse(kinds, edges, next, visited + {n}, order + 1)
        else Traverse(kinds, edges, next, visited + {n}, order)
  }

  /** The ids a traversal has visited when its queue runs empty. */
  ghost function VisitedFrom(kinds: Kinds, edges: seq<Edge>, queue: seq<QueueEntry>, visited: set<NodeId>): set<NodeId>
    decreases kinds.Keys - visited, |queue|
  {
    if queue == [] then visited
    else
      var n, c, rest := queue[0].node, queue[0].context, queue[1..];
      if n in visited then VisitedFrom(kinds, edges, rest, visited)
      else if n !in kinds then VisitedFrom(kinds, edges, rest, visited + {n})
      else VisitedFrom(kinds, edges, rest + Children(kinds[n], Outgoing(edges, n), c), visited + {n})
  }

  method TraverseGraph(start: NodeId, adjacency: Adjacency, kinds: Kinds, ghost edges: seq<Edge>)
    returns (actions: seq<CompiledAction>, ghost reached: set<NodeId>)
    requires Represents(adjacency, edges)
    ensures actions == Traverse(kinds, edges, [QueueEntry(start, START)], {}, 0)
    ensures reached == VisitedFrom(kinds, edges, [QueueEntry(start, START)], {})
  {
    hide Represents, Advance, Outgoing, ActionFor, ActionConfig;
    actions := [];
    var visited: set<NodeId> := {};
    var queue := [QueueEntry(start, START)];
    var order := 0;
    while |queue| > 0
      invariant actions + Traverse(kinds, edges, queue, visited, order)
             == Traverse(kinds, edges, [QueueEntry(start, START)], {}, 0)
      invariant VisitedFrom(kinds, edges, queue, visited) == VisitedFrom(kinds, edges, [QueueEntry(start, START)], {})
      decreases kinds.Keys - visited, |queue|
    {
      var entry := queue[0];
      var n, c := entry.node, entry.context;
      queue := queue[1..];
      if n in visited {
        continue;
      }
      ghost var seen := visited;
      visited := visited + {n};
      if n !in kinds {
        continue;
      }
      var out := Successors(adjacency, n);
      Represented(adjacency, edges, n);
      var rest := queue;
      if kinds[n].ActionNode? {
        actions := actions + [ActionFor(kinds[n], n, c, order)];
        order := order + 1;
      }
      if !kinds[n].UnknownNode? {
        for i := 0 to |out|
          invariant queue == rest + Children(kinds[n], out, c)[..i]
        {
          queue := queue + [QueueEntry(out[i].target, Advance(kinds[n], out[i].handle, c))];
        }
      }
      assert queue == rest + Children(kinds[n], out, c);
      assert n in kinds.Keys - seen;
    }
    reached := visited;
  }

  // ---- Validation ------------------------------------------------------------------------------

  datatype GraphJson = NotAnObject | MissingArrays | Graph(nodes: seq<Node>, edges: seq<Edge>)

  datatype CompileError =
    | NotAnObjectError
    | MissingArraysError
    | EmptyGraph
    | NoTrigger
    | ManyTriggers
    | NoActionNode
    | MissingSource(edgeId: string, node: NodeId)
    | MissingTarget(edgeId: string, node: NodeId)
    | SelfLoop(edgeId: string, node: NodeId)
    | Cycle(from: NodeId, to: NodeId)
    | InvalidNode(node: NodeId)
    | NoConnectedAction
    | TooManyActions(count: nat)

  function Triggers(nodes: seq<Node>): (triggers: seq<Node>)
    ensures forall n :: n in triggers <==> n in nodes && n.kind.TriggerNode?
  {
    if nodes == [] then []
    else (if nodes[0].kind.TriggerNode? then [nodes[0]] else []) + Triggers(nodes[1..])
  }

  predicate HasActionNode(nodes: seq<Node>) {
    exists i :: 0 <= i < |nodes| && nodes[i].kind.ActionNode?
  }

  function Ids(nodes: seq<Node>): set<NodeId> {
    set n | n in nodes :: n.id
  }

  function IdList(nodes: seq<Node>): (ids: seq<NodeId>)
    ensures Ids(nodes) == set n | n in ids
  {
    var ids := seq(|nodes|, i requires 0 <= i < |nodes| => nodes[i].id);
    assert forall i :: 0 <= i < |nodes| ==> nodes[i].id == ids[i];
    ids
  }

  ghost predicate StructureOk(nodes: seq<Node>, edges: seq<Edge>) {
    && nodes != []
    && |Triggers(nodes)| == 1
    && HasActionNode(nodes)
    && Within(edges, Ids(nodes))
    && !HasCycle(edges)
  }

  lemma SelfLoopIsCycle(edges: seq<Edge>, e: Edge)
    requires e in edges && e.source == e.target
    ensures HasCycle(edges)
  {
    assert [e][..0] == [];
    assert IsPath(edges, e.source, [e], e.source);
  }

  /** The complaint is about an endpoint of one of the edges that is no node. */
  ghost predicate Dangling(x: CompileError, edges: seq<Edge>, ids: set<NodeId>) {
    exists e :: e in edges && ((x == MissingSource(e.id, e.source) && e.source !in ids)
                               || (x == MissingTarget(e.id, e.target) && e.target !in ids))
  }

  ghost predicate Loops(x: CompileError, edges: seq<Edge>) {
    exists e :: e in edges && e.source == e.target && x == SelfLoop(e.id, e.source)
  }

  /** What is wrong with the numbers of triggers and actions of a graph that has nodes. */
  ghost predicate Miscounted(x: CompileError, nodes: seq<Node>) {
    || (x == NoTrigger && |Triggers(nodes)| == 0)
    || (x == ManyTriggers && |Triggers(nodes)| > 1)
    || (x == NoActionNode && !HasActionNode(nodes))
  }

  lemma CountsOkIff(nodes: seq<Node>)
    ensures (forall x :: !Miscounted(x, nodes)) <==> |Triggers(nodes)| == 1 && HasActionNode(nodes)
  {
    assert Miscounted(NoTrigger, nodes) <==> |Triggers(nodes)| == 0;
    assert Miscounted(ManyTriggers, nodes) <==> |Triggers(nodes)| > 1;
    assert Miscounted(NoActionNode, nodes) <==> !HasActionNode(nodes);
  }

  lemma DanglingMore(edges: seq<Edge>, e: Edge, ids: set<NodeId>)
    ensures forall x :: Dangling(x, edges + [e], ids) <==> Dangling(x, edges, ids) || Dangling(x, [e], ids)
    ensures forall x :: Dangling(x, [e], ids) <==>
              || (x == MissingSource(e.id, e.source) && e.source !in ids)
              || (x == MissingTarget(e.id, e.target) && e.target !in ids)
  {
    assert forall d :: d in edges + [e] <==> d in edges || d in [e];
    assert e in [e];
  }

  lemma LoopsMore(edges: seq<Edge>, e: Edge)
    ensures forall x :: Loops(x, edges + [e]) <==>
              Loops(x, edges) || (e.source == e.target && x == SelfLoop(e.id, e.source))
  {
    assert forall d :: d in edges + [e] <==> d in edges || d == e;
  }

  lemma NoEdgesNoComplaints(ids: set<NodeId>)
    ensures forall x :: !Dangling(x, [], ids) && !Loops(x, [])
  {
  }

  lemma SoundEdgesIff(edges: seq<Edge>, ids: set<NodeId>)
    ensures (forall x :: !Dangling(x, edges, ids)) <==> Within(edges, ids)
    ensures (forall x :: !Loops(x, edges)) <==> forall e :: e in edges ==> e.source != e.target
  {
    forall e | e in edges ensures e.source !in ids ==> Dangling(MissingSource(e.id, e.source), edges, ids)
                          ensures e.target !in ids ==> Dangling(MissingTarget(e.id, e.target), edges, ids)
                          ensures e.source == e.target ==> Loops(SelfLoop(e.id, e.source), edges)
    {
    }
  }

  /** Rejects a graph exactly when it is empty, lacks a single trigger or any action, has a dangling
      edge, or has a cycle; names every count that is wrong, every dangling endpoint and every self-loop. */
  method ValidateStructure(nodes: seq<Node>, edges: seq<Edge>) returns (errors: seq<CompileError>)
    ensures errors == [] <==> StructureOk(nodes, edges)
    ensures nodes == [] ==> errors == [EmptyGraph]
    ensures nodes != [] ==>
              forall x: CompileError :: !x.Cycle? ==>
                (x in errors <==> Miscounted(x, nodes) || Dangling(x, edges, Ids(nodes)) || Loops(x, edges))
  {
    hide HasCycle, OnCycle, Triggers, Dangling, Loops, Within, HasActionNode;
    errors := [];
    if |nodes| == 0 {
      return [EmptyGraph];
    }
    var triggers := Triggers(nodes);
    if |triggers| == 0 { errors := errors + [NoTrigger]; }
    if |triggers| > 1 { errors := errors + [ManyTriggers]; }
    if !HasActionNode(nodes) { errors := errors + [NoActionNode]; }
    var ids := Ids(nodes);
    NoEdgesNoComplaints(ids);
    assert forall x :: x in errors <==> Miscounted(x, nodes);
    CountsOkIff(nodes);
    hide Miscounted;
    for i := 0 to |edges|
      invariant forall x :: x in errors <==> Miscounted(x, nodes) || Dangling(x, edges[..i], ids)
    {
      var e := edges[i];
      assert edges[..i + 1] == edges[..i] + [e];
      DanglingMore(edges[..i], e, ids);
      if e.source !in ids { errors := errors + [MissingSource(e.id, e.source)]; }
      if e.target !in ids { errors := errors + [MissingTarget(e.id, e.target)]; }
    }
    assert edges[..|edges|] == edges;
    for i := 0 to |edges|
      invariant forall x :: x in errors <==>
                  Miscounted(x, nodes) || Dangling(x, edges, ids) || Loops(x, edges[..i])
    {
      var e := edges[i];
      assert edges[..i + 1] == edges[..i] + [e];
      LoopsMore(edges[..i], e);
      if e.source == e.target { errors := errors + [SelfLoop(e.id, e.source)]; }
    }
    SoundEdgesIff(edges, ids);
    if errors == [] {
      assert forall x :: x in errors ==> false;
      var cycles := DetectCycles(IdList(nodes), edges);
      for i := 0 to |cycles|
        invariant |errors| == i && forall x :: x in errors ==> x.Cycle?
      {
        errors := errors + [Cycle(cycles[i].from, cycles[i].to)];
      }
    } else {
      assert errors[0] in errors;
      if e :| e in edges && e.source == e.target {
        SelfLoopIsCycle(edges, e);
      }
    }
  }

  const SEGMENTS := {"NEW", "LOYAL", "VIP", "AT_RISK", "LOST", "BIG_SPENDER", "COUPON_HUNTER"}

  /** The configuration each type of trigger requires. */
  predicate TriggerOk(trigger: TriggerType, config: Data) {
    match trigger
    case INACTIVITY => Truthy(Field(config, "daysInactive"))
    case VISIT_MILESTONE => Truthy(Field(config, "visitCount"))
    case SPEND_THRESHOLD => Truthy(Field(config, "spendThreshold"))
    case _ => true
  }

  /** The configuration each type of action requires. */
  predicate ActionOk(action: ActionType, data: Data) {
    match action
    case SEND_WHATSAPP => Truthy(Field(data, "templateName"))
    case SEND_EMAIL => Truthy(Field(data, "emailTemplateId"))
    case AWARD_POINTS => Truthy(Field(data, "points"))
    case DEDUCT_POINTS => Truthy(Field(data, "points"))
    case CHANGE_SEGMENT =>
      var segment := Field(data, "targetSegment");
      segment.Text? && segment.text in SEGMENTS
    case CREATE_COUPON => Truthy(Field(data, "couponType"))
    case MANAGER_ALERT => true
  }

  /** The checks on one node. */
  predicate NodeOk(node: Node) {
    match node.kind
    case TriggerNode(trigger, config) => trigger.Some? && TriggerOk(trigger.value, config)
    case ActionNode(action, data) => action.Some? && ActionOk(action.value, data)
    case DelayNode(minutes) => minutes.Some? && 0 <= minutes.value <= MAX_DELAY_MINUTES
    case ConditionNode(condition) =>
      condition.field != "" && !condition.operator.UnknownOperator? && !condition.value.Undefined?
    case UnknownNode(_) => false
  }

  predicate NodesOk(nodes: seq<Node>) {
    forall i :: 0 <= i < |nodes| ==> NodeOk(nodes[i])
  }

  // ---- Entry point -----------------------------------------------------------------------------

  datatype CompilationResult =
    CompilationResult(compiled: Option<CompiledWorkflow>, errors: seq<CompileError>, warnings: seq<NodeId>)

  function Fail(errors: seq<CompileError>, warnings: seq<NodeId>): CompilationResult {
    CompilationResult(None, errors, warnings)
  }

  function NodeMap(nodes: seq<Node>): (kinds: Kinds)
    ensures kinds.Keys == Ids(nodes)
  {
    if nodes == [] then map[]
    else
      var last := nodes[|nodes| - 1];
      assert nodes == nodes[..|nodes| - 1] + [last];
      NodeMap(nodes[..|nodes| - 1])[last.id := last.kind]
  }

  function MaxDelay(actions: seq<CompiledAction>): (max: int)
    ensures 0 <= max && forall a :: a in actions ==> a.delayMinutes <= max
    ensures max == 0 || exists a :: a in actions && a.delayMinutes == max
  {
    if actions == [] then 0
    else
      var last := actions[|actions| - 1];
      var rest := MaxDelay(actions[..|actions| - 1]);
      assert actions == actions[..|actions| - 1] + [last];
      if last.delayMinutes > rest then last.delayMinutes else rest
  }

  function ActionsOf(nodes: seq<Node>, edges: seq<Edge>): seq<CompiledAction>
    requires |Triggers(nodes)| == 1
  {
    Traverse(NodeMap(nodes), edges, [QueueEntry(Triggers(nodes)[0].id, START)], {}, 0)
  }

  ghost predicate Accepts(graph: GraphJson) {
    && graph.Graph?
    && StructureOk(graph.nodes, graph.edges)
    && NodesOk(graph.nodes)
    && 1 <= |ActionsOf(graph.nodes, graph.edges)| <= MAX_ACTION_NODES
  }

  /** The compiled form of an accepted graph. */
  function Compiled(nodes: seq<Node>, edges: seq<Edge>): CompiledWorkflow
    requires |Triggers(nodes)| == 1 && NodesOk(nodes)
  {
    assert Triggers(nodes)[0] in nodes && NodeOk(Triggers(nodes)[0]);
    var actions := ActionsOf(nodes, edges);
    CompiledWorkflow(
      COMPILED_SCHEMA_VERSION,
      Triggers(nodes)[0].kind.trigger.value,
      TriggerConfig(Triggers(nodes)[0].kind.config),
      actions,
      Metadata(
        |nodes|,
        |actions|,
        MaxDelay(actions),
        exists i :: 0 <= i < |actions| && actions[i].branchConditions != [],
        exists i :: 0 <= i < |edges| && edges[i].handle != Plain))
  }

  /** The non-trigger nodes out of reach of the trigger, in stored order. */
  ghost function Ignored(nodes: seq<Node>, edges: seq<Edge>, trigger: NodeId): seq<NodeId> {
    if nodes == [] then []
    else
      var last := nodes[|nodes| - 1];
      Ignored(nodes[..|nodes| - 1], edges, trigger)
      + if !last.kind.TriggerNode? && !Reaches(edges, trigger, last.id) then [last.id] else []
  }

  /** The complaint is about a node that does not say what it must. */
  ghost predicate Invalid(x: CompileError, nodes: seq<Node>) {
    exists i :: 0 <= i < |nodes| && !NodeOk(nodes[i]) && x == InvalidNode(nodes[i].id)
  }

  lemma InvalidMore(nodes: seq<Node>, i: nat)
    requires i < |nodes|
    ensures forall x :: Invalid(x, nodes[..i + 1]) <==>
              Invalid(x, nodes[..i]) || (!NodeOk(nodes[i]) && x == InvalidNode(nodes[i].id))
  {
    hide NodeOk;
    assert forall k :: 0 <= k < i ==> nodes[..i + 1][k] == nodes[..i][k];
    assert nodes[..i + 1][i] == nodes[i];
  }

  /** The loop over the per-node checks. */
  method ValidateNodes(nodes: seq<Node>) returns (errors: seq<CompileError>)
    ensures errors == [] <==> NodesOk(nodes)
    ensures forall x :: x in errors <==> Invalid(x, nodes)
  {
    hide NodeOk;
    errors := [];
    for i := 0 to |nodes|
      invariant errors == [] <==> forall k :: 0 <= k < i ==> NodeOk(nodes[k])
      invariant forall x :: x in errors <==> Invalid(x, nodes[..i])
    {
      hide Invalid;
      InvalidMore(nodes, i);
      if !NodeOk(nodes[i]) {
        errors := errors + [InvalidNode(nodes[i].id)];
      }
    }
    assert nodes[..|nodes|] == nodes;
  }

  /** Success exactly on accepted graphs, with the compiled form and the ignored nodes as warnings. */
  method CompileGraph(graph: GraphJson) returns (result: CompilationResult)
    ensures result.compiled.Some? <==> Accepts(graph)
    ensures result.compiled.Some? ==>
              && result.compiled.value == Compiled(graph.nodes, graph.edges)
              && result.errors == []
    ensures result.compiled.None? ==> result.errors != []
    ensures graph.Graph? && StructureOk(graph.nodes, graph.edges) ==>
              result.warnings == Ignored(graph.nodes, graph.edges, Triggers(graph.nodes)[0].id)
    ensures graph.NotAnObject? ==> result.errors == [NotAnObjectError]
    ensures graph.MissingArrays? ==> result.errors == [MissingArraysError]
    ensures graph.Graph? && StructureOk(graph.nodes, graph.edges) ==>
              if !NodesOk(graph.nodes) then forall x :: x in result.errors <==> Invalid(x, graph.nodes)
              else result.errors == var count := |ActionsOf(graph.nodes, graph.edges)|;
                if count == 0 then [NoConnectedAction] else if count > 20 then [TooManyActions(count)] else []
  {
    hide Reaches, Represents, HasCycle, Traverse, NodeOk, Triggers, Within, Invalid;
    match graph
    case NotAnObject => return Fail([NotAnObjectError], []);
    case MissingArrays => return Fail([MissingArraysError], []);
    case Graph(nodes, edges) =>
      var errors := ValidateStructure(nodes, edges);
      if errors != [] {
        return Fail(errors, []);
      }
      var trigger := Triggers(nodes)[0];
      var adjacency := BuildAdjacency(edges);
      var reachable := GetReachableNodeIds(trigger.id, adjacency, edges);
      var warnings: seq<NodeId> := [];
      for i := 0 to |nodes|
        invariant warnings == Ignored(nodes[..i], edges, trigger.id)
      {
        assert nodes[..i + 1][..i] == nodes[..i];
        if !nodes[i].kind.TriggerNode? && nodes[i].id !in reachable {
          warnings := warnings + [nodes[i].id];
        }
      }
      assert nodes[..|nodes|] == nodes;
      errors := ValidateNodes(nodes);
      if errors != [] {
        return Fail(errors, warnings);
      }
      var actions, reached := TraverseGraph(trigger.id, adjacency, NodeMap(nodes), edges);
      if |actions| == 0 {
        return Fail([NoConnectedAction], warnings);
      }
      if |actions| > MAX_ACTION_NODES {
        return Fail([TooManyActions(|actions|)], warnings);
      }
      result := CompilationResult(Some(Compiled(nodes, edges)), [], warnings);
  }

  /** Re-validation of a stored compiled workflow before activation. */
  predicate ValidCompiled(compiled: CompiledWorkflow) {
    compiled.actions != [] && compiled.schemaVersion == COMPILED_SCHEMA_VERSION
  }
}
