/** What a compiled workflow carries, read off the nodes as they are drawn. */
module Payload {
  import opened Graphs
  import opened Workflows
  import opened Compiler
  import opened Traversal
  import opened Meaning
  import opened Preservation
  import opened Utils

  /** The JSON values that a check for a required field takes for a missing one. */
  const BLANK := {Undefined, Null, Bool(false), Num(0.0), Text("")}

  ghost predicate Filled(data: Data, name: string) {
    name in data && data[name] !in BLANK
  }

  lemma FilledIff(data: Data, name: string)
    ensures Truthy(Field(data, name)) <==> Filled(data, name)
  {
  }

  // ---- Which nodes are accepted ------------------------------------------------------------------

  /** What a trigger must say of itself. */
  lemma TriggerNodeOkIff(id: NodeId, trigger: Option<TriggerType>, config: Data)
    ensures NodeOk(Node(id, TriggerNode(trigger, config))) <==>
            && trigger != None
            && (trigger == Some(INACTIVITY) ==> Filled(config, "daysInactive"))
            && (trigger == Some(VISIT_MILESTONE) ==> Filled(config, "visitCount"))
            && (trigger == Some(SPEND_THRESHOLD) ==> Filled(config, "spendThreshold"))
  {
    hide Filled;
    FilledIff(config, "daysInactive");
    FilledIff(config, "visitCount");
    FilledIff(config, "spendThreshold");
  }

  /** What an action must say of itself. */
  lemma ActionNodeOkIff(id: NodeId, action: Option<ActionType>, data: Data)
    ensures NodeOk(Node(id, ActionNode(action, data))) <==>
            && action != None
            && (action == Some(SEND_WHATSAPP) ==> Filled(data, "templateName"))
            && (action == Some(SEND_EMAIL) ==> Filled(data, "emailTemplateId"))
            && (action == Some(AWARD_POINTS) || action == Some(DEDUCT_POINTS) ==> Filled(data, "points"))
            && (action == Some(CREATE_COUPON) ==> Filled(data, "couponType"))
            && (action == Some(CHANGE_SEGMENT) ==>
                  exists name :: "targetSegment" in data && data["targetSegment"] == Text(name)
                    && name in {"NEW", "LOYAL", "VIP", "AT_RISK", "LOST", "BIG_SPENDER", "COUPON_HUNTER"})
  {
    hide Filled;
    FilledIff(data, "templateName");
    FilledIff(data, "emailTemplateId");
    FilledIff(data, "points");
    FilledIff(data, "couponType");
    var segment := Field(data, "targetSegment");
    if segment.Text? {
      assert segment == Text(segment.text);
    }
  }

  /** What the other nodes must say of themselves; a node of unknown type is never accepted. */
  lemma OtherNodeOkIff(id: NodeId, kind: NodeKind)
    requires !kind.TriggerNode? && !kind.ActionNode?
    ensures NodeOk(Node(id, kind)) <==>
            || (exists minutes :: kind == DelayNode(Some(minutes)) && 0 <= minutes <= 525_600)
            || (exists field, operator, value ::
                  && kind == ConditionNode(Condition(field, operator, value)) && field != "" && value != Undefined
                  && operator in {Eq, Neq, Gt, Lt, Gte, Lte, In, NotIn})
  {
    match kind
    case DelayNode(minutes) =>
      if minutes.Some? {
        assert kind == DelayNode(Some(minutes.value));
      }
    case ConditionNode(condition) =>
      assert kind == ConditionNode(Condition(condition.field, condition.operator, condition.value));
    case _ =>
  }

  ghost predicate OnlyTriggerAt(nodes: seq<Node>, i: int) {
    && 0 <= i < |nodes| && nodes[i].kind.TriggerNode?
    && forall j :: 0 <= j < |nodes| && j != i ==> !nodes[j].kind.TriggerNode?
  }

  /** The given node is a trigger and no other is. */
  ghost predicate OneTrigger(nodes: seq<Node>, trigger: Node) {
    exists i :: OnlyTriggerAt(nodes, i) && nodes[i] == trigger
  }

  lemma {:induction false} NoTriggers(nodes: seq<Node>)
    ensures Triggers(nodes) == [] <==> forall j :: 0 <= j < |nodes| ==> !nodes[j].kind.TriggerNode?
  {
    if nodes != [] {
      NoTriggers(nodes[1..]);
      assert forall j :: 0 <= j < |nodes| ==> j == 0 || nodes[j] == nodes[1..][j - 1];
    }
  }

  lemma OnlyTriggerShifted(nodes: seq<Node>, i: int)
    requires nodes != [] && !nodes[0].kind.TriggerNode?
    ensures OnlyTriggerAt(nodes, i + 1) <==> OnlyTriggerAt(nodes[1..], i)
  {
    assert forall j :: 0 < j < |nodes| ==> nodes[j] == nodes[1..][j - 1];
    if OnlyTriggerAt(nodes[1..], i) {
      assert nodes[i + 1] == nodes[1..][i];
    }
  }

  lemma {:induction false} OneTriggerIff(nodes: seq<Node>, trigger: Node)
    ensures Triggers(nodes) == [trigger] <==> OneTrigger(nodes, trigger)
  {
    if nodes != [] {
      var first, rest := nodes[0], nodes[1..];
      assert forall j :: 0 < j < |nodes| ==> nodes[j] == rest[j - 1];
      if first.kind.TriggerNode? {
        NoTriggers(rest);
        assert ([first] + Triggers(rest))[1..] == Triggers(rest);
        assert Triggers(rest) == [] <==> OnlyTriggerAt(nodes, 0);
        assert forall i :: OnlyTriggerAt(nodes, i) ==> i == 0;
      } else {
        OneTriggerIff(rest, trigger);
        hide OnlyTriggerAt;
        if i :| OnlyTriggerAt(rest, i) && rest[i] == trigger {
          OnlyTriggerShifted(nodes, i);
        }
        if i :| OnlyTriggerAt(nodes, i) && nodes[i] == trigger {
          OnlyTriggerShifted(nodes, i - 1);
        }
      }
    }
  }

  /** The action nodes a path leads to from the trigger. */
  ghost function ReachableActions(nodes: seq<Node>, edges: seq<Edge>, trigger: Node): set<NodeId> {
    set n | n in nodes && n.kind.ActionNode? && Reaches(edges, trigger.id, n.id) :: n.id
  }

  lemma {:induction false} DistinctCount(actions: seq<CompiledAction>, ids: set<NodeId>)
    requires forall i, j :: 0 <= i < j < |actions| ==> actions[i].nodeId != actions[j].nodeId
    requires forall n :: n in ids <==> Listed(actions, n)
    ensures |actions| == |ids|
    decreases |actions|
  {
    if actions == [] {
      assert ids == {};
    } else {
      var front, last := actions[..|actions| - 1], actions[|actions| - 1];
      forall n ensures n in ids - {last.nodeId} <==> Listed(front, n) {
        if Listed(front, n) {
          var i :| 0 <= i < |front| && front[i].nodeId == n;
          assert actions[i].nodeId == n;
        }
        if n in ids && n != last.nodeId {
          var i :| 0 <= i < |actions| && actions[i].nodeId == n;
          assert front[i].nodeId == n;
        }
      }
      DistinctCount(front, ids - {last.nodeId});
      assert Listed(actions, last.nodeId);
    }
  }

  lemma SoundIsWellKinded(nodes: seq<Node>, edges: seq<Edge>, trigger: Node)
    requires UniqueIds(nodes) && NodesOk(nodes) && Within(edges, Ids(nodes)) && trigger in nodes
    ensures WellKinded(NodeMap(nodes), edges, trigger.id)
    ensures forall n :: n in nodes ==> KindOf(NodeMap(nodes), n.id) == n.kind
  {
    hide NodeMap, NodeOk, Triggers, UniqueIds;
    forall n | n in NodeMap(nodes) ensures !NodeMap(nodes)[n].UnknownNode? {
      KindIsOk(nodes, n);
    }
    forall n | n in nodes ensures n.id in NodeMap(nodes) && KindOf(NodeMap(nodes), n.id) == n.kind {
      KindOfTrigger(nodes, n);
    }
  }

  /** The traversal of a sound graph emits as many actions as the drawing has reachable action nodes. */
  lemma ActionsAreCounted(nodes: seq<Node>, edges: seq<Edge>, trigger: Node)
    requires UniqueIds(nodes) && NodesOk(nodes) && Within(edges, Ids(nodes)) && Triggers(nodes) == [trigger]
    ensures |ActionsOf(nodes, edges)| == |ReachableActions(nodes, edges, trigger)|
  {
    assert trigger in nodes;
    SoundIsWellKinded(nodes, edges, trigger);
    var kinds, actions := NodeMap(nodes), ActionsOf(nodes, edges);
    var found := TraversalIsExact(kinds, edges, trigger.id);
    hide NodeMap, NodeOk, Triggers, UniqueIds, Traverse, IsShortest, Reaches, VisitedFrom, ActionFor, NodesOk, Within;
    forall n ensures n in ReachableActions(nodes, edges, trigger) <==> Listed(actions, n) {
      if Listed(actions, n) {
        var i :| 0 <= i < |actions| && actions[i].nodeId == n;
        assert Emitted(kinds, map[], found, actions[i]);
        assert n in kinds.Keys && n in Ids(nodes);
      }
    }
    DistinctCount(actions, ReachableActions(nodes, edges, trigger));
  }

  /** What the compiler asks of a drawing with the given trigger. */
  ghost predicate Compilable(nodes: seq<Node>, edges: seq<Edge>, trigger: Node) {
    && OneTrigger(nodes, trigger)
    && (forall e :: e in edges ==> HasId(nodes, e.source) && HasId(nodes, e.target))
    && (forall n, p :: IsPath(edges, n, p, n) ==> p == [])
    && (forall n :: n in nodes ==> NodeOk(n))
    && 1 <= |ReachableActions(nodes, edges, trigger)| <= 20
  }

  ghost predicate HasId(nodes: seq<Node>, id: NodeId) {
    exists n :: n in nodes && n.id == id
  }

  lemma ReachableIsAction(nodes: seq<Node>, edges: seq<Edge>, trigger: Node)
    requires ReachableActions(nodes, edges, trigger) != {}
    ensures HasActionNode(nodes)
  {
    var id :| id in ReachableActions(nodes, edges, trigger);
    var n :| n in nodes && n.kind.ActionNode? && n.id == id;
    var i :| 0 <= i < |nodes| && nodes[i] == n;
    assert nodes[i].kind.ActionNode?;
  }

  /**
   * A graph with unique ids compiles if and only if there is exactly one trigger, no edge hangs loose, no path
   * returns to where it started, every node says what it must, and of the action nodes a path from the trigger
   * leads to 1 to 20.
   */
  lemma AcceptedIff(nodes: seq<Node>, edges: seq<Edge>)
    requires UniqueIds(nodes)
    ensures Accepts(Graph(nodes, edges)) <==> exists trigger :: Compilable(nodes, edges, trigger)
  {
    hide UniqueIds, IsPath, NodeOk, Triggers, ReachableActions, OneTrigger, HasActionNode, Traverse, NodeMap;
    if Accepts(Graph(nodes, edges)) {
      var trigger := Triggers(nodes)[0];
      OneTriggerIff(nodes, trigger);
      ActionsAreCounted(nodes, edges, trigger);
      assert Compilable(nodes, edges, trigger);
    }
    if trigger :| Compilable(nodes, edges, trigger) {
      OneTriggerIff(nodes, trigger);
      ActionsAreCounted(nodes, edges, trigger);
      ReachableIsAction(nodes, edges, trigger);
      assert trigger in Triggers(nodes);
    }
  }

  // ---- What the actions carry --------------------------------------------------------------------

  lemma EmittedFrom(nodes: seq<Node>, edges: seq<Edge>, action: CompiledAction, node: Node)
    requires Accepted(nodes, edges) && action in Compiled(nodes, edges).actions
    requires node in nodes && node.id == action.nodeId
    ensures node.kind.ActionNode? && NodeOk(node)
    ensures action.action == node.kind.action && action.config == ActionConfig(node.kind.action, node.kind.data)
  {
    assert |Triggers(nodes)| == 1;
    var found := CompilationIsExact(nodes, edges);
    KindOfTrigger(nodes, node);
    var i :| 0 <= i < |nodes| && nodes[i] == node;
    assert NodeOk(nodes[i]);
    hide Traverse, NodeMap, NodeOk, ActionConfig, Triggers, ContextOf, IsShortest, Reaches, VisitedFrom, Accepted;
    assert Emitted(NodeMap(nodes), map[], found, action);
  }

  /** A field that falls back to a default when it is missing or null. */
  ghost predicate Defaulted(kept: Value, data: Data, name: string, default: Value) {
    kept == if name in data && data[name] !in {Undefined, Null} then data[name] else default
  }

  /** A field that is kept as it is drawn. */
  ghost predicate Kept(kept: Value, data: Data, name: string) {
    kept == if name in data then data[name] else Undefined
  }

  /** The fields an action of each type takes from its node, those it cannot do without filled in. */
  ghost predicate Carries(action: ActionType, config: Data, data: Data) {
    match action
    case SEND_WHATSAPP =>
      && config.Keys == {"templateName", "langCode"} && Filled(data, "templateName")
      && config["templateName"] == data["templateName"]
      && Defaulted(config["langCode"], data, "langCode", Text("en_US"))
    case SEND_EMAIL =>
      && config.Keys == {"templateId", "subject"} && Filled(data, "emailTemplateId")
      && config["templateId"] == data["emailTemplateId"] && Kept(config["subject"], data, "emailSubject")
    case AWARD_POINTS =>
      && config.Keys == {"points", "reason"} && Filled(data, "points") && config["points"] == data["points"]
      && Defaulted(config["reason"], data, "reason", Text("AWARD_POINTS"))
    case DEDUCT_POINTS =>
      && config.Keys == {"points", "reason"} && Filled(data, "points") && config["points"] == data["points"]
      && Defaulted(config["reason"], data, "reason", Text("DEDUCT_POINTS"))
    case CHANGE_SEGMENT =>
      && config.Keys == {"targetSegment"} && Filled(data, "targetSegment")
      && config["targetSegment"] == data["targetSegment"]
    case CREATE_COUPON =>
      && config.Keys == {"type", "value", "expiryDays"} && Filled(data, "couponType")
      && config["type"] == data["couponType"] && Kept(config["value"], data, "couponValue")
      && Defaulted(config["expiryDays"], data, "expiryDays", Num(30.0))
    case MANAGER_ALERT =>
      && config.Keys == {"message", "priority"} && Kept(config["message"], data, "alertMessage")
      && Defaulted(config["priority"], data, "alertPriority", Text("MEDIUM"))
  }

  lemma ConfigCarries(action: ActionType, data: Data)
    requires ActionOk(action, data)
    ensures Carries(action, ActionConfig(Some(action), data), data)
  {
  }

  /** Every action of a compiled workflow is the action drawn on its node: it has the type drawn there and carries
      the fields that this type takes from the node's data. */
  lemma CompiledActionsAreDrawn(nodes: seq<Node>, edges: seq<Edge>, action: CompiledAction, node: Node)
    requires Accepted(nodes, edges) && action in Compiled(nodes, edges).actions
    requires node in nodes && node.id == action.nodeId
    ensures node.kind.ActionNode? && node.kind.action == action.action && action.action.Some?
    ensures Carries(action.action.value, action.config, node.kind.data)
  {
    EmittedFrom(nodes, edges, action, node);
    ConfigCarries(node.kind.action.value, node.kind.data);
    hide Accepted, Compiled, ActionOk, Carries, ActionConfig;
  }

  /** An action is compiled for a drawn node exactly when the node is an action and a path leads to it. */
  lemma CompiledIffReachable(nodes: seq<Node>, edges: seq<Edge>, trigger: Node, node: Node)
    requires Accepted(nodes, edges) && node in nodes && trigger in nodes && trigger.kind.TriggerNode?
    ensures (exists action :: action in Compiled(nodes, edges).actions && action.nodeId == node.id)
       <==> node.kind.ActionNode? && exists p :: IsPath(edges, trigger.id, p, node.id)
  {
    OnlyTrigger(nodes, trigger);
    KindOfTrigger(nodes, node);
    assert KindOf(NodeMap(nodes), node.id) == node.kind;
    hide Traverse, NodeMap, Triggers, ContextOf, Accepted, IsPath;
    if action :| action in Compiled(nodes, edges).actions && action.nodeId == node.id {
      var i :| 0 <= i < |ActionsOf(nodes, edges)| && ActionsOf(nodes, edges)[i] == action;
      var p := EntryOf(nodes, edges, i);
      assert IsPath(edges, trigger.id, p, node.id);
    }
    if node.kind.ActionNode? {
      if p :| IsPath(edges, trigger.id, p, node.id) {
        var i := EntryFor(nodes, edges, p, node.id);
        assert ActionsOf(nodes, edges)[i] in Compiled(nodes, edges).actions;
      }
    }
  }

  lemma OnlyTrigger(nodes: seq<Node>, trigger: Node)
    requires |Triggers(nodes)| == 1 && trigger in nodes && trigger.kind.TriggerNode?
    ensures Triggers(nodes) == [trigger]
  {
    assert trigger in Triggers(nodes);
  }

  // ---- The rest of a compiled workflow -----------------------------------------------------------

  lemma TriggerFields(config: Data)
    ensures forall name :: name in TriggerConfig(config) <==>
              name in {"daysInactive", "visitCount", "spendThreshold"} && name in config && config[name] != Undefined
    ensures forall name :: name in TriggerConfig(config) ==> TriggerConfig(config)[name] == config[name]
  {
  }

  /** The compiled trigger is the drawn one, with those of the three trigger fields that are set. */
  lemma CompiledTriggerIsDrawn(nodes: seq<Node>, edges: seq<Edge>, trigger: Node)
    requires Accepted(nodes, edges) && trigger in nodes && trigger.kind.TriggerNode?
    ensures var c, config := Compiled(nodes, edges), trigger.kind.config;
      && c.schemaVersion == 1 && trigger.kind.trigger == Some(c.trigger)
      && (forall name :: name in c.triggerConfig <==>
            name in {"daysInactive", "visitCount", "spendThreshold"} && name in config && config[name] != Undefined)
      && (forall name :: name in c.triggerConfig ==> c.triggerConfig[name] == config[name])
  {
    OnlyTrigger(nodes, trigger);
    TriggerFields(trigger.kind.config);
    hide ActionsOf, Triggers, NodeOk, TriggerConfig, MaxDelay, StructureOk;
  }

  lemma AnyConditions(actions: seq<CompiledAction>)
    ensures (exists i :: 0 <= i < |actions| && actions[i].branchConditions != [])
       <==> exists a :: a in actions && |a.branchConditions| > 0
  {
  }

  lemma AnyBranch(edges: seq<Edge>)
    ensures (exists i :: 0 <= i < |edges| && edges[i].handle != Plain)
       <==> exists e :: e in edges && (e.handle == Yes || e.handle == No)
  {
  }

  /** The metadata says what is there. */
  lemma CompiledMetadata(nodes: seq<Node>, edges: seq<Edge>)
    requires Accepted(nodes, edges)
    ensures var c := Compiled(nodes, edges);
      && c.metadata.nodeCount == |nodes| && c.metadata.actionCount == |c.actions|
      && (forall a :: a in c.actions ==> 0 <= a.delayMinutes <= c.metadata.maxDelayMinutes)
      && (exists a :: a in c.actions && a.delayMinutes == c.metadata.maxDelayMinutes)
      && (c.metadata.hasConditions <==> exists a :: a in c.actions && |a.branchConditions| > 0)
      && (c.metadata.hasBranching <==> exists e :: e in edges && (e.handle == Yes || e.handle == No))
  {
    var actions := Compiled(nodes, edges).actions;
    AnyConditions(actions);
    AnyBranch(edges);
    var _ := CompilationIsExact(nodes, edges);
    assert actions[0] in actions;
    hide ActionsOf, Triggers, NodeOk, TriggerConfig, MaxDelay, StructureOk;
  }
}
