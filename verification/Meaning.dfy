/** What compilation promises about accepted graphs: exactness, bounded delays, and when running the
    compiled list means the same as walking the drawn graph. */
module Meaning {
  import opened Graphs
  import opened Workflows
  import opened Compiler
  import opened Traversal
  import opened Utils

  /** Node ids are not checked by the compiler; these results are for graphs in which they are unique. */
  predicate UniqueIds(nodes: seq<Node>) {
    forall i, j :: 0 <= i < j < |nodes| ==> nodes[i].id != nodes[j].id
  }

  ghost predicate Accepted(nodes: seq<Node>, edges: seq<Edge>) {
    Accepts(Graph(nodes, edges)) && UniqueIds(nodes)
  }

  function TriggerId(nodes: seq<Node>): NodeId
    requires |Triggers(nodes)| == 1
  {
    Triggers(nodes)[0].id
  }

  lemma {:induction false} NodeMapLooksUp(nodes: seq<Node>, i: nat)
    requires UniqueIds(nodes) && i < |nodes|
    ensures nodes[i].id in NodeMap(nodes) && NodeMap(nodes)[nodes[i].id] == nodes[i].kind
    decreases |nodes|
  {
    if i < |nodes| - 1 {
      NodeMapLooksUp(nodes[..|nodes| - 1], i);
      assert nodes[i].id != nodes[|nodes| - 1].id;
    }
  }

  lemma AcceptedIsWellKinded(nodes: seq<Node>, edges: seq<Edge>)
    requires Accepted(nodes, edges)
    ensures WellKinded(NodeMap(nodes), edges, TriggerId(nodes))
    ensures NodeMap(nodes)[TriggerId(nodes)].TriggerNode?
    ensures forall n :: n in NodeMap(nodes) ==> NodeOk(Node(n, NodeMap(nodes)[n]))
    ensures forall n :: n in NodeMap(nodes) && NodeMap(nodes)[n].TriggerNode? ==> n == TriggerId(nodes)
  {
    hide NodeMap, Traverse, HasCycle, NodeOk, UniqueIds, Triggers;
    var kinds, trigger := NodeMap(nodes), Triggers(nodes)[0];
    assert trigger in Triggers(nodes);
    KindOfTrigger(nodes, trigger);
    forall n | n in kinds
      ensures NodeOk(Node(n, kinds[n])) && !kinds[n].UnknownNode?
      ensures kinds[n].TriggerNode? ==> n == TriggerId(nodes)
    {
      KindIsOk(nodes, n);
    }
  }

  lemma KindOfTrigger(nodes: seq<Node>, trigger: Node)
    requires UniqueIds(nodes) && trigger in nodes
    ensures trigger.id in NodeMap(nodes) && NodeMap(nodes)[trigger.id] == trigger.kind
  {
    var t := Lookup(nodes, trigger.id);
    SameNode(nodes, t, trigger);
  }

  lemma KindIsOk(nodes: seq<Node>, n: NodeId)
    requires UniqueIds(nodes) && NodesOk(nodes) && n in NodeMap(nodes)
    ensures NodeOk(Node(n, NodeMap(nodes)[n])) && !NodeMap(nodes)[n].UnknownNode?
    ensures NodeMap(nodes)[n].TriggerNode? ==> Node(n, NodeMap(nodes)[n]) in Triggers(nodes)
  {
    hide NodeMap, Triggers;
    var i := Lookup(nodes, n);
    assert NodeOk(nodes[i]) && nodes[i] in nodes;
  }

  lemma Lookup(nodes: seq<Node>, n: NodeId) returns (i: nat)
    requires UniqueIds(nodes) && n in Ids(nodes)
    ensures i < |nodes| && n in NodeMap(nodes) && nodes[i] == Node(n, NodeMap(nodes)[n])
  {
    i :| 0 <= i < |nodes| && nodes[i].id == n;
    NodeMapLooksUp(nodes, i);
  }

  lemma SameNode(nodes: seq<Node>, i: nat, node: Node)
    requires UniqueIds(nodes) && i < |nodes| && node in nodes && nodes[i].id == node.id
    ensures nodes[i] == node
  {
  }

  // ---- Exactness and delays --------------------------------------------------------------------

  lemma {:induction false} SourceIsNode(edges: seq<Edge>, a: NodeId, p: Path, b: NodeId, i: nat)
    requires IsPath(edges, a, p, b) && i < |p|
    ensures p[i].source == NodeAt(a, p, i) && p[i] in edges
    decreases |p|
  {
    Split(edges, a, p, b, i + 1);
    assert p[..i + 1][..i] == p[..i];
    Split(edges, a, p, b, i);
    UniqueEnd(edges, a, p[..i], p[i].source, NodeAt(a, p, i));
  }

  lemma UniqueEnd(edges: seq<Edge>, a: NodeId, p: Path, b: NodeId, c: NodeId)
    requires IsPath(edges, a, p, b) && IsPath(edges, a, p, c)
    ensures b == c
  {
  }

  ghost predicate NoRepeats(a: NodeId, p: Path) {
    forall i, j :: 0 <= i < j <= |p| ==> NodeAt(a, p, i) != NodeAt(a, p, j)
  }

  /** A path that passes a node twice can be cut short. */
  lemma CutRepeat(edges: seq<Edge>, a: NodeId, p: Path, b: NodeId, i: nat, j: nat) returns (q: Path)
    requires IsPath(edges, a, p, b) && i < j <= |p| && NodeAt(a, p, i) == NodeAt(a, p, j)
    ensures IsPath(edges, a, q, b) && |q| < |p|
  {
    hide IsPath, NodeAt;
    Split(edges, a, p, b, i);
    Split(edges, a, p, b, j);
    Concatenate(edges, a, p[..i], NodeAt(a, p, i), p[j..], b);
    q := p[..i] + p[j..];
  }

  lemma ShortestHasNoRepeats(edges: seq<Edge>, a: NodeId, p: Path, b: NodeId)
    requires IsShortest(edges, a, p, b)
    ensures NoRepeats(a, p)
  {
    hide IsPath, NodeAt;
    forall i, j | 0 <= i < j <= |p| ensures NodeAt(a, p, i) != NodeAt(a, p, j) {
      if NodeAt(a, p, i) == NodeAt(a, p, j) {
        var q := CutRepeat(edges, a, p, b, i, j);
        assert false;
      }
    }
  }

  ghost function DelayNodes(kinds: Kinds): set<NodeId> {
    set n | n in kinds && kinds[n].DelayNode?
  }

  /** The delay nodes a path leaves. */
  ghost function DelaysOn(kinds: Kinds, p: Path): (delays: set<NodeId>)
    ensures delays <= DelayNodes(kinds)
  {
    if p == [] then {}
    else
      var last := p[|p| - 1].source;
      DelaysOn(kinds, p[..|p| - 1]) + if KindOf(kinds, last).DelayNode? then {last} else {}
  }

  lemma {:induction false} DelaysOnAreSources(kinds: Kinds, p: Path, n: NodeId)
    requires forall i :: 0 <= i < |p| ==> p[i].source != n
    ensures n !in DelaysOn(kinds, p)
    decreases |p|
  {
    if p != [] {
      DelaysOnAreSources(kinds, p[..|p| - 1], n);
    }
  }

  lemma {:induction false} DelayBound(kinds: Kinds, edges: seq<Edge>, a: NodeId, p: Path, b: NodeId)
    requires IsPath(edges, a, p, b) && NoRepeats(a, p)
    requires forall n :: n in kinds ==> NodeOk(Node(n, kinds[n]))
    ensures 0 <= ContextOf(kinds, p).delay <= MAX_DELAY_MINUTES * |DelaysOn(kinds, p)|
    decreases |p|
  {
    if p != [] {
      var front, last := p[..|p| - 1], p[|p| - 1];
      LastSourceIsNew(edges, a, p, b);
      DelayBound(kinds, edges, a, front, last.source);
      DelaysOnAreSources(kinds, front, last.source);
    }
  }

  lemma LastSourceIsNew(edges: seq<Edge>, a: NodeId, p: Path, b: NodeId)
    requires IsPath(edges, a, p, b) && NoRepeats(a, p) && p != []
    ensures NoRepeats(a, p[..|p| - 1])
    ensures var front := p[..|p| - 1];
            forall i :: 0 <= i < |front| ==> front[i].source != p[|p| - 1].source
  {
    hide IsPath;
    var front := p[..|p| - 1];
    assert forall i :: 0 <= i <= |front| ==> NodeAt(a, front, i) == NodeAt(a, p, i);
    SourceIsNode(edges, a, p, b, |p| - 1);
    forall i | 0 <= i < |front| ensures front[i].source != p[|p| - 1].source {
      SourceIsNode(edges, a, p, b, i);
    }
  }

  lemma SubsetCardinality<T>(a: set<T>, b: set<T>)
    requires a <= b
    ensures |a| <= |b|
  {
    if a != {} {
      var x :| x in a;
      SubsetCardinality(a - {x}, b - {x});
    }
  }

  /** The compiled actions of an accepted graph are exactly the action nodes reachable from the trigger,
      each once, numbered in order; each carries the delay and conditions of one trigger-to-action path
      that repeats no node and has the fewest edges of all; its delay is bounded by the delay nodes. */
  lemma CompilationIsExact(nodes: seq<Node>, edges: seq<Edge>) returns (found: Found)
    requires Accepted(nodes, edges)
    ensures forall n :: n in found <==> Reaches(edges, TriggerId(nodes), n)
    ensures forall n :: n in found ==>
              IsShortest(edges, TriggerId(nodes), found[n], n) && NoRepeats(TriggerId(nodes), found[n])
    ensures Emits(NodeMap(nodes), map[], found, Compiled(nodes, edges).actions, 0)
    ensures found.Keys == VisitedFrom(NodeMap(nodes), edges, [QueueEntry(TriggerId(nodes), START)], {})
    ensures forall a :: a in Compiled(nodes, edges).actions ==>
              0 <= a.delayMinutes <= MAX_DELAY_MINUTES * |DelayNodes(NodeMap(nodes))|
    ensures Compiled(nodes, edges).metadata.maxDelayMinutes <= MAX_DELAY_MINUTES * |DelayNodes(NodeMap(nodes))|
  {
    hide IsPath, Reaches, IsShortest, Traverse, NodeOk, Emits, NoRepeats, UniqueIds, NodeMap;
    var kinds, trigger, actions := NodeMap(nodes), TriggerId(nodes), Compiled(nodes, edges).actions;
    AcceptedIsWellKinded(nodes, edges);
    found := TraversalIsExact(kinds, edges, trigger);
    forall n | n in found ensures NoRepeats(trigger, found[n]) {
      ShortestHasNoRepeats(edges, trigger, found[n], n);
    }
    DelaysBounded(kinds, edges, trigger, found, actions);
  }

  lemma DelaysBounded(kinds: Kinds, edges: seq<Edge>, trigger: NodeId, found: Found, actions: seq<CompiledAction>)
    requires Emits(kinds, map[], found, actions, 0)
    requires forall n :: n in found ==> IsShortest(edges, trigger, found[n], n) && NoRepeats(trigger, found[n])
    requires forall n :: n in kinds ==> NodeOk(Node(n, kinds[n]))
    ensures forall a :: a in actions ==> 0 <= a.delayMinutes <= MAX_DELAY_MINUTES * |DelayNodes(kinds)|
    ensures MaxDelay(actions) <= MAX_DELAY_MINUTES * |DelayNodes(kinds)|
  {
    hide IsShortest, NoRepeats, NodeOk, ContextOf;
    forall a | a in actions ensures 0 <= a.delayMinutes <= MAX_DELAY_MINUTES * |DelayNodes(kinds)| {
      var i :| 0 <= i < |actions| && actions[i] == a;
      assert Emitted(kinds, map[], found, actions[i]);
      EmittedDelay(kinds, edges, trigger, found[a.nodeId], a.nodeId);
    }
  }

  lemma EmittedDelay(kinds: Kinds, edges: seq<Edge>, a: NodeId, p: Path, b: NodeId)
    requires IsShortest(edges, a, p, b) && NoRepeats(a, p)
    requires forall n :: n in kinds ==> NodeOk(Node(n, kinds[n]))
    ensures 0 <= ContextOf(kinds, p).delay <= MAX_DELAY_MINUTES * |DelayNodes(kinds)|
  {
    DelayBound(kinds, edges, a, p, b);
    SubsetCardinality(DelaysOn(kinds, p), DelayNodes(kinds));
  }

  lemma {:induction false} IgnoredAreUnreachable(nodes: seq<Node>, edges: seq<Edge>, trigger: NodeId, n: NodeId)
    ensures n in Ignored(nodes, edges, trigger) <==>
            !Reaches(edges, trigger, n) && exists node :: node in nodes && node.id == n && !node.kind.TriggerNode?
  {
    hide Reaches;
    if nodes != [] {
      var front, last := nodes[..|nodes| - 1], nodes[|nodes| - 1];
      IgnoredAreUnreachable(front, edges, trigger, n);
      assert nodes == front + [last];
    }
  }

  /** The warnings, found by the stack search, name exactly the non-trigger nodes that the breadth-first
      traversal, a different search, has not visited when its queue runs empty. */
  lemma WarningsAreUnvisited(nodes: seq<Node>, edges: seq<Edge>, n: NodeId)
    requires Accepted(nodes, edges)
    ensures var visited := VisitedFrom(NodeMap(nodes), edges, [QueueEntry(TriggerId(nodes), START)], {});
            n in Ignored(nodes, edges, TriggerId(nodes)) <==>
            n !in visited && exists node :: node in nodes && node.id == n && !node.kind.TriggerNode?
  {
    hide Ignored, Reaches, VisitedFrom, IsShortest, Emits, NodeMap;
    IgnoredAreUnreachable(nodes, edges, TriggerId(nodes), n);
    var found := CompilationIsExact(nodes, edges);
    assert n in found <==> n in found.Keys;
  }

  // ---- Walking the drawn graph -----------------------------------------------------------------

  /** One step of a walker: it waits at a delay node, and leaves a condition node along a `no` edge
      only if the condition fails, along any other edge only if it holds. */
  function Leave(kind: NodeKind, handle: Handle, v: Valuation, clock: int): Option<int> {
    match kind
    case DelayNode(minutes) => Some(clock + if minutes.Some? then minutes.value else 0)
    case ConditionNode(condition) => if v(condition) == (handle != No) then Some(clock) else None
    case _ => Some(clock)
  }

  /** The time at which a walker that starts at the trigger at `clock` has followed the route. */
  function Walk(kinds: Kinds, v: Valuation, route: Path, clock: int): Option<int> {
    if route == [] then Some(clock)
    else
      var next := Leave(KindOf(kinds, route[0].source), route[0].handle, v, clock);
      if next.None? then None else Walk(kinds, v, route[1..], next.value)
  }

  /** Walking the drawn graph reaches the action `a` after `delay` minutes. */
  ghost predicate Walked(nodes: seq<Node>, edges: seq<Edge>, v: Valuation, a: NodeId, delay: int)
    requires |Triggers(nodes)| == 1
  {
    exists route ::
      && IsPath(edges, TriggerId(nodes), route, a)
      && KindOf(NodeMap(nodes), a).ActionNode?
      && Walk(NodeMap(nodes), v, route, 0) == Some(delay)
  }

  /** The evaluator selects the action `a` of a compiled list after `delay` minutes. */
  ghost predicate Selected(actions: seq<CompiledAction>, v: Valuation, a: NodeId, delay: int) {
    exists i :: 0 <= i < |actions| && actions[i].nodeId == a && actions[i].delayMinutes == delay
                && ConditionsHold(actions[i].branchConditions, v)
  }

  ghost predicate Preserved(nodes: seq<Node>, edges: seq<Edge>, v: Valuation)
    requires |Triggers(nodes)| == 1
  {
    forall a, delay :: Selected(ActionsOf(nodes, edges), v, a, delay) <==> Walked(nodes, edges, v, a, delay)
  }

  predicate TagsAgree(conditions: seq<CompiledCondition>, v: Valuation) {
    forall i :: 0 <= i < |conditions| ==> v(conditions[i].condition) == conditions[i].branch.YesBranch?
  }

  lemma {:induction false} WalkAppend(kinds: Kinds, v: Valuation, p: Path, e: Edge, clock: int)
    ensures Walk(kinds, v, p + [e], clock) ==
            var t := Walk(kinds, v, p, clock);
            if t.None? then None else Leave(KindOf(kinds, e.source), e.handle, v, t.value)
    decreases |p|
  {
    if p == [] {
      assert p + [e] == [e];
      assert [e][1..] == [];
    } else {
      assert (p + [e])[1..] == p[1..] + [e];
      var next := Leave(KindOf(kinds, p[0].source), p[0].handle, v, clock);
      if next.Some? {
        WalkAppend(kinds, v, p[1..], e, next.value);
      }
    }
  }

  /** Walking a route succeeds exactly when the outcomes agree with the tags the compiler accumulates on
      it, and then takes the delay the compiler accumulates. */
  lemma {:induction false} WalkIsContext(kinds: Kinds, edges: seq<Edge>, start: NodeId, p: Path, n: NodeId,
                                         v: Valuation)
    requires IsPath(edges, start, p, n) && !HasCycle(edges)
    requires forall m :: m in kinds && kinds[m].TriggerNode? ==> m == start
    ensures Walk(kinds, v, p, 0) ==
            if TagsAgree(ContextOf(kinds, p).conditions, v) then Some(ContextOf(kinds, p).delay) else None
    decreases |p|
  {
    if p != [] {
      hide HasCycle;
      var front, last := p[..|p| - 1], p[|p| - 1];
      var c := ContextOf(kinds, front);
      WalkIsContext(kinds, edges, start, front, last.source, v);
      assert p == front + [last];
      WalkAppend(kinds, v, front, last, 0);
      match KindOf(kinds, last.source)
      case TriggerNode(_, _) =>
        OnlyEmptyPathsReturn(edges, start, front);
      case ConditionNode(condition) =>
        var tagged := CompiledCondition(condition, BranchOf(last.handle));
        TagsAgreeAppend(c.conditions, tagged, v);
      case _ =>
    }
  }

  lemma OnlyEmptyPathsReturn(edges: seq<Edge>, n: NodeId, p: Path)
    requires !HasCycle(edges) && IsPath(edges, n, p, n)
    ensures p == []
  {
  }

  lemma TagsAgreeAppend(conditions: seq<CompiledCondition>, c: CompiledCondition, v: Valuation)
    ensures TagsAgree(conditions + [c], v) <==> TagsAgree(conditions, v) && v(c.condition) == c.branch.YesBranch?
  {
    var all := conditions + [c];
    assert all[|conditions|] == c;
    assert forall i :: 0 <= i < |conditions| ==> all[i] == conditions[i];
  }
}
