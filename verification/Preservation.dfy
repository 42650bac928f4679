/** When running the compiled list means the same as walking the drawn graph: an exact condition for every
    accepted graph, and what it comes to when no condition is drawn twice and when the graph is a tree. */
module Preservation {
  import opened Graphs
  import opened Workflows
  import opened Compiler
  import opened Traversal
  import opened Meaning
  import opened Utils

  ghost predicate AlwaysPreserved(nodes: seq<Node>, edges: seq<Edge>)
    requires |Triggers(nodes)| == 1
  {
    forall v: Valuation :: Preserved(nodes, edges, v)
  }

  // ---- The condition -----------------------------------------------------------------------------

  ghost function Conditions(tags: seq<CompiledCondition>): set<Condition> {
    set i | 0 <= i < |tags| :: tags[i].condition
  }

  ghost function YesTagged(tags: seq<CompiledCondition>): set<Condition> {
    set i | 0 <= i < |tags| && tags[i].branch.YesBranch? :: tags[i].condition
  }

  /** No condition is tagged both ways. A path whose tags contradict each other can never be walked. */
  predicate Consistent(tags: seq<CompiledCondition>) {
    forall i, j :: 0 <= i < j < |tags| && tags[i].condition == tags[j].condition ==> tags[i].branch == tags[j].branch
  }

  /** The path has the compiled delay, and passes every compiled condition by its `yes` side. */
  ghost predicate EntryFits(action: CompiledAction, c: Context) {
    action.delayMinutes == c.delay && Conditions(action.branchConditions) <= YesTagged(c.conditions)
  }

  /** Every trigger-to-action path that can be walked at all, not only the compiled one, fits the compiled
      entry of its action. */
  ghost predicate MergeSafe(nodes: seq<Node>, edges: seq<Edge>)
    requires |Triggers(nodes)| == 1
  {
    var kinds, actions := NodeMap(nodes), ActionsOf(nodes, edges);
    forall p, i :: 0 <= i < |actions| && IsPath(edges, TriggerId(nodes), p, actions[i].nodeId)
                   && Consistent(ContextOf(kinds, p).conditions) ==>
                     EntryFits(actions[i], ContextOf(kinds, p))
  }

  ghost function DrawnConditions(nodes: seq<Node>): set<Condition> {
    set node | node in nodes && node.kind.ConditionNode? :: node.kind.condition
  }

  /** The outcomes under which exactly the given conditions hold. */
  function Exactly(holding: set<Condition>): Valuation {
    (c: Condition) => c in holding
  }

  ghost predicate Followed(nodes: seq<Node>, edges: seq<Edge>, a: NodeId, holding: set<Condition>)
    requires |Triggers(nodes)| == 1
  {
    exists p :: IsPath(edges, TriggerId(nodes), p, a)
                && TagsAgree(ContextOf(NodeMap(nodes), p).conditions, Exactly(holding))
  }

  /** A compiled entry that tags a condition both ways comes from a path nobody can walk. The other paths to
      its action must take up every choice of drawn conditions that selects it. */
  ghost predicate DeadEntriesCovered(nodes: seq<Node>, edges: seq<Edge>)
    requires |Triggers(nodes)| == 1
  {
    var actions := ActionsOf(nodes, edges);
    forall i, holding :: 0 <= i < |actions| && !Consistent(actions[i].branchConditions)
                         && Conditions(actions[i].branchConditions) <= holding <= DrawnConditions(nodes) ==>
                           Followed(nodes, edges, actions[i].nodeId, holding)
  }

  // ---- Compiled entries and paths ----------------------------------------------------------------

  /** A compiled action comes with a real path; it is the only entry of its node, and every reachable
      action node has one. */
  lemma EntryOf(nodes: seq<Node>, edges: seq<Edge>, i: nat) returns (p: Path)
    requires Accepted(nodes, edges) && i < |ActionsOf(nodes, edges)|
    ensures var action := ActionsOf(nodes, edges)[i];
            && IsPath(edges, TriggerId(nodes), p, action.nodeId)
            && KindOf(NodeMap(nodes), action.nodeId).ActionNode?
            && ContextOf(NodeMap(nodes), p) == Context(action.delayMinutes, action.branchConditions)
  {
    hide NodeMap, Traverse, Triggers;
    var found := CompilationIsExact(nodes, edges);
    var action := Compiled(nodes, edges).actions[i];
    assert Emitted(NodeMap(nodes), map[], found, action);
    p := found[action.nodeId];
    assert IsShortest(edges, TriggerId(nodes), p, action.nodeId);
  }

  lemma EntryFor(nodes: seq<Node>, edges: seq<Edge>, p: Path, a: NodeId) returns (i: nat)
    requires Accepted(nodes, edges) && IsPath(edges, TriggerId(nodes), p, a) && KindOf(NodeMap(nodes), a).ActionNode?
    ensures i < |ActionsOf(nodes, edges)| && ActionsOf(nodes, edges)[i].nodeId == a
    ensures forall j :: 0 <= j < |ActionsOf(nodes, edges)| && ActionsOf(nodes, edges)[j].nodeId == a ==> j == i
  {
    hide NodeMap, Traverse, Triggers, IsPath;
    var found := CompilationIsExact(nodes, edges);
    assert Reaches(edges, TriggerId(nodes), a);
    var actions := Compiled(nodes, edges).actions;
    assert Listed(actions, a);
    i :| 0 <= i < |actions| && actions[i].nodeId == a;
  }

  /** Walking a route, in terms of the compiler's context for it. */
  lemma WalkOutcome(nodes: seq<Node>, edges: seq<Edge>, p: Path, a: NodeId, v: Valuation)
    requires Accepted(nodes, edges) && IsPath(edges, TriggerId(nodes), p, a)
    ensures var c := ContextOf(NodeMap(nodes), p);
            Walk(NodeMap(nodes), v, p, 0) == if TagsAgree(c.conditions, v) then Some(c.delay) else None
  {
    hide NodeMap, Traverse, Triggers, IsPath, HasCycle, Walk;
    AcceptedIsWellKinded(nodes, edges);
    WalkIsContext(NodeMap(nodes), edges, TriggerId(nodes), p, a, v);
  }

  lemma KindIsDrawn(nodes: seq<Node>, edges: seq<Edge>, n: NodeId)
    requires Accepted(nodes, edges) && KindOf(NodeMap(nodes), n).ConditionNode?
    ensures KindOf(NodeMap(nodes), n).condition in DrawnConditions(nodes)
  {
    hide NodeMap, Accepts;
    var i := Lookup(nodes, n);
    assert nodes[i] in nodes;
  }

  lemma ConditionsAppend(tags: seq<CompiledCondition>, tag: CompiledCondition)
    ensures Conditions(tags + [tag]) == Conditions(tags) + {tag.condition}
  {
    var all := tags + [tag];
    assert all[|tags|] == tag;
    assert forall i :: 0 <= i < |tags| ==> all[i] == tags[i];
  }

  /** Every tag of a path comes from a condition node the path leaves. */
  lemma {:induction false} TagHasSource(kinds: Kinds, p: Path, c: Condition) returns (k: nat)
    requires c in Conditions(ContextOf(kinds, p).conditions)
    ensures k < |p| && KindOf(kinds, p[k].source) == ConditionNode(c)
    decreases |p|
  {
    var front, last := p[..|p| - 1], p[|p| - 1];
    var kind := KindOf(kinds, last.source);
    if kind.ConditionNode? {
      ConditionsAppend(ContextOf(kinds, front).conditions, CompiledCondition(kind.condition, BranchOf(last.handle)));
    }
    if kind == ConditionNode(c) {
      k := |p| - 1;
    } else {
      k := TagHasSource(kinds, front, c);
    }
  }

  lemma TagsAreDrawn(nodes: seq<Node>, edges: seq<Edge>, p: Path)
    requires Accepted(nodes, edges)
    ensures Conditions(ContextOf(NodeMap(nodes), p).conditions) <= DrawnConditions(nodes)
  {
    assert |Triggers(nodes)| == 1;
    hide NodeMap, Accepted, ContextOf, DrawnConditions, Conditions;
    forall c | c in Conditions(ContextOf(NodeMap(nodes), p).conditions) ensures c in DrawnConditions(nodes) {
      var k := TagHasSource(NodeMap(nodes), p, c);
      KindIsDrawn(nodes, edges, p[k].source);
    }
  }

  lemma AgreeingIsConsistent(tags: seq<CompiledCondition>, v: Valuation)
    requires TagsAgree(tags, v)
    ensures Consistent(tags)
  {
  }

  /** Tags that do not contradict each other agree with the outcomes "exactly the yes-tagged conditions hold". */
  lemma ConsistentAgrees(tags: seq<CompiledCondition>)
    requires Consistent(tags)
    ensures TagsAgree(tags, Exactly(YesTagged(tags)))
  {
    forall i | 0 <= i < |tags| ensures tags[i].condition in YesTagged(tags) <==> tags[i].branch.YesBranch? {
      if tags[i].condition in YesTagged(tags) {
        var j :| 0 <= j < |tags| && tags[j].branch.YesBranch? && tags[j].condition == tags[i].condition;
      }
    }
  }

  lemma HoldIff(tags: seq<CompiledCondition>, v: Valuation)
    ensures ConditionsHold(tags, v) <==> forall c :: c in Conditions(tags) ==> v(c)
  {
    if forall c :: c in Conditions(tags) ==> v(c) {
      forall i | 0 <= i < |tags| ensures v(tags[i].condition) {
        assert tags[i].condition in Conditions(tags);
      }
    }
  }

  // ---- From the condition to equal meaning -------------------------------------------------------

  /** The walkable paths fit, so what the walk reaches by one of them is selected, at the same time. */
  lemma WalkedIsSelected(nodes: seq<Node>, edges: seq<Edge>, v: Valuation, a: NodeId, delay: int)
    requires Accepted(nodes, edges) && MergeSafe(nodes, edges)
    requires Walked(nodes, edges, v, a, delay)
    ensures Selected(ActionsOf(nodes, edges), v, a, delay)
  {
    assert |Triggers(nodes)| == 1;
    hide NodeMap, Traverse, Triggers, IsPath, Walk, ContextOf, Accepted, Consistent, TagsAgree, ConditionsHold;
    var p :| IsPath(edges, TriggerId(nodes), p, a) && KindOf(NodeMap(nodes), a).ActionNode?
             && Walk(NodeMap(nodes), v, p, 0) == Some(delay);
    var i := EntryFor(nodes, edges, p, a);
    WalkOutcome(nodes, edges, p, a, v);
    var tags := ContextOf(NodeMap(nodes), p).conditions;
    AgreeingIsConsistent(tags, v);
    YesTaggedHold(tags, v);
    HoldIff(ActionsOf(nodes, edges)[i].branchConditions, v);
  }

  lemma YesTaggedHold(tags: seq<CompiledCondition>, v: Valuation)
    requires TagsAgree(tags, v)
    ensures forall c :: c in YesTagged(tags) ==> v(c)
  {
  }

  lemma FollowedIsWalked(nodes: seq<Node>, edges: seq<Edge>, p: Path, i: nat, v: Valuation)
    requires Accepted(nodes, edges) && MergeSafe(nodes, edges) && i < |ActionsOf(nodes, edges)|
    requires IsPath(edges, TriggerId(nodes), p, ActionsOf(nodes, edges)[i].nodeId)
    requires TagsAgree(ContextOf(NodeMap(nodes), p).conditions, v)
    ensures Walked(nodes, edges, v, ActionsOf(nodes, edges)[i].nodeId, ActionsOf(nodes, edges)[i].delayMinutes)
  {
    assert |Triggers(nodes)| == 1;
    hide NodeMap, Traverse, Triggers, IsPath, Walk, ContextOf, Accepted, Consistent, TagsAgree;
    var own := EntryOf(nodes, edges, i);
    AgreeingIsConsistent(ContextOf(NodeMap(nodes), p).conditions, v);
    WalkOutcome(nodes, edges, p, ActionsOf(nodes, edges)[i].nodeId, v);
  }

  /** An entry that fits its own path and contradicts itself nowhere is tagged yes throughout. */
  lemma FittingEntryAgrees(tags: seq<CompiledCondition>, v: Valuation)
    requires Consistent(tags) && Conditions(tags) <= YesTagged(tags) && ConditionsHold(tags, v)
    ensures TagsAgree(tags, v)
  {
    forall i | 0 <= i < |tags| ensures tags[i].branch.YesBranch? {
      assert tags[i].condition in Conditions(tags);
      var j :| 0 <= j < |tags| && tags[j].branch.YesBranch? && tags[j].condition == tags[i].condition;
    }
  }

  /** Only drawn conditions matter to a path or an entry. */
  lemma RestrictAgrees(tags: seq<CompiledCondition>, v: Valuation, drawn: set<Condition>)
    requires Conditions(tags) <= drawn
    ensures TagsAgree(tags, v) <==> TagsAgree(tags, Exactly(set c | c in drawn && v(c)))
  {
    assert forall i :: 0 <= i < |tags| ==> tags[i].condition in Conditions(tags);
  }

  lemma SelectedIsFollowed(nodes: seq<Node>, edges: seq<Edge>, v: Valuation, i: nat) returns (p: Path)
    requires Accepted(nodes, edges) && MergeSafe(nodes, edges) && DeadEntriesCovered(nodes, edges)
    requires i < |ActionsOf(nodes, edges)| && ConditionsHold(ActionsOf(nodes, edges)[i].branchConditions, v)
    ensures IsPath(edges, TriggerId(nodes), p, ActionsOf(nodes, edges)[i].nodeId)
    ensures TagsAgree(ContextOf(NodeMap(nodes), p).conditions, v)
  {
    assert |Triggers(nodes)| == 1;
    hide NodeMap, Traverse, Triggers, IsPath, ContextOf, Accepted, Consistent, TagsAgree, ConditionsHold,
         DrawnConditions, Conditions, YesTagged;
    var entry := ActionsOf(nodes, edges)[i];
    var own := EntryOf(nodes, edges, i);
    if Consistent(entry.branchConditions) {
      p := own;
      FittingEntryAgrees(entry.branchConditions, v);
    } else {
      var drawn := DrawnConditions(nodes);
      var holding := set c | c in drawn && v(c);
      TagsAreDrawn(nodes, edges, own);
      HoldIff(entry.branchConditions, v);
      assert Conditions(entry.branchConditions) <= holding <= drawn;
      assert Followed(nodes, edges, entry.nodeId, holding);
      p :| IsPath(edges, TriggerId(nodes), p, entry.nodeId)
           && TagsAgree(ContextOf(NodeMap(nodes), p).conditions, Exactly(holding));
      TagsAreDrawn(nodes, edges, p);
      RestrictAgrees(ContextOf(NodeMap(nodes), p).conditions, v, drawn);
    }
  }

  lemma SelectedIsWalkedThen(nodes: seq<Node>, edges: seq<Edge>, v: Valuation, a: NodeId, delay: int)
    requires Accepted(nodes, edges) && MergeSafe(nodes, edges) && DeadEntriesCovered(nodes, edges)
    requires Selected(ActionsOf(nodes, edges), v, a, delay)
    ensures Walked(nodes, edges, v, a, delay)
  {
    assert |Triggers(nodes)| == 1;
    hide NodeMap, Traverse, Triggers, IsPath, ContextOf, Accepted, TagsAgree, ConditionsHold, MergeSafe,
         DeadEntriesCovered;
    var actions := ActionsOf(nodes, edges);
    var i :| 0 <= i < |actions| && actions[i].nodeId == a && actions[i].delayMinutes == delay
             && ConditionsHold(actions[i].branchConditions, v);
    var p := SelectedIsFollowed(nodes, edges, v, i);
    FollowedIsWalked(nodes, edges, p, i, v);
  }

  // ---- From equal meaning to the condition -------------------------------------------------------

  /** Under the outcomes "exactly the yes-tagged conditions of p hold" the walk follows p; if that is
      preserved, the compiled entry fits p. */
  lemma PreservedFits(nodes: seq<Node>, edges: seq<Edge>, p: Path, i: nat)
    requires Accepted(nodes, edges) && AlwaysPreserved(nodes, edges) && i < |ActionsOf(nodes, edges)|
    requires IsPath(edges, TriggerId(nodes), p, ActionsOf(nodes, edges)[i].nodeId)
    requires Consistent(ContextOf(NodeMap(nodes), p).conditions)
    ensures EntryFits(ActionsOf(nodes, edges)[i], ContextOf(NodeMap(nodes), p))
  {
    assert |Triggers(nodes)| == 1;
    hide NodeMap, Traverse, Triggers, IsPath, Walk, ContextOf, Accepted, Consistent, TagsAgree, ConditionsHold;
    var a, c := ActionsOf(nodes, edges)[i].nodeId, ContextOf(NodeMap(nodes), p);
    var v := Exactly(YesTagged(c.conditions));
    ConsistentAgrees(c.conditions);
    WalkOutcome(nodes, edges, p, a, v);
    var own := EntryOf(nodes, edges, i);
    assert Walked(nodes, edges, v, a, c.delay);
    assert Preserved(nodes, edges, v);
    assert Selected(ActionsOf(nodes, edges), v, a, c.delay);
    var j := EntryFor(nodes, edges, p, a);
    HoldIff(ActionsOf(nodes, edges)[i].branchConditions, v);
  }

  lemma PreservedCovers(nodes: seq<Node>, edges: seq<Edge>, i: nat, holding: set<Condition>)
    requires Accepted(nodes, edges) && AlwaysPreserved(nodes, edges) && i < |ActionsOf(nodes, edges)|
    requires Conditions(ActionsOf(nodes, edges)[i].branchConditions) <= holding
    ensures Followed(nodes, edges, ActionsOf(nodes, edges)[i].nodeId, holding)
  {
    assert |Triggers(nodes)| == 1;
    hide NodeMap, Traverse, Triggers, IsPath, Walk, ContextOf, Accepted, TagsAgree, ConditionsHold;
    var entry, v := ActionsOf(nodes, edges)[i], Exactly(holding);
    HoldIff(entry.branchConditions, v);
    assert Preserved(nodes, edges, v);
    assert Selected(ActionsOf(nodes, edges), v, entry.nodeId, entry.delayMinutes);
    var p :| IsPath(edges, TriggerId(nodes), p, entry.nodeId)
             && Walk(NodeMap(nodes), v, p, 0) == Some(entry.delayMinutes);
    WalkOutcome(nodes, edges, p, entry.nodeId, v);
  }

  /** For every accepted graph, whatever its tags: the compiled list means the same as the drawn graph under
      all outcomes of the conditions if and only if every walkable path to an action has the compiled delay
      and passes the compiled conditions by their `yes` sides, and self-contradicting entries are covered. */
  lemma MeaningPreservedIffMergeSafe(nodes: seq<Node>, edges: seq<Edge>)
    requires Accepted(nodes, edges)
    ensures AlwaysPreserved(nodes, edges) <==> MergeSafe(nodes, edges) && DeadEntriesCovered(nodes, edges)
  {
    assert |Triggers(nodes)| == 1;
    hide NodeMap, Traverse, Triggers, IsPath, Selected, Walked, Accepted, EntryFits, Consistent, Followed;
    if AlwaysPreserved(nodes, edges) {
      var actions := ActionsOf(nodes, edges);
      forall p, i | 0 <= i < |actions| && IsPath(edges, TriggerId(nodes), p, actions[i].nodeId)
                    && Consistent(ContextOf(NodeMap(nodes), p).conditions)
        ensures EntryFits(actions[i], ContextOf(NodeMap(nodes), p))
      {
        PreservedFits(nodes, edges, p, i);
      }
      forall i, holding | 0 <= i < |actions| && Conditions(actions[i].branchConditions) <= holding
        ensures Followed(nodes, edges, actions[i].nodeId, holding)
      {
        PreservedCovers(nodes, edges, i, holding);
      }
    }
    if MergeSafe(nodes, edges) && DeadEntriesCovered(nodes, edges) {
      hide MergeSafe, DeadEntriesCovered;
      forall v: Valuation, a, delay
        ensures Selected(ActionsOf(nodes, edges), v, a, delay) <==> Walked(nodes, edges, v, a, delay)
      {
        if Selected(ActionsOf(nodes, edges), v, a, delay) {
          SelectedIsWalkedThen(nodes, edges, v, a, delay);
        }
        if Walked(nodes, edges, v, a, delay) {
          WalkedIsSelected(nodes, edges, v, a, delay);
        }
      }
    }
  }

  /** In particular, when no compiled entry contradicts itself, the walkable paths decide. */
  lemma WalkablePathsDecide(nodes: seq<Node>, edges: seq<Edge>)
    requires Accepted(nodes, edges)
    requires forall i :: 0 <= i < |ActionsOf(nodes, edges)| ==> Consistent(ActionsOf(nodes, edges)[i].branchConditions)
    ensures AlwaysPreserved(nodes, edges) <==> MergeSafe(nodes, edges)
  {
    assert |Triggers(nodes)| == 1;
    hide NodeMap, Traverse, Triggers, Accepted, AlwaysPreserved, MergeSafe, Consistent, Followed;
    MeaningPreservedIffMergeSafe(nodes, edges);
  }

  // ---- No condition drawn twice ------------------------------------------------------------------

  /** Different condition nodes test different conditions. */
  ghost predicate DrawnOnce(nodes: seq<Node>) {
    forall i, j :: 0 <= i < j < |nodes| && nodes[i].kind.ConditionNode? && nodes[j].kind.ConditionNode? ==>
                     nodes[i].kind.condition != nodes[j].kind.condition
  }

  lemma SameConditionSameNode(nodes: seq<Node>, m: NodeId, n: NodeId)
    requires UniqueIds(nodes) && DrawnOnce(nodes) && KindOf(NodeMap(nodes), m).ConditionNode?
    requires KindOf(NodeMap(nodes), m) == KindOf(NodeMap(nodes), n)
    ensures m == n
  {
    hide NodeMap;
    var i := Lookup(nodes, m);
    var j := Lookup(nodes, n);
  }

  /** A path through an accepted graph then passes each condition at most once. */
  lemma {:induction false} DrawnOnceIsConsistent(nodes: seq<Node>, edges: seq<Edge>, a: NodeId, p: Path, b: NodeId)
    requires UniqueIds(nodes) && DrawnOnce(nodes) && !HasCycle(edges) && IsPath(edges, a, p, b)
    ensures Consistent(ContextOf(NodeMap(nodes), p).conditions)
    decreases |p|
  {
    if p != [] {
      hide NodeMap, UniqueIds, DrawnOnce, HasCycle, Conditions;
      var front, last := p[..|p| - 1], p[|p| - 1];
      var kind := KindOf(NodeMap(nodes), last.source);
      DrawnOnceIsConsistent(nodes, edges, a, front, last.source);
      var tags := ContextOf(NodeMap(nodes), front).conditions;
      if kind.ConditionNode? {
        if kind.condition in Conditions(tags) {
          var k := TagHasSource(NodeMap(nodes), front, kind.condition);
          SameConditionSameNode(nodes, front[k].source, last.source);
          SourceIsNode(edges, a, front, last.source, k);
          Split(edges, a, front, last.source, k);
          OnlyEmptyPathsReturn(edges, last.source, front[k..]);
          assert false;
        }
        NewTagIsConsistent(tags, CompiledCondition(kind.condition, BranchOf(last.handle)));
      }
    }
  }

  lemma NewTagIsConsistent(tags: seq<CompiledCondition>, tag: CompiledCondition)
    requires Consistent(tags) && tag.condition !in Conditions(tags)
    ensures Consistent(tags + [tag])
  {
    assert forall i :: 0 <= i < |tags| ==> tags[i].condition in Conditions(tags);
  }

  /** Every trigger-to-action path has the delay of its action's compiled entry, and passes every compiled
      condition by its `yes` side. */
  ghost predicate AllPathsFit(nodes: seq<Node>, edges: seq<Edge>)
    requires |Triggers(nodes)| == 1
  {
    var kinds, actions := NodeMap(nodes), ActionsOf(nodes, edges);
    forall p, i :: 0 <= i < |actions| && IsPath(edges, TriggerId(nodes), p, actions[i].nodeId) ==>
                     EntryFits(actions[i], ContextOf(kinds, p))
  }

  lemma AllWalkable(nodes: seq<Node>, edges: seq<Edge>)
    requires |Triggers(nodes)| == 1
    requires forall p, a :: IsPath(edges, TriggerId(nodes), p, a) ==>
                              Consistent(ContextOf(NodeMap(nodes), p).conditions)
    ensures MergeSafe(nodes, edges) <==> AllPathsFit(nodes, edges)
  {
    hide NodeMap, ActionsOf, Triggers, TriggerId, IsPath, EntryFits, Consistent, ContextOf;
  }

  /** When no condition is drawn twice, branches may split and merge again, and the compiled list means the
      same as the drawn graph under all outcomes if and only if all trigger-to-action paths fit. */
  lemma MeaningPreservedIffPathsAgree(nodes: seq<Node>, edges: seq<Edge>)
    requires Accepted(nodes, edges) && DrawnOnce(nodes)
    ensures AlwaysPreserved(nodes, edges) <==> AllPathsFit(nodes, edges)
  {
    assert |Triggers(nodes)| == 1 && UniqueIds(nodes) && !HasCycle(edges);
    hide NodeMap, Traverse, Triggers, IsPath, Accepted, Consistent, HasCycle, UniqueIds, DrawnOnce, AllPathsFit,
         AlwaysPreserved, ContextOf, Followed, MergeSafe;
    MeaningPreservedIffMergeSafe(nodes, edges);
    forall p, a | IsPath(edges, TriggerId(nodes), p, a) ensures Consistent(ContextOf(NodeMap(nodes), p).conditions) {
      DrawnOnceIsConsistent(nodes, edges, TriggerId(nodes), p, a);
    }
    AllWalkable(nodes, edges);
    forall i | 0 <= i < |ActionsOf(nodes, edges)| ensures Consistent(ActionsOf(nodes, edges)[i].branchConditions) {
      var own := EntryOf(nodes, edges, i);
      assert Consistent(ContextOf(NodeMap(nodes), own).conditions);
    }
  }

  /** In particular a condition whose two sides merge before an action is fatal: if some walkable path to the
      action passes a compiled condition by its `no` side, the meaning is not preserved. */
  lemma SplitAndMergeIsLost(nodes: seq<Node>, edges: seq<Edge>, p: Path, i: nat, k: nat, m: nat)
    requires Accepted(nodes, edges) && i < |ActionsOf(nodes, edges)|
    requires IsPath(edges, TriggerId(nodes), p, ActionsOf(nodes, edges)[i].nodeId)
    requires Consistent(ContextOf(NodeMap(nodes), p).conditions)
    requires k < |ActionsOf(nodes, edges)[i].branchConditions| && m < |ContextOf(NodeMap(nodes), p).conditions|
    requires ContextOf(NodeMap(nodes), p).conditions[m]
          == CompiledCondition(ActionsOf(nodes, edges)[i].branchConditions[k].condition, NoBranch)
    ensures !AlwaysPreserved(nodes, edges)
  {
    assert |Triggers(nodes)| == 1;
    hide NodeMap, Traverse, Triggers, IsPath, Accepted, AlwaysPreserved, ContextOf, Consistent, YesTagged;
    NoIsNotYes(ContextOf(NodeMap(nodes), p).conditions, m);
    assert ActionsOf(nodes, edges)[i].branchConditions[k].condition
        in Conditions(ActionsOf(nodes, edges)[i].branchConditions);
    if AlwaysPreserved(nodes, edges) {
      PreservedFits(nodes, edges, p, i);
      assert false;
    }
  }

  lemma NoIsNotYes(tags: seq<CompiledCondition>, m: nat)
    requires Consistent(tags) && m < |tags| && tags[m].branch == NoBranch
    ensures tags[m].condition !in YesTagged(tags)
  {
  }

  // ---- Graphs without `no` edges -----------------------------------------------------------------

  predicate AllYes(conditions: seq<CompiledCondition>) {
    forall i :: 0 <= i < |conditions| ==> conditions[i].branch.YesBranch?
  }

  ghost predicate NoNegativeEdges(nodes: seq<Node>, edges: seq<Edge>) {
    forall e :: e in edges && KindOf(NodeMap(nodes), e.source).ConditionNode? ==> e.handle != No
  }

  lemma {:induction false} NoNegativeTags(nodes: seq<Node>, edges: seq<Edge>, a: NodeId, p: Path, b: NodeId)
    requires NoNegativeEdges(nodes, edges) && IsPath(edges, a, p, b)
    ensures AllYes(ContextOf(NodeMap(nodes), p).conditions)
    decreases |p|
  {
    if p != [] {
      NoNegativeTags(nodes, edges, a, p[..|p| - 1], p[|p| - 1].source);
    }
  }

  /** Without `no` edges: whatever the evaluator selects, the walk reaches, at the same time. */
  lemma SelectedIsWalked(nodes: seq<Node>, edges: seq<Edge>, v: Valuation, a: NodeId, delay: int)
    requires Accepted(nodes, edges) && NoNegativeEdges(nodes, edges)
    requires Selected(ActionsOf(nodes, edges), v, a, delay)
    ensures Walked(nodes, edges, v, a, delay)
  {
    hide NodeMap, Traverse, Triggers, IsPath, NoNegativeEdges, Walk, ContextOf;
    var actions := ActionsOf(nodes, edges);
    var i :| 0 <= i < |actions| && actions[i].nodeId == a && actions[i].delayMinutes == delay
             && ConditionsHold(actions[i].branchConditions, v);
    var p := EntryOf(nodes, edges, i);
    NoNegativeTags(nodes, edges, TriggerId(nodes), p, a);
    WalkOutcome(nodes, edges, p, a, v);
  }

  // ---- Trees -------------------------------------------------------------------------------------

  /** At most one edge leads into any node. */
  ghost predicate SingleIncoming(edges: seq<Edge>) {
    forall e, f :: e in edges && f in edges && e.target == f.target ==> e == f
  }

  lemma {:induction false} UniquePaths(edges: seq<Edge>, start: NodeId, p: Path, q: Path, n: NodeId)
    requires SingleIncoming(edges) && !HasCycle(edges)
    requires IsPath(edges, start, p, n) && IsPath(edges, start, q, n)
    ensures p == q
    decreases |p|
  {
    if p == [] {
      OnlyEmptyPathsReturn(edges, start, q);
    } else if q == [] {
      OnlyEmptyPathsReturn(edges, start, p);
    } else {
      assert p[|p| - 1] == q[|q| - 1];
      UniquePaths(edges, start, p[..|p| - 1], q[..|q| - 1], p[|p| - 1].source);
      assert p == p[..|p| - 1] + [p[|p| - 1]] && q == q[..|q| - 1] + [q[|q| - 1]];
    }
  }

  /** With at most one edge into each node, the compiled list means the same as the drawn graph under all
      outcomes if and only if no compiled action carries a `no` tag. */
  lemma MeaningPreservedIffNoNegativeTag(nodes: seq<Node>, edges: seq<Edge>)
    requires Accepted(nodes, edges) && SingleIncoming(edges)
    ensures AlwaysPreserved(nodes, edges) <==>
            forall i :: 0 <= i < |ActionsOf(nodes, edges)| ==> AllYes(ActionsOf(nodes, edges)[i].branchConditions)
  {
    assert |Triggers(nodes)| == 1;
    hide NodeMap, Traverse, Triggers, IsPath, Selected, Walked, Accepted, SingleIncoming;
    var actions := ActionsOf(nodes, edges);
    if AlwaysPreserved(nodes, edges) {
      var v: Valuation := (condition: Condition) => true;
      assert Preserved(nodes, edges, v);
      forall i | 0 <= i < |actions| ensures AllYes(actions[i].branchConditions) {
        TreeEntry(nodes, edges, v, i);
        HoldsUnderAllTrue(actions[i].branchConditions, v);
        SelectedEntry(actions, v, i);
      }
    }
    if forall i :: 0 <= i < |actions| ==> AllYes(actions[i].branchConditions) {
      forall v: Valuation, a, delay
        ensures Selected(actions, v, a, delay) <==> Walked(nodes, edges, v, a, delay)
      {
        TreeAgrees(nodes, edges, v, a, delay);
      }
    }
  }

  lemma HoldsUnderAllTrue(conditions: seq<CompiledCondition>, v: Valuation)
    requires forall c :: v(c)
    ensures ConditionsHold(conditions, v)
    ensures TagsAgree(conditions, v) <==> AllYes(conditions)
  {
  }

  lemma SelectedEntry(actions: seq<CompiledAction>, v: Valuation, i: nat)
    requires i < |actions| && ConditionsHold(actions[i].branchConditions, v)
    ensures Selected(actions, v, actions[i].nodeId, actions[i].delayMinutes)
  {
  }

  /** In a tree, the walk reaches a compiled action exactly when the outcomes agree with its tags. */
  lemma TreeEntry(nodes: seq<Node>, edges: seq<Edge>, v: Valuation, i: nat)
    requires Accepted(nodes, edges) && SingleIncoming(edges) && i < |ActionsOf(nodes, edges)|
    ensures var action := ActionsOf(nodes, edges)[i];
            forall delay :: Walked(nodes, edges, v, action.nodeId, delay) <==>
                            delay == action.delayMinutes && TagsAgree(action.branchConditions, v)
  {
    hide NodeMap, Traverse, Triggers, IsPath, SingleIncoming, Walk, ContextOf, TagsAgree;
    var action := ActionsOf(nodes, edges)[i];
    var own := EntryOf(nodes, edges, i);
    WalkOutcome(nodes, edges, own, action.nodeId, v);
    forall route | IsPath(edges, TriggerId(nodes), route, action.nodeId) ensures route == own {
      UniquePaths(edges, TriggerId(nodes), route, own, action.nodeId);
    }
  }

  lemma TreeAgrees(nodes: seq<Node>, edges: seq<Edge>, v: Valuation, a: NodeId, delay: int)
    requires Accepted(nodes, edges) && SingleIncoming(edges)
    requires forall i :: 0 <= i < |ActionsOf(nodes, edges)| ==> AllYes(ActionsOf(nodes, edges)[i].branchConditions)
    ensures Selected(ActionsOf(nodes, edges), v, a, delay) <==> Walked(nodes, edges, v, a, delay)
  {
    assert |Triggers(nodes)| == 1;
    hide NodeMap, Traverse, Triggers, IsPath, SingleIncoming, Accepted;
    var actions := ActionsOf(nodes, edges);
    if Selected(actions, v, a, delay) {
      var i :| 0 <= i < |actions| && actions[i].nodeId == a && actions[i].delayMinutes == delay
               && ConditionsHold(actions[i].branchConditions, v);
      TreeEntry(nodes, edges, v, i);
    }
    if Walked(nodes, edges, v, a, delay) {
      var p :| IsPath(edges, TriggerId(nodes), p, a) && KindOf(NodeMap(nodes), a).ActionNode?
               && Walk(NodeMap(nodes), v, p, 0) == Some(delay);
      var i := EntryFor(nodes, edges, p, a);
      TreeEntry(nodes, edges, v, i);
    }
  }

  /** A `no` edge leaves a condition node within reach of the trigger and leads on to an action. */
  ghost predicate NegativeOnTheWay(nodes: seq<Node>, edges: seq<Edge>, e: Edge, a: NodeId)
    requires |Triggers(nodes)| == 1
  {
    && e in edges && e.handle == No && KindOf(NodeMap(nodes), e.source).ConditionNode?
    && Reaches(edges, TriggerId(nodes), e.source)
    && Reaches(edges, e.target, a) && KindOf(NodeMap(nodes), a).ActionNode?
  }

  lemma {:induction false} NoTagHasEdge(kinds: Kinds, p: Path) returns (k: nat)
    requires !AllYes(ContextOf(kinds, p).conditions)
    ensures k < |p| && p[k].handle == No && KindOf(kinds, p[k].source).ConditionNode?
    decreases |p|
  {
    var front, last := p[..|p| - 1], p[|p| - 1];
    if last.handle == No && KindOf(kinds, last.source).ConditionNode? {
      k := |p| - 1;
    } else {
      k := NoTagHasEdge(kinds, front);
    }
  }

  /** What a path from the trigger has been tagged with stays on every continuation. */
  lemma {:induction false} TagsStay(kinds: Kinds, edges: seq<Edge>, start: NodeId, q: Path, m: NodeId, r: Path,
                                    b: NodeId)
    requires q != [] && IsPath(edges, start, q, m) && IsPath(edges, m, r, b) && !HasCycle(edges)
    requires forall n :: n in kinds && kinds[n].TriggerNode? ==> n == start
    ensures ContextOf(kinds, q).conditions <= ContextOf(kinds, q + r).conditions
    decreases |r|
  {
    if r == [] {
      assert q + r == q;
    } else {
      hide HasCycle;
      var front, last := r[..|r| - 1], r[|r| - 1];
      TagsStay(kinds, edges, start, q, m, front, last.source);
      assert (q + r)[..|q + r| - 1] == q + front;
      if KindOf(kinds, last.source).TriggerNode? {
        Concatenate(edges, start, q, m, front, last.source);
        OnlyEmptyPathsReturn(edges, start, q + front);
        assert false;
      }
    }
  }

  lemma PassesNoEdge(kinds: Kinds, edges: seq<Edge>, start: NodeId, p: Path, a: NodeId) returns (e: Edge)
    requires IsPath(edges, start, p, a) && !AllYes(ContextOf(kinds, p).conditions)
    ensures e in edges && e.handle == No && KindOf(kinds, e.source).ConditionNode?
    ensures Reaches(edges, start, e.source) && Reaches(edges, e.target, a)
  {
    hide IsPath, ContextOf, AllYes, KindOf;
    var k := NoTagHasEdge(kinds, p);
    e := p[k];
    SourceIsNode(edges, start, p, a, k);
    Split(edges, start, p, a, k);
    Split(edges, start, p, a, k + 1);
    assert NodeAt(start, p, k + 1) == e.target;
  }

  lemma NoTagIsOnTheWay(nodes: seq<Node>, edges: seq<Edge>, i: nat) returns (e: Edge)
    requires Accepted(nodes, edges) && i < |ActionsOf(nodes, edges)|
    requires !AllYes(ActionsOf(nodes, edges)[i].branchConditions)
    ensures NegativeOnTheWay(nodes, edges, e, ActionsOf(nodes, edges)[i].nodeId)
  {
    assert |Triggers(nodes)| == 1;
    hide NodeMap, Traverse, Triggers, IsPath, ContextOf, Accepted, AllYes, Reaches, KindOf;
    var p := EntryOf(nodes, edges, i);
    e := PassesNoEdge(NodeMap(nodes), edges, TriggerId(nodes), p, ActionsOf(nodes, edges)[i].nodeId);
  }

  lemma NoTagStays(kinds: Kinds, edges: seq<Edge>, start: NodeId, q: Path, e: Edge, r: Path, b: NodeId)
    requires IsPath(edges, start, q, e.source) && e in edges && IsPath(edges, e.target, r, b) && !HasCycle(edges)
    requires e.handle == No && KindOf(kinds, e.source).ConditionNode?
    requires forall n :: n in kinds && kinds[n].TriggerNode? ==> n == start
    ensures IsPath(edges, start, q + [e] + r, b) && !AllYes(ContextOf(kinds, q + [e] + r).conditions)
  {
    hide HasCycle, IsPath;
    var at := |ContextOf(kinds, q).conditions|;
    StepTo(edges, start, q, e);
    assert (q + [e])[..|q|] == q;
    assert ContextOf(kinds, q + [e]).conditions[at].branch == NoBranch;
    hide ContextOf;
    TagsStay(kinds, edges, start, q + [e], e.target, r, b);
    Concatenate(edges, start, q + [e], e.target, r, b);
    assert ContextOf(kinds, q + [e] + r).conditions[at].branch == NoBranch;
  }

  lemma NegativeIsTagged(nodes: seq<Node>, edges: seq<Edge>, e: Edge, a: NodeId) returns (i: nat)
    requires Accepted(nodes, edges) && SingleIncoming(edges) && NegativeOnTheWay(nodes, edges, e, a)
    ensures i < |ActionsOf(nodes, edges)| && !AllYes(ActionsOf(nodes, edges)[i].branchConditions)
  {
    assert |Triggers(nodes)| == 1 && !HasCycle(edges);
    AcceptedIsWellKinded(nodes, edges);
    hide NodeMap, Traverse, Triggers, Accepted, SingleIncoming, HasCycle, IsPath, ContextOf, AllYes, KindOf, WellKinded;
    var trigger := TriggerId(nodes);
    var q :| IsPath(edges, trigger, q, e.source);
    var r :| IsPath(edges, e.target, r, a);
    NoTagStays(NodeMap(nodes), edges, trigger, q, e, r, a);
    i := EntryFor(nodes, edges, q + [e] + r, a);
    var own := EntryOf(nodes, edges, i);
    UniquePaths(edges, trigger, own, q + [e] + r, a);
  }

  /** With at most one edge into each node, the compiled list means the same as the drawn graph under all
      outcomes if and only if no `no` edge of a condition within reach leads on to an action. */
  lemma TreePreservedIffNoNegativeEdge(nodes: seq<Node>, edges: seq<Edge>)
    requires Accepted(nodes, edges) && SingleIncoming(edges)
    ensures AlwaysPreserved(nodes, edges) <==> forall e, a :: !NegativeOnTheWay(nodes, edges, e, a)
  {
    assert |Triggers(nodes)| == 1;
    hide NodeMap, Traverse, Triggers, Accepted, SingleIncoming, AlwaysPreserved, NegativeOnTheWay, AllYes;
    MeaningPreservedIffNoNegativeTag(nodes, edges);
    forall i | 0 <= i < |ActionsOf(nodes, edges)| && !AllYes(ActionsOf(nodes, edges)[i].branchConditions)
      ensures exists e, a :: NegativeOnTheWay(nodes, edges, e, a)
    {
      var e := NoTagIsOnTheWay(nodes, edges, i);
    }
    forall e, a | NegativeOnTheWay(nodes, edges, e, a)
      ensures exists i :: 0 <= i < |ActionsOf(nodes, edges)| && !AllYes(ActionsOf(nodes, edges)[i].branchConditions)
    {
      var i := NegativeIsTagged(nodes, edges, e, a);
    }
  }

  lemma SingleIncomingIsPreserved(nodes: seq<Node>, edges: seq<Edge>)
    requires Accepted(nodes, edges) && SingleIncoming(edges) && NoNegativeEdges(nodes, edges)
    ensures AlwaysPreserved(nodes, edges)
  {
    assert |Triggers(nodes)| == 1;
    hide NodeMap, Traverse, Triggers, IsPath, SingleIncoming, Accepted, AllYes, NoNegativeEdges;
    forall i | 0 <= i < |ActionsOf(nodes, edges)| ensures AllYes(ActionsOf(nodes, edges)[i].branchConditions) {
      var p := EntryOf(nodes, edges, i);
      NoNegativeTags(nodes, edges, TriggerId(nodes), p, ActionsOf(nodes, edges)[i].nodeId);
    }
    MeaningPreservedIffNoNegativeTag(nodes, edges);
  }
}
