/** Equal meaning for the customers there can be: an execution only ever receives a customer record, in which the
    trigger's payload can set any field, so what counts is which of the drawn conditions can be met together. */
module Customers {
  import opened Graphs
  import opened Workflows
  import opened Compiler
  import opened Traversal
  import opened Meaning
  import opened Preservation
  import opened Utils

  /** Executing the compiled list serves every customer as a walk of the drawn graph would. */
  ghost predicate ServedAsDrawn(nodes: seq<Node>, edges: seq<Edge>, coerce: Coercion)
    requires |Triggers(nodes)| == 1
  {
    forall customer: CustomerRecord :: Preserved(nodes, edges, OutcomesFor(customer, coerce))
  }

  // ---- Only the drawn conditions count -----------------------------------------------------------

  ghost predicate SameOn(drawn: set<Condition>, v: Valuation, w: Valuation) {
    forall c :: c in drawn ==> v(c) == w(c)
  }

  lemma TagsSame(tags: seq<CompiledCondition>, drawn: set<Condition>, v: Valuation, w: Valuation)
    requires Conditions(tags) <= drawn && SameOn(drawn, v, w)
    ensures TagsAgree(tags, v) <==> TagsAgree(tags, w)
    ensures ConditionsHold(tags, v) <==> ConditionsHold(tags, w)
  {
    assert forall i :: 0 <= i < |tags| ==> tags[i].condition in Conditions(tags);
  }

  lemma SelectedSame(nodes: seq<Node>, edges: seq<Edge>, v: Valuation, w: Valuation, a: NodeId, delay: int)
    requires Accepted(nodes, edges) && SameOn(DrawnConditions(nodes), v, w)
    requires Selected(ActionsOf(nodes, edges), v, a, delay)
    ensures Selected(ActionsOf(nodes, edges), w, a, delay)
  {
    assert |Triggers(nodes)| == 1;
    hide NodeMap, Traverse, Triggers, IsPath, ContextOf, Accepted, ConditionsHold, TagsAgree, SameOn, Conditions,
         DrawnConditions;
    var actions := ActionsOf(nodes, edges);
    var i :| 0 <= i < |actions| && actions[i].nodeId == a && actions[i].delayMinutes == delay
             && ConditionsHold(actions[i].branchConditions, v);
    var own := EntryOf(nodes, edges, i);
    TagsAreDrawn(nodes, edges, own);
    TagsSame(actions[i].branchConditions, DrawnConditions(nodes), v, w);
  }

  lemma WalkedSame(nodes: seq<Node>, edges: seq<Edge>, v: Valuation, w: Valuation, a: NodeId, delay: int)
    requires Accepted(nodes, edges) && SameOn(DrawnConditions(nodes), v, w)
    requires Walked(nodes, edges, v, a, delay)
    ensures Walked(nodes, edges, w, a, delay)
  {
    assert |Triggers(nodes)| == 1;
    hide NodeMap, Traverse, Triggers, IsPath, ContextOf, Accepted, Walk, TagsAgree, SameOn, Conditions,
         DrawnConditions;
    var p :| IsPath(edges, TriggerId(nodes), p, a) && KindOf(NodeMap(nodes), a).ActionNode?
             && Walk(NodeMap(nodes), v, p, 0) == Some(delay);
    TagsAreDrawn(nodes, edges, p);
    TagsSame(ContextOf(NodeMap(nodes), p).conditions, DrawnConditions(nodes), v, w);
    WalkOutcome(nodes, edges, p, a, v);
    WalkOutcome(nodes, edges, p, a, w);
  }

  lemma PreservedSame(nodes: seq<Node>, edges: seq<Edge>, v: Valuation, w: Valuation)
    requires Accepted(nodes, edges) && SameOn(DrawnConditions(nodes), v, w) && Preserved(nodes, edges, v)
    ensures Preserved(nodes, edges, w)
  {
    assert |Triggers(nodes)| == 1;
    assert SameOn(DrawnConditions(nodes), w, v);
    hide NodeMap, Traverse, Triggers, Accepted, SameOn, Selected, Walked, DrawnConditions;
    forall a, delay ensures Selected(ActionsOf(nodes, edges), w, a, delay) <==> Walked(nodes, edges, w, a, delay) {
      assert Selected(ActionsOf(nodes, edges), v, a, delay) <==> Walked(nodes, edges, v, a, delay);
      if Selected(ActionsOf(nodes, edges), w, a, delay) {
        SelectedSame(nodes, edges, w, v, a, delay);
        WalkedSame(nodes, edges, v, w, a, delay);
      }
      if Walked(nodes, edges, w, a, delay) {
        WalkedSame(nodes, edges, w, v, a, delay);
        SelectedSame(nodes, edges, v, w, a, delay);
      }
    }
  }

  // ---- The exact condition, for any conditions ---------------------------------------------------

  /** The drawn conditions a customer meets. */
  ghost function MetBy(nodes: seq<Node>, customer: CustomerRecord, coerce: Coercion): set<Condition> {
    set c | c in DrawnConditions(nodes) && Holds(c, customer, coerce)
  }

  /** Some customer meets exactly these of the drawn conditions. */
  ghost predicate Realised(nodes: seq<Node>, coerce: Coercion, met: set<Condition>) {
    exists customer: CustomerRecord :: MetBy(nodes, customer, coerce) == met
  }

  /** A path taken by those who meet exactly `met`. */
  ghost predicate Takes(nodes: seq<Node>, edges: seq<Edge>, met: set<Condition>, p: Path, a: NodeId)
    requires |Triggers(nodes)| == 1
  {
    IsPath(edges, TriggerId(nodes), p, a) && TagsAgree(ContextOf(NodeMap(nodes), p).conditions, Exactly(met))
  }

  /** For those who meet exactly `met`: every path they take to an action has the compiled delay, its compiled
      conditions are among those met, and an action whose compiled conditions are all met lies on such a path. */
  ghost predicate FitsFor(nodes: seq<Node>, edges: seq<Edge>, met: set<Condition>)
    requires |Triggers(nodes)| == 1
  {
    var kinds, actions := NodeMap(nodes), ActionsOf(nodes, edges);
    && (forall p, i :: 0 <= i < |actions| && Takes(nodes, edges, met, p, actions[i].nodeId) ==>
          && ContextOf(kinds, p).delay == actions[i].delayMinutes
          && Conditions(actions[i].branchConditions) <= met)
    && (forall i :: 0 <= i < |actions| && Conditions(actions[i].branchConditions) <= met ==>
          exists p :: Takes(nodes, edges, met, p, actions[i].nodeId))
  }

  lemma TakenIsWalked(nodes: seq<Node>, edges: seq<Edge>, met: set<Condition>, p: Path, i: nat)
    requires Accepted(nodes, edges) && i < |ActionsOf(nodes, edges)|
    requires Takes(nodes, edges, met, p, ActionsOf(nodes, edges)[i].nodeId)
    ensures Walked(nodes, edges, Exactly(met), ActionsOf(nodes, edges)[i].nodeId, ContextOf(NodeMap(nodes), p).delay)
  {
    assert |Triggers(nodes)| == 1;
    hide NodeMap, Traverse, Triggers, IsPath, ContextOf, Accepted, Walk, TagsAgree;
    var own := EntryOf(nodes, edges, i);
    WalkOutcome(nodes, edges, p, ActionsOf(nodes, edges)[i].nodeId, Exactly(met));
  }

  lemma WalkedIsTaken(nodes: seq<Node>, edges: seq<Edge>, met: set<Condition>, a: NodeId, delay: int)
    returns (p: Path, i: nat)
    requires Accepted(nodes, edges) && Walked(nodes, edges, Exactly(met), a, delay)
    ensures i < |ActionsOf(nodes, edges)| && ActionsOf(nodes, edges)[i].nodeId == a
    ensures Takes(nodes, edges, met, p, a) && ContextOf(NodeMap(nodes), p).delay == delay
    ensures forall j :: 0 <= j < |ActionsOf(nodes, edges)| && ActionsOf(nodes, edges)[j].nodeId == a ==> j == i
  {
    assert |Triggers(nodes)| == 1;
    hide NodeMap, Traverse, Triggers, IsPath, ContextOf, Accepted, Walk, TagsAgree;
    p :| IsPath(edges, TriggerId(nodes), p, a) && KindOf(NodeMap(nodes), a).ActionNode?
         && Walk(NodeMap(nodes), Exactly(met), p, 0) == Some(delay);
    i := EntryFor(nodes, edges, p, a);
    WalkOutcome(nodes, edges, p, a, Exactly(met));
  }

  lemma HoldExactly(tags: seq<CompiledCondition>, met: set<Condition>)
    ensures ConditionsHold(tags, Exactly(met)) <==> Conditions(tags) <= met
  {
    HoldIff(tags, Exactly(met));
  }

  lemma SelectedExactly(nodes: seq<Node>, edges: seq<Edge>, met: set<Condition>, a: NodeId, delay: int)
    requires |Triggers(nodes)| == 1
    ensures Selected(ActionsOf(nodes, edges), Exactly(met), a, delay)
       <==> exists i :: 0 <= i < |ActionsOf(nodes, edges)| && ActionsOf(nodes, edges)[i].nodeId == a
                        && ActionsOf(nodes, edges)[i].delayMinutes == delay
                        && Conditions(ActionsOf(nodes, edges)[i].branchConditions) <= met
  {
    hide ActionsOf, Triggers, ConditionsHold, Conditions;
    forall i | 0 <= i < |ActionsOf(nodes, edges)|
      ensures ConditionsHold(ActionsOf(nodes, edges)[i].branchConditions, Exactly(met))
         <==> Conditions(ActionsOf(nodes, edges)[i].branchConditions) <= met
    {
      HoldExactly(ActionsOf(nodes, edges)[i].branchConditions, met);
    }
  }

  lemma PreservedFitsFor(nodes: seq<Node>, edges: seq<Edge>, met: set<Condition>)
    requires Accepted(nodes, edges) && Preserved(nodes, edges, Exactly(met))
    ensures FitsFor(nodes, edges, met)
  {
    assert |Triggers(nodes)| == 1;
    hide NodeMap, Traverse, Triggers, ContextOf, Accepted, Walked, Selected, Takes, Conditions, ActionsOf;
    var actions := ActionsOf(nodes, edges);
    forall p, i | 0 <= i < |actions| && Takes(nodes, edges, met, p, actions[i].nodeId)
      ensures ContextOf(NodeMap(nodes), p).delay == actions[i].delayMinutes
      ensures Conditions(actions[i].branchConditions) <= met
    {
      var delay := ContextOf(NodeMap(nodes), p).delay;
      TakenIsWalked(nodes, edges, met, p, i);
      SelectedExactly(nodes, edges, met, actions[i].nodeId, delay);
      var q, j := WalkedIsTaken(nodes, edges, met, actions[i].nodeId, delay);
    }
    forall i | 0 <= i < |actions| && Conditions(actions[i].branchConditions) <= met
      ensures exists p :: Takes(nodes, edges, met, p, actions[i].nodeId)
    {
      SelectedExactly(nodes, edges, met, actions[i].nodeId, actions[i].delayMinutes);
      var p, j := WalkedIsTaken(nodes, edges, met, actions[i].nodeId, actions[i].delayMinutes);
    }
  }

  lemma FitsForPreserves(nodes: seq<Node>, edges: seq<Edge>, met: set<Condition>)
    requires Accepted(nodes, edges) && FitsFor(nodes, edges, met)
    ensures Preserved(nodes, edges, Exactly(met))
  {
    assert |Triggers(nodes)| == 1;
    hide NodeMap, Traverse, Triggers, ContextOf, Accepted, Walked, Selected, Takes, Conditions, ActionsOf;
    var actions := ActionsOf(nodes, edges);
    forall a, delay
      ensures Selected(actions, Exactly(met), a, delay) <==> Walked(nodes, edges, Exactly(met), a, delay)
    {
      SelectedExactly(nodes, edges, met, a, delay);
      if Selected(actions, Exactly(met), a, delay) {
        var i :| 0 <= i < |actions| && actions[i].nodeId == a && actions[i].delayMinutes == delay
                 && Conditions(actions[i].branchConditions) <= met;
        var p :| Takes(nodes, edges, met, p, actions[i].nodeId);
        TakenIsWalked(nodes, edges, met, p, i);
      }
      if Walked(nodes, edges, Exactly(met), a, delay) {
        var p, i := WalkedIsTaken(nodes, edges, met, a, delay);
      }
    }
  }

  /** For every accepted graph and whatever its conditions: every customer is served as drawn if and only if the
      compiled list fits every set of drawn conditions that some customer meets exactly. */
  lemma ServedIffFits(nodes: seq<Node>, edges: seq<Edge>, coerce: Coercion)
    requires Accepted(nodes, edges)
    ensures ServedAsDrawn(nodes, edges, coerce)
       <==> forall met :: Realised(nodes, coerce, met) ==> FitsFor(nodes, edges, met)
  {
    assert |Triggers(nodes)| == 1;
    hide Triggers, Accepted, Preserved, FitsFor, Holds, SameOn;
    forall customer: CustomerRecord
      ensures Preserved(nodes, edges, OutcomesFor(customer, coerce))
         <==> FitsFor(nodes, edges, MetBy(nodes, customer, coerce))
    {
      CustomerFits(nodes, edges, customer, coerce);
    }
    assert forall customer: CustomerRecord :: Realised(nodes, coerce, MetBy(nodes, customer, coerce));
  }

  lemma CustomerFits(nodes: seq<Node>, edges: seq<Edge>, customer: CustomerRecord, coerce: Coercion)
    requires Accepted(nodes, edges)
    ensures Preserved(nodes, edges, OutcomesFor(customer, coerce))
       <==> FitsFor(nodes, edges, MetBy(nodes, customer, coerce))
  {
    assert |Triggers(nodes)| == 1;
    var v, met := OutcomesFor(customer, coerce), MetBy(nodes, customer, coerce);
    assert SameOn(DrawnConditions(nodes), v, Exactly(met)) && SameOn(DrawnConditions(nodes), Exactly(met), v);
    hide Triggers, Accepted, Preserved, FitsFor, Holds, SameOn, MetBy;
    if Preserved(nodes, edges, v) {
      PreservedSame(nodes, edges, v, Exactly(met));
      PreservedFitsFor(nodes, edges, met);
    }
    if FitsFor(nodes, edges, met) {
      FitsForPreserves(nodes, edges, met);
      PreservedSame(nodes, edges, Exactly(met), v);
    }
  }

  /** A customer who takes a path on which a compiled condition of the action is passed by its `no` side: the walk
      reaches the action and the compiled list leaves it out. No assumption on the rest of the graph is needed. */
  lemma TakerIsPassedOver(nodes: seq<Node>, edges: seq<Edge>, customer: CustomerRecord, coerce: Coercion,
                          p: Path, i: nat, k: nat, m: nat)
    requires Accepted(nodes, edges) && i < |ActionsOf(nodes, edges)|
    requires IsPath(edges, TriggerId(nodes), p, ActionsOf(nodes, edges)[i].nodeId)
    requires TagsAgree(ContextOf(NodeMap(nodes), p).conditions, OutcomesFor(customer, coerce))
    requires k < |ActionsOf(nodes, edges)[i].branchConditions| && m < |ContextOf(NodeMap(nodes), p).conditions|
    requires ContextOf(NodeMap(nodes), p).conditions[m]
          == CompiledCondition(ActionsOf(nodes, edges)[i].branchConditions[k].condition, NoBranch)
    ensures Walked(nodes, edges, OutcomesFor(customer, coerce), ActionsOf(nodes, edges)[i].nodeId,
                   ContextOf(NodeMap(nodes), p).delay)
    ensures !EvaluateActionConditions(ActionsOf(nodes, edges)[i], customer, coerce)
  {
    assert |Triggers(nodes)| == 1;
    hide NodeMap, Traverse, Triggers, IsPath, ContextOf, Accepted, Walk, Holds;
    var own := EntryOf(nodes, edges, i);
    WalkOutcome(nodes, edges, p, ActionsOf(nodes, edges)[i].nodeId, OutcomesFor(customer, coerce));
    assert !OutcomesFor(customer, coerce)(ActionsOf(nodes, edges)[i].branchConditions[k].condition);
  }

  // ---- Independent conditions --------------------------------------------------------------------

  /** The drawn conditions can be met in any combination. */
  ghost predicate Independent(nodes: seq<Node>, coerce: Coercion) {
    forall met :: met <= DrawnConditions(nodes) ==> Realised(nodes, coerce, met)
  }

  /** Then customers show every difference there is under any outcomes. */
  lemma CustomersShowAll(nodes: seq<Node>, edges: seq<Edge>, coerce: Coercion)
    requires Accepted(nodes, edges) && Independent(nodes, coerce)
    ensures ServedAsDrawn(nodes, edges, coerce) <==> AlwaysPreserved(nodes, edges)
  {
    assert |Triggers(nodes)| == 1;
    hide Triggers, Accepted, Preserved, Holds, DrawnConditions, SameOn;
    if ServedAsDrawn(nodes, edges, coerce) {
      forall v: Valuation ensures Preserved(nodes, edges, v) {
        var drawn := DrawnConditions(nodes);
        var met := set c | c in drawn && v(c);
        assert Realised(nodes, coerce, met);
        var customer: CustomerRecord :| MetBy(nodes, customer, coerce) == met;
        MetIsSame(nodes, customer, coerce, v);
        PreservedSame(nodes, edges, OutcomesFor(customer, coerce), v);
      }
    }
  }

  lemma MetIsSame(nodes: seq<Node>, customer: CustomerRecord, coerce: Coercion, v: Valuation)
    requires MetBy(nodes, customer, coerce) == set c | c in DrawnConditions(nodes) && v(c)
    ensures SameOn(DrawnConditions(nodes), OutcomesFor(customer, coerce), v)
  {
    hide DrawnConditions, Holds;
    var drawn := DrawnConditions(nodes);
    forall c | c in drawn ensures Holds(c, customer, coerce) == v(c) {
      assert c in MetBy(nodes, customer, coerce) <==> c in (set d | d in drawn && v(d));
    }
  }

  /** For accepted graphs with independent conditions, every customer is served as drawn if and only if the
      walkable paths fit and the self-contradicting entries are covered. */
  lemma ServedIffMergeSafe(nodes: seq<Node>, edges: seq<Edge>, coerce: Coercion)
    requires Accepted(nodes, edges) && Independent(nodes, coerce)
    ensures ServedAsDrawn(nodes, edges, coerce) <==> MergeSafe(nodes, edges) && DeadEntriesCovered(nodes, edges)
  {
    hide Independent, ServedAsDrawn, AlwaysPreserved, MergeSafe, DeadEntriesCovered, Triggers, Traverse, NodeMap;
    CustomersShowAll(nodes, edges, coerce);
    MeaningPreservedIffMergeSafe(nodes, edges);
  }

  /** When moreover no condition is drawn twice: if and only if all trigger-to-action paths fit. */
  lemma ServedIffPathsAgree(nodes: seq<Node>, edges: seq<Edge>, coerce: Coercion)
    requires Accepted(nodes, edges) && Independent(nodes, coerce) && DrawnOnce(nodes)
    ensures ServedAsDrawn(nodes, edges, coerce) <==> AllPathsFit(nodes, edges)
  {
    hide Independent, ServedAsDrawn, AlwaysPreserved, AllPathsFit, DrawnOnce, Triggers, Traverse, NodeMap;
    CustomersShowAll(nodes, edges, coerce);
    MeaningPreservedIffPathsAgree(nodes, edges);
  }

  /** When moreover at most one edge leads into each node: if and only if no `no` edge of a condition within reach
      leads on to an action. */
  lemma TreeServedIffNoNegativeEdge(nodes: seq<Node>, edges: seq<Edge>, coerce: Coercion)
    requires Accepted(nodes, edges) && Independent(nodes, coerce) && SingleIncoming(edges)
    ensures ServedAsDrawn(nodes, edges, coerce) <==> forall e, a :: !NegativeOnTheWay(nodes, edges, e, a)
  {
    assert |Triggers(nodes)| == 1;
    hide Independent, ServedAsDrawn, AlwaysPreserved, NegativeOnTheWay, SingleIncoming, Triggers, Traverse, NodeMap;
    CustomersShowAll(nodes, edges, coerce);
    TreePreservedIffNoNegativeEdge(nodes, edges);
  }

  // ---- When conditions are independent -----------------------------------------------------------

  /** Some value of its field meets the condition and some value fails it. */
  ghost predicate Swayable(c: Condition, coerce: Coercion) {
    exists yes: Value, no: Value :: Sways(c, coerce, yes, no)
  }

  predicate Sways(c: Condition, coerce: Coercion, yes: Value, no: Value) {
    Holds(c, map[c.field := yes], coerce) && !Holds(c, map[c.field := no], coerce)
  }

  predicate Scalar(v: Value) {
    !v.List? && !v.Object?
  }

  /** What a condition has to look like for that. */
  predicate LooksSwayable(c: Condition, coerce: Coercion) {
    match c.operator
    case Eq => Scalar(c.value)
    case Neq => Scalar(c.value)
    case In => c.value.List? && exists i :: 0 <= i < |c.value.items| && Scalar(c.value.items[i])
    case NotIn => c.value.List? && exists i :: 0 <= i < |c.value.items| && Scalar(c.value.items[i])
    case UnknownOperator(_) => false
    case _ => ToNumber(c.value, coerce).Some?
  }

  lemma SwayableIff(c: Condition, coerce: Coercion)
    ensures Swayable(c, coerce) <==> LooksSwayable(c, coerce)
  {
    if LooksSwayable(c, coerce) {
      var other := if c.value == Null then Bool(true) else Null;
      match c.operator
      case Eq => assert Sways(c, coerce, c.value, other);
      case Neq => assert Sways(c, coerce, other, c.value);
      case In =>
        var i :| 0 <= i < |c.value.items| && Scalar(c.value.items[i]);
        assert Sways(c, coerce, c.value.items[i], List([]));
      case NotIn =>
        var i :| 0 <= i < |c.value.items| && Scalar(c.value.items[i]);
        assert Sways(c, coerce, List([]), c.value.items[i]);
      case Gt => NumberSways(c, coerce);
      case Lt => NumberSways(c, coerce);
      case Gte => NumberSways(c, coerce);
      case Lte => NumberSways(c, coerce);
      case UnknownOperator(_) =>
    }
  }

  lemma NumberSways(c: Condition, coerce: Coercion)
    requires c.operator in {Gt, Lt, Gte, Lte} && ToNumber(c.value, coerce).Some?
    ensures Swayable(c, coerce)
  {
    var n := ToNumber(c.value, coerce).value;
    match c.operator
    case Gt => assert Sways(c, coerce, Num(n + 1.0), Num(n));
    case Lt => assert Sways(c, coerce, Num(n - 1.0), Num(n));
    case Gte => assert Sways(c, coerce, Num(n), Num(n - 1.0));
    case Lte => assert Sways(c, coerce, Num(n), Num(n + 1.0));
  }

  ghost predicate DifferentFields(drawn: set<Condition>) {
    forall c, d :: c in drawn && d in drawn && c != d ==> c.field != d.field
  }

  /** Other fields do not matter to a condition. */
  lemma HoldsByField(c: Condition, one: CustomerRecord, other: CustomerRecord, coerce: Coercion)
    requires Field(one, c.field) == Field(other, c.field)
    ensures Holds(c, one, coerce) <==> Holds(c, other, coerce)
  {
  }

  /** A customer who meets exactly the chosen conditions, built field by field. */
  lemma {:induction false} BuildCustomer(drawn: set<Condition>, met: set<Condition>, coerce: Coercion)
    returns (customer: CustomerRecord)
    requires met <= drawn && DifferentFields(drawn) && forall c :: c in drawn ==> Swayable(c, coerce)
    ensures forall c :: c in drawn ==> (Holds(c, customer, coerce) <==> c in met)
    decreases drawn
  {
    if drawn == {} {
      customer := map[];
    } else {
      hide Holds;
      var c :| c in drawn;
      var yes: Value, no: Value :| Sways(c, coerce, yes, no);
      var rest := BuildCustomer(drawn - {c}, met - {c}, coerce);
      var value := if c in met then yes else no;
      customer := rest[c.field := value];
      HoldsByField(c, customer, map[c.field := value], coerce);
      forall d | d in drawn ensures Holds(d, customer, coerce) <==> d in met {
        if d != c {
          HoldsByField(d, customer, rest, coerce);
          assert d in drawn - {c};
        }
      }
    }
  }

  /** Conditions on pairwise different fields that can each be met and failed are independent. */
  lemma DifferentFieldsAreIndependent(nodes: seq<Node>, coerce: Coercion)
    requires DifferentFields(DrawnConditions(nodes))
    requires forall c :: c in DrawnConditions(nodes) ==> LooksSwayable(c, coerce)
    ensures Independent(nodes, coerce)
  {
    hide Holds, Swayable, DifferentFields, LooksSwayable;
    var drawn := DrawnConditions(nodes);
    forall c | c in drawn ensures Swayable(c, coerce) {
      SwayableIff(c, coerce);
    }
    forall met | met <= drawn ensures Realised(nodes, coerce, met) {
      var customer := BuildCustomer(drawn, met, coerce);
      assert MetBy(nodes, customer, coerce) == met;
    }
  }
}
