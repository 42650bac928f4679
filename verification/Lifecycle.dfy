/** Workflow lifecycle: every stored workflow is a successful compilation, and each business has at most
    one active workflow per trigger type. Execution of a workflow for a customer. */
module Lifecycle {
  import opened Graphs
  import opened Workflows
  import opened Compiler
  import opened Meaning
  import opened Preservation
  import opened Utils

  datatype Status = DRAFT | ACTIVE | PAUSED

  datatype Workflow = Workflow(
    businessId: string,
    name: string,
    triggerType: TriggerType,
    nodes: seq<Node>,
    edges: seq<Edge>,
    compiled: CompiledWorkflow,
    status: Status)

  type Table = map<nat, Workflow>

  datatype Store = Store(workflows: Table, nextId: nat)

  datatype Error =
    | NotFound | AlreadyActive | AlreadyPaused | DuplicateActiveTrigger
    | CompilationFailed | InvalidCompiled

  datatype Command =
    | Create(name: string, graph: GraphJson)
    | Update(id: nat, newName: Option<string>, newGraph: Option<GraphJson>)
    | Activate(id: nat)
    | Pause(id: nat)
    | Delete(id: nat)

  predicate Owned(table: Table, id: nat, business: string) {
    id in table && table[id].businessId == business
  }

  predicate Conflicts(table: Table, id: nat, business: string, trigger: TriggerType) {
    exists other :: other in table && other != id && table[other].businessId == business
                    && table[other].triggerType == trigger && table[other].status == ACTIVE
  }

  /** The failure a command meets, if any. */
  ghost function Failure(table: Table, business: string, c: Command): Option<Error> {
    match c
    case Create(_, graph) => if Accepts(graph) then None else Some(CompilationFailed)
    case Update(id, _, graph) =>
      if !Owned(table, id, business) then Some(NotFound)
      else if graph.Some? && !Accepts(graph.value) then Some(CompilationFailed) else None
    case Activate(id) =>
      if !Owned(table, id, business) then Some(NotFound)
      else if table[id].status == ACTIVE then Some(AlreadyActive)
      else if !ValidCompiled(table[id].compiled) then Some(InvalidCompiled)
      else if Conflicts(table, id, business, table[id].compiled.trigger) then Some(DuplicateActiveTrigger) else None
    case Pause(id) =>
      if !Owned(table, id, business) then Some(NotFound)
      else if table[id].status == PAUSED then Some(AlreadyPaused) else None
    case Delete(id) => if Owned(table, id, business) then None else Some(NotFound)
  }

  function Recompiled(w: Workflow, graph: GraphJson): Workflow
    requires graph.Graph? && |Triggers(graph.nodes)| == 1 && NodesOk(graph.nodes)
  {
    var compiled := Compiled(graph.nodes, graph.edges);
    w.(triggerType := compiled.trigger, nodes := graph.nodes, edges := graph.edges, compiled := compiled,
       status := DRAFT)
  }

  /** An empty new name is no new name. */
  function Renamed(w: Workflow, name: Option<string>): Workflow {
    if name.Some? && name.value != "" then w.(name := name.value) else w
  }

  /** The effect of a command: nothing when it fails, else one row. */
  ghost function Apply(s: Store, business: string, c: Command): Store {
    if Failure(s.workflows, business, c).Some? then s
    else
      match c
      case Create(name, graph) =>
        var compiled := Compiled(graph.nodes, graph.edges);
        Store(s.workflows[s.nextId := Workflow(business, name, compiled.trigger, graph.nodes, graph.edges,
                                               compiled, DRAFT)], s.nextId + 1)
      case Update(id, name, graph) =>
        var named := Renamed(s.workflows[id], name);
        s.(workflows := s.workflows[id := if graph.Some? then Recompiled(named, graph.value) else named])
      case Activate(id) => s.(workflows := s.workflows[id := s.workflows[id].(status := ACTIVE)])
      case Pause(id) => s.(workflows := s.workflows[id := s.workflows[id].(status := PAUSED)])
      case Delete(id) => s.(workflows := s.workflows[id := s.workflows[id].(status := PAUSED)])
  }

  ghost predicate FromCompiler(w: Workflow) {
    && Accepts(Graph(w.nodes, w.edges))
    && w.compiled == Compiled(w.nodes, w.edges)
    && w.triggerType == w.compiled.trigger
  }

  ghost predicate OneActivePerTrigger(table: Table) {
    forall i, j :: i in table && j in table && table[i].status == ACTIVE && table[j].status == ACTIVE
                   && table[i].businessId == table[j].businessId && table[i].triggerType == table[j].triggerType
                   ==> i == j
  }

  ghost predicate Consistent(s: Store) {
    && (forall id :: id in s.workflows ==> id < s.nextId && FromCompiler(s.workflows[id]))
    && OneActivePerTrigger(s.workflows)
  }

  /** Writing one row keeps a store consistent if the row is a compilation and, if active, has no rival. */
  lemma WriteConsistent(s: Store, id: nat, w: Workflow, nextId: nat)
    requires Consistent(s) && s.nextId <= nextId && id < nextId && FromCompiler(w)
    requires w.status == ACTIVE ==> !Conflicts(s.workflows, id, w.businessId, w.triggerType)
    ensures Consistent(Store(s.workflows[id := w], nextId))
  {
    hide FromCompiler;
  }

  lemma ActiveHasNoRival(s: Store, id: nat)
    requires Consistent(s) && id in s.workflows && s.workflows[id].status == ACTIVE
    ensures !Conflicts(s.workflows, id, s.workflows[id].businessId, s.workflows[id].triggerType)
  {
    hide FromCompiler;
  }

  lemma ApplyConsistent(s: Store, business: string, c: Command)
    requires Consistent(s)
    ensures Consistent(Apply(s, business, c))
  {
    hide Compiled, Accepts, OneActivePerTrigger, Conflicts;
    if Failure(s.workflows, business, c).None? {
      var s' := Apply(s, business, c);
      var id := if c.Create? then s.nextId else c.id;
      if c.Update? && s.workflows[id].status == ACTIVE {
        ActiveHasNoRival(s, id);
      }
      assert c.Create? || FromCompiler(s.workflows[id]);
      RowFromCompiler(s, business, c, id);
      WriteConsistent(s, id, s'.workflows[id], s'.nextId);
    }
  }

  lemma RecompiledFromCompiler(w: Workflow, graph: GraphJson)
    requires Accepts(graph)
    ensures FromCompiler(Recompiled(w, graph))
  {
    hide Compiled;
  }

  lemma CreatedFromCompiler(s: Store, business: string, name: string, graph: GraphJson)
    requires Accepts(graph)
    ensures FromCompiler(Apply(s, business, Create(name, graph)).workflows[s.nextId])
  {
    hide Compiled;
  }

  lemma RowFromCompiler(s: Store, business: string, c: Command, id: nat)
    requires Failure(s.workflows, business, c).None? && id == if c.Create? then s.nextId else c.id
    requires c.Create? || FromCompiler(s.workflows[id])
    ensures FromCompiler(Apply(s, business, c).workflows[id])
  {
    hide Conflicts, ValidCompiled, Compiled, Accepts, Recompiled;
    match c
    case Create(name, graph) =>
      CreatedFromCompiler(s, business, name, graph);
    case Update(_, _, graph) =>
      if graph.Some? {
        var w := s.workflows[id];
        RecompiledFromCompiler(Renamed(w, c.newName), graph.value);
      }
    case _ =>
  }

  datatype Request = Request(business: string, command: Command)

  ghost function Run(s: Store, requests: seq<Request>): Store {
    if requests == [] then s
    else
      var before := Run(s, requests[..|requests| - 1]);
      var last := requests[|requests| - 1];
      Apply(before, last.business, last.command)
  }

  /** Over any serial run of commands from an empty store: at most one active workflow per business and
      trigger type; every stored trigger type is the compiled one; every compiled form is the compiler's
      output for the stored graph, with 1 to 20 actions. */
  lemma {:induction false} RunsAreConsistent(requests: seq<Request>)
    ensures var s := Run(Store(map[], 0), requests);
            && Consistent(s)
            && forall id :: id in s.workflows ==> 1 <= |s.workflows[id].compiled.actions| <= MAX_ACTION_NODES
  {
    if requests != [] {
      var last := requests[|requests| - 1];
      RunsAreConsistent(requests[..|requests| - 1]);
      ApplyConsistent(Run(Store(map[], 0), requests[..|requests| - 1]), last.business, last.command);
    }
    var s := Run(Store(map[], 0), requests);
    forall id | id in s.workflows ensures 1 <= |s.workflows[id].compiled.actions| <= MAX_ACTION_NODES {
      assert FromCompiler(s.workflows[id]);
    }
  }

  /** Deletion only pauses: whoever holds the id can activate the workflow again unless another took its place. */
  lemma DeletedCanBeActivated(s: Store, business: string, id: nat)
    requires Consistent(s) && Owned(s.workflows, id, business)
    ensures var s' := Apply(Apply(s, business, Delete(id)), business, Activate(id));
            id in s'.workflows &&
            (s'.workflows[id].status == ACTIVE <==>
             !Conflicts(s.workflows, id, business, s.workflows[id].triggerType))
  {
    hide Conflicts, FromCompiler, ValidCompiled;
    var w := s.workflows[id];
    assert FromCompiler(w);
    CompilerOutputIsValid(w);
    ConflictsElsewhere(s.workflows, id, w.(status := PAUSED), business, w.triggerType);
  }

  lemma CompilerOutputIsValid(w: Workflow)
    requires FromCompiler(w)
    ensures ValidCompiled(w.compiled) && w.compiled.trigger == w.triggerType
  {
  }

  /** Conflicts are about other rows only. */
  lemma ConflictsElsewhere(table: Table, id: nat, w: Workflow, business: string, trigger: TriggerType)
    requires id in table
    ensures Conflicts(table[id := w], id, business, trigger) <==> Conflicts(table, id, business, trigger)
  {
    var t := table[id := w];
    if other :| other in table && other != id && table[other].businessId == business
                && table[other].triggerType == trigger && table[other].status == ACTIVE {
      assert other in t;
    }
  }

  // ---- What the commands do ----------------------------------------------------------------------

  /** A command touches at most the row it names, or the one it makes. */
  lemma OtherRowsStay(s: Store, business: string, c: Command, other: nat)
    requires other in s.workflows && other != (if c.Create? then s.nextId else c.id)
    ensures other in Apply(s, business, c).workflows
    ensures Apply(s, business, c).workflows[other] == s.workflows[other]
  {
    hide Accepts, Compiled, Conflicts;
  }

  /** Only the owner's command reaches a row. */
  lemma ForeignCommandIsIdle(s: Store, business: string, c: Command)
    requires !c.Create? && (c.id !in s.workflows || s.workflows[c.id].businessId != business)
    ensures Apply(s, business, c) == s && Failure(s.workflows, business, c) == Some(NotFound)
  {
    hide Accepts, Compiled, Conflicts;
  }

  /** Why an activation and a pause are refused, in any table, and that nothing else refuses them. */
  lemma RefusedIff(table: Table, business: string, id: nat)
    requires id in table && table[id].businessId == business
    ensures var w, failure := table[id], Failure(table, business, Activate(id));
      var unusable := w.compiled.actions == [] || w.compiled.schemaVersion != 1;
      var rivalled := exists other :: other in table && other != id && table[other].businessId == business
                                      && table[other].triggerType == w.compiled.trigger
                                      && table[other].status == ACTIVE;
      && (failure == Some(AlreadyActive) <==> w.status == ACTIVE)
      && (failure == Some(InvalidCompiled) <==> w.status != ACTIVE && unusable)
      && (failure == Some(DuplicateActiveTrigger) <==> w.status != ACTIVE && !unusable && rivalled)
      && (failure == None <==> w.status != ACTIVE && !unusable && !rivalled)
    ensures Failure(table, business, Pause(id)) == if table[id].status == PAUSED then Some(AlreadyPaused) else None
  {
  }

  /** After a pause or a deletion by its owner a workflow is paused, and otherwise as it was. */
  lemma PausedAfterwards(s: Store, business: string, id: nat, c: Command)
    requires id in s.workflows && s.workflows[id].businessId == business && (c == Pause(id) || c == Delete(id))
    ensures Apply(s, business, c).workflows == s.workflows[id := s.workflows[id].(status := PAUSED)]
  {
    assert s.workflows[id].status == PAUSED ==> s.workflows[id := s.workflows[id]] == s.workflows;
  }

  /** No other workflow of the same business on the same trigger is active. */
  ghost predicate NoRival(table: Table, id: nat)
    requires id in table
  {
    forall other :: other in table && other != id && table[other].businessId == table[id].businessId
                    && table[other].status == ACTIVE
                    ==> table[other].triggerType != table[id].triggerType
  }

  lemma NoRivalIff(table: Table, id: nat)
    requires id in table
    ensures NoRival(table, id) <==> !Conflicts(table, id, table[id].businessId, table[id].triggerType)
  {
  }

  lemma StoredIsValid(s: Store, id: nat)
    requires Consistent(s) && id in s.workflows
    ensures ValidCompiled(s.workflows[id].compiled)
    ensures s.workflows[id].compiled.trigger == s.workflows[id].triggerType
  {
    assert FromCompiler(s.workflows[id]);
    CompilerOutputIsValid(s.workflows[id]);
  }

  /** After an activation by its owner a workflow is active if and only if it was already, or has no rival;
      otherwise it is as it was. */
  lemma ActiveAfterwardsIff(s: Store, business: string, id: nat)
    requires Consistent(s) && id in s.workflows && s.workflows[id].businessId == business
    ensures var w, after := s.workflows[id], Apply(s, business, Activate(id)).workflows;
      after == s.workflows[id := w.(status := if w.status == ACTIVE || NoRival(s.workflows, id) then ACTIVE
                                              else w.status)]
  {
    hide FromCompiler, ValidCompiled, Consistent, Conflicts, NoRival, Accepts, Compiled;
    StoredIsValid(s, id);
    NoRivalIff(s.workflows, id);
    assert s.workflows[id := s.workflows[id]] == s.workflows;
  }

  /** Whatever is created or redrawn is a draft of the graph given; a graph that does not compile changes nothing. */
  lemma DrawnIsDraft(s: Store, business: string, c: Command, graph: GraphJson)
    requires (c.Create? && c.graph == graph)
             || (c.Update? && c.newGraph == Some(graph) && Owned(s.workflows, c.id, business))
    ensures var id, after := if c.Create? then s.nextId else c.id, Apply(s, business, c);
      if Accepts(graph) then
        && id in after.workflows
        && var w := after.workflows[id];
           && w.status == DRAFT && w.businessId == business && w.nodes == graph.nodes && w.edges == graph.edges
           && w.compiled == Compiled(graph.nodes, graph.edges) && w.triggerType == w.compiled.trigger
           && (c.Create? ==> w.name == c.name && after.nextId == s.nextId + 1)
           && (c.Update? ==> w.name == (match c.newName
                                        case Some(name) => if name == "" then s.workflows[id].name else name
                                        case None => s.workflows[id].name))
      else after == s && Failure(s.workflows, business, c) == Some(CompilationFailed)
  {
    hide Conflicts;
  }

  /** A rename alone changes the name alone. */
  lemma RenameOnly(s: Store, business: string, id: nat, name: string)
    requires Owned(s.workflows, id, business) && name != ""
    ensures Apply(s, business, Update(id, Some(name), None))
         == s.(workflows := s.workflows[id := s.workflows[id].(name := name)])
  {
  }

  /** The request activates the workflow: its owner asks, and it has no rival. */
  ghost predicate Activates(s: Store, r: Request, id: nat) {
    r.command == Activate(id) && Owned(s.workflows, id, r.business) && NoRival(s.workflows, id)
  }

  /** The request takes the workflow out of service: its owner pauses, deletes or redraws it. */
  ghost predicate Stops(s: Store, r: Request, id: nat) {
    && Owned(s.workflows, id, r.business)
    && (r.command == Pause(id) || r.command == Delete(id)
        || (r.command.Update? && r.command.id == id && r.command.newGraph.Some?
            && Accepts(r.command.newGraph.value)))
  }

  ghost predicate IsActive(s: Store, id: nat) {
    id in s.workflows && s.workflows[id].status == ACTIVE
  }

  lemma NextIdIsNew(s: Store)
    requires Consistent(s)
    ensures s.nextId !in s.workflows
  {
    hide FromCompiler, OneActivePerTrigger;
  }

  lemma CreatedIsInactive(s: Store, business: string, name: string, graph: GraphJson, id: nat)
    requires s.nextId !in s.workflows
    ensures IsActive(Apply(s, business, Create(name, graph)), id) <==> IsActive(s, id)
  {
    hide Accepts, Compiled;
  }

  lemma StatusAfterUpdate(s: Store, business: string, id: nat, name: Option<string>, graph: Option<GraphJson>)
    requires Owned(s.workflows, id, business)
    ensures IsActive(Apply(s, business, Update(id, name, graph)), id) <==>
            IsActive(s, id) && !(graph.Some? && Accepts(graph.value))
  {
    hide Accepts, Compiled;
  }

  lemma StatusAfter(s: Store, r: Request, id: nat)
    requires Consistent(s)
    ensures IsActive(Apply(s, r.business, r.command), id) <==>
            Activates(s, r, id) || (IsActive(s, id) && !Stops(s, r, id))
  {
    hide Accepts, Apply, Failure, Consistent, NoRival, Conflicts;
    NextIdIsNew(s);
    var business, c := r.business, r.command;
    match c
    case Create(name, graph) => CreatedIsInactive(s, business, name, graph, id);
    case _ =>
      if !Owned(s.workflows, c.id, business) {
        ForeignCommandIsIdle(s, business, c);
      } else if c.id != id {
        StatusElsewhere(s, business, c, id);
      } else {
        match c
        case Update(_, name, graph) => StatusAfterUpdate(s, business, id, name, graph);
        case Activate(_) => ActiveAfterwardsIff(s, business, id);
        case _ => PausedAfterwards(s, business, id, c);
      }
  }

  lemma StatusElsewhere(s: Store, business: string, c: Command, other: nat)
    requires !c.Create? && c.id in s.workflows && other != c.id
    ensures IsActive(Apply(s, business, c), other) <==> IsActive(s, other)
  {
    hide Accepts, Compiled, Conflicts, ValidCompiled;
  }

  /** The k-th request activated the workflow and no later one stopped it. */
  ghost predicate ActiveSince(requests: seq<Request>, id: nat, k: nat)
    requires k < |requests|
  {
    && Activates(Run(Store(map[], 0), requests[..k]), requests[k], id)
    && forall j :: k < j < |requests| ==> !Stops(Run(Store(map[], 0), requests[..j]), requests[j], id)
  }

  ghost predicate Activated(requests: seq<Request>, id: nat) {
    exists k: nat :: k < |requests| && ActiveSince(requests, id, k)
  }

  /** Over any run from an empty store, a workflow is active if and only if some request activated it and its owner
      has not paused, deleted or redrawn it since. */
  lemma {:induction false} ActiveIffActivated(requests: seq<Request>, id: nat)
    ensures IsActive(Run(Store(map[], 0), requests), id) <==> Activated(requests, id)
  {
    if requests != [] {
      var front, r := requests[..|requests| - 1], requests[|requests| - 1];
      assert requests == front + [r];
      ActiveIffActivated(front, id);
      RunsAreConsistent(front);
      StatusAfter(Run(Store(map[], 0), front), r, id);
      hide IsActive, Consistent;
      ActivatedAfter(front, r, id);
    }
  }

  lemma ActivatedAfter(front: seq<Request>, r: Request, id: nat)
    ensures var s := Run(Store(map[], 0), front);
      Activated(front + [r], id) <==> Activates(s, r, id) || (Activated(front, id) && !Stops(s, r, id))
  {
    hide Run, Activates, Stops;
    var longer := front + [r];
    assert longer[..|front|] == front;
    forall k: nat | k < |front|
      ensures ActiveSince(longer, id, k) <==>
              ActiveSince(front, id, k) && !Stops(Run(Store(map[], 0), front), r, id)
    {
      LongerSince(front, r, id, k);
    }
    assert ActiveSince(longer, id, |front|) <==> Activates(Run(Store(map[], 0), front), r, id);
  }

  lemma LongerSince(front: seq<Request>, r: Request, id: nat, k: nat)
    requires k < |front|
    ensures ActiveSince(front + [r], id, k) <==>
            ActiveSince(front, id, k) && !Stops(Run(Store(map[], 0), front), r, id)
  {
    hide Activates, Stops, Run;
    var longer := front + [r];
    assert longer[..|front|] == front && longer[..k] == front[..k];
    forall j | k < j < |front| ensures longer[..j] == front[..j] {
    }
  }

  class AutomationService {
    var workflows: Table
    var nextId: nat

    ghost function Snapshot(): Store
      reads this
    {
      Store(workflows, nextId)
    }

    constructor ()
      ensures Snapshot() == Store(map[], 0)
    {
      workflows, nextId := map[], 0;
    }

    method CreateWorkflow(business: string, name: string, graph: GraphJson) returns (result: Option<Error>)
      modifies this
      ensures result == Failure(old(workflows), business, Create(name, graph))
      ensures Snapshot() == Apply(old(Snapshot()), business, Create(name, graph))
    {
      var compilation := CompileGraph(graph);
      if compilation.compiled.None? {
        return Some(CompilationFailed);
      }
      var compiled := compilation.compiled.value;
      workflows := workflows[nextId := Workflow(business, name, compiled.trigger, graph.nodes, graph.edges,
                                                compiled, DRAFT)];
      nextId := nextId + 1;
      return None;
    }

    method UpdateWorkflow(id: nat, business: string, name: Option<string>, graph: Option<GraphJson>)
      returns (result: Option<Error>)
      modifies this
      ensures result == Failure(old(workflows), business, Update(id, name, graph))
      ensures Snapshot() == Apply(old(Snapshot()), business, Update(id, name, graph))
    {
      if !Owned(workflows, id, business) {
        return Some(NotFound);
      }
      var w := workflows[id];
      if name.Some? && name.value != "" {
        w := w.(name := name.value);
      }
      if graph.Some? {
        var compilation := CompileGraph(graph.value);
        if compilation.compiled.None? {
          return Some(CompilationFailed);
        }
        var compiled := compilation.compiled.value;
        w := w.(nodes := graph.value.nodes, edges := graph.value.edges, compiled := compiled,
                triggerType := compiled.trigger, status := DRAFT);
      }
      workflows := workflows[id := w];
      return None;
    }

    method ActivateWorkflow(id: nat, business: string) returns (result: Option<Error>)
      modifies this
      ensures result == Failure(old(workflows), business, Activate(id))
      ensures Snapshot() == Apply(old(Snapshot()), business, Activate(id))
    {
      if !Owned(workflows, id, business) {
        return Some(NotFound);
      }
      var w := workflows[id];
      if w.status == ACTIVE {
        return Some(AlreadyActive);
      }
      if !ValidCompiled(w.compiled) {
        return Some(InvalidCompiled);
      }
      if Conflicts(workflows, id, business, w.compiled.trigger) {
        return Some(DuplicateActiveTrigger);
      }
      workflows := workflows[id := w.(status := ACTIVE)];
      return None;
    }

    method PauseWorkflow(id: nat, business: string) returns (result: Option<Error>)
      modifies this
      ensures result == Failure(old(workflows), business, Pause(id))
      ensures Snapshot() == Apply(old(Snapshot()), business, Pause(id))
    {
      if !Owned(workflows, id, business) {
        return Some(NotFound);
      }
      if workflows[id].status == PAUSED {
        return Some(AlreadyPaused);
      }
      workflows := workflows[id := workflows[id].(status := PAUSED)];
      return None;
    }

    method DeleteWorkflow(id: nat, business: string) returns (result: Option<Error>)
      modifies this
      ensures result == Failure(old(workflows), business, Delete(id))
      ensures Snapshot() == Apply(old(Snapshot()), business, Delete(id))
    {
      if !Owned(workflows, id, business) {
        return Some(NotFound);
      }
      workflows := workflows[id := workflows[id].(status := PAUSED)];
      return None;
    }
  }

  // ---- Execution ---------------------------------------------------------------------------------

  /** The actions a customer's data selects, in compiled order. */
  function SelectedActions(actions: seq<CompiledAction>, customer: CustomerRecord, coerce: Coercion)
    : (chosen: seq<CompiledAction>)
    ensures forall a :: a in chosen <==> a in actions && EvaluateActionConditions(a, customer, coerce)
  {
    if actions == [] then []
    else
      var last := actions[|actions| - 1];
      assert actions == actions[..|actions| - 1] + [last];
      var rest := SelectedActions(actions[..|actions| - 1], customer, coerce);
      if EvaluateActionConditions(last, customer, coerce) then rest + [last] else rest
  }

  lemma SelectedNone(customer: CustomerRecord, coerce: Coercion)
    ensures SelectedActions([], customer, coerce) == []
  {
  }

  lemma SelectedAppend(actions: seq<CompiledAction>, a: CompiledAction, customer: CustomerRecord, coerce: Coercion)
    ensures SelectedActions(actions + [a], customer, coerce)
         == SelectedActions(actions, customer, coerce)
            + if EvaluateActionConditions(a, customer, coerce) then [a] else []
  {
    hide EvaluateActionConditions;
    assert (actions + [a])[..|actions|] == actions;
  }

  /** How many of the attempted actions were dispatched, as far as the run's status depends on it. */
  ghost predicate Counted(attempted: seq<CompiledAction>, throws: CompiledAction -> bool, dispatched: nat) {
    && dispatched <= |attempted|
    && (dispatched == |attempted| <==> forall a :: a in attempted ==> !throws(a))
    && (dispatched > 0 <==> exists a :: a in attempted && !throws(a))
  }

  lemma CountedAppend(attempted: seq<CompiledAction>, throws: CompiledAction -> bool, dispatched: nat,
                      a: CompiledAction)
    requires Counted(attempted, throws, dispatched)
    ensures Counted(attempted + [a], throws, if throws(a) then dispatched else dispatched + 1)
  {
    assert forall b :: b in attempted + [a] <==> b in attempted || b == a;
  }

  datatype RunStatus = COMPLETED | FAILED

  /** Dispatches every selected action once, in order; `throws` says which dispatches fail. */
  method ExecuteWorkflow(compiled: CompiledWorkflow, customer: CustomerRecord, coerce: Coercion,
                         throws: CompiledAction -> bool)
    returns (attempted: seq<CompiledAction>, dispatched: nat, skipped: nat, status: RunStatus)
    ensures attempted == SelectedActions(compiled.actions, customer, coerce)
    ensures skipped == |compiled.actions| - |attempted|
    ensures dispatched <= |attempted|
    ensures dispatched == |attempted| <==> forall a :: a in attempted ==> !throws(a)
    ensures status == COMPLETED <==> exists a :: a in attempted && !throws(a)
  {
    hide EvaluateActionConditions, SelectedActions;
    attempted, dispatched, skipped := [], 0, 0;
    SelectedNone(customer, coerce);
    for i := 0 to |compiled.actions|
      invariant attempted == SelectedActions(compiled.actions[..i], customer, coerce)
      invariant skipped == i - |attempted|
      invariant Counted(attempted, throws, dispatched)
    {
      var action := compiled.actions[i];
      assert compiled.actions[..i + 1] == compiled.actions[..i] + [action];
      SelectedAppend(compiled.actions[..i], action, customer, coerce);
      if !EvaluateActionConditions(action, customer, coerce) {
        skipped := skipped + 1;
        continue;
      }
      CountedAppend(attempted, throws, dispatched, action);
      attempted := attempted + [action];
      if !throws(action) {
        dispatched := dispatched + 1;
      }
    }
    assert compiled.actions[..|compiled.actions|] == compiled.actions;
    status := if dispatched > 0 then COMPLETED else FAILED;
  }

  /** On every accepted graph that meets the exact condition for equal meaning, executing the compiled list for
      a customer attempts exactly the actions, at exactly the delays, that a walk of the drawn graph with this
      customer's outcomes reaches. */
  lemma ExecutionFollowsGraph(nodes: seq<Node>, edges: seq<Edge>, customer: CustomerRecord, coerce: Coercion,
                              a: NodeId, delay: int)
    requires Accepted(nodes, edges) && MergeSafe(nodes, edges) && DeadEntriesCovered(nodes, edges)
    ensures (exists action :: action in SelectedActions(Compiled(nodes, edges).actions, customer, coerce)
                              && action.nodeId == a && action.delayMinutes == delay)
            <==> Walked(nodes, edges, OutcomesFor(customer, coerce), a, delay)
  {
    hide Traverse, NodeMap, MergeSafe, DeadEntriesCovered, Walked, Holds;
    MeaningPreservedIffMergeSafe(nodes, edges);
    var v := OutcomesFor(customer, coerce);
    assert Preserved(nodes, edges, v);
    assert Selected(ActionsOf(nodes, edges), v, a, delay) <==> Walked(nodes, edges, v, a, delay);
  }
}
