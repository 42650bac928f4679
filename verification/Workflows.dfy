/** The automation graph as drawn, its compiled form, and the evaluator of compiled conditions. */
module Workflows {
  import opened Graphs
  import opened Utils

  /** JSON values. Arrays and objects are compared by identity, so two of them are never strictly equal. */
  datatype Value =
    | Undefined
    | Null
    | Bool(flag: bool)
    | Num(number: real)
    | Text(text: string)
    | List(items: seq<Value>)
    | Object(json: string)

  /** The fields of a JSON object by name; fields that are absent read as `Undefined`. */
  type Data = map<string, Value>

  function Field(data: Data, name: string): Value {
    if name in data then data[name] else Undefined
  }

  /** Whether a JSON value counts as true. */
  predicate Truthy(v: Value) {
    match v
    case Undefined => false
    case Null => false
    case Bool(flag) => flag
    case Num(number) => number != 0.0
    case Text(text) => text != ""
    case _ => true
  }

  datatype Operator = Eq | Neq | Gt | Lt | Gte | Lte | In | NotIn | UnknownOperator(name: string)

  datatype Condition = Condition(field: string, operator: Operator, value: Value)

  datatype TriggerType =
    | BIRTHDAY | INACTIVITY | VISIT_MILESTONE | TIER_UPGRADE
    | SENTIMENT_NEGATIVE | SPEND_THRESHOLD | REFERRAL_CONVERTED

  datatype ActionType =
    | SEND_WHATSAPP | SEND_EMAIL | AWARD_POINTS | DEDUCT_POINTS
    | CHANGE_SEGMENT | CREATE_COUPON | MANAGER_ALERT

  /** `None` stands for a field that is missing or holds a value outside the known set. */
  datatype NodeKind =
    | TriggerNode(trigger: Option<TriggerType>, config: Data)
    | ActionNode(action: Option<ActionType>, data: Data)
    | DelayNode(minutes: Option<int>)
    | ConditionNode(condition: Condition)
    | UnknownNode(typeName: string)

  datatype Node = Node(id: NodeId, kind: NodeKind)

  datatype Branch = YesBranch | NoBranch

  datatype CompiledCondition = CompiledCondition(condition: Condition, branch: Branch)

  datatype CompiledAction = CompiledAction(
    order: nat,
    nodeId: NodeId,
    action: Option<ActionType>,
    config: Data,
    delayMinutes: int,
    branchConditions: seq<CompiledCondition>)

  datatype Metadata = Metadata(
    nodeCount: nat,
    actionCount: nat,
    maxDelayMinutes: int,
    hasConditions: bool,
    hasBranching: bool)

  datatype CompiledWorkflow = CompiledWorkflow(
    schemaVersion: int,
    trigger: TriggerType,
    triggerConfig: Data,
    actions: seq<CompiledAction>,
    metadata: Metadata)

  const COMPILED_SCHEMA_VERSION := 1
  const MAX_ACTION_NODES := 20
  const MAX_DELAY_MINUTES := 525_600

  // ---- Evaluator -------------------------------------------------------------------------------

  /** `Number(v)` for values that are not numbers; `None` is NaN. */
  type Coercion = Value -> Option<real>

  type CustomerRecord = Data

  predicate StrictlyEqual(a: Value, b: Value) {
    !a.List? && !a.Object? && a == b
  }

  function ToNumber(v: Value, coerce: Coercion): Option<real> {
    match v
    case Num(n) => Some(n)
    case _ => coerce(v)
  }

  /** Order comparisons with NaN are false. */
  predicate Compare(operator: Operator, a: Option<real>, b: Option<real>) {
    a.Some? && b.Some? &&
    match operator
    case Gt => a.value > b.value
    case Lt => a.value < b.value
    case Gte => a.value >= b.value
    case Lte => a.value <= b.value
    case _ => false
  }

  predicate Includes(items: seq<Value>, v: Value) {
    exists i :: 0 <= i < |items| && StrictlyEqual(items[i], v)
  }

  predicate Holds(c: Condition, customer: CustomerRecord, coerce: Coercion) {
    var actual := Field(customer, c.field);
    match c.operator
    case Eq => StrictlyEqual(actual, c.value)
    case Neq => !StrictlyEqual(actual, c.value)
    case In => c.value.List? && Includes(c.value.items, actual)
    case NotIn => c.value.List? && !Includes(c.value.items, actual)
    case UnknownOperator(_) => true
    case _ => Compare(c.operator, ToNumber(actual, coerce), ToNumber(c.value, coerce))
  }

  /** An assignment of outcomes to conditions. A customer record induces one; the branch tag is never read. */
  type Valuation = Condition -> bool

  function OutcomesFor(customer: CustomerRecord, coerce: Coercion): Valuation {
    (c: Condition) => Holds(c, customer, coerce)
  }

  predicate ConditionsHold(conditions: seq<CompiledCondition>, v: Valuation) {
    forall i :: 0 <= i < |conditions| ==> v(conditions[i].condition)
  }

  predicate EvaluateActionConditions(action: CompiledAction, customer: CustomerRecord, coerce: Coercion) {
    ConditionsHold(action.branchConditions, OutcomesFor(customer, coerce))
  }
}
