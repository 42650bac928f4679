/** What the outcome of a condition says about the customer, and what a run says about the customers it selects. */
module Outcomes {
  import opened Workflows
  import opened Lifecycle
  import opened Utils

  /** The value a customer has in a field. */
  function Own(customer: CustomerRecord, field: string): Value {
    if field in customer then customer[field] else Undefined
  }

  predicate Scalar(v: Value) {
    v == Undefined || v == Null || v.Bool? || v.Num? || v.Text?
  }

  // ---- One condition -----------------------------------------------------------------------------

  /** `eq` holds exactly of the customers whose own value is the scalar named; a list or an object equals nothing. */
  lemma EqIff(field: string, v: Value, customer: CustomerRecord, coerce: Coercion)
    ensures Holds(Condition(field, Eq, v), customer, coerce) <==> Scalar(v) && Own(customer, field) == v
  {
  }

  /** So a customer can be given the value, and two customers who meet the condition agree on it. */
  lemma EqNamesTheValue(field: string, v: Value, customer: CustomerRecord, other: CustomerRecord, coerce: Coercion)
    requires Scalar(v)
    ensures Holds(Condition(field, Eq, v), customer[field := v], coerce)
    ensures Holds(Condition(field, Eq, v), customer, coerce) && Holds(Condition(field, Eq, v), other, coerce) ==>
              Own(customer, field) == Own(other, field) == v
  {
    EqIff(field, v, customer[field := v], coerce);
    EqIff(field, v, customer, coerce);
    EqIff(field, v, other, coerce);
  }

  lemma NeqIsNotEq(field: string, v: Value, customer: CustomerRecord, coerce: Coercion)
    ensures Holds(Condition(field, Neq, v), customer, coerce) <==> !Holds(Condition(field, Eq, v), customer, coerce)
  {
  }

  /** `in` holds exactly when some scalar item of the list is the customer's value; on lists `not_in` is its
      complement, and on anything else neither holds. */
  lemma InIff(field: string, v: Value, customer: CustomerRecord, coerce: Coercion)
    ensures Holds(Condition(field, In, v), customer, coerce) <==>
            v.List? && Scalar(Own(customer, field)) && Own(customer, field) in v.items
    ensures v.List? ==>
              (Holds(Condition(field, NotIn, v), customer, coerce) <==>
               !Holds(Condition(field, In, v), customer, coerce))
    ensures !v.List? ==> !Holds(Condition(field, NotIn, v), customer, coerce)
  {
    if v.List? && Scalar(Own(customer, field)) && Own(customer, field) in v.items {
      var i :| 0 <= i < |v.items| && v.items[i] == Own(customer, field);
      assert StrictlyEqual(v.items[i], Own(customer, field));
    }
  }

  /** A customer given `value` in the field meets the comparison with `bound`. */
  predicate Meets(field: string, operator: Operator, value: Value, bound: Value, customer: CustomerRecord,
                  coerce: Coercion)
  {
    Holds(Condition(field, operator, bound), customer[field := value], coerce)
  }

  /** On numbers exactly one of `lt`, `eq` and `gt` holds, the one that holds of the numbers, and `gte` and `lte` are
      the complements of `lt` and `gt`. */
  lemma OrderOnNumbers(field: string, n: real, m: real, customer: CustomerRecord, coerce: Coercion)
    ensures var meets := (operator: Operator) => Meets(field, operator, Num(n), Num(m), customer, coerce);
      && (meets(Lt) <==> n < m) && (meets(Eq) <==> n == m) && (meets(Gt) <==> n > m)
      && (meets(Gte) <==> !meets(Lt)) && (meets(Lte) <==> !meets(Gt))
  {
  }

  /** The number a value reads as. */
  function Number(v: Value, coerce: Coercion): Option<real> {
    if v.Num? then Some(v.number) else coerce(v)
  }

  ghost predicate Less(a: Option<real>, b: Option<real>) {
    exists x, y :: a == Some(x) && b == Some(y) && x < y
  }

  /** What a condition asks of the customer's own value. */
  ghost predicate Asks(c: Condition, own: Value, coerce: Coercion) {
    var a, b := Number(own, coerce), Number(c.value, coerce);
    match c.operator
    case Eq => Scalar(own) && own == c.value
    case Neq => own != c.value || !Scalar(own)
    case Gt => Less(b, a)
    case Lt => Less(a, b)
    case Gte => Less(b, a) || (a == b && a != None)
    case Lte => Less(a, b) || (a == b && a != None)
    case In => Scalar(own) && exists items :: c.value == List(items) && own in items
    case NotIn => exists items :: c.value == List(items) && (own !in items || !Scalar(own))
    case UnknownOperator(_) => true
  }

  lemma HoldsIff(c: Condition, customer: CustomerRecord, coerce: Coercion)
    ensures Holds(c, customer, coerce) <==> Asks(c, Own(customer, c.field), coerce)
  {
    var own := Own(customer, c.field);
    assert c == Condition(c.field, c.operator, c.value);
    match c.operator
    case Eq => EqIff(c.field, c.value, customer, coerce);
    case Neq => EqIff(c.field, c.value, customer, coerce);
    case In =>
      InIff(c.field, c.value, customer, coerce);
      if c.value.List? { assert c.value == List(c.value.items); }
    case NotIn =>
      InIff(c.field, c.value, customer, coerce);
      if c.value.List? { assert c.value == List(c.value.items); }
    case UnknownOperator(_) =>
    case _ =>
      var a, b := Number(own, coerce), Number(c.value, coerce);
      assert ToNumber(own, coerce) == a && ToNumber(c.value, coerce) == b;
      if a.Some? && b.Some? {
        assert a == Some(a.value) && b == Some(b.value);
      }
  }

  // ---- A run -------------------------------------------------------------------------------------

  /** A run attempts an action exactly when every condition on it is met by the customer's own values. */
  lemma AttemptedIff(actions: seq<CompiledAction>, customer: CustomerRecord, coerce: Coercion, action: CompiledAction)
    ensures action in SelectedActions(actions, customer, coerce) <==>
            && action in actions
            && forall c :: c in action.branchConditions ==> Asks(c.condition, Own(customer, c.condition.field), coerce)
  {
    hide Holds, Asks;
    var tags := action.branchConditions;
    forall c ensures OutcomesFor(customer, coerce)(c) <==> Asks(c, Own(customer, c.field), coerce) {
      HoldsIff(c, customer, coerce);
    }
    assert forall i :: 0 <= i < |tags| ==> tags[i] in tags;
  }

  /** In particular the customer has every value that an attempted action's `eq` conditions name. */
  lemma AttemptedHaveTheValues(actions: seq<CompiledAction>, customer: CustomerRecord, coerce: Coercion,
                               action: CompiledAction, c: CompiledCondition)
    requires action in SelectedActions(actions, customer, coerce) && c in action.branchConditions
    requires c.condition.operator == Eq && c.condition.value != Undefined
    ensures c.condition.field in customer && customer[c.condition.field] == c.condition.value
  {
    AttemptedIff(actions, customer, coerce, action);
  }
}
