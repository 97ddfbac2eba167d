/**
 * Query conditions: the `where()` triple, the `limit()` guard and the operator
 * switch that both versions of `checkWhereCondition` share.
 */
module Conditions {
  import opened Results
  import opened Json

  /** A where-clause `{property, operator, value}`; the operator is free text. */
  datatype Condition = Condition(property: string, operator: string, value: Value)

  /** The operators the switch accepts. */
  const Operators: set<string> := {"==", "!=", ">", "<", "<=", ">="}

  /** `where(property, operator, value)`: builds the condition, accepting any operator. */
  function Where(property: string, operator: string, value: Value): (c: Condition)
    ensures c.property == property && c.operator == operator && c.value == value
  {
    Condition(property, operator, value)
  }

  /** `limit(n)`: passes a number through and throws for any other type. */
  function Limit(n: Value): (r: Result<int>)
    ensures r.Ok? <==> n.Int?
    ensures r.Ok? ==> r.value == n.i
    ensures r.Err? ==> r.error == InvalidLimit
  {
    if n.Int? then Ok(n.i) else Err(InvalidLimit)
  }

  /**
   * The operator switch: `stored op given` with strict equality and
   * same-type ordering; an operator outside the switch throws.
   */
  function Evaluate(op: string, stored: Value, given: Value): (r: Result<bool>)
    ensures r.Err? <==> op !in Operators
    ensures r.Err? ==> r.error == UnsupportedOperator(op)
  {
    match op
    case "==" => Ok(stored == given)
    case "!=" => Ok(stored != given)
    case ">" => Ok(Less(given, stored))
    case "<" => Ok(Less(stored, given))
    case "<=" => Ok(Less(stored, given) || stored == given)
    case ">=" => Ok(Less(given, stored) || stored == given)
    case _ => Err(UnsupportedOperator(op))
  }

  /**
   * `!=` is the exact negation of strict `==`, and on values of one type the
   * four order operators split every pair as a total order does:
   * `>=` negates `<`, `<=` negates `>`, and exactly one of `<`, `==`, `>` holds.
   */
  lemma OperatorsAgree(stored: Value, given: Value)
    ensures Evaluate("!=", stored, given).value == !Evaluate("==", stored, given).value
    ensures SameType(stored, given) ==>
      && Evaluate(">=", stored, given).value == !Evaluate("<", stored, given).value
      && Evaluate("<=", stored, given).value == !Evaluate(">", stored, given).value
      && (if Evaluate("<", stored, given).value then 1 else 0)
       + (if Evaluate("==", stored, given).value then 1 else 0)
       + (if Evaluate(">", stored, given).value then 1 else 0) == 1
  {
    if SameType(stored, given) {
      LessTrichotomy(stored, given);
      LessTrichotomy(given, stored);
    }
  }

  /** Values of different types satisfy only `!=`. */
  lemma CrossTypeOnlyDiffer(stored: Value, given: Value, op: string)
    requires !SameType(stored, given) && op in Operators
    ensures Evaluate(op, stored, given) == Ok(op == "!=")
  {
  }
}
