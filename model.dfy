/** Constraints, objectives and the parsed model (the `Constraint`,
    `OptimizationObject` and `Model` records that lp.cc, parser.cc and
    ilp.cc build, and Constraint == of base.cc:273-277). */
module Models {
  import opened Numbers
  import opened Expressions

  /** `Constraint::Type`. */
  datatype EquationType = LE | GE | EQ

  /** `expression <=/>=/= compare`. */
  datatype Constraint = Constraint(expression: Expression, compare: Num, equationType: EquationType, dataType: DataType)

  /** `OptimizationObject::Type`. */
  datatype OptType = Minimize | Maximize

  datatype OptimizationObject = OptimizationObject(expression: Expression, optType: OptType)

  /** `Model {constraints, opt_obj}`, what Parser::Parse returns. */
  datatype Model = Model(constraints: seq<Constraint>, objective: OptimizationObject)

  /** `Constraint(t)`: an equation `0 = 0` of type t. */
  function NewConstraint(t: DataType): (c: Constraint)
    ensures c.equationType == EQ && c.dataType == t
    ensures c.expression.coeffs == map[] && IsZero(c.expression.constant) && IsZero(c.compare)
  {
    Constraint(FromNum(ZeroOf(t)), ZeroOf(t), EQ, t)
  }

  /** `OptimizationObject(t)`: minimise the zero expression of type t. */
  function NewObjective(t: DataType): (o: OptimizationObject)
    ensures o.optType == Minimize && o.expression.coeffs == map[] && IsZero(o.expression.constant)
  {
    OptimizationObject(FromNum(ZeroOf(t)), Minimize)
  }

  /** Constraint == (base.cc:273-277). */
  predicate ConstraintEquals(a: Constraint, b: Constraint) {
    NumEquals(a.compare, b.compare) && ExprEquals(a.expression, b.expression) &&
    a.equationType == b.equationType && a.dataType == b.dataType
  }

  lemma ConstraintEqualsIsIdentity(a: Constraint, b: Constraint)
    ensures ConstraintEquals(a, b) <==> a == b
  {
    NumEqualsIsIdentity(a.compare, b.compare);
    ExprEqualsIsIdentity(a.expression, b.expression);
  }
}
