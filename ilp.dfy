/** The Gomory cut of the cutting-plane method (ilp.cc:68-92): from a row of
    a slack-form model, FindGomoryCut builds the equation
    `sum f_j x_j - slack + (intpart(b) - b) = 0` over the row's non-base
    variables, registering the new slack as a base variable of the model.
    The cut is meant for a row whose constant b is not integral; its caller
    (ilp.cc:48-57, not part of this model) keeps the fractional part in an
    `int`, so the rows it actually hands over are those whose constant is
    a negative integer. FindGomoryCut itself takes any row. */
module IntegerPrograms {
  import opened Numbers
  import opened Variables
  import opened Expressions
  import opened Models
  import opened LinearPrograms

  // ---------------------------------------------------------------------
  // Integer parts (ilp.cc:73, 86-88)

  /** C++'s `int(x)` on a float: the integer part rounded toward zero
      (values outside the range of `int` are not modelled). */
  function Trunc(x: real): (t: int)
    ensures x >= 0.0 ==> 0 <= t && t as real <= x < t as real + 1.0
    ensures x < 0.0 ==> t <= 0 && t as real - 1.0 < x <= t as real
  {
    if x >= 0.0 then x.Floor else -((-x).Floor)
  }

  /** `v < 0 ? int(v) - 1 : int(v)`, the "integer part" the cut uses. */
  function IntPart(x: real): int {
    if x < 0.0 then Trunc(x) - 1 else Trunc(x)
  }

  /** What the cut treats as the fractional part of x. */
  function Fraction(x: real): real {
    x - IntPart(x) as real
  }

  /** The fractional part lies in [0, 1]; it is 1 exactly on the negative
      integers, where `int(v) - 1` steps one below v. */
  lemma FractionBounds(x: real)
    ensures 0.0 <= Fraction(x) <= 1.0
    ensures Fraction(x) == 1.0 <==> x < 0.0 && x == x.Floor as real
  {
    var t := Trunc(x);
    if x < 0.0 && x == x.Floor as real {
      assert t == x.Floor;
    } else if x < 0.0 {
      assert t as real - 1.0 < x < t as real;
    }
  }

  /** The integer part agrees with the floor except on the negative
      integers, where it is one less. */
  lemma IntPartAgainstFloor(x: real)
    ensures IntPart(x) == if x < 0.0 && x == x.Floor as real then x.Floor - 1 else x.Floor
  {
    var t := Trunc(x);
    if x < 0.0 && x != x.Floor as real {
      assert t as real - 1.0 < x < t as real;
      assert t - 1 == x.Floor;
    }
  }

  // ---------------------------------------------------------------------
  // The cut as a value

  /** The number subtracted as the coefficient of a non-base variable whose
      row coefficient is a: `intpart(-a) - (-a)` (ilp.cc:85-89). An
      INTEGER intpart minus a FLOAT coefficient is promoted to FLOAT. */
  function CutTerm(a: Num): Num {
    Minus(IntNum(IntPart(Value(Neg(a)))), Neg(a))
  }

  /** The cut before its loop: constant `intpart(b) - b`, the slack
      subtracted (ilp.cc:75-81). */
  function CutStart(row: Constraint, slack: Variable): Expression {
    var b := Value(row.expression.constant);
    Difference(NewConstraint(FloatType).expression.(constant := FloatNum(IntPart(b) as real - b)),
               FromVariable(slack))
  }

  /** The loop of ilp.cc:82-90 over the listed variables of the row r:
      base variables are skipped, every other variable's CutTerm is
      subtracted. */
  function CutTerms(e: Expression, r: Expression, keys: seq<Variable>, base: set<Variable>): Expression {
    if keys == [] then e
    else
      var prev := CutTerms(e, r, keys[..|keys| - 1], base);
      var v := keys[|keys| - 1];
      if v in base then prev else Difference(prev, Term(v, CutTerm(GetCoeffOf(r, v))))
  }

  /** The cut FindGomoryCut returns for `row`, given the slack it drew and
      the model's base variables once the slack is among them. */
  function GomoryCut(row: Constraint, slack: Variable, base: set<Variable>): Constraint {
    NewConstraint(FloatType).(
      equationType := EQ,
      compare := FloatZero,
      expression := CutTerms(CutStart(row, slack), row.expression, Sorted(row.expression.coeffs.Keys), base))
  }

  /** Each listed non-base variable's coefficient drops by its CutTerm;
      everything else, the constant included, is left as it was. */
  lemma {:induction false} CutTermsCoefficients(e: Expression, r: Expression, keys: seq<Variable>, base: set<Variable>, w: Variable)
    requires Distinct(keys)
    ensures Value(GetCoeffOf(CutTerms(e, r, keys, base), w)) ==
            if w in keys && w !in base then Value(GetCoeffOf(e, w)) - Value(CutTerm(GetCoeffOf(r, w)))
            else Value(GetCoeffOf(e, w))
    ensures Value(CutTerms(e, r, keys, base).constant) == Value(e.constant)
    decreases |keys|
  {
    if keys != [] {
      var prefix := keys[..|keys| - 1];
      var v := keys[|keys| - 1];
      assert Distinct(prefix);
      assert w in keys <==> w in prefix || w == v;
      assert v !in prefix;
      CutTermsCoefficients(e, r, prefix, base, w);
      var prev := CutTerms(e, r, prefix, base);
      if v !in base {
        var t := Term(v, CutTerm(GetCoeffOf(r, v)));
        DifferenceCoefficients(prev, t, w);
        TermCoefficients(v, CutTerm(GetCoeffOf(r, v)), w);
        StoredValue(v, CutTerm(GetCoeffOf(r, v)));
        IsZeroValue(CutTerm(GetCoeffOf(r, v)));
      }
    }
  }

  /** The meaning of the cut (ilp.cc:68-92; ilp_test.cc:18-35): an equation
      with compare 0 and constant `intpart(b) - b`, the slack with
      coefficient -1, every non-base variable of the row with the fraction
      of its negated coefficient, and no other variable. */
  lemma GomoryCutMeaning(row: Constraint, slack: Variable, base: set<Variable>, w: Variable)
    requires slack in base
    ensures var cut := GomoryCut(row, slack, base);
      cut.equationType == EQ && cut.compare == FloatZero && cut.dataType == FloatType &&
      Value(cut.expression.constant) == IntPart(Value(row.expression.constant)) as real - Value(row.expression.constant)
    ensures var e := GomoryCut(row, slack, base).expression;
      Value(GetCoeffOf(e, w)) ==
        if w == slack then -1.0
        else if w in row.expression.coeffs && w !in base then Fraction(-Value(row.expression.coeffs[w]))
        else 0.0
  {
    var r := row.expression;
    var keys := Sorted(r.coeffs.Keys);
    SortedDistinct(r.coeffs.Keys);
    var b := Value(r.constant);
    var start := NewConstraint(FloatType).expression.(constant := FloatNum(IntPart(b) as real - b));
    CutTermsCoefficients(CutStart(row, slack), r, keys, base, w);
    DifferenceCoefficients(start, FromVariable(slack), w);
    ConstructorsCoefficients(FloatZero, slack, w);
    if w != slack && w in r.coeffs && w !in base {
      var a := r.coeffs[w];
      assert Value(Neg(a)) == -Value(a);
      CompoundPromotes(IntNum(IntPart(Value(Neg(a)))), Neg(a), Sub);
    }
  }

  /** The cut's constant lies in [-1, 0] and every coefficient but the
      slack's in [0, 1]. */
  lemma GomoryCutBounds(row: Constraint, slack: Variable, base: set<Variable>, w: Variable)
    requires slack in base && w != slack
    ensures var e := GomoryCut(row, slack, base).expression;
      -1.0 <= Value(e.constant) <= 0.0 && 0.0 <= Value(GetCoeffOf(e, w)) <= 1.0
  {
    GomoryCutMeaning(row, slack, base, w);
    FractionBounds(Value(row.expression.constant));
    if w in row.expression.coeffs && w !in base {
      FractionBounds(-Value(row.expression.coeffs[w]));
    }
  }

  /** ilp_test.cc:18-35: from `1.2 - 1.3 * base8 - 1.4 * x0 = 0` with base8
      a base variable, the cut is `-1 * base0 + 0.4 * x0 - 0.2 = 0`. */
  lemma GomoryCutExample()
    ensures var base8, x0, base0 := Variable("base8", FloatType), Variable("x0", FloatType), Fresh(BasePrefix, 0);
      var row := Constraint(Expression(map[base8 := FloatNum(-1.3), x0 := FloatNum(-1.4)], FloatNum(1.2)),
                            FloatZero, EQ, FloatType);
      var e := GomoryCut(row, base0, {base8, base0}).expression;
      Value(GetCoeffOf(e, base0)) == -1.0 && Value(GetCoeffOf(e, x0)) == 0.4 &&
      Value(GetCoeffOf(e, base8)) == 0.0 && Value(e.constant) == -0.2
  {
    var base8, x0, base0 := Variable("base8", FloatType), Variable("x0", FloatType), Fresh(BasePrefix, 0);
    var row := Constraint(Expression(map[base8 := FloatNum(-1.3), x0 := FloatNum(-1.4)], FloatNum(1.2)),
                          FloatZero, EQ, FloatType);
    assert base0.name == "base0";
    assert base0 != x0 && base0 != base8;
    GomoryCutMeaning(row, base0, {base8, base0}, base0);
    GomoryCutMeaning(row, base0, {base8, base0}, x0);
    GomoryCutMeaning(row, base0, {base8, base0}, base8);
    assert IntPart(1.4) == 1;
    assert IntPart(1.2) == 1;
  }

  /** `floor`, what the comment at ilp.cc:72 evidently intends `intpart`
      to be, gives the textbook fractional part: in [0, 1) and zero on
      every integer, so an integral row gives the trivial cut. */
  function FloorFraction(x: real): real {
    x - x.Floor as real
  }

  lemma FloorFractionBounds(x: real)
    ensures 0.0 <= FloorFraction(x) < 1.0
    ensures FloorFraction(x) == 0.0 <==> x == x.Floor as real
  {
  }

  /** As written, a negative integer b gives the cut constant -1 where the
      floor gives 0: a row `b = -2` yields `... - 1 = 0`. */
  lemma IntPartOnNegativeIntegers()
    ensures IntPart(-2.0) == -3 && Fraction(-2.0) == 1.0 && FloorFraction(-2.0) == 0.0
  {
    assert Trunc(-2.0) == -2;
  }

  // ---------------------------------------------------------------------
  // FindGomoryCut (ilp.cc:68-92)

  /** The loop of ilp.cc:82-90. */
  method SubtractCutTerms(model: LPModel, start: Expression, r: Expression, keys: seq<Variable>) returns (e: Expression)
    ensures e == CutTerms(start, r, keys, model.baseVariables)
  {
    e := start;
    var i := 0;
    while i < |keys|
      invariant 0 <= i <= |keys|
      invariant e == CutTerms(start, r, keys[..i], model.baseVariables)
    {
      var v := keys[i];
      assert keys[..i + 1][..i] == keys[..i];
      if !model.IsBaseVariable(v) {
        var coeff := Neg(GetCoeffOf(r, v));
        var coeffIntegerPart := IntNum(IntPart(Value(coeff)));
        e := SubAssign(e, Term(v, Minus(coeffIntegerPart, coeff)));
      }
      i := i + 1;
    }
    assert keys[..|keys|] == keys;
  }

  /** ILPModel::FindGomoryCut: draws the slack from the shared base
      counter, registers it with the model, and builds the cut. */
  method FindGomoryCut(model: LPModel, row: Constraint, counters: NameCounters) returns (cut: Constraint)
    modifies model, counters
    ensures var slack := Fresh(BasePrefix, old(counters.base));
      model.State() == old(model.State()).(baseVariables := old(model.baseVariables) + {slack}) &&
      cut == GomoryCut(row, slack, model.baseVariables)
    ensures counters.base == old(counters.base) + 1 && counters.substitution == old(counters.substitution)
    ensures counters.dual == old(counters.dual) && counters.artificial == old(counters.artificial)
  {
    var b := Value(row.expression.constant);
    var bIntegerPart := IntPart(b);
    cut := NewConstraint(FloatType);
    cut := cut.(equationType := EQ, compare := FloatZero);
    cut := cut.(expression := cut.expression.(constant := FloatNum(bIntegerPart as real - b)));
    var slack := counters.CreateBaseVariable();
    model.AddBaseVariable(slack);
    var e := SubAssign(cut.expression, FromVariable(slack));
    e := SubtractCutTerms(model, e, row.expression, Sorted(row.expression.coeffs.Keys));
    cut := cut.(expression := e);
  }

  // ---------------------------------------------------------------------
  // The integer model (ilp.h:15-57)

  /** ILPModel's constraints and objective; the cutting-plane solve and
      its optimum and solution are not part of this model. */
  class ILPModel {
    var constraints: seq<Constraint>
    var objective: OptimizationObject

    /** `ILPModel()`: no constraints, and the objective minimises the
        INTEGER zero (ilp.h:17). */
    constructor()
      ensures constraints == [] && objective == NewObjective(IntegerType)
    {
      constraints := [];
      objective := NewObjective(IntegerType);
    }

    /** AddConstraint (ilp.h:19-21) appends. */
    method AddConstraint(c: Constraint)
      modifies this
      ensures constraints == old(constraints) + [c] && objective == old(objective)
    {
      constraints := constraints + [c];
    }

    /** SetOptimizationObject (ilp.h:22-25): the objective's constant must
        be the INTEGER zero, or the assertion fails and nothing is set. */
    method SetOptimizationObject(obj: OptimizationObject) returns (ok: bool)
      modifies this
      ensures ok <==> obj.expression.constant == IntZero
      ensures constraints == old(constraints)
      ensures objective == if ok then obj else old(objective)
    {
      ok := NumEquals(obj.expression.constant, IntZero);
      NumEqualsIsIdentity(obj.expression.constant, IntZero);
      if ok {
        objective := obj;
      }
    }
  }
}
