/** The structural rewrites of an LP model (lp.cc): fresh variable names,
    standard form, slack form and their sanity checks, Pivot's exchange of
    a base and a non-base variable, and the dual program. The simplex
    iterations that drive these rewrites are not part of this model. */
module LinearPrograms {
  import opened Numbers
  import opened Variables
  import opened Expressions
  import opened Models
  import opened Strings
  import opened Wrappers

  /** kBase and kSubstitution (lp.h:14-15). */
  const BasePrefix: string := "base"
  const SubstitutionPrefix: string := "subst"
  /** kDual and kArtificial (used at lp.cc:6-7, 24, 30) are defined in a
      header that is not part of this model; these values are assumed. */
  const DualPrefix: string := "dual"
  const ArtificialPrefix: string := "artificial"

  /** IsUserDefined (lp.cc:3-8): the name starts with none of the prefixes
      the generators use. */
  predicate IsUserDefined(v: Variable) {
    !StartsWith(v.name, BasePrefix) && !StartsWith(v.name, SubstitutionPrefix) &&
    !StartsWith(v.name, DualPrefix) && !StartsWith(v.name, ArtificialPrefix)
  }

  /** The FLOAT variable named `prefix + std::to_string(n)`. */
  function Fresh(prefix: string, n: nat): (v: Variable)
    ensures StartsWith(v.name, prefix) && v.dtype == FloatType
  {
    Variable(prefix + NatToString(n), FloatType)
  }

  predicate IsGeneratorPrefix(p: string) {
    p == BasePrefix || p == SubstitutionPrefix || p == DualPrefix || p == ArtificialPrefix
  }

  /** A generated variable is never user-defined, so it never collides
      with a variable of the user's; one prefix with two counter values
      gives two variables, and two prefixes never give the same one. */
  lemma FreshNamesAreDistinct(v: Variable, p: string, q: string, a: nat, b: nat)
    requires IsGeneratorPrefix(p) && IsGeneratorPrefix(q)
    ensures !IsUserDefined(Fresh(p, a))
    ensures IsUserDefined(v) ==> v != Fresh(p, a)
    ensures Fresh(p, a) == Fresh(p, b) <==> a == b
    ensures p != q ==> Fresh(p, a) != Fresh(q, b)
  {
    PrefixedNamesDistinct(p, a, b);
    if p != q {
      assert Fresh(p, a).name[0] == p[0] && Fresh(q, b).name[0] == q[0];
    }
  }

  /** The static counters of LPModel (lp.cc:10-33). Every model shares
      them, so they are one object handed to the operations that draw
      names. */
  class NameCounters {
    var base: nat
    var substitution: nat
    var dual: nat
    var artificial: nat

    constructor()
      ensures base == 0 && substitution == 0 && dual == 0 && artificial == 0
    {
      base, substitution, dual, artificial := 0, 0, 0, 0;
    }

    /** Reset (lp.h:138-141): every counter restarts at zero. */
    method Reset()
      modifies this
      ensures base == 0 && substitution == 0 && dual == 0 && artificial == 0
    {
      base, substitution, dual, artificial := 0, 0, 0, 0;
    }

    /** CreateBaseVariable (lp.cc:10-14). */
    method CreateBaseVariable() returns (v: Variable)
      modifies this
      ensures v == Fresh(BasePrefix, old(base)) && base == old(base) + 1
      ensures substitution == old(substitution) && dual == old(dual) && artificial == old(artificial)
    {
      v := Fresh(BasePrefix, base);
      base := base + 1;
    }

    /** CreateSubstitutionVariable (lp.cc:16-21). */
    method CreateSubstitutionVariable() returns (v: Variable)
      modifies this
      ensures v == Fresh(SubstitutionPrefix, old(substitution)) && substitution == old(substitution) + 1
      ensures base == old(base) && dual == old(dual) && artificial == old(artificial)
    {
      v := Fresh(SubstitutionPrefix, substitution);
      substitution := substitution + 1;
    }

    /** CreateDualVariable (lp.cc:23-27). */
    method CreateDualVariable() returns (v: Variable)
      modifies this
      ensures v == Fresh(DualPrefix, old(dual)) && dual == old(dual) + 1
      ensures base == old(base) && substitution == old(substitution) && artificial == old(artificial)
    {
      v := Fresh(DualPrefix, dual);
      dual := dual + 1;
    }

    /** CreateArtificialVariable (lp.cc:29-33). */
    method CreateArtificialVariable() returns (v: Variable)
      modifies this
      ensures v == Fresh(ArtificialPrefix, old(artificial)) && artificial == old(artificial) + 1
      ensures base == old(base) && substitution == old(substitution) && dual == old(dual)
    {
      v := Fresh(ArtificialPrefix, artificial);
      artificial := artificial + 1;
    }
  }

  /** Everything an LPModel holds, as one value: its constraints and
      objective (`model_`), the base, non-base and non-negative variable
      sets, the expression each replaced variable stands for, and whether
      a minimisation was turned into a maximisation. */
  datatype Form = Form(constraints: seq<Constraint>, objective: OptimizationObject,
                       baseVariables: set<Variable>, nonBaseVariables: set<Variable>,
                       nonNegativeVariables: set<Variable>,
                       rawVariableExpression: map<Variable, Expression>, optReverted: bool)

  /** A freshly constructed LPModel: no constraints, `min 0.0`, no
      variables recorded. */
  function EmptyForm(): (f: Form)
    ensures f.constraints == [] && f.objective.optType == Minimize
    ensures f.baseVariables == {} && f.nonBaseVariables == {} && f.nonNegativeVariables == {}
  {
    Form([], NewObjective(FloatType), {}, {}, {}, map[], false)
  }

  // ---------------------------------------------------------------------
  // The sanity checks (lp.cc:409-441)

  /** What StandardFormSanityCheck accepts: a maximisation, every
      constraint `<=`, every non-base variable known to be non-negative. */
  predicate IsStandardForm(f: Form) {
    f.objective.optType == Maximize &&
    (forall i :: 0 <= i < |f.constraints| ==> f.constraints[i].equationType == LE) &&
    f.nonBaseVariables <= f.nonNegativeVariables
  }

  /** The base variables that occur in a constraint. */
  function BaseEntries(c: Constraint, base: set<Variable>): set<Variable> {
    set v | v in c.expression.coeffs && v in base
  }

  /** One row of a slack form: an equation holding exactly one base
      variable, with coefficient exactly FLOAT -1. */
  predicate IsSlackRow(c: Constraint, base: set<Variable>) {
    c.equationType == EQ && |BaseEntries(c, base)| == 1 &&
    forall v :: v in BaseEntries(c, base) ==> c.expression.coeffs[v] == FloatNum(-1.0)
  }

  /** What SlackFormSanityCheck accepts: every row is a slack row, and no
      base variable occurs in two rows. */
  predicate IsSlackForm(f: Form) {
    SlackRowsUpTo(f.constraints, f.baseVariables, |f.constraints|)
  }

  /** The first n rows are slack rows with pairwise disjoint base entries. */
  predicate SlackRowsUpTo(cs: seq<Constraint>, base: set<Variable>, n: nat)
    requires n <= |cs|
  {
    (forall i :: 0 <= i < n ==> IsSlackRow(cs[i], base)) &&
    (forall i, j :: 0 <= i < j < n ==> BaseEntries(cs[i], base) !! BaseEntries(cs[j], base))
  }

  // ---------------------------------------------------------------------
  // ToStandardForm (lp.cc:46-120)

  /** A minimisation becomes the maximisation of the objective times -1. */
  function Maximized(o: OptimizationObject): OptimizationObject {
    if o.optType == Minimize then OptimizationObject(Scaled(o.expression, FloatNum(-1.0)), Maximize) else o
  }

  /** An equation becomes `>=`; any other constraint is kept. */
  function Retyped(c: Constraint): Constraint {
    if c.equationType == EQ then c.(equationType := GE) else c
  }

  /** The `<=` twin appended for an equation: a `Constraint(FLOAT)` given
      the equation's compare and expression. */
  function LeCopy(c: Constraint): Constraint {
    Constraint(c.expression, c.compare, LE, FloatType)
  }

  function EquationCount(cs: seq<Constraint>): nat {
    if cs == [] then 0
    else EquationCount(cs[..|cs| - 1]) + (if cs[|cs| - 1].equationType == EQ then 1 else 0)
  }

  /** The `<=` twins of the equations of cs, in order. */
  function EquationCopies(cs: seq<Constraint>): seq<Constraint> {
    if cs == [] then []
    else EquationCopies(cs[..|cs| - 1]) + (if cs[|cs| - 1].equationType == EQ then [LeCopy(cs[|cs| - 1])] else [])
  }

  /** The constraint list after the equations are split (lp.cc:56-72). */
  function SplitEquations(cs: seq<Constraint>): seq<Constraint> {
    seq(|cs|, i requires 0 <= i < |cs| => Retyped(cs[i])) + EquationCopies(cs)
  }

  lemma {:induction false} EquationCopiesShape(cs: seq<Constraint>)
    ensures |EquationCopies(cs)| == EquationCount(cs)
    ensures forall c :: c in EquationCopies(cs) ==> c.equationType == LE
  {
    if cs != [] {
      EquationCopiesShape(cs[..|cs| - 1]);
    }
  }

  lemma {:induction false} EquationCopiesAt(cs: seq<Constraint>, i: nat)
    requires i < |cs| && cs[i].equationType == EQ
    ensures EquationCount(cs[..i]) < |EquationCopies(cs)|
    ensures EquationCopies(cs)[EquationCount(cs[..i])] == LeCopy(cs[i])
  {
    var prefix := cs[..|cs| - 1];
    EquationCopiesShape(prefix);
    if i == |cs| - 1 {
      assert cs[..i] == prefix;
    } else {
      EquationCopiesAt(prefix, i);
      assert prefix[..i] == cs[..i];
    }
  }

  /** Splitting keeps every constraint in place, turning each equation into
      `>=`, and appends, in order, a `<=` twin per equation: the equation at
      index i has its twin at |cs| plus the number of equations before i.
      No equation is left. */
  lemma SplitEquationsMeaning(cs: seq<Constraint>, i: nat)
    ensures |SplitEquations(cs)| == |cs| + EquationCount(cs)
    ensures forall c :: c in SplitEquations(cs) ==> c.equationType != EQ
    ensures i < |cs| && cs[i].equationType != EQ ==> SplitEquations(cs)[i] == cs[i]
    ensures i < |cs| && cs[i].equationType == EQ ==>
      SplitEquations(cs)[i] == cs[i].(equationType := GE) &&
      |cs| + EquationCount(cs[..i]) < |SplitEquations(cs)| &&
      SplitEquations(cs)[|cs| + EquationCount(cs[..i])] == LeCopy(cs[i])
  {
    EquationCopiesShape(cs);
    if i < |cs| && cs[i].equationType == EQ {
      EquationCopiesAt(cs, i);
    }
  }

  /** One constraint after lp.cc:74-79: its constant moves to the right-hand
      side, and a `>=` is multiplied through by -1 into a `<=`. */
  function Normalized(c: Constraint): Constraint {
    var compare := Minus(c.compare, c.expression.constant);
    var e := c.expression.(constant := FloatZero);
    if c.equationType == GE then Constraint(Scaled(e, FloatNum(-1.0)), Times(compare, FloatNum(-1.0)), LE, c.dataType)
    else Constraint(e, compare, c.equationType, c.dataType)
  }

  function NormalizedAll(cs: seq<Constraint>): seq<Constraint> {
    seq(|cs|, i requires 0 <= i < |cs| => Normalized(cs[i]))
  }

  /** A normalised inequality is `<=` with constant zero; a `<=` keeps its
      coefficients and has compare minus constant on the right, a `>=` has
      every coefficient and the right-hand side negated. */
  lemma NormalizedMeaning(c: Constraint, v: Variable)
    requires c.equationType != EQ
    ensures Normalized(c).equationType == LE && Normalized(c).dataType == c.dataType
    ensures Normalized(c).expression.constant == FloatZero
    ensures c.equationType == LE ==>
      GetCoeffOf(Normalized(c).expression, v) == GetCoeffOf(c.expression, v) &&
      Value(Normalized(c).compare) == Value(c.compare) - Value(c.expression.constant)
    ensures c.equationType == GE ==>
      Value(GetCoeffOf(Normalized(c).expression, v)) == -Value(GetCoeffOf(c.expression, v)) &&
      Value(Normalized(c).compare) == Value(c.expression.constant) - Value(c.compare)
    ensures NoZeroCoeffs(c.expression) ==> NoZeroCoeffs(Normalized(c).expression)
  {
    var compare := Minus(c.compare, c.expression.constant);
    var e := c.expression.(constant := FloatZero);
    CompoundPromotes(c.compare, c.expression.constant, Sub);
    if c.equationType == GE {
      ScaledCoefficients(e, FloatNum(-1.0), v);
      CompoundPromotes(compare, FloatNum(-1.0), Mul);
    }
  }

  /** The variables of all constraints, as the loop of lp.cc:84-88 inserts
      them. */
  function ConstraintVariables(cs: seq<Constraint>): set<Variable> {
    if cs == [] then {} else ConstraintVariables(cs[..|cs| - 1]) + cs[|cs| - 1].expression.coeffs.Keys
  }

  lemma {:induction false} ConstraintVariablesMembers(cs: seq<Constraint>, v: Variable)
    ensures v in ConstraintVariables(cs) <==> exists i :: 0 <= i < |cs| && v in cs[i].expression.coeffs
  {
    if cs != [] {
      var prefix := cs[..|cs| - 1];
      ConstraintVariablesMembers(prefix, v);
      if v in ConstraintVariables(prefix) {
        var i :| 0 <= i < |prefix| && v in prefix[i].expression.coeffs;
        assert cs[i] == prefix[i];
      }
      if exists i :: 0 <= i < |cs| && v in cs[i].expression.coeffs {
        var i :| 0 <= i < |cs| && v in cs[i].expression.coeffs;
        if i < |prefix| {
          assert prefix[i] == cs[i];
        }
      }
    }
  }

  /** The first variable of an expression with a single entry
      (`variable_coeff.begin()->first`). */
  function SoleVariable(c: Constraint): Variable
    requires |c.expression.coeffs| == 1
  {
    Sorted(c.expression.coeffs.Keys)[0]
  }

  /** IsNonNegativeConstraint (lp.cc:443-451): `-1.0 * v + 0 <= 0`. The
      expression has a single entry, so its first entry is every entry. */
  predicate IsNonNegativeConstraint(c: Constraint) {
    c.equationType == LE && IsZero(c.compare) && IsZero(c.expression.constant) &&
    |c.expression.coeffs| == 1 && forall v :: v in c.expression.coeffs ==> c.expression.coeffs[v] == FloatNum(-1.0)
  }

  /** IsNonNegativeConstraint recognises exactly the constraints `-v <= 0`
      (that is v >= 0) whose constant and right-hand side are zeros of
      either type. */
  lemma NonNegativeConstraintMeaning(c: Constraint, v: Variable, zc: Num, zr: Num, t: DataType)
    ensures IsNonNegativeConstraint(c) ==>
      c.expression.coeffs == map[SoleVariable(c) := FloatNum(-1.0)] &&
      c.equationType == LE && IsZero(c.compare) && IsZero(c.expression.constant)
    ensures IsZero(zc) && IsZero(zr) ==>
      var d := Constraint(Expression(map[v := FloatNum(-1.0)], zc), zr, LE, t);
      IsNonNegativeConstraint(d) && SoleVariable(d) == v
  {
    if IsNonNegativeConstraint(c) {
      SoleVariableIsTheKey(c);
    }
    var d := Constraint(Expression(map[v := FloatNum(-1.0)], zc), zr, LE, t);
    assert d.expression.coeffs.Keys == {v};
    SoleVariableIsTheKey(d);
  }

  lemma SoleVariableIsTheKey(c: Constraint)
    requires |c.expression.coeffs| == 1
    ensures SoleVariable(c) in c.expression.coeffs
    ensures c.expression.coeffs == map[SoleVariable(c) := c.expression.coeffs[SoleVariable(c)]]
  {
    var v := SoleVariable(c);
    assert v in Sorted(c.expression.coeffs.Keys);
    forall w | w in c.expression.coeffs ensures w == v {
    }
  }

  /** The variables the non-negativity constraints of cs bound. */
  function NonNegativeVariables(cs: seq<Constraint>): set<Variable> {
    if cs == [] then {}
    else (NonNegativeVariables(cs[..|cs| - 1]) +
          if IsNonNegativeConstraint(cs[|cs| - 1]) then {SoleVariable(cs[|cs| - 1])} else {})
  }

  lemma NonNegativeVariablesStep(cs: seq<Constraint>, i: nat)
    requires i < |cs|
    ensures NonNegativeVariables(cs[..i + 1]) == NonNegativeVariables(cs[..i]) +
      if IsNonNegativeConstraint(cs[i]) then {SoleVariable(cs[i])} else {}
  {
    assert cs[..i + 1][..i] == cs[..i];
  }

  /** cs without its non-negativity constraints, in order. */
  function WithoutNonNegative(cs: seq<Constraint>): seq<Constraint> {
    if cs == [] then []
    else (WithoutNonNegative(cs[..|cs| - 1]) +
          if IsNonNegativeConstraint(cs[|cs| - 1]) then [] else [cs[|cs| - 1]])
  }

  /** Removing the non-negativity constraints keeps exactly the others,
      and every variable they bound is one of the constraints' variables. */
  lemma {:induction false} WithoutNonNegativeMembers(cs: seq<Constraint>)
    ensures forall c :: c in WithoutNonNegative(cs) <==> c in cs && !IsNonNegativeConstraint(c)
    ensures NonNegativeVariables(cs) <= ConstraintVariables(cs)
  {
    if cs != [] {
      var prefix := cs[..|cs| - 1];
      WithoutNonNegativeMembers(prefix);
      assert cs == prefix + [cs[|cs| - 1]];
      if IsNonNegativeConstraint(cs[|cs| - 1]) {
        SoleVariableIsTheKey(cs[|cs| - 1]);
      }
    }
  }

  lemma {:induction false} WithoutNonNegativeAppend(a: seq<Constraint>, b: seq<Constraint>)
    ensures WithoutNonNegative(a + b) == WithoutNonNegative(a) + WithoutNonNegative(b)
    decreases |b|
  {
    if b == [] {
      assert a + b == a;
    } else {
      var b' := b[..|b| - 1];
      assert (a + b)[..|a + b| - 1] == a + b';
      WithoutNonNegativeAppend(a, b');
    }
  }

  lemma {:induction false} WithoutNonNegativeNone(s: seq<Constraint>)
    requires forall p :: 0 <= p < |s| ==> !IsNonNegativeConstraint(s[p])
    ensures WithoutNonNegative(s) == s
  {
    if s != [] {
      WithoutNonNegativeNone(s[..|s| - 1]);
    }
  }

  /** The indices the loop of lp.cc:90-97 records: exactly the positions of
      the non-negativity constraints, ascending. */
  predicate IsIndexList(cs: seq<Constraint>, indices: seq<nat>) {
    (forall t :: 0 <= t < |indices| ==> indices[t] < |cs| && IsNonNegativeConstraint(cs[indices[t]])) &&
    (forall t, u :: 0 <= t < u < |indices| ==> indices[t] < indices[u]) &&
    (forall p :: 0 <= p < |cs| && IsNonNegativeConstraint(cs[p]) ==> p in indices)
  }

  /** The expression `1.0 * subst_k - 1.0 * subst_(k+1)` a free variable is
      replaced by (lp.cc:105-106). */
  function SubstitutionFor(k: nat): Expression {
    Difference(Term(Fresh(SubstitutionPrefix, k), FloatOne), Term(Fresh(SubstitutionPrefix, k + 1), FloatOne))
  }

  /** The replacement holds the two fresh variables with coefficients 1 and
      -1 and a zero constant. */
  lemma SubstitutionForShape(k: nat, w: Variable)
    ensures var s := SubstitutionFor(k);
      s.coeffs == map[Fresh(SubstitutionPrefix, k) := FloatOne, Fresh(SubstitutionPrefix, k + 1) := FloatNum(-1.0)] &&
      s.constant == FloatZero
  {
    var s1 := Fresh(SubstitutionPrefix, k);
    var s2 := Fresh(SubstitutionPrefix, k + 1);
    FreshNamesAreDistinct(s1, SubstitutionPrefix, SubstitutionPrefix, k, k + 1);
    var s := SubstitutionFor(k);
    assert s.coeffs.Keys == {s1, s2};
  }

  function ReplacedIn(cs: seq<Constraint>, v: Variable, s: Expression): seq<Constraint> {
    seq(|cs|, i requires 0 <= i < |cs| => cs[i].(expression := Replaced(cs[i].expression, v, s)))
  }

  /** One pass of lp.cc:102-118 for the free variable v, drawing the
      counter values k and k + 1. */
  function SubstituteOne(f: Form, v: Variable, k: nat): Form {
    var s := SubstitutionFor(k);
    var drawn := {Fresh(SubstitutionPrefix, k), Fresh(SubstitutionPrefix, k + 1)};
    f.(constraints := ReplacedIn(f.constraints, v, s),
       objective := f.objective.(expression := Replaced(f.objective.expression, v, s)),
       nonBaseVariables := f.nonBaseVariables - {v} + drawn,
       nonNegativeVariables := f.nonNegativeVariables + drawn,
       rawVariableExpression :=
         if v in f.rawVariableExpression then f.rawVariableExpression else f.rawVariableExpression[v := s])
  }

  /** The free variables replaced in the order given, the counter starting
      at k. */
  /** The substitution counter when the i-th free variable is replaced,
      starting from k: each replacement draws two names. */
  function CounterAt(k: nat, i: nat): nat {
    k + 2 * i
  }

  function SubstituteAll(f: Form, vars: seq<Variable>, k: nat): Form
    decreases |vars|
  {
    if vars == [] then f
    else SubstituteOne(SubstituteAll(f, vars[..|vars| - 1], k), vars[|vars| - 1], CounterAt(k, |vars| - 1))
  }

  /** Steps 1 to 3: objective, equations, constants and `>=`. */
  function Normalize(f: Form): Form {
    f.(constraints := NormalizedAll(SplitEquations(f.constraints)),
       objective := Maximized(f.objective),
       optReverted := f.optReverted || f.objective.optType == Minimize)
  }

  /** negative_vars: the non-base variables, now including every
      constraint variable, that no non-negativity constraint bounds. */
  function NegativeVariables(f: Form): set<Variable> {
    f.nonBaseVariables + ConstraintVariables(f.constraints) - NonNegativeVariables(f.constraints)
  }

  /** Step 4: the non-negativity constraints become facts about their
      variables. */
  function Bounded(f: Form): Form {
    f.(constraints := WithoutNonNegative(f.constraints),
       nonBaseVariables := f.nonBaseVariables + ConstraintVariables(f.constraints),
       nonNegativeVariables := f.nonNegativeVariables + NonNegativeVariables(f.constraints))
  }

  /** The model ToStandardForm leaves, the substitution counter starting at
      k; the free variables are replaced in std::set order. */
  function StandardForm(f: Form, k: nat): Form {
    var n := Normalize(f);
    SubstituteAll(Bounded(n), Sorted(NegativeVariables(n)), k)
  }

  /** The standard form's invariant while the variables of `pending` are
      still to be replaced. */
  predicate StandardExcept(f: Form, pending: set<Variable>) {
    f.objective.optType == Maximize &&
    (forall i :: 0 <= i < |f.constraints| ==>
       f.constraints[i].equationType == LE && IsZero(f.constraints[i].expression.constant)) &&
    f.nonBaseVariables <= f.nonNegativeVariables + pending
  }

  lemma ReplacedKeepsZeroConstant(e: Expression, v: Variable, k: nat)
    requires IsZero(e.constant)
    ensures IsZero(Replaced(e, v, SubstitutionFor(k)).constant)
  {
    SubstitutionForShape(k, v);
    ReplacedCoefficients(e, v, SubstitutionFor(k), v);
    IsZeroValue(e.constant);
    IsZeroValue(Replaced(e, v, SubstitutionFor(k)).constant);
  }

  lemma SubstituteAllStep(f: Form, vars: seq<Variable>, j: nat, k: nat)
    requires j < |vars|
    ensures SubstituteAll(f, vars[..j + 1], k) == SubstituteOne(SubstituteAll(f, vars[..j], k), vars[j], CounterAt(k, j))
  {
    assert vars[..j + 1][..j] == vars[..j];
  }

  lemma SubstituteOneKeeps(f: Form, v: Variable, k: nat, pending: set<Variable>)
    requires StandardExcept(f, pending + {v})
    ensures StandardExcept(SubstituteOne(f, v, k), pending)
  {
    var g := SubstituteOne(f, v, k);
    forall i | 0 <= i < |g.constraints|
      ensures g.constraints[i].equationType == LE && IsZero(g.constraints[i].expression.constant)
    {
      ReplacedKeepsZeroConstant(f.constraints[i].expression, v, k);
    }
  }

  lemma {:induction false} SubstituteAllKeeps(f: Form, vars: seq<Variable>, k: nat, pending: set<Variable>)
    requires StandardExcept(f, pending + set x | x in vars)
    ensures StandardExcept(SubstituteAll(f, vars, k), pending)
    decreases |vars|
  {
    if vars != [] {
      var prefix := vars[..|vars| - 1];
      var last := vars[|vars| - 1];
      assert (pending + {last}) + (set x | x in prefix) == pending + set x | x in vars;
      SubstituteAllKeeps(f, prefix, k, pending + {last});
      SubstituteOneKeeps(SubstituteAll(f, prefix, k), last, CounterAt(k, |vars| - 1), pending);
    }
  }

  lemma NormalizeKeeps(f: Form)
    ensures StandardExcept(Bounded(Normalize(f)), NegativeVariables(Normalize(f)))
  {
    var split := SplitEquations(f.constraints);
    SplitEquationsMeaning(f.constraints, 0);
    var n := Normalize(f);
    forall i | 0 <= i < |n.constraints|
      ensures n.constraints[i].equationType == LE && IsZero(n.constraints[i].expression.constant)
    {
      assert split[i] in split;
      NormalizedMeaning(split[i], Fresh(BasePrefix, 0));
    }
    var b := Bounded(n);
    WithoutNonNegativeMembers(n.constraints);
    forall i | 0 <= i < |b.constraints|
      ensures b.constraints[i].equationType == LE && IsZero(b.constraints[i].expression.constant)
    {
      assert b.constraints[i] in n.constraints;
    }
  }

  /** After ToStandardForm the objective is a maximisation, every
      constraint is `<=` with constant zero, and every non-base variable is
      non-negative: StandardFormSanityCheck holds, whatever the model was. */
  lemma StandardFormIsStandard(f: Form, k: nat)
    ensures IsStandardForm(StandardForm(f, k))
    ensures forall i :: 0 <= i < |StandardForm(f, k).constraints| ==>
      IsZero(StandardForm(f, k).constraints[i].expression.constant)
  {
    var n := Normalize(f);
    var vars := Sorted(NegativeVariables(n));
    NormalizeKeeps(f);
    assert (set x | x in vars) == NegativeVariables(n);
    assert {} + (set x | x in vars) == NegativeVariables(n);
    SubstituteAllKeeps(Bounded(n), vars, k, {});
  }

  // The loops of ToStandardForm, each on the values it rewrites.

  /** lp.cc:56-69: equations become `>=` in place and their `<=` twins are
      appended afterwards. */
  method SplitEquationsOf(cs: seq<Constraint>) returns (r: seq<Constraint>)
    ensures r == SplitEquations(cs)
  {
    r := cs;
    var copies: seq<Constraint> := [];
    var i := 0;
    while i < |r|
      invariant |r| == |cs| && 0 <= i <= |cs|
      invariant forall k :: 0 <= k < i ==> r[k] == Retyped(cs[k])
      invariant forall k :: i <= k < |cs| ==> r[k] == cs[k]
      invariant copies == EquationCopies(cs[..i])
    {
      assert cs[..i + 1][..i] == cs[..i];
      if r[i].equationType == EQ {
        var con := LeCopy(r[i]);
        r := r[i := r[i].(equationType := GE)];
        copies := copies + [con];
      }
      i := i + 1;
    }
    assert cs[..|cs|] == cs;
    r := r + copies;
  }

  /** One constraint through lp.cc:74-79. */
  method NormalizeConstraint(c: Constraint) returns (r: Constraint)
    ensures r == Normalized(c)
  {
    r := c.(compare := Minus(c.compare, c.expression.constant));
    r := r.(expression := r.expression.(constant := FloatZero));
    if r.equationType == GE {
      var e := ScaleAssign(r.expression, FloatNum(-1.0));
      r := r.(expression := e, compare := Times(r.compare, FloatNum(-1.0)), equationType := LE);
    }
  }

  method NormalizeConstraints(cs: seq<Constraint>) returns (r: seq<Constraint>)
    ensures r == NormalizedAll(cs)
  {
    r := cs;
    var i := 0;
    while i < |r|
      invariant |r| == |cs| && 0 <= i <= |cs|
      invariant forall k :: 0 <= k < i ==> r[k] == Normalized(cs[k])
      invariant forall k :: i <= k < |cs| ==> r[k] == cs[k]
    {
      var c := NormalizeConstraint(r[i]);
      r := r[i := c];
      i := i + 1;
    }
  }

  /** lp.cc:84-88. */
  method CollectVariables(cs: seq<Constraint>) returns (vars: set<Variable>)
    ensures vars == ConstraintVariables(cs)
  {
    vars := {};
    var i := 0;
    while i < |cs|
      invariant 0 <= i <= |cs| && vars == ConstraintVariables(cs[..i])
    {
      assert cs[..i + 1][..i] == cs[..i];
      vars := vars + cs[i].expression.coeffs.Keys;
      i := i + 1;
    }
    assert cs[..|cs|] == cs;
  }

  /** What the loop of lp.cc:89-97 has done after the first i constraints. */
  predicate ScannedUpTo(cs: seq<Constraint>, i: nat, indices: seq<nat>, negative: set<Variable>, nonNegative: set<Variable>,
                        negativeAfter: set<Variable>, nonNegativeAfter: set<Variable>)
  {
    i <= |cs| &&
    negativeAfter == negative - NonNegativeVariables(cs[..i]) &&
    nonNegativeAfter == nonNegative + NonNegativeVariables(cs[..i]) &&
    (forall t :: 0 <= t < |indices| ==> indices[t] < i && IsNonNegativeConstraint(cs[indices[t]])) &&
    (forall t, u :: 0 <= t < u < |indices| ==> indices[t] < indices[u]) &&
    (forall p :: 0 <= p < i && IsNonNegativeConstraint(cs[p]) ==> p in indices)
  }

  /** One turn of the loop of lp.cc:89-97. */
  method ScanConstraint(cs: seq<Constraint>, i: nat, indices: seq<nat>, ghost negative: set<Variable>,
                        ghost nonNegative: set<Variable>, negativeNow: set<Variable>, nonNegativeNow: set<Variable>)
    returns (indicesAfter: seq<nat>, negativeAfter: set<Variable>, nonNegativeAfter: set<Variable>)
    requires i < |cs| && ScannedUpTo(cs, i, indices, negative, nonNegative, negativeNow, nonNegativeNow)
    ensures ScannedUpTo(cs, i + 1, indicesAfter, negative, nonNegative, negativeAfter, nonNegativeAfter)
  {
    NonNegativeVariablesStep(cs, i);
    indicesAfter, negativeAfter, nonNegativeAfter := indices, negativeNow, nonNegativeNow;
    if IsNonNegativeConstraint(cs[i]) {
      var v := SoleVariable(cs[i]);
      negativeAfter := negativeAfter - {v};
      nonNegativeAfter := nonNegativeAfter + {v};
      indicesAfter := indicesAfter + [i];
    }
    forall p | 0 <= p <= i && IsNonNegativeConstraint(cs[p]) ensures p in indicesAfter {
      if p < i {
        var t :| 0 <= t < |indices| && indices[t] == p;
        assert indicesAfter[t] == p;
      }
    }
  }

  /** lp.cc:89-97: every non-negativity constraint takes its variable out
      of `negative` and into `nonNegative`, and its index is recorded. */
  method FindNonNegativeConstraints(cs: seq<Constraint>, negative: set<Variable>, nonNegative: set<Variable>)
    returns (indices: seq<nat>, negativeAfter: set<Variable>, nonNegativeAfter: set<Variable>)
    ensures negativeAfter == negative - NonNegativeVariables(cs)
    ensures nonNegativeAfter == nonNegative + NonNegativeVariables(cs)
    ensures IsIndexList(cs, indices)
  {
    indices, negativeAfter, nonNegativeAfter := [], negative, nonNegative;
    var i := 0;
    while i < |cs|
      invariant ScannedUpTo(cs, i, indices, negative, nonNegative, negativeAfter, nonNegativeAfter)
    {
      indices, negativeAfter, nonNegativeAfter :=
        ScanConstraint(cs, i, indices, negative, nonNegative, negativeAfter, nonNegativeAfter);
      i := i + 1;
    }
    assert cs[..|cs|] == cs;
  }

  /** lp.cc:98-101: the recorded constraints are erased from the highest
      index down, so the lower indices stay valid. */
  method EraseConstraints(cs: seq<Constraint>, indices: seq<nat>) returns (r: seq<Constraint>)
    requires IsIndexList(cs, indices)
    ensures r == WithoutNonNegative(cs)
  {
    r := cs;
    var j := |indices|;
    var top := |cs|;
    while j > 0
      invariant 0 <= j <= |indices| && top <= |cs|
      invariant top == if j == |indices| then |cs| else indices[j]
      invariant forall t :: 0 <= t < j ==> indices[t] < top
      invariant r == cs[..top] + WithoutNonNegative(cs[top..])
    {
      var idx := indices[j - 1];
      NoneBetween(cs, indices, j, top);
      EraseOne(cs, idx, top);
      r := r[..idx] + r[idx + 1..];
      j := j - 1;
      top := idx;
    }
    ghost var head, tail := cs[..top], cs[top..];
    assert WithoutNonNegative(head) == head by {
      NoneBetween(cs, indices, 0, top);
      assert forall p :: 0 <= p < |head| ==> head[p] == cs[p];
      WithoutNonNegativeNone(head);
    }
    assert WithoutNonNegative(head + tail) == WithoutNonNegative(head) + WithoutNonNegative(tail) by {
      WithoutNonNegativeAppend(head, tail);
    }
    assert head + tail == cs;
  }

  /** Between two recorded indices, and before the first one, there is no
      non-negativity constraint. */
  lemma NoneBetween(cs: seq<Constraint>, indices: seq<nat>, j: nat, top: nat)
    requires IsIndexList(cs, indices) && j <= |indices|
    requires top == if j == |indices| then |cs| else indices[j]
    ensures forall p :: (if j == 0 then 0 else indices[j - 1] + 1) <= p < top ==> !IsNonNegativeConstraint(cs[p])
  {
  }

  lemma EraseOne(cs: seq<Constraint>, idx: nat, top: nat)
    requires idx < top <= |cs| && IsNonNegativeConstraint(cs[idx])
    requires forall p :: idx < p < top ==> !IsNonNegativeConstraint(cs[p])
    ensures var r := cs[..top] + WithoutNonNegative(cs[top..]);
      r[..idx] + r[idx + 1..] == cs[..idx] + WithoutNonNegative(cs[idx..])
  {
    var mid := cs[idx + 1..top];
    assert cs[idx..] == [cs[idx]] + mid + cs[top..];
    WithoutNonNegativeAppend([cs[idx]] + mid, cs[top..]);
    WithoutNonNegativeAppend([cs[idx]], mid);
    assert WithoutNonNegative([cs[idx]]) == WithoutNonNegative([]) + [];
    WithoutNonNegativeNone(mid);
    var r := cs[..top] + WithoutNonNegative(cs[top..]);
    assert r[..idx] == cs[..idx];
    assert r[idx + 1..] == mid + WithoutNonNegative(cs[top..]);
  }

  /** lp.cc:109-112. */
  method ReplaceInAll(cs: seq<Constraint>, v: Variable, s: Expression) returns (r: seq<Constraint>)
    ensures r == ReplacedIn(cs, v, s)
  {
    r := cs;
    var i := 0;
    while i < |r|
      invariant |r| == |cs| && 0 <= i <= |cs|
      invariant forall k :: 0 <= k < i ==> r[k] == cs[k].(expression := Replaced(cs[k].expression, v, s))
      invariant forall k :: i <= k < |cs| ==> r[k] == cs[k]
    {
      var e := ReplaceVariableWithExpression(r[i].expression, v, s);
      r := r[i := r[i].(expression := e)];
      i := i + 1;
    }
  }

  /** The inner loop of SlackFormSanityCheck (lp.cc:428-437) over one
      equation: every base variable in it must be new to `appeared` and
      have coefficient FLOAT -1, and there must be exactly one. The
      entries are visited in any order: the verdict does not depend on it. */
  method CheckSlackRow(c: Constraint, base: set<Variable>, appeared: set<Variable>)
    returns (ok: bool, appearedAfter: set<Variable>)
    requires c.equationType == EQ
    ensures ok <==> IsSlackRow(c, base) && BaseEntries(c, base) !! appeared
    ensures ok ==> appearedAfter == appeared + BaseEntries(c, base)
  {
    appearedAfter := appeared;
    ghost var seen: set<Variable> := {};
    var baseVars := 0;
    var todo := c.expression.coeffs.Keys;
    while todo != {}
      invariant RowScanned(c, base, appeared, todo, seen, appearedAfter, baseVars)
      decreases todo
    {
      var v :| v in todo;
      var stop;
      stop, seen, appearedAfter, baseVars := VisitRowEntry(c, base, appeared, todo, seen, appearedAfter, baseVars, v);
      if stop {
        return false, appearedAfter;
      }
      todo := todo - {v};
    }
    ok := baseVars == 1;
  }

  /** One turn of the loop of lp.cc:428-437: stop when v is a base
      variable already seen or with a coefficient other than FLOAT -1. */
  method VisitRowEntry(c: Constraint, base: set<Variable>, appeared: set<Variable>, todo: set<Variable>,
                       ghost seen: set<Variable>, appearedNow: set<Variable>, baseVarsNow: int, v: Variable)
    returns (stop: bool, ghost seenAfter: set<Variable>, appearedAfter: set<Variable>, baseVars: int)
    requires RowScanned(c, base, appeared, todo, seen, appearedNow, baseVarsNow) && v in todo
    ensures stop ==> !(IsSlackRow(c, base) && BaseEntries(c, base) !! appeared)
    ensures !stop ==> RowScanned(c, base, appeared, todo - {v}, seenAfter, appearedAfter, baseVars)
  {
    VisitEntry(c, base, todo, v);
    stop, seenAfter, appearedAfter, baseVars := false, seen, appearedNow, baseVarsNow;
    if v in base {
      if v in appearedAfter {
        assert v in BaseEntries(c, base) * appeared;
        return true, seenAfter, appearedAfter, baseVars;
      }
      appearedAfter := appearedAfter + {v};
      if c.expression.coeffs[v] != FloatNum(-1.0) {
        assert v in BaseEntries(c, base);
        return true, seenAfter, appearedAfter, baseVars;
      }
      baseVars := baseVars + 1;
      seenAfter := seenAfter + {v};
    }
  }

  /** The loop of SlackFormSanityCheck (lp.cc:425-439) over the rows. */
  method CheckSlackRows(cs: seq<Constraint>, base: set<Variable>) returns (ok: bool)
    ensures ok == SlackRowsUpTo(cs, base, |cs|)
  {
    var appeared: set<Variable> := {};
    var i := 0;
    while i < |cs|
      invariant RowsScanned(cs, base, i, appeared)
    {
      ok, appeared := CheckSlackRowAt(cs, base, i, appeared);
      if !ok {
        return;
      }
      i := i + 1;
    }
    return true;
  }
  /** The invariant of the loop of CheckSlackRows: the first i rows are
      slack rows with disjoint base entries, whose union is `appeared`. */
  ghost predicate RowsScanned(cs: seq<Constraint>, base: set<Variable>, i: nat, appeared: set<Variable>) {
    i <= |cs| && SlackRowsUpTo(cs, base, i) &&
    forall v :: v in appeared <==> exists k :: 0 <= k < i && v in BaseEntries(cs[k], base)
  }

  /** One turn of the loop of CheckSlackRows, on row i. */
  method CheckSlackRowAt(cs: seq<Constraint>, base: set<Variable>, i: nat, appeared: set<Variable>)
    returns (ok: bool, appearedAfter: set<Variable>)
    requires i < |cs| && RowsScanned(cs, base, i, appeared)
    ensures ok ==> RowsScanned(cs, base, i + 1, appearedAfter)
    ensures !ok ==> !SlackRowsUpTo(cs, base, |cs|)
  {
    if cs[i].equationType != EQ {
      RowsScannedClash(cs, base, i, appeared);
      return false, appeared;
    }
    ok, appearedAfter := CheckSlackRow(cs[i], base, appeared);
    if ok {
      RowsScannedStep(cs, base, i, appeared);
    } else {
      RowsScannedClash(cs, base, i, appeared);
    }
  }

  lemma RowsScannedStep(cs: seq<Constraint>, base: set<Variable>, i: nat, appeared: set<Variable>)
    requires i < |cs| && RowsScanned(cs, base, i, appeared)
    requires IsSlackRow(cs[i], base) && BaseEntries(cs[i], base) !! appeared
    ensures RowsScanned(cs, base, i + 1, appeared + BaseEntries(cs[i], base))
  {
    forall k, j | 0 <= k < j < i + 1 ensures BaseEntries(cs[k], base) !! BaseEntries(cs[j], base) {
      if j == i {
        forall v | v in BaseEntries(cs[k], base) ensures v in appeared {
        }
      }
    }
  }

  /** A row that is not a slack row, or shares a base variable with an
      earlier row, makes the whole check fail. */
  lemma RowsScannedClash(cs: seq<Constraint>, base: set<Variable>, i: nat, appeared: set<Variable>)
    requires i < |cs| && RowsScanned(cs, base, i, appeared)
    requires !(IsSlackRow(cs[i], base) && BaseEntries(cs[i], base) !! appeared)
    ensures !SlackRowsUpTo(cs, base, |cs|)
  {
    if IsSlackRow(cs[i], base) {
      var v :| v in BaseEntries(cs[i], base) && v in appeared;
      var k :| 0 <= k < i && v in BaseEntries(cs[k], base);
      assert v in BaseEntries(cs[k], base) * BaseEntries(cs[i], base);
    }
  }

  /** The invariant of CheckSlackRow's loop: the base entries among the
      keys visited so far are `seen`, each new to `appeared` and with
      coefficient FLOAT -1, and they are counted. */
  ghost predicate RowScanned(c: Constraint, base: set<Variable>, appeared: set<Variable>, todo: set<Variable>,
                             seen: set<Variable>, appearedAfter: set<Variable>, baseVars: int)
  {
    todo <= c.expression.coeffs.Keys &&
    seen == BaseEntries(c, base) - todo &&
    baseVars == |seen| &&
    seen !! appeared && appearedAfter == appeared + seen &&
    forall v :: v in seen ==> c.expression.coeffs[v] == FloatNum(-1.0)
  }

  /** Visiting one more key of the row adds it to the base entries seen
      exactly when it is a base variable. */
  lemma VisitEntry(c: Constraint, base: set<Variable>, todo: set<Variable>, v: Variable)
    requires todo <= c.expression.coeffs.Keys && v in todo
    ensures BaseEntries(c, base) - (todo - {v}) ==
      (BaseEntries(c, base) - todo) + (if v in base then {v} else {})
    ensures v !in BaseEntries(c, base) - todo
  {
  }

  // ---------------------------------------------------------------------
  // ToSlackForm (lp.cc:126-136)

  /** The base variable the i-th row receives when the base counter
      stands at k. */
  function SlackBase(k: nat, i: nat): Variable {
    Fresh(BasePrefix, k + i)
  }

  /** `compare - expression - b = 0`: the slack row of one constraint,
      with b as its base variable. */
  function SlackRow(c: Constraint, b: Variable): Constraint {
    Constraint(Sum(Difference(FromNum(c.compare), c.expression), Term(b, FloatNum(-1.0))), FloatZero, EQ, c.dataType)
  }

  function SlackRows(cs: seq<Constraint>, k: nat): seq<Constraint> {
    seq(|cs|, i requires 0 <= i < |cs| => SlackRow(cs[i], SlackBase(k, i)))
  }

  /** The base variables of the first n rows. */
  function SlackBases(k: nat, n: nat): set<Variable> {
    set i | 0 <= i < n :: SlackBase(k, i)
  }

  /** The model ToSlackForm leaves, the base counter starting at k. */
  function SlackForm(f: Form, k: nat): Form {
    f.(constraints := SlackRows(f.constraints, k),
       baseVariables := f.baseVariables + SlackBases(k, |f.constraints|))
  }

  /** The model after the first i rows of ToSlackForm's loop. */
  function PartialSlackForm(f: Form, k: nat, i: nat): Form
    requires i <= |f.constraints|
  {
    f.(constraints := SlackRows(f.constraints[..i], k) + f.constraints[i..],
       baseVariables := f.baseVariables + SlackBases(k, i))
  }

  lemma SlackFormStep(f: Form, k: nat, i: nat, d: nat)
    requires i < |f.constraints| && d == k + i
    ensures var g := PartialSlackForm(f, k, i);
      var b := Fresh(BasePrefix, d);
      PartialSlackForm(f, k, i + 1) ==
        g.(constraints := g.constraints[i := SlackRow(g.constraints[i], b)], baseVariables := g.baseVariables + {b})
  {
    SlackRowsStep(f.constraints, k, i);
    SlackBasesStep(k, i);
    assert Fresh(BasePrefix, d) == SlackBase(k, i);
  }

  lemma SlackRowsStep(cs: seq<Constraint>, k: nat, i: nat)
    requires i < |cs|
    ensures var now := SlackRows(cs[..i], k) + cs[i..];
      SlackRows(cs[..i + 1], k) + cs[i + 1..] == now[i := SlackRow(now[i], SlackBase(k, i))]
  {
    var now := SlackRows(cs[..i], k) + cs[i..];
    var next := SlackRows(cs[..i + 1], k) + cs[i + 1..];
    var updated := now[i := SlackRow(now[i], SlackBase(k, i))];
    assert |next| == |updated|;
    forall j | 0 <= j < |next| ensures next[j] == updated[j] {
      if j < i {
        assert next[j] == SlackRow(cs[j], SlackBase(k, j)) == now[j];
      } else if j == i {
        assert now[i] == cs[i];
      } else {
        assert next[j] == cs[j] == now[j];
      }
    }
  }

  lemma SlackBasesStep(k: nat, i: nat)
    ensures SlackBases(k, i + 1) == SlackBases(k, i) + {SlackBase(k, i)}
  {
    forall v | v in SlackBases(k, i + 1) ensures v in SlackBases(k, i) + {SlackBase(k, i)} {
      var j :| 0 <= j < i + 1 && v == SlackBase(k, j);
      if j < i {
        assert v in SlackBases(k, i);
      }
    }
  }

  lemma SlackFormComplete(f: Form, k: nat)
    ensures PartialSlackForm(f, k, |f.constraints|) == SlackForm(f, k)
  {
    assert f.constraints[..|f.constraints|] == f.constraints;
    assert f.constraints[|f.constraints|..] == [];
  }

  /** A slack row holds its base variable with coefficient exactly FLOAT
      -1, every other coefficient negated, the constant `compare -
      constant`, and no variable that was not there before. */
  lemma SlackRowMeaning(c: Constraint, b: Variable, w: Variable)
    requires b !in c.expression.coeffs
    ensures var r := SlackRow(c, b);
      r.equationType == EQ && IsZero(r.compare) &&
      b in r.expression.coeffs && r.expression.coeffs[b] == FloatNum(-1.0) &&
      (w != b ==> Value(GetCoeffOf(r.expression, w)) == -Value(GetCoeffOf(c.expression, w))) &&
      (w in r.expression.coeffs ==> w == b || w in c.expression.coeffs) &&
      Value(r.expression.constant) == Value(c.compare) - Value(c.expression.constant)
  {
    var d := Difference(FromNum(c.compare), c.expression);
    var t := Term(b, FloatNum(-1.0));
    DifferenceCoefficients(FromNum(c.compare), c.expression, w);
    DifferenceCoefficients(FromNum(c.compare), c.expression, b);
    SumCoefficients(d, t, w);
    TermCoefficients(b, FloatNum(-1.0), w);
    assert b !in d.coeffs;
    assert GetCoeffOf(Sum(d, t), b) == FloatNum(-1.0);
  }

  /** Row i of the slack form holds exactly one base variable, its own. */
  lemma SlackRowBaseEntries(f: Form, k: nat, i: nat)
    requires i < |f.constraints|
    requires forall j, v :: 0 <= j < |f.constraints| && v in f.constraints[j].expression.coeffs ==>
      v !in f.baseVariables + SlackBases(k, |f.constraints|)
    ensures var g := SlackForm(f, k);
      BaseEntries(g.constraints[i], g.baseVariables) == {SlackBase(k, i)} &&
      IsSlackRow(g.constraints[i], g.baseVariables)
  {
    var g := SlackForm(f, k);
    var b := SlackBase(k, i);
    assert b in SlackBases(k, |f.constraints|);
    SlackRowMeaning(f.constraints[i], b, b);
    forall w | w in BaseEntries(g.constraints[i], g.baseVariables) ensures w == b {
      SlackRowMeaning(f.constraints[i], b, w);
    }
    assert BaseEntries(g.constraints[i], g.baseVariables) == {b};
  }

  /** When no constraint mentions a base variable, old or new, ToSlackForm
      yields what SlackFormSanityCheck accepts. */
  lemma SlackFormIsSlack(f: Form, k: nat)
    requires forall j, v :: 0 <= j < |f.constraints| && v in f.constraints[j].expression.coeffs ==>
      v !in f.baseVariables + SlackBases(k, |f.constraints|)
    ensures IsSlackForm(SlackForm(f, k))
  {
    var g := SlackForm(f, k);
    var cs, base := g.constraints, g.baseVariables;
    assert forall i :: 0 <= i < |cs| ==> IsSlackRow(cs[i], base) by {
      forall i | 0 <= i < |cs| ensures IsSlackRow(cs[i], base) {
        SlackRowBaseEntries(f, k, i);
      }
    }
    assert forall i, j :: 0 <= i < j < |cs| ==> BaseEntries(cs[i], base) !! BaseEntries(cs[j], base) by {
      forall i, j | 0 <= i < j < |cs| ensures BaseEntries(cs[i], base) !! BaseEntries(cs[j], base) {
        SlackRowBaseEntries(f, k, i);
        SlackRowBaseEntries(f, k, j);
        FreshNamesAreDistinct(SlackBase(k, i), BasePrefix, BasePrefix, k + i, k + j);
      }
    }
  }

  // ---------------------------------------------------------------------
  // Pivot (lp.cc:139-176)

  /** A row Pivot may solve: both variables have non-zero coefficients. */
  predicate HoldsBoth(c: Constraint, b: Variable, n: Variable) {
    !IsZero(GetCoeffOf(c.expression, b)) && !IsZero(GetCoeffOf(c.expression, n))
  }

  /** The index of the first row holding both variables, |cs| if none. */
  function FirstPivotRow(cs: seq<Constraint>, b: Variable, n: Variable): (r: nat)
    ensures r <= |cs|
    ensures r < |cs| ==> HoldsBoth(cs[r], b, n)
    ensures forall j :: 0 <= j < r ==> !HoldsBoth(cs[j], b, n)
    decreases |cs|
  {
    if cs == [] then 0
    else if HoldsBoth(cs[0], b, n) then 0
    else 1 + FirstPivotRow(cs[1..], b, n)
  }

  /** The pivot row solved for n: n's entry dropped and the rest divided
      by minus n's coefficient. */
  function PivotSubstitution(e: Expression, n: Variable): Expression
    requires !IsZero(GetCoeffOf(e, n))
  {
    Quotient(SetCoeffOf(e, n, FloatZero), Neg(GetCoeffOf(e, n)))
  }

  /** What the second loop of Pivot does to one row: a row without n is
      kept, a row without b gets n replaced by s, and a row with b is
      divided by minus n's coefficient. */
  function PivotedRow(c: Constraint, b: Variable, n: Variable, s: Expression): Constraint
    requires n.dtype == FloatType && NoZeroCoeffs(c.expression)
  {
    var coeff := GetCoeffOf(c.expression, n);
    if coeff == FloatZero then c
    else if b !in c.expression.coeffs then c.(expression := Replaced(c.expression, n, s))
    else c.(expression := Scaled(c.expression, Divide(FloatNum(-1.0), coeff)))
  }

  predicate AllNoZeroCoeffs(cs: seq<Constraint>) {
    forall i :: 0 <= i < |cs| ==> NoZeroCoeffs(cs[i].expression)
  }

  function PivotedRows(cs: seq<Constraint>, b: Variable, n: Variable, s: Expression): seq<Constraint>
    requires n.dtype == FloatType && AllNoZeroCoeffs(cs)
  {
    seq(|cs|, i requires 0 <= i < |cs| => PivotedRow(cs[i], b, n, s))
  }

  /** What Pivot asserts of its arguments (lp.cc:140-141, 159): b is a base
      and n a non-base variable, some row holds both, and the substitution
      read from the first such row is not the zero expression. */
  predicate CanPivot(f: Form, b: Variable, n: Variable) {
    b in f.baseVariables && n in f.nonBaseVariables &&
    n.dtype == FloatType && AllNoZeroCoeffs(f.constraints) &&
    FirstPivotRow(f.constraints, b, n) < |f.constraints| &&
    PivotSubstitution(f.constraints[FirstPivotRow(f.constraints, b, n)].expression, n) != FromNum(FloatZero)
  }

  /** The substitution Pivot reads from the first row holding both. */
  function PivotExpression(f: Form, b: Variable, n: Variable): Expression
    requires CanPivot(f, b, n)
  {
    PivotSubstitution(f.constraints[FirstPivotRow(f.constraints, b, n)].expression, n)
  }

  /** The model Pivot(b, n) leaves. */
  function PivotForm(f: Form, b: Variable, n: Variable): Form
    requires CanPivot(f, b, n)
  {
    var s := PivotExpression(f, b, n);
    f.(baseVariables := f.baseVariables - {b} + {n},
       nonBaseVariables := f.nonBaseVariables - {n} + {b},
       objective := f.objective.(expression := Replaced(f.objective.expression, n, s)),
       constraints := PivotedRows(f.constraints, b, n, s))
  }

  /** The substitution no longer mentions n, and each of its entries is the
      row's entry divided by minus n's (FLOAT) coefficient. */
  lemma PivotSubstitutionMeaning(e: Expression, n: Variable, w: Variable)
    requires !IsZero(GetCoeffOf(e, n)) && GetCoeffOf(e, n).FloatNum?
    ensures n !in PivotSubstitution(e, n).coeffs
    ensures w != n ==> Value(GetCoeffOf(PivotSubstitution(e, n), w)) == Value(GetCoeffOf(e, w)) / -Value(GetCoeffOf(e, n))
    ensures Value(PivotSubstitution(e, n).constant) == Value(e.constant) / -Value(GetCoeffOf(e, n))
  {
    var a := GetCoeffOf(e, n);
    var erased := SetCoeffOf(e, n, FloatZero);
    SetCoeffOfOthers(e, n, FloatZero, w);
    QuotientCoefficients(erased, Neg(a), w);
    QuotientCoefficients(erased, Neg(a), n);
    DivideValue(erased.constant, Neg(a));
  }

  /** Pivot exchanges exactly b and n: when the two sets are disjoint
      before, they stay disjoint, their union and sizes are kept, and b
      and n have changed sides. */
  lemma PivotExchanges(f: Form, b: Variable, n: Variable)
    requires CanPivot(f, b, n) && f.baseVariables !! f.nonBaseVariables
    ensures var g := PivotForm(f, b, n);
      g.baseVariables !! g.nonBaseVariables &&
      g.baseVariables + g.nonBaseVariables == f.baseVariables + f.nonBaseVariables &&
      n in g.baseVariables && b in g.nonBaseVariables &&
      |g.baseVariables| == |f.baseVariables| && |g.nonBaseVariables| == |f.nonBaseVariables|
  {
    var g := PivotForm(f, b, n);
    assert b != n;
    assert f.baseVariables - {b} + {n} == (f.baseVariables - {b}) + {n};
    assert |f.baseVariables - {b}| == |f.baseVariables| - 1;
    assert |f.nonBaseVariables - {n}| == |f.nonBaseVariables| - 1;
  }

  /** After Pivot(b, n), n has left the objective and every row without b,
      and every row holding both has n's coefficient -1: such a row reads
      `n = ...`. */
  lemma PivotEliminates(f: Form, b: Variable, n: Variable, i: nat)
    requires CanPivot(f, b, n) && i < |f.constraints|
    ensures var g := PivotForm(f, b, n);
      n !in g.objective.expression.coeffs &&
      (b !in f.constraints[i].expression.coeffs ==> n !in g.constraints[i].expression.coeffs) &&
      (b in f.constraints[i].expression.coeffs && n in f.constraints[i].expression.coeffs ==>
         Value(GetCoeffOf(g.constraints[i].expression, n)) == -1.0)
  {
    var s := PivotExpression(f, b, n);
    var g := PivotForm(f, b, n);
    var e := f.constraints[i].expression;
    PivotExpressionFree(f, b, n);
    assert n !in g.objective.expression.coeffs by {
      ReplacedCoefficients(f.objective.expression, n, s, n);
    }
    assert g.constraints[i] == PivotedRow(f.constraints[i], b, n, s);
    var coeff := GetCoeffOf(e, n);
    if coeff == FloatZero {
    } else if b !in e.coeffs {
      ReplacedCoefficients(e, n, s, n);
    } else {
      ScaledToMinusOne(e, n);
    }
  }

  /** The substitution read from the pivot row no longer mentions n. */
  lemma PivotExpressionFree(f: Form, b: Variable, n: Variable)
    requires CanPivot(f, b, n)
    ensures n !in PivotExpression(f, b, n).coeffs
  {
    var pivot := f.constraints[FirstPivotRow(f.constraints, b, n)].expression;
    SetCoeffOfOthers(pivot, n, FloatZero, n);
    QuotientCoefficients(SetCoeffOf(pivot, n, FloatZero), Neg(GetCoeffOf(pivot, n)), n);
  }

  /** Dividing a row by minus n's coefficient leaves n with coefficient -1. */
  lemma ScaledToMinusOne(e: Expression, n: Variable)
    requires !IsZero(GetCoeffOf(e, n))
    ensures Value(GetCoeffOf(Scaled(e, Divide(FloatNum(-1.0), GetCoeffOf(e, n))), n)) == -1.0
  {
    var coeff := GetCoeffOf(e, n);
    var m := Divide(FloatNum(-1.0), coeff);
    DivideValue(FloatNum(-1.0), coeff);
    assert Value(m) == -1.0 / Value(coeff);
    ScaledCoefficients(e, m, n);
    assert Value(coeff) * (-1.0 / Value(coeff)) == -1.0;
  }

  // ---------------------------------------------------------------------
  // needInitialization (lp.cc:178-187)

  /** Some constraint's constant lies below -epsilon, the tolerance
      kEpsilonF, so that Initialize has to run phase 1. */
  method NeedInitialization(cs: seq<Constraint>, epsilon: real) returns (needed: bool)
    ensures needed <==> exists i :: 0 <= i < |cs| && NumLess(cs[i].expression.constant, FloatNum(-epsilon))
  {
    needed := false;
    var i := 0;
    while i < |cs|
      invariant 0 <= i <= |cs|
      invariant forall j :: 0 <= j < i ==> !NumLess(cs[j].expression.constant, FloatNum(-epsilon))
    {
      if NumLess(cs[i].expression.constant, FloatNum(-epsilon)) {
        needed := true;
        break;
      }
      i := i + 1;
    }
  }

  // ---------------------------------------------------------------------
  // ToDualForm (lp.cc:453-490)

  /** The dual variable of the i-th constraint. */
  function DualVariable(i: nat): Variable {
    Fresh(DualPrefix, i)
  }

  /** A constraint's entry in one column of the dual: its compare for the
      dual objective (no column), its coefficient of x for the dual row of
      the primal variable x. */
  function DualEntry(c: Constraint, column: Option<Variable>): Num {
    match column
    case None => c.compare
    case Some(x) => GetCoeffOf(c.expression, x)
  }

  /** `Expression(0.0f)` plus `entry_i * dual_i` for every constraint i, in
      order. */
  function DualCombination(cs: seq<Constraint>, column: Option<Variable>): Expression
    decreases |cs|
  {
    if cs == [] then FromNum(FloatZero)
    else Sum(DualCombination(cs[..|cs| - 1], column), Term(DualVariable(|cs| - 1), DualEntry(cs[|cs| - 1], column)))
  }

  lemma DualCombinationStep(cs: seq<Constraint>, column: Option<Variable>, i: nat)
    requires i < |cs|
    ensures DualCombination(cs[..i + 1], column) ==
            Sum(DualCombination(cs[..i], column), Term(DualVariable(i), DualEntry(cs[i], column)))
  {
    assert cs[..i + 1][..i] == cs[..i];
  }

  /** The combination holds the i-th dual variable with the i-th entry as
      coefficient, no other variable, and a zero constant. */
  lemma {:induction false} DualCombinationCoefficients(cs: seq<Constraint>, column: Option<Variable>, i: nat)
    requires i < |cs|
    ensures Value(GetCoeffOf(DualCombination(cs, column), DualVariable(i))) == Value(DualEntry(cs[i], column))
    decreases |cs|
  {
    var n := |cs| - 1;
    var prefix := cs[..n];
    var e := DualCombination(prefix, column);
    var t := Term(DualVariable(n), DualEntry(cs[n], column));
    SumCoefficients(e, t, DualVariable(i));
    TermCoefficients(DualVariable(n), DualEntry(cs[n], column), DualVariable(i));
    StoredValue(DualVariable(n), DualEntry(cs[n], column));
    if i < n {
      DualCombinationCoefficients(prefix, column, i);
      FreshNamesAreDistinct(DualVariable(i), DualPrefix, DualPrefix, i, n);
    } else {
      DualCombinationKeys(prefix, column);
      assert DualVariable(n) !in e.coeffs by {
        forall j | 0 <= j < n ensures DualVariable(j) != DualVariable(n) {
          FreshNamesAreDistinct(DualVariable(j), DualPrefix, DualPrefix, j, n);
        }
      }
    }
  }

  /** The variables and the constant of a combination, for any number of
      constraints (including none). */
  lemma {:induction false} DualCombinationKeys(cs: seq<Constraint>, column: Option<Variable>)
    ensures forall v :: v in DualCombination(cs, column).coeffs ==> exists j :: 0 <= j < |cs| && v == DualVariable(j)
    ensures Value(DualCombination(cs, column).constant) == 0.0
    decreases |cs|
  {
    if cs != [] {
      var n := |cs| - 1;
      var e := DualCombination(cs[..n], column);
      var t := Term(DualVariable(n), DualEntry(cs[n], column));
      DualCombinationKeys(cs[..n], column);
      SumCoefficients(e, t, DualVariable(n));
      forall v | v in DualCombination(cs, column).coeffs ensures exists j :: 0 <= j < |cs| && v == DualVariable(j) {
        SumCoefficients(e, t, v);
        TermCoefficients(DualVariable(n), DualEntry(cs[n], column), v);
        if v != DualVariable(n) {
          var j :| 0 <= j < n && v == DualVariable(j);
        }
      }
    }
  }

  /** The dual row of the primal variable x: `sum_i A[i][x] * dual_i >= c[x]`. */
  function DualRow(f: Form, x: Variable): Constraint {
    NewConstraint(FloatType).(equationType := GE, compare := GetCoeffOf(f.objective.expression, x),
                              expression := DualCombination(f.constraints, Some(x)))
  }

  /** `dual_i >= 0`. */
  function DualBound(i: nat): Constraint {
    NewConstraint(FloatType).(equationType := GE, expression := Term(DualVariable(i), FloatOne))
  }

  /** dual0, dual1, ..., the names ToDualForm draws, in order. */
  function DualVariables(n: nat): seq<Variable> {
    seq(n, i requires 0 <= i < n => DualVariable(i))
  }

  lemma DualVariablesStep(n: nat)
    ensures DualVariables(n + 1) == DualVariables(n) + [DualVariable(n)]
  {
    assert DualVariables(n + 1)[..n] == DualVariables(n);
  }

  lemma DualRowsStep(f: Form, columns: seq<Variable>, j: nat)
    requires j < |columns|
    ensures DualRows(f, columns[..j + 1]) == DualRows(f, columns[..j]) + [DualRow(f, columns[j])]
  {
    assert DualRows(f, columns[..j + 1])[..j] == DualRows(f, columns[..j]);
  }

  function DualRows(f: Form, columns: seq<Variable>): seq<Constraint> {
    seq(|columns|, j requires 0 <= j < |columns| => DualRow(f, columns[j]))
  }

  function DualBounds(n: nat): seq<Constraint> {
    seq(n, i requires 0 <= i < n => DualBound(i))
  }

  /** The model ToDualForm returns: minimise `sum_i b[i] * dual_i` subject to
      one dual row per non-base variable, in ascending order, and then one
      bound per dual variable. */
  function DualForm(f: Form): Form {
    EmptyForm().(
      objective := OptimizationObject(DualCombination(f.constraints, None), Minimize),
      constraints := DualRows(f, Sorted(f.nonBaseVariables)) + DualBounds(|f.constraints|))
  }

    /** The dual objective minimises: its coefficient of dual_i is the
      compare (right-hand side) of primal row i. */
  lemma DualObjectiveTransposes(f: Form, i: nat)
    requires i < |f.constraints|
    ensures DualForm(f).objective.optType == Minimize
    ensures Value(GetCoeffOf(DualForm(f).objective.expression, DualVariable(i))) == Value(f.constraints[i].compare)
  {
    DualCombinationCoefficients(f.constraints, None, i);
  }

  /** Dual row j belongs to the j-th primal variable x in ascending order:
      `>=` the objective coefficient of x, with primal row i's coefficient of
      x as its coefficient of dual_i. */
  lemma DualRowTransposes(f: Form, i: nat, j: nat)
    requires i < |f.constraints| && j < |f.nonBaseVariables|
    ensures |DualForm(f).constraints| == |f.nonBaseVariables| + |f.constraints|
    ensures var x := Sorted(f.nonBaseVariables)[j];
      var row := DualForm(f).constraints[j];
      row.equationType == GE && row.compare == GetCoeffOf(f.objective.expression, x) &&
      Value(GetCoeffOf(row.expression, DualVariable(i))) == Value(GetCoeffOf(f.constraints[i].expression, x))
  {
    var columns := Sorted(f.nonBaseVariables);
    var x := columns[j];
    assert DualForm(f).constraints[j] == DualRow(f, x);
    DualCombinationCoefficients(f.constraints, Some(x), i);
  }

  /** The last rows of the dual bound every dual variable from below by 0. */
  lemma DualBoundsTransposes(f: Form, i: nat)
    requires i < |f.constraints|
    ensures var row := DualForm(f).constraints[|f.nonBaseVariables| + i];
      row.equationType == GE && IsZero(row.compare) &&
      GetCoeffOf(row.expression, DualVariable(i)) == FloatOne
  {
    var m := |f.nonBaseVariables|;
    assert DualForm(f).constraints[m + i] == DualBound(i);
    TermCoefficients(DualVariable(i), FloatOne, DualVariable(i));
  }

  /** The inner loop of ToDualForm (lp.cc:477-480) for the primal variable x. */
  method DualColumn(cs: seq<Constraint>, ys: seq<Variable>, x: Variable) returns (e: Expression)
    requires ys == DualVariables(|cs|)
    ensures e == DualCombination(cs, Some(x))
  {
    e := FromNum(FloatZero);
    var i := 0;
    while i < |cs|
      invariant 0 <= i <= |cs|
      invariant e == DualCombination(cs[..i], Some(x))
    {
      e := AddAssign(e, Term(ys[i], GetCoeffOf(cs[i].expression, x)));
      DualCombinationStep(cs, Some(x), i);
      i := i + 1;
    }
    assert cs[..|cs|] == cs;
  }

  /** The second loop of Pivot (lp.cc:163-175), over every row. */
  method PivotRows(cs: seq<Constraint>, b: Variable, n: Variable, s: Expression) returns (r: seq<Constraint>)
    requires n.dtype == FloatType && AllNoZeroCoeffs(cs)
    ensures r == PivotedRows(cs, b, n, s)
  {
    r := cs;
    var i := 0;
    while i < |r|
      invariant 0 <= i <= |r| == |cs|
      invariant forall j :: 0 <= j < i ==> r[j] == PivotedRow(cs[j], b, n, s)
      invariant forall j :: i <= j < |r| ==> r[j] == cs[j]
    {
      var c := r[i];
      if GetCoeffOf(c.expression, n) == FloatZero {
        i := i + 1;
        continue;
      }
      if b !in c.expression.coeffs {
        var e := ReplaceVariableWithExpression(c.expression, n, s);
        r := r[i := c.(expression := e)];
      } else {
        var coeff := GetCoeffOf(c.expression, n);
        var e := ScaleAssign(c.expression, Divide(FloatNum(-1.0), coeff));
        r := r[i := c.(expression := e)];
      }
      i := i + 1;
    }
  }

  class LPModel {
    var constraints: seq<Constraint>
    var objective: OptimizationObject
    var baseVariables: set<Variable>
    var nonBaseVariables: set<Variable>
    var nonNegativeVariables: set<Variable>
    var rawVariableExpression: map<Variable, Expression>
    var optReverted: bool

    function State(): Form
      reads this
    {
      Form(constraints, objective, baseVariables, nonBaseVariables, nonNegativeVariables,
           rawVariableExpression, optReverted)
    }

    /** `LPModel()`: an empty model; constructing one restarts the shared
        counters (lp.h:97, 138-141). */
    constructor(counters: NameCounters)
      modifies counters
      ensures State() == EmptyForm()
      ensures counters.base == 0 && counters.substitution == 0 && counters.dual == 0 && counters.artificial == 0
    {
      constraints := [];
      objective := NewObjective(FloatType);
      baseVariables, nonBaseVariables, nonNegativeVariables := {}, {}, {};
      rawVariableExpression := map[];
      optReverted := false;
      new;
      counters.Reset();
    }

    /** AddConstraint (lp.h:99-101) appends. */
    method AddConstraint(c: Constraint)
      modifies this
      ensures State() == old(State()).(constraints := old(constraints) + [c])
    {
      constraints := constraints + [c];
    }

    /** SetOptimizationObject (lp.h:102-105): the objective's constant must
        be the FLOAT zero, or the assertion fails and nothing is set. */
    method SetOptimizationObject(obj: OptimizationObject) returns (ok: bool)
      modifies this
      ensures ok <==> obj.expression.constant == FloatZero
      ensures State() == if ok then old(State()).(objective := obj) else old(State())
    {
      ok := NumEquals(obj.expression.constant, FloatZero);
      NumEqualsIsIdentity(obj.expression.constant, FloatZero);
      if ok {
        objective := obj;
      }
    }

    /** AddBaseVariable records v as a base variable. */
    method AddBaseVariable(v: Variable)
      modifies this
      ensures State() == old(State()).(baseVariables := old(baseVariables) + {v})
    {
      baseVariables := baseVariables + {v};
    }

    predicate IsBaseVariable(v: Variable): (r: bool)
      reads this
      ensures r <==> v in State().baseVariables
    {
      v in baseVariables
    }

    /** StandardFormSanityCheck (lp.cc:409-421). */
    method StandardFormSanityCheck() returns (ok: bool)
      ensures ok == IsStandardForm(State())
    {
      if objective.optType != Maximize {
        return false;
      }
      var i := 0;
      while i < |constraints|
        invariant 0 <= i <= |constraints|
        invariant forall k :: 0 <= k < i ==> constraints[k].equationType == LE
      {
        if constraints[i].equationType != LE {
          return false;
        }
        i := i + 1;
      }
      var todo := nonBaseVariables;
      while todo != {}
        invariant todo <= nonBaseVariables
        invariant nonBaseVariables - todo <= nonNegativeVariables
        decreases todo
      {
        var v :| v in todo;
        if v !in nonNegativeVariables {
          return false;
        }
        todo := todo - {v};
      }
      return true;
    }

    /** SlackFormSanityCheck (lp.cc:423-441). */
    method SlackFormSanityCheck() returns (ok: bool)
      ensures ok == IsSlackForm(State())
    {
      ok := CheckSlackRows(constraints, baseVariables);
    }

    /** ToStandardForm (lp.cc:46-120). */
    method ToStandardForm(counters: NameCounters)
      modifies this, counters
      ensures State() == StandardForm(old(State()), old(counters.substitution))
      ensures counters.substitution == old(counters.substitution) + 2 * |NegativeVariables(Normalize(old(State())))|
      ensures counters.base == old(counters.base) && counters.dual == old(counters.dual)
      ensures counters.artificial == old(counters.artificial)
    {
      if objective.optType == Minimize {
        optReverted := true;
        var e := ScaleAssign(objective.expression, FloatNum(-1.0));
        objective := OptimizationObject(e, Maximize);
      }
      var cs := SplitEquationsOf(constraints);
      cs := NormalizeConstraints(cs);
      constraints := cs;
      ghost var normal := State();
      assert normal == Normalize(old(State()));
      var vars := CollectVariables(constraints);
      nonBaseVariables := nonBaseVariables + vars;
      var indices, negative, nonNegative := FindNonNegativeConstraints(constraints, nonBaseVariables, nonNegativeVariables);
      nonNegativeVariables := nonNegative;
      cs := EraseConstraints(constraints, indices);
      constraints := cs;
      assert State() == Bounded(normal);
      assert negative == NegativeVariables(normal);
      SubstituteFreeVariables(Sorted(negative), counters);
    }

    /** lp.cc:103-117, one free variable: v becomes subst_k - subst_{k+1}. */
    method SubstituteFreeVariable(v: Variable, counters: NameCounters)
      modifies this, counters
      ensures State() == SubstituteOne(old(State()), v, old(counters.substitution))
      ensures counters.substitution == old(counters.substitution) + 2
      ensures counters.base == old(counters.base) && counters.dual == old(counters.dual)
      ensures counters.artificial == old(counters.artificial)
    {
      var nonBase := nonBaseVariables - {v};
      var s1, s2, exp := DrawSubstitution(counters);
      var raw := rawVariableExpression;
      if v !in raw {
        raw := raw[v := exp];
      }
      var cs := ReplaceInAll(constraints, v, exp);
      var e := ReplaceVariableWithExpression(objective.expression, v, exp);
      Substituted(cs, objective.(expression := e), raw, nonBase + {s1, s2}, nonNegativeVariables + {s1, s2});
    }

    /** The fields lp.cc:103-117 rewrites, set at once. */
    method Substituted(cs: seq<Constraint>, obj: OptimizationObject, raw: map<Variable, Expression>,
                       nonBase: set<Variable>, nonNegative: set<Variable>)
      modifies this
      ensures State() == old(State()).(constraints := cs, objective := obj, rawVariableExpression := raw,
                                       nonBaseVariables := nonBase, nonNegativeVariables := nonNegative)
    {
      constraints, objective, rawVariableExpression := cs, obj, raw;
      nonBaseVariables, nonNegativeVariables := nonBase, nonNegative;
    }

    /** lp.cc:104-108: two fresh substitution variables and their
        difference. */
    static method DrawSubstitution(counters: NameCounters) returns (s1: Variable, s2: Variable, exp: Expression)
      modifies counters
      ensures {s1, s2} == {Fresh(SubstitutionPrefix, old(counters.substitution)), Fresh(SubstitutionPrefix, old(counters.substitution) + 1)}
      ensures exp == SubstitutionFor(old(counters.substitution))
      ensures counters.substitution == old(counters.substitution) + 2
      ensures counters.base == old(counters.base) && counters.dual == old(counters.dual)
      ensures counters.artificial == old(counters.artificial)
    {
      s1 := counters.CreateSubstitutionVariable();
      s2 := counters.CreateSubstitutionVariable();
      exp := SubAssign(Term(s1, FloatOne), Term(s2, FloatOne));
    }

    /** lp.cc:102-119: each free variable in turn, in ascending order, is
        replaced everywhere by the difference of two fresh non-negative variables. */
    method SubstituteFreeVariables(vars: seq<Variable>, counters: NameCounters)
      modifies this, counters
      ensures State() == SubstituteAll(old(State()), vars, old(counters.substitution))
      ensures counters.substitution == old(counters.substitution) + 2 * |vars|
      ensures counters.base == old(counters.base) && counters.dual == old(counters.dual)
      ensures counters.artificial == old(counters.artificial)
    {
      ghost var start, k := State(), counters.substitution;
      var j := 0;
      while j < |vars|
        invariant 0 <= j <= |vars|
        invariant State() == SubstituteAll(start, vars[..j], k)
        invariant counters.substitution == CounterAt(k, j)
        invariant counters.base == old(counters.base) && counters.dual == old(counters.dual)
        invariant counters.artificial == old(counters.artificial)
      {
        SubstituteFreeVariable(vars[j], counters);
        SubstituteAllStep(start, vars, j, k);
        j := j + 1;
      }
      assert vars[..|vars|] == vars;
    }

    /** ToSlackForm (lp.cc:126-136): each row becomes `compare - expression
        - base_i = 0` with a freshly drawn base variable. */
    method ToSlackForm(counters: NameCounters)
      requires IsStandardForm(State())
      modifies this, counters
      ensures State() == SlackForm(old(State()), old(counters.base))
      ensures counters.base == old(counters.base) + |old(constraints)|
      ensures counters.substitution == old(counters.substitution) && counters.dual == old(counters.dual)
      ensures counters.artificial == old(counters.artificial)
    {
      ghost var start, k := State(), counters.base;
      var i, n := 0, |constraints|;
      while i < n
        invariant 0 <= i <= n == |start.constraints|
        invariant State() == PartialSlackForm(start, k, i)
        invariant counters.base == k + i
        invariant counters.substitution == old(counters.substitution) && counters.dual == old(counters.dual)
        invariant counters.artificial == old(counters.artificial)
      {
        ToSlackRow(i, counters, start, k);
        i := i + 1;
      }
      SlackFormComplete(start, k);
    }

    /** One turn of the loop of ToSlackForm, on row i. */
    method ToSlackRow(i: nat, counters: NameCounters, ghost start: Form, ghost k: nat)
      requires i < |start.constraints| && State() == PartialSlackForm(start, k, i) && counters.base == k + i
      modifies this, counters
      ensures State() == PartialSlackForm(start, k, i + 1)
      ensures counters.base == old(counters.base) + 1
      ensures counters.substitution == old(counters.substitution) && counters.dual == old(counters.dual)
      ensures counters.artificial == old(counters.artificial)
    {
      SlackFormStep(start, k, i, counters.base);
      var b := counters.CreateBaseVariable();
      var c := constraints[i];
      var e := SubAssign(FromNum(c.compare), c.expression);
      e := AddAssign(e, Term(b, FloatNum(-1.0)));
      constraints := constraints[i := Constraint(e, FloatZero, EQ, c.dataType)];
      baseVariables := baseVariables + {b};
    }

    /** Pivot (lp.cc:139-176): n enters the basis in place of b. The first
        row holding both is solved for n, n is replaced by that solution in
        the objective and in every row without b, and the rows with b are
        divided by minus n's coefficient. */
    method Pivot(b: Variable, n: Variable)
      requires CanPivot(State(), b, n)
      modifies this
      ensures State() == PivotForm(old(State()), b, n)
    {
      var substitution := FromNum(FloatZero);
      var i := 0;
      while i < |constraints|
        invariant 0 <= i <= FirstPivotRow(constraints, b, n)
        invariant State() == old(State()) && substitution == FromNum(FloatZero)
      {
        var e := constraints[i].expression;
        if !IsZero(GetCoeffOf(e, b)) && !IsZero(GetCoeffOf(e, n)) {
          var coeff := GetCoeffOf(e, n);
          substitution := SetCoeffOf(e, n, FloatZero);
          substitution := DivideAssign(substitution, Neg(coeff));
          baseVariables := baseVariables - {b} + {n};
          nonBaseVariables := nonBaseVariables - {n} + {b};
          break;
        }
        i := i + 1;
      }
      assert substitution == PivotExpression(old(State()), b, n);
      var e := ReplaceVariableWithExpression(objective.expression, n, substitution);
      objective := objective.(expression := e);
      var cs := PivotRows(constraints, b, n, substitution);
      constraints := cs;
    }

    /** ToDualForm (lp.cc:453-490). Constructing the dual model restarts
        the shared counters, so the dual variables are dual0, dual1, ... */
    method ToDualForm(counters: NameCounters) returns (dual: LPModel)
      requires IsStandardForm(State())
      modifies counters
      ensures fresh(dual) && dual.State() == DualForm(State())
      ensures counters.dual == |constraints|
      ensures counters.base == 0 && counters.substitution == 0 && counters.artificial == 0
    {
      var primal, columns := State(), Sorted(nonBaseVariables);
      dual := new LPModel(counters);
      var ys := dual.AddDualObjective(primal.constraints, counters);
      dual.objective := dual.objective.(optType := Minimize);
      ghost var objective := OptimizationObject(DualCombination(primal.constraints, None), Minimize);
      assert dual.State() == EmptyForm().(objective := objective);
      dual.AddDualRows(primal, columns, ys);
      dual.AddDualBounds(ys);
      assert dual.State() == EmptyForm().(objective := objective,
        constraints := DualRows(primal, columns) + DualBounds(|primal.constraints|));
    }

    /** The first loop of ToDualForm (lp.cc:467-471), run on the new dual
        model: one dual variable per primal constraint, its compare as the
        variable's objective coefficient. */
    method AddDualObjective(cs: seq<Constraint>, counters: NameCounters) returns (ys: seq<Variable>)
      requires objective.expression == FromNum(FloatZero) && counters.dual == 0
      modifies this, counters
      ensures State() == old(State()).(objective := old(objective).(expression := DualCombination(cs, None)))
      ensures ys == DualVariables(|cs|)
      ensures counters.dual == |cs|
      ensures counters.base == old(counters.base) && counters.substitution == old(counters.substitution)
      ensures counters.artificial == old(counters.artificial)
    {
      ys := [];
      var i := 0;
      while i < |cs|
        invariant 0 <= i <= |cs|
        invariant ys == DualVariables(i)
        invariant State() == old(State()).(objective := old(objective).(expression := DualCombination(cs[..i], None)))
        invariant counters.dual == i
        invariant counters.base == old(counters.base) && counters.substitution == old(counters.substitution)
        invariant counters.artificial == old(counters.artificial)
      {
        DualCombinationStep(cs, None, i);
        var y := AddDualObjectiveTerm(cs[i], counters);
        DualVariablesStep(i);
        ys := ys + [y];
        i := i + 1;
      }
      assert cs[..|cs|] == cs;
    }

    /** One step of the first loop of ToDualForm: draw a dual variable and
        add it to the objective with the row's compare as coefficient. */
    method AddDualObjectiveTerm(c: Constraint, counters: NameCounters) returns (y: Variable)
      modifies this, counters
      ensures y == DualVariable(old(counters.dual))
      ensures State() == old(State()).(objective := old(objective).(expression :=
        Sum(old(objective.expression), Term(y, DualEntry(c, None)))))
      ensures counters.dual == old(counters.dual) + 1
      ensures counters.base == old(counters.base) && counters.substitution == old(counters.substitution)
      ensures counters.artificial == old(counters.artificial)
    {
      y := counters.CreateDualVariable();
      var e := AddAssign(objective.expression, Term(y, c.compare));
      objective := objective.(expression := e);
    }

    /** The second loop of ToDualForm (lp.cc:473-482): one `>=` row per
        primal variable of `columns`, appended to this dual model. */
    method AddDualRows(primal: Form, columns: seq<Variable>, ys: seq<Variable>)
      requires ys == DualVariables(|primal.constraints|)
      modifies this
      ensures State() == old(State()).(constraints := old(constraints) + DualRows(primal, columns))
    {
      var j := 0;
      while j < |columns|
        invariant 0 <= j <= |columns|
        invariant State() == old(State()).(constraints := old(constraints) + DualRows(primal, columns[..j]))
      {
        var x := columns[j];
        var con := NewConstraint(FloatType);
        con := con.(equationType := GE);
        con := con.(compare := GetCoeffOf(primal.objective.expression, x));
        var e := DualColumn(primal.constraints, ys, x);
        con := con.(expression := e);
        AddConstraint(con);
        DualRowsStep(primal, columns, j);
        j := j + 1;
      }
      assert columns[..|columns|] == columns;
    }

    /** The third loop of ToDualForm (lp.cc:483-488): `dual_i >= 0` for
        every dual variable. */
    method AddDualBounds(ys: seq<Variable>)
      requires ys == DualVariables(|ys|)
      modifies this
      ensures State() == old(State()).(constraints := old(constraints) + DualBounds(|ys|))
    {
      var i := 0;
      while i < |ys|
        invariant 0 <= i <= |ys|
        invariant State() == old(State()).(constraints := old(constraints) + DualBounds(i))
      {
        var con := NewConstraint(FloatType);
        con := con.(equationType := GE);
        con := con.(expression := Term(ys[i], FloatOne));
        AddConstraint(con);
        assert DualBounds(i + 1) == DualBounds(i) + [con];
        i := i + 1;
      }
    }
  }
}
