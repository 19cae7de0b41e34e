/** Sparse linear expressions (base.h `Expression`, base.cc operators): a
    map from variable to coefficient plus a constant. The C++ struct is a
    value that the program copies on every assignment, so it is a datatype
    here; each operator that updates its left-hand side in place is a
    method that returns the updated value, and each is proved equal to a
    function that says what every coefficient becomes. */
module Expressions {
  import opened Numbers
  import opened Variables
  import opened Strings

  datatype Expression = Expression(coeffs: map<Variable, Num>, constant: Num)

  /** The invariant SetCoeffOf and the operators keep: no stored
      coefficient is zero. */
  predicate NoZeroCoeffs(e: Expression) {
    forall v :: v in e.coeffs ==> !IsZero(e.coeffs[v])
  }

  /** `Expression(Num)` (base.h:183). */
  function FromNum(n: Num): Expression {
    Expression(map[], n)
  }

  /** `Expression(Variable)` (base.h:184-186). */
  function FromVariable(v: Variable): Expression {
    Expression(map[v := OneOf(v.dtype)], ZeroOf(v.dtype))
  }

  /** GetCoeffOf (base.h:188-192). */
  function GetCoeffOf(e: Expression, v: Variable): Num {
    if v in e.coeffs then e.coeffs[v] else ZeroOf(v.dtype)
  }

  /** SetCoeffOf (base.h:193-200): erase any entry, insert only a non-zero
      coefficient. */
  function SetCoeffOf(e: Expression, v: Variable, c: Num): (r: Expression)
    ensures r.constant == e.constant
    ensures GetCoeffOf(r, v) == if IsZero(c) then ZeroOf(v.dtype) else c
  {
    var erased := e.coeffs - {v};
    if IsZero(c) then Expression(erased, e.constant)
    else Expression(erased[v := c], e.constant)
  }

  /** SetCoeffOf changes v's entry only, stores no zero, and so keeps a
      well-formed expression well-formed. */
  lemma SetCoeffOfOthers(e: Expression, v: Variable, c: Num, w: Variable)
    ensures v in SetCoeffOf(e, v, c).coeffs <==> !IsZero(c)
    ensures w != v ==> GetCoeffOf(SetCoeffOf(e, v, c), w) == GetCoeffOf(e, w)
    ensures w != v ==> (w in SetCoeffOf(e, v, c).coeffs <==> w in e.coeffs)
    ensures NoZeroCoeffs(e) ==> NoZeroCoeffs(SetCoeffOf(e, v, c))
  {
  }

  /** The constructors: a variable alone has coefficient one of its own
      type and a zero constant of that type; a number alone has no
      variables. */
  lemma ConstructorsCoefficients(n: Num, v: Variable, w: Variable)
    ensures GetCoeffOf(FromVariable(v), v) == OneOf(v.dtype)
    ensures w != v ==> GetCoeffOf(FromVariable(v), w) == ZeroOf(w.dtype)
    ensures FromVariable(v).constant == ZeroOf(v.dtype)
    ensures NoZeroCoeffs(FromVariable(v))
    ensures GetCoeffOf(FromNum(n), w) == ZeroOf(w.dtype) && FromNum(n).constant == n
  {
  }

  /** GetCoeffOf answers a zero of the variable's own type exactly when
      the variable is absent from a well-formed expression. */
  lemma GetCoeffOfAbsent(e: Expression, v: Variable)
    requires NoZeroCoeffs(e)
    ensures v !in e.coeffs <==> IsZero(GetCoeffOf(e, v))
    ensures v !in e.coeffs ==> TypeOf(GetCoeffOf(e, v)) == v.dtype
  {
  }

  /** `Variable * Num` (base.cc:181-185): the single term, or nothing when
      the coefficient is zero; the constant is a zero of the number's type. */
  function Term(v: Variable, n: Num): Expression {
    SetCoeffOf(FromNum(ZeroOf(TypeOf(n))), v, n)
  }

  lemma TermCoefficients(v: Variable, n: Num, w: Variable)
    ensures GetCoeffOf(Term(v, n), v) == if IsZero(n) then ZeroOf(v.dtype) else n
    ensures w != v ==> w !in Term(v, n).coeffs
    ensures Value(Term(v, n).constant) == 0.0 && TypeOf(Term(v, n).constant) == TypeOf(n)
    ensures NoZeroCoeffs(Term(v, n))
  {
  }

  // ---------------------------------------------------------------------
  // += and -= (base.cc:188-215)

  /** What one entry (v, c) of the right-hand side does to the left-hand
      coefficient l: a non-zero l is combined with c; otherwise c itself,
      negated through `-1.0f * c` when subtracting, is stored. */
  function Combined(l: Num, c: Num, subtract: bool): Num {
    if !IsZero(l) then (if subtract then Minus(l, c) else Plus(l, c))
    else (if subtract then Times(FloatNum(-1.0), c) else c)
  }

  /** What SetCoeffOf stores and GetCoeffOf then answers for coefficient c
      of variable v. */
  function Stored(v: Variable, c: Num): Num {
    if IsZero(c) then ZeroOf(v.dtype) else c
  }

  /** One right-hand entry (v, c) merged into e. */
  function MergeStep(e: Expression, v: Variable, c: Num, subtract: bool): Expression {
    SetCoeffOf(e, v, Combined(GetCoeffOf(e, v), c, subtract))
  }

  /** The right-hand entries of `keys`, merged into lhs in that order. */
  function MergeKeys(lhs: Expression, rhs: Expression, keys: seq<Variable>, subtract: bool): (r: Expression)
    ensures r.constant == lhs.constant
  {
    if keys == [] then lhs
    else
      var last := keys[|keys| - 1];
      MergeStep(MergeKeys(lhs, rhs, keys[..|keys| - 1], subtract), last, GetCoeffOf(rhs, last), subtract)
  }

  predicate Distinct(keys: seq<Variable>) {
    forall i, j :: 0 <= i < j < |keys| ==> keys[i] != keys[j]
  }

  lemma SortedDistinct(s: set<Variable>)
    ensures Distinct(Sorted(s))
  {
    var q := Sorted(s);
    SortedAscending(s);
    forall i, j | 0 <= i < j < |q| ensures q[i] != q[j] {
      LessIrreflexive(q[i]);
    }
  }

  /** Merging distinct keys sets each merged key to its combined
      coefficient, leaves every other key alone, keeps the constant and
      stores no zero into a well-formed expression. */
  lemma {:induction false} MergeKeysCoefficient(lhs: Expression, rhs: Expression, keys: seq<Variable>, subtract: bool, w: Variable)
    requires Distinct(keys)
    ensures GetCoeffOf(MergeKeys(lhs, rhs, keys, subtract), w) ==
      if w in keys then Stored(w, Combined(GetCoeffOf(lhs, w), GetCoeffOf(rhs, w), subtract)) else GetCoeffOf(lhs, w)
    ensures w !in keys ==> (w in MergeKeys(lhs, rhs, keys, subtract).coeffs <==> w in lhs.coeffs)
    ensures w in keys ==> (w in MergeKeys(lhs, rhs, keys, subtract).coeffs <==>
                           !IsZero(Combined(GetCoeffOf(lhs, w), GetCoeffOf(rhs, w), subtract)))
    ensures NoZeroCoeffs(lhs) ==> NoZeroCoeffs(MergeKeys(lhs, rhs, keys, subtract))
  {
    if keys != [] {
      var last := keys[|keys| - 1];
      var prefix := keys[..|keys| - 1];
      var before := MergeKeys(lhs, rhs, prefix, subtract);
      var c := Combined(GetCoeffOf(before, last), GetCoeffOf(rhs, last), subtract);
      MergeKeysCoefficient(lhs, rhs, prefix, subtract, w);
      MergeKeysCoefficient(lhs, rhs, prefix, subtract, last);
      SetCoeffOfOthers(before, last, c, w);
      assert last !in prefix by {
        forall i | 0 <= i < |prefix| ensures prefix[i] != last {
          assert prefix[i] == keys[i];
        }
      }
      assert w in keys <==> w in prefix || w == last;
    }
  }

  /** The coefficients once every right-hand entry is merged: a right-hand
      variable gets its combined coefficient, erased when that is zero, and
      every other variable keeps its entry. */
  function MergedCoeffs(lhs: Expression, rhs: Expression, subtract: bool): map<Variable, Num> {
    map w | w in lhs.coeffs.Keys + rhs.coeffs.Keys &&
            (w in rhs.coeffs ==> !IsZero(Combined(GetCoeffOf(lhs, w), rhs.coeffs[w], subtract)))
      :: if w in rhs.coeffs then Combined(GetCoeffOf(lhs, w), rhs.coeffs[w], subtract) else lhs.coeffs[w]
  }

  /** `lhs + rhs`, the value `lhs += rhs` leaves. */
  function Sum(lhs: Expression, rhs: Expression): Expression {
    Expression(MergedCoeffs(lhs, rhs, false), Plus(lhs.constant, rhs.constant))
  }

  /** `lhs - rhs`, the value `lhs -= rhs` leaves. */
  function Difference(lhs: Expression, rhs: Expression): Expression {
    Expression(MergedCoeffs(lhs, rhs, true), Minus(lhs.constant, rhs.constant))
  }

  /** Merging the right-hand entries one by one in ascending variable
      order, as += and -= do, gives the pointwise merge: each entry touches
      its own variable only, so the order does not matter. */
  lemma MergeKeysIsMerged(lhs: Expression, rhs: Expression, subtract: bool)
    ensures MergeKeys(lhs, rhs, Sorted(rhs.coeffs.Keys), subtract).coeffs == MergedCoeffs(lhs, rhs, subtract)
  {
    SortedDistinct(rhs.coeffs.Keys);
    MergeDistinctKeys(lhs, rhs, Sorted(rhs.coeffs.Keys), subtract);
  }

  /** MergeKeysIsMerged for any distinct listing of the right-hand keys. */
  lemma MergeDistinctKeys(lhs: Expression, rhs: Expression, keys: seq<Variable>, subtract: bool)
    requires Distinct(keys) && forall x :: x in keys <==> x in rhs.coeffs
    ensures MergeKeys(lhs, rhs, keys, subtract).coeffs == MergedCoeffs(lhs, rhs, subtract)
  {
    var m := MergeKeys(lhs, rhs, keys, subtract).coeffs;
    var merged := MergedCoeffs(lhs, rhs, subtract);
    forall w ensures (w in m <==> w in merged) && (w in m ==> m[w] == merged[w]) {
      MergeKeysEntry(lhs, rhs, keys, subtract, w);
    }
    assert m.Keys == merged.Keys;
  }

  /** One variable of MergeKeysIsMerged. */
  lemma MergeKeysEntry(lhs: Expression, rhs: Expression, keys: seq<Variable>, subtract: bool, w: Variable)
    requires Distinct(keys) && forall x :: x in keys <==> x in rhs.coeffs
    ensures var m := MergeKeys(lhs, rhs, keys, subtract).coeffs;
            var merged := MergedCoeffs(lhs, rhs, subtract);
            (w in m <==> w in merged) && (w in m ==> m[w] == merged[w])
  {
    var e := MergeKeys(lhs, rhs, keys, subtract);
    MergeKeysCoefficient(lhs, rhs, keys, subtract, w);
    if w in rhs.coeffs {
      assert w in keys;
      var c := Combined(GetCoeffOf(lhs, w), rhs.coeffs[w], subtract);
      assert GetCoeffOf(rhs, w) == rhs.coeffs[w];
      if w in e.coeffs {
        assert GetCoeffOf(e, w) == Stored(w, c) == c;
      }
    } else {
      assert w !in keys;
      if w in e.coeffs {
        assert GetCoeffOf(e, w) == GetCoeffOf(lhs, w) == lhs.coeffs[w];
      }
    }
  }

  /** The body of the loop of += and -= for one right-hand entry (v, c). */
  method MergeEntry(lhs: Expression, v: Variable, c: Num, subtract: bool) returns (r: Expression)
    ensures r == MergeStep(lhs, v, c, subtract)
  {
    var lhsCoeff := GetCoeffOf(lhs, v);
    if !IsZero(lhsCoeff) {
      r := SetCoeffOf(lhs, v, if subtract then Minus(lhsCoeff, c) else Plus(lhsCoeff, c));
    } else {
      r := SetCoeffOf(lhs, v, if subtract then Times(FloatNum(-1.0), c) else c);
    }
  }

  /** The loop shared by += and -=: the right-hand entries of `keys`, one
      after the other. */
  method MergeCoefficients(lhs: Expression, rhs: Expression, keys: seq<Variable>, subtract: bool) returns (r: Expression)
    requires forall k :: k in keys ==> k in rhs.coeffs
    ensures r == MergeKeys(lhs, rhs, keys, subtract)
  {
    r := lhs;
    var i := 0;
    while i < |keys|
      invariant 0 <= i <= |keys|
      invariant r == MergeKeys(lhs, rhs, keys[..i], subtract)
    {
      var v := keys[i];
      assert keys[..i + 1][..i] == keys[..i];
      r := MergeEntry(r, v, rhs.coeffs[v], subtract);
      i := i + 1;
    }
    assert keys[..|keys|] == keys;
  }

  /** `lhs += rhs` (base.cc:188-198), iterating over the right-hand map in
      ascending variable order. */
  method AddAssign(lhs: Expression, rhs: Expression) returns (r: Expression)
    ensures r == Sum(lhs, rhs)
  {
    r := MergeCoefficients(lhs, rhs, Sorted(rhs.coeffs.Keys), false);
    MergeKeysIsMerged(lhs, rhs, false);
    r := r.(constant := Plus(r.constant, rhs.constant));
  }

  /** `lhs -= rhs` (base.cc:205-215). */
  method SubAssign(lhs: Expression, rhs: Expression) returns (r: Expression)
    ensures r == Difference(lhs, rhs)
  {
    r := MergeCoefficients(lhs, rhs, Sorted(rhs.coeffs.Keys), true);
    MergeKeysIsMerged(lhs, rhs, true);
    r := r.(constant := Minus(r.constant, rhs.constant));
  }

  /** Each coefficient of a sum is the sum of the coefficients, the
      constants add, and no zero coefficient is left behind. */
  lemma SumCoefficients(lhs: Expression, rhs: Expression, v: Variable)
    ensures Value(GetCoeffOf(Sum(lhs, rhs), v)) == Value(GetCoeffOf(lhs, v)) + Value(GetCoeffOf(rhs, v))
    ensures Value(Sum(lhs, rhs).constant) == Value(lhs.constant) + Value(rhs.constant)
    ensures NoZeroCoeffs(lhs) ==> NoZeroCoeffs(Sum(lhs, rhs))
    ensures v in Sum(lhs, rhs).coeffs ==> v in lhs.coeffs || v in rhs.coeffs
  {
    CompoundPromotes(lhs.constant, rhs.constant, Add);
    if v in rhs.coeffs {
      CompoundPromotes(GetCoeffOf(lhs, v), rhs.coeffs[v], Add);
      IsZeroValue(GetCoeffOf(lhs, v));
      IsZeroValue(Combined(GetCoeffOf(lhs, v), rhs.coeffs[v], false));
    }
  }

  /** Each coefficient of a difference is the difference of the
      coefficients, the constants subtract, and no zero is left behind. */
  lemma DifferenceCoefficients(lhs: Expression, rhs: Expression, v: Variable)
    ensures Value(GetCoeffOf(Difference(lhs, rhs), v)) == Value(GetCoeffOf(lhs, v)) - Value(GetCoeffOf(rhs, v))
    ensures Value(Difference(lhs, rhs).constant) == Value(lhs.constant) - Value(rhs.constant)
    ensures NoZeroCoeffs(lhs) ==> NoZeroCoeffs(Difference(lhs, rhs))
    ensures v in Difference(lhs, rhs).coeffs ==> v in lhs.coeffs || v in rhs.coeffs
  {
    CompoundPromotes(lhs.constant, rhs.constant, Sub);
    if v in rhs.coeffs {
      CompoundPromotes(GetCoeffOf(lhs, v), rhs.coeffs[v], Sub);
      CompoundPromotes(FloatNum(-1.0), rhs.coeffs[v], Mul);
      IsZeroValue(GetCoeffOf(lhs, v));
      IsZeroValue(Combined(GetCoeffOf(lhs, v), rhs.coeffs[v], true));
    }
  }

  // ---------------------------------------------------------------------
  // *= and /= (base.cc:222-264)

  /** One coefficient after `*= m` or `/= m`. */
  function Updated(c: Num, m: Num, divide: bool): Num
    requires divide ==> !IsZero(m)
  {
    if divide then Divide(c, m) else Times(c, m)
  }

  /** Every coefficient updated, and those that became zero erased. */
  function UpdatedCoeffs(coeffs: map<Variable, Num>, m: Num, divide: bool): map<Variable, Num>
    requires divide ==> !IsZero(m)
  {
    map v | v in coeffs && !IsZero(Updated(coeffs[v], m, divide)) :: Updated(coeffs[v], m, divide)
  }

  /** `exp * m`, the value `exp *= m` leaves: a zero multiplier first
      replaces the expression by `Expression(m)`; every product that is
      zero is erased. */
  function Scaled(e: Expression, m: Num): Expression {
    if IsZero(m) then Expression(map[], Times(m, m))
    else Expression(UpdatedCoeffs(e.coeffs, m, false), Times(e.constant, m))
  }

  /** `exp / m`, the value `exp /= m` leaves; INTEGER quotients truncate and
      a quotient that becomes zero is erased. */
  function Quotient(e: Expression, m: Num): Expression
    requires !IsZero(m)
  {
    Expression(UpdatedCoeffs(e.coeffs, m, true), Divide(e.constant, m))
  }

  /** The loop shared by *= and /=: update every entry, remember the ones
      that became zero, then erase them. */
  method UpdateEntries(e: Expression, m: Num, divide: bool) returns (r: Expression)
    requires divide ==> !IsZero(m)
    ensures r == Expression(UpdatedCoeffs(e.coeffs, m, divide), e.constant)
  {
    var updated := e.coeffs;
    var toBeCleaned: set<Variable> := {};
    var todo := e.coeffs.Keys;
    while todo != {}
      invariant todo <= e.coeffs.Keys && updated.Keys == e.coeffs.Keys
      invariant forall v :: v in e.coeffs && v !in todo ==> updated[v] == Updated(e.coeffs[v], m, divide)
      invariant forall v :: v in todo ==> updated[v] == e.coeffs[v]
      invariant forall v :: v in toBeCleaned <==> v in e.coeffs && v !in todo && IsZero(updated[v])
      decreases |todo|
    {
      var v :| v in todo;
      updated := updated[v := if divide then Divide(updated[v], m) else Times(updated[v], m)];
      if IsZero(updated[v]) {
        toBeCleaned := toBeCleaned + {v};
      }
      todo := todo - {v};
    }
    var cleaned := updated - toBeCleaned;
    assert cleaned == UpdatedCoeffs(e.coeffs, m, divide) by {
      forall w ensures (w in cleaned <==> w in UpdatedCoeffs(e.coeffs, m, divide)) {
      }
    }
    r := Expression(cleaned, e.constant);
  }

  /** `exp *= m` (base.cc:222-237). */
  method ScaleAssign(e: Expression, m: Num) returns (r: Expression)
    ensures r == Scaled(e, m)
  {
    r := e;
    if IsZero(m) {
      r := FromNum(m);
      assert UpdatedCoeffs(r.coeffs, m, false) == map[];
    }
    r := UpdateEntries(r, m, false);
    r := r.(constant := Times(r.constant, m));
  }

  /** `exp /= m` (base.cc:247-259). */
  method DivideAssign(e: Expression, m: Num) returns (r: Expression)
    requires !IsZero(m)
    ensures r == Quotient(e, m)
  {
    r := UpdateEntries(e, m, true);
    r := r.(constant := Divide(r.constant, m));
  }

  /** Every coefficient and the constant are multiplied by m; multiplying
      by zero leaves no variable and a zero constant; zeros never stay. */
  lemma ScaledCoefficients(e: Expression, m: Num, v: Variable)
    ensures Value(GetCoeffOf(Scaled(e, m), v)) == Value(GetCoeffOf(e, v)) * Value(m)
    ensures Value(Scaled(e, m).constant) == Value(e.constant) * Value(m)
    ensures IsZero(m) ==> Scaled(e, m).coeffs == map[] && IsZero(Scaled(e, m).constant)
    ensures NoZeroCoeffs(Scaled(e, m))
    ensures v in Scaled(e, m).coeffs ==> v in e.coeffs
  {
    ScaledEntry(e, m, v);
    StoredValue(v, Times(GetCoeffOf(e, v), m));
    CompoundPromotes(GetCoeffOf(e, v), m, Mul);
    ScaledConstant(e, m);
    ScaledKeys(e, m);
  }

  lemma ScaledConstant(e: Expression, m: Num)
    ensures Value(Scaled(e, m).constant) == Value(e.constant) * Value(m)
    ensures IsZero(m) ==> IsZero(Scaled(e, m).constant)
  {
    IsZeroValue(m);
    if IsZero(m) {
      CompoundPromotes(m, m, Mul);
      assert Value(m) == 0.0;
      assert Value(Times(m, m)) == 0.0;
      IsZeroValue(Times(m, m));
    } else {
      CompoundPromotes(e.constant, m, Mul);
    }
  }

  lemma ScaledKeys(e: Expression, m: Num)
    ensures IsZero(m) ==> Scaled(e, m).coeffs == map[]
    ensures NoZeroCoeffs(Scaled(e, m))
    ensures Scaled(e, m).coeffs.Keys <= e.coeffs.Keys
  {
  }

  /** One coefficient of `exp * m` is the stored product. */
  lemma ScaledEntry(e: Expression, m: Num, v: Variable)
    ensures GetCoeffOf(Scaled(e, m), v) == Stored(v, Times(GetCoeffOf(e, v), m))
  {
    var s := Scaled(e, m);
    var p := Times(GetCoeffOf(e, v), m);
    if IsZero(m) {
      CompoundPromotes(GetCoeffOf(e, v), m, Mul);
      IsZeroValue(m);
      IsZeroValue(p);
      assert v !in s.coeffs;
    } else if v !in e.coeffs {
      CompoundPromotes(GetCoeffOf(e, v), m, Mul);
      IsZeroValue(p);
      assert v !in s.coeffs;
    }
  }

  /** Storing never changes the value. */
  lemma StoredValue(v: Variable, c: Num)
    ensures Value(Stored(v, c)) == Value(c)
  {
    IsZeroValue(c);
  }

  /** Every coefficient and the constant are divided by m (truncating when
      both are INTEGER); quotients that become zero are erased. */
  lemma QuotientCoefficients(e: Expression, m: Num, v: Variable)
    requires !IsZero(m)
    ensures GetCoeffOf(Quotient(e, m), v) ==
      if v in e.coeffs && !IsZero(Divide(e.coeffs[v], m)) then Divide(e.coeffs[v], m) else ZeroOf(v.dtype)
    ensures Quotient(e, m).constant == Divide(e.constant, m)
    ensures !(TypeOf(m) == IntegerType && TypeOf(GetCoeffOf(e, v)) == IntegerType) ==>
      Value(GetCoeffOf(Quotient(e, m), v)) == Value(GetCoeffOf(e, v)) / Value(m)
    ensures NoZeroCoeffs(Quotient(e, m))
  {
    if v in e.coeffs {
      DivideValue(e.coeffs[v], m);
    }
  }

  // ---------------------------------------------------------------------
  // ReplaceVariableWithExpression (base.cc:266-271)

  /** The value ReplaceVariableWithExpression(e, v, s) leaves in e. */
  function Replaced(e: Expression, v: Variable, s: Expression): Expression {
    Sum(SetCoeffOf(e, v, ZeroOf(v.dtype)), Scaled(s, GetCoeffOf(e, v)))
  }

  method ReplaceVariableWithExpression(e: Expression, v: Variable, s: Expression) returns (r: Expression)
    ensures r == Replaced(e, v, s)
  {
    var coeff := GetCoeffOf(e, v);
    r := SetCoeffOf(e, v, ZeroOf(v.dtype));
    var scaled := ScaleAssign(s, coeff);
    r := AddAssign(r, scaled);
  }

  /** Substitution removes v's coefficient c and adds c times s: every
      coefficient changes by c times its coefficient in s. */
  lemma ReplacedCoefficients(e: Expression, v: Variable, s: Expression, w: Variable)
    ensures var c := Value(GetCoeffOf(e, v));
      Value(GetCoeffOf(Replaced(e, v, s), w)) ==
        (if w == v then 0.0 else Value(GetCoeffOf(e, w))) + c * Value(GetCoeffOf(s, w))
    ensures Value(Replaced(e, v, s).constant) == Value(e.constant) + Value(GetCoeffOf(e, v)) * Value(s.constant)
    ensures NoZeroCoeffs(e) ==> NoZeroCoeffs(Replaced(e, v, s))
    ensures v !in s.coeffs ==> v !in Replaced(e, v, s).coeffs
  {
    var erased := SetCoeffOf(e, v, ZeroOf(v.dtype));
    var scaled := Scaled(s, GetCoeffOf(e, v));
    SumCoefficients(erased, scaled, w);
    SumCoefficients(erased, scaled, v);
    ScaledCoefficients(s, GetCoeffOf(e, v), w);
    ScaledCoefficients(s, GetCoeffOf(e, v), v);
  }

  // ---------------------------------------------------------------------
  // Equality (base.cc:165-175) and ToString (base.h:202-208)

  /** Expression == as the loop of base.cc:165-175 computes it. */
  predicate ExprEquals(a: Expression, b: Expression) {
    NumEquals(a.constant, b.constant) &&
    |a.coeffs.Keys| == |b.coeffs.Keys| &&
    forall v :: v in a.coeffs ==> v in b.coeffs && NumEquals(a.coeffs[v], b.coeffs[v])
  }

  /** The loop's test is exactly equality of constants, key sets and every
      coefficient. */
  lemma ExprEqualsIsIdentity(a: Expression, b: Expression)
    ensures ExprEquals(a, b) <==> a == b
  {
    NumEqualsIsIdentity(a.constant, b.constant);
    if ExprEquals(a, b) {
      forall v | v in a.coeffs ensures a.coeffs[v] == b.coeffs[v] {
        NumEqualsIsIdentity(a.coeffs[v], b.coeffs[v]);
      }
      var extra := b.coeffs.Keys - a.coeffs.Keys;
      assert b.coeffs.Keys == a.coeffs.Keys + extra;
      assert |b.coeffs.Keys| == |a.coeffs.Keys| + |extra|;
      assert extra == {};
      assert a.coeffs == b.coeffs;
    }
  }

  /** The rendered terms `"<coeff> * <name> + "` of the given keys. */
  function TermTexts(e: Expression, keys: seq<Variable>, fmt: Num -> string): (t: seq<string>)
    requires forall k :: k in keys ==> k in e.coeffs
    ensures |t| == |keys|
  {
    if keys == [] then []
    else [fmt(e.coeffs[keys[0]]) + " * " + keys[0].name + " + "] + TermTexts(e, keys[1..], fmt)
  }

  /** Expression::ToString (base.h:202-208); `fmt` is Num::ToString. */
  function ExprToString(e: Expression, fmt: Num -> string): string {
    var keys := Sorted(e.coeffs.Keys);
    Concat(TermTexts(e, keys, fmt)) + fmt(e.constant)
  }

  lemma {:induction false} TermTextAt(e: Expression, keys: seq<Variable>, fmt: Num -> string, i: nat)
    requires forall k :: k in keys ==> k in e.coeffs
    requires i < |keys|
    ensures TermTexts(e, keys, fmt)[i] == fmt(e.coeffs[keys[i]]) + " * " + keys[i].name + " + "
  {
    if i > 0 {
      TermTextAt(e, keys[1..], fmt, i - 1);
    }
  }

  /** ToString writes one term per variable, in ascending variable order,
      and then the constant; with no variables it is the constant alone. */
  lemma ExprToStringShape(e: Expression, fmt: Num -> string)
    ensures var keys := Sorted(e.coeffs.Keys);
      var t := TermTexts(e, keys, fmt);
      ExprToString(e, fmt) == Concat(t) + fmt(e.constant) &&
      |t| == |e.coeffs.Keys| &&
      StrictlySorted(keys) &&
      forall i :: 0 <= i < |t| ==> t[i] == fmt(e.coeffs[keys[i]]) + " * " + keys[i].name + " + "
    ensures e.coeffs == map[] ==> ExprToString(e, fmt) == fmt(e.constant)
  {
    var keys := Sorted(e.coeffs.Keys);
    SortedAscending(e.coeffs.Keys);
    forall i | 0 <= i < |keys|
      ensures TermTexts(e, keys, fmt)[i] == fmt(e.coeffs[keys[i]]) + " * " + keys[i].name + " + "
    {
      TermTextAt(e, keys, fmt, i);
    }
  }
}
