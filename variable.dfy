/** Variables of the LP toolkit (base.h `Variable`, base.cc comparisons)
    and the order std::map and std::set use to iterate over them. */
module Variables {
  import opened Numbers
  import opened Strings

  datatype Variable = Variable(name: string, dtype: DataType)

  const Undefined: string := "undefined"

  /** `Variable()`: named "undefined". The source leaves the type
      uninitialised, so whatever it holds is a parameter here. */
  function DefaultVariable(garbage: DataType): (v: Variable)
    ensures IsUndefined(v)
  {
    Variable(Undefined, garbage)
  }

  /** `Variable(name, type = FLOAT)`. */
  function NamedVariable(name: string, t: DataType := FloatType): (v: Variable)
    ensures v.name == name && v.dtype == t
  {
    Variable(name, t)
  }

  /** Variable::IsUndefined (base.h:27). */
  predicate IsUndefined(v: Variable) {
    v.name == Undefined
  }

  lemma NamedVariableIsUndefinedIffNamedSo(name: string, t: DataType)
    ensures IsUndefined(NamedVariable(name, t)) <==> name == "undefined"
  {
  }

  /** Variable == (base.cc:3-5). */
  predicate VarEquals(a: Variable, b: Variable) {
    a.name == b.name && a.dtype == b.dtype
  }

  /** Variable != (base.cc:7-9), written independently of ==. */
  predicate VarNotEquals(a: Variable, b: Variable) {
    a.name != b.name || a.dtype != b.dtype
  }

  lemma VarEqualityIsIdentity(a: Variable, b: Variable)
    ensures VarEquals(a, b) <==> a == b
    ensures VarNotEquals(a, b) <==> !VarEquals(a, b)
  {
  }

  /** Variable < (base.cc:11-14): FLOAT before INTEGER, then by name. This
      is the order every std::map and std::set of variables iterates in. */
  predicate Less(a: Variable, b: Variable) {
    if a.dtype != b.dtype then Rank(a.dtype) < Rank(b.dtype) else StrLess(a.name, b.name)
  }

  lemma LessIrreflexive(a: Variable)
    ensures !Less(a, a)
  {
    StrLessIrreflexive(a.name);
  }

  lemma LessTransitive(a: Variable, b: Variable, c: Variable)
    requires Less(a, b) && Less(b, c)
    ensures Less(a, c)
  {
    if a.dtype == b.dtype == c.dtype {
      StrLessTransitive(a.name, b.name, c.name);
    }
  }

  /** Any two distinct variables are ordered one way or the other, so Less
      is a strict total order and no two distinct variables share a key. */
  lemma LessTotal(a: Variable, b: Variable)
    ensures a == b || Less(a, b) || Less(b, a)
  {
    if a.dtype == b.dtype {
      StrLessTotal(a.name, b.name);
    }
  }

  lemma LessAsymmetric(a: Variable, b: Variable)
    ensures !(Less(a, b) && Less(b, a))
  {
    if a.dtype == b.dtype {
      StrLessAsymmetric(a.name, b.name);
    }
  }

  /** The header variant of Variable < (base.h:41-43). */
  predicate HeaderLess(a: Variable, b: Variable) {
    Rank(a.dtype) <= Rank(b.dtype) && StrLess(a.name, b.name)
  }

  /** Under the header's order, the INTEGER and FLOAT variables of one name
      are distinct yet neither is less than the other, so an ordered map
      keyed by that order would treat them as the same key. */
  lemma HeaderLessMergesTypes(name: string)
    ensures Variable(name, IntegerType) != Variable(name, FloatType)
    ensures !HeaderLess(Variable(name, IntegerType), Variable(name, FloatType))
    ensures !HeaderLess(Variable(name, FloatType), Variable(name, IntegerType))
  {
    StrLessIrreflexive(name);
  }

  /** The header's incomparability is not even transitive: ("a", INTEGER)
      is incomparable with both ("b", FLOAT) and ("c", FLOAT), which are
      ordered. */
  lemma HeaderLessNotStrictWeak()
    ensures !HeaderLess(Variable("a", IntegerType), Variable("b", FloatType))
    ensures !HeaderLess(Variable("b", FloatType), Variable("a", IntegerType))
    ensures !HeaderLess(Variable("a", IntegerType), Variable("c", FloatType))
    ensures !HeaderLess(Variable("c", FloatType), Variable("a", IntegerType))
    ensures HeaderLess(Variable("b", FloatType), Variable("c", FloatType))
  {
  }

  /** Least element of a non-empty set under Less. */
  predicate IsLeast(k: Variable, s: set<Variable>) {
    k in s && forall y :: y in s && y != k ==> Less(k, y)
  }

  lemma {:induction false} LeastExists(s: set<Variable>)
    requires s != {}
    ensures exists k :: IsLeast(k, s)
    decreases |s|
  {
    var x :| x in s;
    if s == {x} {
      assert IsLeast(x, s);
    } else {
      var rest := s - {x};
      LeastExists(rest);
      var m :| IsLeast(m, rest);
      LessTotal(x, m);
      if Less(x, m) {
        forall y | y in s && y != x ensures Less(x, y) {
          if y != m { LessTransitive(x, m, y); }
        }
        assert IsLeast(x, s);
      } else {
        assert IsLeast(m, s);
      }
    }
  }

  lemma LeastUnique(s: set<Variable>)
    ensures forall a, b :: IsLeast(a, s) && IsLeast(b, s) ==> a == b
  {
    forall a, b | IsLeast(a, s) && IsLeast(b, s) ensures a == b {
      if a != b {
        LessAsymmetric(a, b);
      }
    }
  }

  predicate StrictlySorted(q: seq<Variable>) {
    forall i, j :: 0 <= i < j < |q| ==> Less(q[i], q[j])
  }

  /** The elements of a set in the order std::set / std::map iterate:
      ascending under Less (SortedAscending). */
  function Sorted(s: set<Variable>): (q: seq<Variable>)
    ensures |q| == |s| && (forall x :: x in q <==> x in s)
    decreases |s|
  {
    if s == {} then []
    else
      LeastExists(s);
      LeastUnique(s);
      var k :| IsLeast(k, s);
      [k] + Sorted(s - {k})
  }

  lemma {:induction false} SortedAscending(s: set<Variable>)
    ensures StrictlySorted(Sorted(s))
    decreases |s|
  {
    if s != {} {
      LeastExists(s);
      LeastUnique(s);
      var k :| IsLeast(k, s);
      var rest := Sorted(s - {k});
      assert Sorted(s) == [k] + rest;
      SortedAscending(s - {k});
      assert forall x :: x in rest ==> Less(k, x);
    }
  }
}
