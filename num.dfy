/** The tagged number of the LP toolkit (base.h `Num`, base.cc operators).
    A FLOAT number carries an exact real (float rounding is not modelled);
    an INTEGER number carries an unbounded int (32-bit wrap-around is not
    modelled). */
module Numbers {

  /** `enum DataType { FLOAT, INTEGER }`: FLOAT is 0, INTEGER is 1. */
  datatype DataType = FloatType | IntegerType

  function Rank(t: DataType): nat {
    if t == FloatType then 0 else 1
  }

  datatype Num = FloatNum(f: real) | IntNum(i: int)

  function TypeOf(n: Num): DataType {
    if n.FloatNum? then FloatType else IntegerType
  }

  /** The number's value, whatever its type. */
  function Value(n: Num): real {
    match n
    case FloatNum(f) => f
    case IntNum(i) => i as real
  }

  const FloatZero: Num := FloatNum(0.0)
  const IntZero: Num := IntNum(0)
  const FloatOne: Num := FloatNum(1.0)
  const IntOne: Num := IntNum(1)

  /** `var.type == FLOAT ? kFloatZero : kIntZero`. */
  function ZeroOf(t: DataType): (z: Num)
    ensures TypeOf(z) == t && Value(z) == 0.0
  {
    match t
    case FloatType => FloatNum(0.0)
    case IntegerType => IntNum(0)
  }

  /** `var.type == FLOAT ? kFloatOne : kIntOne`. */
  function OneOf(t: DataType): (o: Num)
    ensures TypeOf(o) == t && Value(o) == 1.0
  {
    match t
    case FloatType => FloatNum(1.0)
    case IntegerType => IntNum(1)
  }

  /** Num::IsZero (base.h:50-57). */
  predicate IsZero(n: Num) {
    match n
    case FloatNum(f) => f == 0.0
    case IntNum(i) => i == 0
  }

  /** `n == kIntZero or n == kFloatZero`, the test SetCoeffOf and the
      operators use, is the same as IsZero. */
  lemma IsZeroIsEitherZero(n: Num)
    ensures IsZero(n) <==> (n == IntZero || n == FloatZero)
  {
  }

  /** Num == (base.cc:16-29): false across types, else compares the value
      held for that type. */
  predicate NumEquals(a: Num, b: Num) {
    if TypeOf(a) != TypeOf(b) then false
    else match a
      case FloatNum(f) => f == b.f
      case IntNum(i) => i == b.i
  }

  lemma NumEqualsIsIdentity(a: Num, b: Num)
    ensures NumEquals(a, b) <==> a == b
    ensures NumEquals(a, b) ==> Value(a) == Value(b)
    ensures TypeOf(a) != TypeOf(b) ==> !NumEquals(a, b)
  {
  }

  /** Integer division of C++: the quotient is truncated toward zero. */
  function TruncDiv(a: int, b: int): (q: int)
    requires b != 0
  {
    var q0 := (if a < 0 then -a else a) / (if b < 0 then -b else b);
    if (a < 0) == (b < 0) then q0 else -q0
  }

  lemma TruncDivBounds(a: int, b: int)
    requires b != 0
    ensures var q := TruncDiv(a, b);
      var r := a - q * b;
      (if r < 0 then -r else r) < (if b < 0 then -b else b) &&
      (r == 0 || (r < 0) == (a < 0))
  {
    var aa := if a < 0 then -a else a;
    var bb := if b < 0 then -b else b;
    var q0 := aa / bb;
    assert aa == q0 * bb + aa % bb;
    if a < 0 && b < 0 {
      assert a - q0 * b == -(aa - q0 * bb);
    } else if a < 0 {
      assert a - (-q0) * b == -(aa - q0 * bb);
    } else if b < 0 {
      assert a - (-q0) * b == aa - q0 * bb;
    }
  }

  datatype Op = Mul | Add | Div | Sub

  /** BinaryOp (base.cc:33-90) on an lhs the caller has already promoted:
      a FLOAT lhs combines with the value of either kind of rhs, an
      INTEGER lhs combines integer values. Division needs a non-zero
      divisor. */
  function BinaryOp(lhs: Num, rhs: Num, op: Op): (r: Num)
    requires lhs.IntNum? ==> rhs.IntNum?
    requires op == Div ==> !IsZero(rhs)
    ensures TypeOf(r) == TypeOf(lhs)
  {
    match lhs
    case FloatNum(f) =>
      var v := Value(rhs);
      (match op
       case Mul => FloatNum(f * v)
       case Add => FloatNum(f + v)
       case Div => FloatNum(f / v)
       case Sub => FloatNum(f - v))
    case IntNum(i) =>
      (match op
       case Mul => IntNum(i * rhs.i)
       case Add => IntNum(i + rhs.i)
       case Div => IntNum(TruncDiv(i, rhs.i))
       case Sub => IntNum(i - rhs.i))
  }

  /** The promotion the compound operators do first: an INTEGER lhs meets
      a FLOAT rhs by becoming FLOAT with the same value. */
  function Promote(lhs: Num, rhs: Num): (p: Num)
    ensures Value(p) == Value(lhs)
    ensures p.IntNum? <==> lhs.IntNum? && rhs.IntNum?
  {
    if lhs.IntNum? && rhs.FloatNum? then FloatNum(lhs.i as real) else lhs
  }

  /** `lhs op= rhs` (base.cc:92-142), also the binary `lhs op rhs`. */
  function Compound(lhs: Num, rhs: Num, op: Op): Num
    requires op == Div ==> !IsZero(rhs)
  {
    BinaryOp(Promote(lhs, rhs), rhs, op)
  }

  function Plus(a: Num, b: Num): Num { Compound(a, b, Add) }
  function Minus(a: Num, b: Num): Num { Compound(a, b, Sub) }
  function Times(a: Num, b: Num): Num { Compound(a, b, Mul) }
  function Divide(a: Num, b: Num): Num requires !IsZero(b) { Compound(a, b, Div) }

  /** Unary minus (base.cc:158-163) negates the value and keeps the type. */
  function Neg(n: Num): (r: Num)
    ensures TypeOf(r) == TypeOf(n) && Value(r) == -Value(n)
  {
    match n
    case FloatNum(f) => FloatNum(-f)
    case IntNum(i) => IntNum(-i)
  }

  /** The result of a compound operator is INTEGER exactly when both
      operands are; addition, subtraction and multiplication then agree
      with exact arithmetic on the values. */
  lemma CompoundPromotes(a: Num, b: Num, op: Op)
    requires op == Div ==> !IsZero(b)
    ensures Compound(a, b, op).IntNum? <==> a.IntNum? && b.IntNum?
    ensures op == Add ==> Value(Compound(a, b, op)) == Value(a) + Value(b)
    ensures op == Sub ==> Value(Compound(a, b, op)) == Value(a) - Value(b)
    ensures op == Mul ==> Value(Compound(a, b, op)) == Value(a) * Value(b)
  {
  }

  /** Division is exact unless both operands are INTEGER, where it truncates
      toward zero. */
  lemma DivideValue(a: Num, b: Num)
    requires !IsZero(b)
    ensures a.IntNum? && b.IntNum? ==> Divide(a, b) == IntNum(TruncDiv(a.i, b.i))
    ensures !(a.IntNum? && b.IntNum?) ==> Divide(a, b) == FloatNum(Value(a) / Value(b))
  {
  }

  /** Num < and <= (base.cc:144-153) compare values across types: the
      type tags are ignored, so IntNum(1) and FloatNum(1.0) are not < each
      other but are <= each other. */
  predicate NumLess(a: Num, b: Num): (r: bool)
    ensures a.IntNum? && b.IntNum? ==> (r <==> a.i < b.i)
    ensures a.FloatNum? && b.FloatNum? ==> (r <==> a.f < b.f)
    ensures a.IntNum? && b.FloatNum? ==> (r <==> a.i as real < b.f)
  {
    Value(a) < Value(b)
  }

  predicate NumLessEq(a: Num, b: Num): (r: bool)
    ensures a.IntNum? && b.IntNum? ==> (r <==> a.i <= b.i)
    ensures a.FloatNum? && b.FloatNum? ==> (r <==> a.f <= b.f)
    ensures a.IntNum? && b.FloatNum? ==> (r <==> a.i as real <= b.f)
  {
    Value(a) <= Value(b)
  }

  /** `>` and `>=` (base.cc:155-156) are the negations of `<=` and `<`;
      together the four operators form a total preorder on values. */
  lemma NumComparisonsAgree(a: Num, b: Num, c: Num)
    ensures NumLess(a, b) <==> !NumLessEq(b, a)
    ensures NumLessEq(a, b) <==> NumLess(a, b) || Value(a) == Value(b)
    ensures NumLessEq(a, b) || NumLessEq(b, a)
    ensures NumLess(a, b) && NumLessEq(b, c) ==> NumLess(a, c)
    ensures NumLessEq(a, b) && NumLessEq(b, c) ==> NumLessEq(a, c)
  {
  }

  /** A product of non-zero numbers is non-zero, so *= never creates a
      zero coefficient from a non-zero one. */
  lemma TimesNonZero(a: Num, b: Num)
    requires !IsZero(a) && !IsZero(b)
    ensures !IsZero(Times(a, b))
  {
    CompoundPromotes(a, b, Mul);
    assert Value(a) != 0.0 && Value(b) != 0.0;
  }

  lemma IsZeroValue(n: Num)
    ensures IsZero(n) <==> Value(n) == 0.0
  {
  }
}
