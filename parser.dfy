/** The token-level parser of the text LP format (parser.cc Parser):
    expressions, constraints, the objective and whole models. */
module Parsing {
  import opened Wrappers
  import opened Numbers
  import opened Variables
  import opened Expressions
  import opened Tokens
  import opened Models
  import opened Lexing

  // ---------------------------------------------------------------------
  // Expressions: groups between signs

  predicate IsSign(t: Token) {
    t.ttype == AddTok || t.ttype == SubTok
  }

  /** A group of tokens together with the sign written before it (`+` for
      the first group). */
  datatype Signed = Signed(positive: bool, group: seq<Token>)

  /** The tokens cut at every ADD or SUB: each sign opens a new group that
      carries it. */
  function Split(ts: seq<Token>): (r: seq<Signed>)
    ensures |r| > 0 && r[0].positive
  {
    if ts == [] then [Signed(true, [])]
    else
      var prev := Split(ts[..|ts| - 1]);
      var t := ts[|ts| - 1];
      if IsSign(t) then prev + [Signed(t.ttype == AddTok, [])]
      else prev[..|prev| - 1] + [Signed(prev[|prev| - 1].positive, prev[|prev| - 1].group + [t])]
  }

  /** The signs of ts in order, true for ADD. */
  function Signs(ts: seq<Token>): seq<bool> {
    if ts == [] then []
    else if IsSign(ts[|ts| - 1]) then Signs(ts[..|ts| - 1]) + [ts[|ts| - 1].ttype == AddTok]
    else Signs(ts[..|ts| - 1])
  }

  /** The tokens of ts that are not signs, in order. */
  function Unsigned(ts: seq<Token>): seq<Token> {
    if ts == [] then []
    else if IsSign(ts[|ts| - 1]) then Unsigned(ts[..|ts| - 1])
    else Unsigned(ts[..|ts| - 1]) + [ts[|ts| - 1]]
  }

  /** The groups laid end to end. */
  function Joined(sgs: seq<Signed>): seq<Token> {
    if sgs == [] then [] else Joined(sgs[..|sgs| - 1]) + sgs[|sgs| - 1].group
  }

  /** There is one group more than there are signs, and every group after
      the first carries the sign that opened it. */
  lemma {:induction false} SplitSigns(ts: seq<Token>)
    ensures |Split(ts)| == |Signs(ts)| + 1
    ensures forall k :: 1 <= k < |Split(ts)| ==> Split(ts)[k].positive == Signs(ts)[k - 1]
  {
    if ts != [] {
      SplitSigns(ts[..|ts| - 1]);
    }
  }

  /** No group holds a sign. */
  lemma {:induction false} SplitGroupsUnsigned(ts: seq<Token>)
    ensures forall k, i :: 0 <= k < |Split(ts)| && 0 <= i < |Split(ts)[k].group| ==> !IsSign(Split(ts)[k].group[i])
  {
    if ts != [] {
      var t := ts[|ts| - 1];
      SplitGroupsUnsigned(ts[..|ts| - 1]);
      var prev := Split(ts[..|ts| - 1]);
      var n := |prev|;
      var r := Split(ts);
      forall k, i | 0 <= k < |r| && 0 <= i < |r[k].group| ensures !IsSign(r[k].group[i]) {
        if k < n - 1 || (k == n - 1 && IsSign(t)) {
          assert r[k] == prev[k];
        } else if k == n - 1 && i < |prev[n - 1].group| {
          assert r[k].group[i] == prev[n - 1].group[i];
        }
      }
    }
  }

  /** The groups laid end to end are the tokens that are not signs, in
      order: splitting loses only the sign tokens' own text and positions. */
  lemma {:induction false} SplitJoins(ts: seq<Token>)
    ensures Joined(Split(ts)) == Unsigned(ts)
  {
    if ts != [] {
      var t := ts[|ts| - 1];
      SplitJoins(ts[..|ts| - 1]);
      var prev := Split(ts[..|ts| - 1]);
      var n := |prev|;
      if IsSign(t) {
        assert (prev + [Signed(t.ttype == AddTok, [])])[..n] == prev;
      } else {
        var r := prev[..n - 1] + [Signed(prev[n - 1].positive, prev[n - 1].group + [t])];
        assert r[..n - 1] == prev[..n - 1];
        assert Joined(prev) == Joined(prev[..n - 1]) + prev[n - 1].group;
      }
    }
  }

  /** parse_unary (parser.cc:163-182): a group is a NUM, a VAR, or
      NUM MUL VAR; a number is read with std::stof, which can fail. */
  function ParseUnary(group: seq<Token>, stof: string -> Option<real>): (r: Result<Expression>)
    ensures r.Success? ==> NoZeroCoeffs(r.value)
  {
    if |group| == 1 then
      if group[0].ttype == NumTok then
        match stof(group[0].lexim)
        case None => Failure("stof: invalid argument")
        case Some(x) =>
          ConstructorsCoefficients(FloatNum(x), Variable(group[0].lexim, FloatType), Variable(group[0].lexim, FloatType));
          Success(FromNum(FloatNum(x)))
      else if group[0].ttype == Var then
        var v := Variable(group[0].lexim, FloatType);
        ConstructorsCoefficients(FloatZero, v, v);
        Success(FromVariable(v))
      else Failure("assertion failed: item.type == Token::NUM or item.type == Token::VAR")
    else if |group| == 3 then
      if group[0].ttype == NumTok && group[1].ttype == MulTok && group[2].ttype == Var then
        match stof(group[0].lexim)
        case None => Failure("stof: invalid argument")
        case Some(x) =>
          var v := Variable(group[2].lexim, FloatType);
          TermCoefficients(v, FloatNum(x), v);
          Success(Term(v, FloatNum(x)))
      else Failure("assertion failed: NUM MUL VAR")
    else Failure("assertion failed: group_sz == 1 or group_sz == 3")
  }

  /** What each accepted group stands for: a number is a constant, a name
      is that FLOAT variable with coefficient one, NUM * VAR is the
      variable with that coefficient; anything else fails. */
  lemma ParseUnaryMeaning(group: seq<Token>, stof: string -> Option<real>, w: Variable)
    ensures |group| == 1 && group[0].ttype == NumTok && stof(group[0].lexim).Some? ==>
      ParseUnary(group, stof) == Success(Expression(map[], FloatNum(stof(group[0].lexim).value)))
    ensures |group| == 1 && group[0].ttype == Var ==>
      var e := ParseUnary(group, stof).value;
      e.coeffs == map[Variable(group[0].lexim, FloatType) := FloatOne] && IsZero(e.constant)
    ensures |group| == 3 && group[0].ttype == NumTok && group[1].ttype == MulTok && group[2].ttype == Var &&
            stof(group[0].lexim).Some? ==>
      var e := ParseUnary(group, stof).value;
      var x := stof(group[0].lexim).value;
      Value(GetCoeffOf(e, w)) == (if w == Variable(group[2].lexim, FloatType) then x else 0.0) &&
      Value(e.constant) == 0.0
    ensures ParseUnary(group, stof).Success? ==>
      (|group| == 1 && (group[0].ttype == NumTok || group[0].ttype == Var)) ||
      (|group| == 3 && group[0].ttype == NumTok && group[1].ttype == MulTok && group[2].ttype == Var)
  {
    if |group| == 3 && group[0].ttype == NumTok && group[1].ttype == MulTok && group[2].ttype == Var &&
       stof(group[0].lexim).Some? {
      var v := Variable(group[2].lexim, FloatType);
      TermCoefficients(v, FloatNum(stof(group[0].lexim).value), w);
      if w != v {
        GetCoeffOfAbsent(Term(v, FloatNum(stof(group[0].lexim).value)), w);
      }
    }
  }

  /** A group added into (or, after a SUB, subtracted from) the sum so far. */
  function Accumulate(acc: Expression, sg: Signed, stof: string -> Option<real>): Result<Expression> {
    match ParseUnary(sg.group, stof)
    case Failure(msg) => Failure(msg)
    case Success(e) => Success(if sg.positive then Sum(acc, e) else Difference(acc, e))
  }

  /** The sum of groups that are each closed by a following sign, starting
      from the FLOAT zero; only an empty first group (a leading sign) is
      skipped, any other empty group fails to parse. */
  function FoldClosed(sgs: seq<Signed>, stof: string -> Option<real>): Result<Expression> {
    if sgs == [] then Success(FromNum(FloatZero))
    else
      var prev := FoldClosed(sgs[..|sgs| - 1], stof);
      if prev.Failure? then prev
      else if |sgs| == 1 && sgs[0].group == [] then prev
      else Accumulate(prev.value, sgs[|sgs| - 1], stof)
  }

  /** What Parser::ParseExpression computes: the closed groups, then the
      last group when it is not empty. */
  function ExpressionOf(tokens: seq<Token>, stof: string -> Option<real>): Result<Expression> {
    var sgs := Split(tokens);
    var closed := FoldClosed(sgs[..|sgs| - 1], stof);
    if closed.Failure? || sgs[|sgs| - 1].group == [] then closed
    else Accumulate(closed.value, sgs[|sgs| - 1], stof)
  }

  /** The shapes parse_unary accepts. */
  predicate UnaryShape(group: seq<Token>, stof: string -> Option<real>) {
    (|group| == 1 && ((group[0].ttype == NumTok && stof(group[0].lexim).Some?) || group[0].ttype == Var)) ||
    (|group| == 3 && group[0].ttype == NumTok && group[1].ttype == MulTok && group[2].ttype == Var &&
     stof(group[0].lexim).Some?)
  }

  lemma AccumulateSucceeds(acc: Expression, sg: Signed, stof: string -> Option<real>)
    ensures ParseUnary(sg.group, stof).Success? <==> UnaryShape(sg.group, stof)
    ensures Accumulate(acc, sg, stof).Success? <==> UnaryShape(sg.group, stof)
  {
  }

  /** Group k may stand in an expression: it parses, or it is an empty
      group where one is allowed (before a leading sign, or after the last
      token when no group follows). */
  predicate Accepted(sgs: seq<Signed>, k: int, last: int, stof: string -> Option<real>)
    requires 0 <= k < |sgs|
  {
    UnaryShape(sgs[k].group, stof) || (sgs[k].group == [] && (k == 0 || k == last))
  }

  /** Every group of sgs is accepted, the one at index last being last. */
  predicate AllAccepted(sgs: seq<Signed>, last: int, stof: string -> Option<real>) {
    forall k :: 0 <= k < |sgs| ==> Accepted(sgs, k, last, stof)
  }

  lemma {:induction false} FoldClosedSucceeds(c: seq<Signed>, stof: string -> Option<real>)
    ensures FoldClosed(c, stof).Success? <==> forall k :: 0 <= k < |c| ==> Accepted(c, k, 0, stof)
  {
    if c != [] {
      var init := c[..|c| - 1];
      FoldClosedSucceeds(init, stof);
      var prev := FoldClosed(init, stof);
      if prev.Failure? {
        var k :| 0 <= k < |init| && !Accepted(init, k, 0, stof);
        assert init[k] == c[k];
        assert !Accepted(c, k, 0, stof);
      } else {
        forall k | 0 <= k < |init| ensures Accepted(c, k, 0, stof) {
          assert Accepted(init, k, 0, stof);
          assert init[k] == c[k];
        }
        if !(|c| == 1 && c[0].group == []) {
          AccumulateSucceeds(prev.value, c[|c| - 1], stof);
          assert Accepted(c, |c| - 1, 0, stof) <==> UnaryShape(c[|c| - 1].group, stof);
        }
      }
    }
  }

  /** ParseExpression succeeds exactly when every group is accepted. */
  lemma ExpressionOfSucceeds(tokens: seq<Token>, stof: string -> Option<real>)
    ensures ExpressionOf(tokens, stof).Success? <==> AllAccepted(Split(tokens), |Split(tokens)| - 1, stof)
  {
    var sgs := Split(tokens);
    var c := sgs[..|sgs| - 1];
    var last := |sgs| - 1;
    var closedAccepted := forall k :: 0 <= k < |c| ==> Accepted(c, k, 0, stof);
    var initAccepted := forall k :: 0 <= k < last ==> Accepted(sgs, k, last, stof);
    assert closedAccepted <==> initAccepted by {
      forall k | 0 <= k < |c| ensures Accepted(c, k, 0, stof) <==> Accepted(sgs, k, last, stof) {
        assert c[k] == sgs[k];
      }
    }
    assert AllAccepted(sgs, last, stof) <==> initAccepted && Accepted(sgs, last, last, stof);
    assert FoldClosed(c, stof).Success? <==> closedAccepted by {
      FoldClosedSucceeds(c, stof);
    }
    if FoldClosed(c, stof).Success? && sgs[last].group != [] {
      AccumulateSucceeds(FoldClosed(c, stof).value, sgs[last], stof);
    }
  }

  /** The signed share of one group in the coefficient of w: what its term
      holds for w, negated after a SUB, and nothing for a group that does
      not parse. */
  function CoeffShare(sg: Signed, stof: string -> Option<real>, w: Variable): real {
    match ParseUnary(sg.group, stof)
    case Failure(_) => 0.0
    case Success(e) => if sg.positive then Value(GetCoeffOf(e, w)) else -Value(GetCoeffOf(e, w))
  }

  function ConstantShare(sg: Signed, stof: string -> Option<real>): real {
    match ParseUnary(sg.group, stof)
    case Failure(_) => 0.0
    case Success(e) => if sg.positive then Value(e.constant) else -Value(e.constant)
  }

  function CoeffTotal(sgs: seq<Signed>, stof: string -> Option<real>, w: Variable): real {
    if sgs == [] then 0.0 else CoeffTotal(sgs[..|sgs| - 1], stof, w) + CoeffShare(sgs[|sgs| - 1], stof, w)
  }

  function ConstantTotal(sgs: seq<Signed>, stof: string -> Option<real>): real {
    if sgs == [] then 0.0 else ConstantTotal(sgs[..|sgs| - 1], stof) + ConstantShare(sgs[|sgs| - 1], stof)
  }

  /** Adding a group in adds its share. */
  lemma AccumulateValues(acc: Expression, sg: Signed, stof: string -> Option<real>, w: Variable)
    requires Accumulate(acc, sg, stof).Success?
    ensures var r := Accumulate(acc, sg, stof).value;
      Value(GetCoeffOf(r, w)) == Value(GetCoeffOf(acc, w)) + CoeffShare(sg, stof, w) &&
      Value(r.constant) == Value(acc.constant) + ConstantShare(sg, stof) &&
      (NoZeroCoeffs(acc) ==> NoZeroCoeffs(r))
  {
    var e := ParseUnary(sg.group, stof).value;
    if sg.positive {
      SumCoefficients(acc, e, w);
    } else {
      DifferenceCoefficients(acc, e, w);
    }
  }

  lemma {:induction false} FoldClosedValues(c: seq<Signed>, stof: string -> Option<real>, w: Variable)
    requires FoldClosed(c, stof).Success?
    ensures var r := FoldClosed(c, stof).value;
      Value(GetCoeffOf(r, w)) == CoeffTotal(c, stof, w) && Value(r.constant) == ConstantTotal(c, stof) &&
      NoZeroCoeffs(r)
  {
    if c == [] {
      ConstructorsCoefficients(FloatZero, w, w);
    } else {
      var init := c[..|c| - 1];
      FoldClosedValues(init, stof, w);
      if |c| == 1 && c[0].group == [] {
        assert ParseUnary(c[0].group, stof).Failure?;
      } else {
        AccumulateValues(FoldClosed(init, stof).value, c[|c| - 1], stof, w);
      }
    }
  }

  /** The parsed expression is the signed sum of its groups: each
      coefficient and the constant are the totals of the groups' shares,
      and no zero coefficient is stored. */
  lemma ExpressionOfValues(tokens: seq<Token>, stof: string -> Option<real>, w: Variable)
    requires ExpressionOf(tokens, stof).Success?
    ensures var e := ExpressionOf(tokens, stof).value;
      Value(GetCoeffOf(e, w)) == CoeffTotal(Split(tokens), stof, w) &&
      Value(e.constant) == ConstantTotal(Split(tokens), stof) &&
      NoZeroCoeffs(e)
  {
    var sgs := Split(tokens);
    var c := sgs[..|sgs| - 1];
    FoldClosedValues(c, stof, w);
    if sgs[|sgs| - 1].group == [] {
      assert ParseUnary(sgs[|sgs| - 1].group, stof).Failure?;
    } else {
      AccumulateValues(FoldClosed(c, stof).value, sgs[|sgs| - 1], stof, w);
    }
  }

  /** The part of Split(tokens[..i]) whose groups have been closed. */
  function ClosedGroups(tokens: seq<Token>, i: nat): seq<Signed>
    requires i <= |tokens|
  {
    var sgs := Split(tokens[..i]);
    sgs[..|sgs| - 1]
  }

  /** Reading more tokens only appends to the closed groups. */
  lemma {:induction false} ClosedGroupsGrow(tokens: seq<Token>, i: nat, j: nat)
    requires i <= j <= |tokens|
    ensures |ClosedGroups(tokens, i)| <= |ClosedGroups(tokens, j)|
    ensures ClosedGroups(tokens, j)[..|ClosedGroups(tokens, i)|] == ClosedGroups(tokens, i)
    decreases j - i
  {
    if i < j {
      ClosedGroupsGrow(tokens, i, j - 1);
      assert tokens[..j][..j - 1] == tokens[..j - 1];
      var prev := Split(tokens[..j - 1]);
      var n := |prev|;
      var a := ClosedGroups(tokens, i);
      var b := ClosedGroups(tokens, j - 1);
      var c := ClosedGroups(tokens, j);
      if IsSign(tokens[j - 1]) {
        assert c == prev;
        assert c[..|b|] == b;
      } else {
        assert c == prev[..n - 1];
      }
      assert c[..|a|] == c[..|b|][..|a|];
    }
  }

  /** A failure in the closed groups is the failure of the whole fold. */
  lemma {:induction false} FoldFailurePersists(s: seq<Signed>, t: seq<Signed>, stof: string -> Option<real>)
    requires FoldClosed(s, stof).Failure?
    ensures FoldClosed(s + t, stof) == FoldClosed(s, stof)
    decreases |t|
  {
    if t == [] {
      assert s + t == s;
    } else {
      var u := t[..|t| - 1];
      FoldFailurePersists(s, u, stof);
      assert (s + t)[..|s + t| - 1] == s + u;
    }
  }

  /** A failure while closing the groups of tokens[..i] is the result of
      the whole expression. */
  lemma FailureIsFinal(tokens: seq<Token>, i: nat, stof: string -> Option<real>)
    requires i <= |tokens| && FoldClosed(ClosedGroups(tokens, i), stof).Failure?
    ensures ExpressionOf(tokens, stof) == FoldClosed(ClosedGroups(tokens, i), stof)
  {
    ClosedGroupsGrow(tokens, i, |tokens|);
    var a := ClosedGroups(tokens, i);
    var c := ClosedGroups(tokens, |tokens|);
    assert tokens[..|tokens|] == tokens;
    assert c == a + c[|a|..];
    FoldFailurePersists(a, c[|a|..], stof);
  }

  /** How one more token changes the split and its closed groups. */
  lemma SplitStep(tokens: seq<Token>, i: nat)
    requires i < |tokens|
    ensures var prev := Split(tokens[..i]);
      var n := |prev|;
      var t := tokens[i];
      Split(tokens[..i + 1]) ==
        (if IsSign(t) then prev + [Signed(t.ttype == AddTok, [])]
         else prev[..n - 1] + [Signed(prev[n - 1].positive, prev[n - 1].group + [t])]) &&
      ClosedGroups(tokens, i + 1) == (if IsSign(t) then prev else prev[..n - 1])
  {
    assert tokens[..i + 1][..i] == tokens[..i];
  }

  /** `auto exp = parse_unary(group); if (sign) ret += exp; else ret -= exp;` */
  method AccumulateGroup(ret: Expression, group: seq<Token>, sign: bool, stof: string -> Option<real>)
    returns (r: Result<Expression>)
    ensures r == Accumulate(ret, Signed(sign, group), stof)
  {
    var exp := ParseUnary(group, stof);
    if exp.Failure? {
      return Failure(exp.error);
    }
    var acc := ret;
    if sign {
      acc := AddAssign(acc, exp.value);
    } else {
      acc := SubAssign(acc, exp.value);
    }
    return Success(acc);
  }

  /** ParseExpression's state after tokens[..i]: the open group and its
      sign are the last of the split, and ret sums the closed groups. */
  predicate Reading(tokens: seq<Token>, i: nat, group: seq<Token>, sign: bool, ret: Expression,
                    stof: string -> Option<real>)
  {
    i <= |tokens| &&
    var sgs := Split(tokens[..i]);
    group == sgs[|sgs| - 1].group && sign == sgs[|sgs| - 1].positive &&
    (|sgs| == 1 ==> group == tokens[..i]) &&
    FoldClosed(sgs[..|sgs| - 1], stof) == Success(ret)
  }

  /** A sign closes the open group (unless it is the very first token). */
  lemma ReadingSign(tokens: seq<Token>, i: nat, group: seq<Token>, sign: bool, ret: Expression,
                    stof: string -> Option<real>)
    requires Reading(tokens, i, group, sign, ret, stof) && i < |tokens| && IsSign(tokens[i])
    ensures i == 0 ==> Reading(tokens, i + 1, [], tokens[i].ttype == AddTok, ret, stof)
    ensures i != 0 ==> FoldClosed(ClosedGroups(tokens, i + 1), stof) == Accumulate(ret, Signed(sign, group), stof)
    ensures i != 0 && Accumulate(ret, Signed(sign, group), stof).Success? ==>
      Reading(tokens, i + 1, [], tokens[i].ttype == AddTok, Accumulate(ret, Signed(sign, group), stof).value, stof)
  {
    SplitStep(tokens, i);
    var sgs := Split(tokens[..i]);
    assert (sgs + [Signed(tokens[i].ttype == AddTok, [])])[..|sgs|] == sgs;
    if i == 0 {
      assert tokens[..0] == [];
    }
  }

  /** Any other token joins the open group. */
  lemma ReadingOther(tokens: seq<Token>, i: nat, group: seq<Token>, sign: bool, ret: Expression,
                     stof: string -> Option<real>)
    requires Reading(tokens, i, group, sign, ret, stof) && i < |tokens| && !IsSign(tokens[i])
    ensures Reading(tokens, i + 1, group + [tokens[i]], sign, ret, stof)
  {
    SplitStep(tokens, i);
    var sgs := Split(tokens[..i]);
    var n := |sgs|;
    var next := sgs[..n - 1] + [Signed(sgs[n - 1].positive, sgs[n - 1].group + [tokens[i]])];
    assert next[..n - 1] == sgs[..n - 1];
    if n == 1 {
      assert tokens[..i + 1] == tokens[..i] + [tokens[i]];
    }
  }

  /** One turn of the loop of ParseExpression, on tokens[i]: a sign
      closes the open group, which may fail to parse and end the loop. */
  method ReadToken(tokens: seq<Token>, i: nat, group: seq<Token>, sign: bool, ret: Expression,
                   stof: string -> Option<real>)
    returns (failed: Option<Result<Expression>>, groupAfter: seq<Token>, signAfter: bool, retAfter: Expression)
    requires i < |tokens| && Reading(tokens, i, group, sign, ret, stof)
    ensures failed.Some? ==> failed.value.Failure? && failed.value == ExpressionOf(tokens, stof)
    ensures failed.None? ==> Reading(tokens, i + 1, groupAfter, signAfter, retAfter, stof)
  {
    var tk := tokens[i];
    failed, groupAfter, signAfter, retAfter := None, group, sign, ret;
    if tk.ttype == AddTok || tk.ttype == SubTok {
      ReadingSign(tokens, i, group, sign, ret, stof);
      if i != 0 {
        var next := AccumulateGroup(ret, group, sign, stof);
        if next.Failure? {
          FailureIsFinal(tokens, i + 1, stof);
          return Some(next), groupAfter, signAfter, retAfter;
        }
        retAfter := next.value;
      }
      signAfter := tk.ttype == AddTok;
      groupAfter := [];
    } else {
      ReadingOther(tokens, i, group, sign, ret, stof);
      groupAfter := group + [tk];
    }
  }

  /** Parser::ParseExpression (parser.cc:158-209): the accumulator starts at
      the FLOAT zero, a sign closes the group before it (except at the very
      first token) and sets the sign of the next, and the final group is
      added when it is not empty. */
  method ParseExpression(tokens: seq<Token>, stof: string -> Option<real>) returns (r: Result<Expression>)
    ensures r == ExpressionOf(tokens, stof)
  {
    var group: seq<Token> := [];
    var ret := FromNum(FloatZero);
    var sign := true;
    var i := 0;
    while i < |tokens|
      invariant Reading(tokens, i, group, sign, ret, stof)
    {
      var failed;
      failed, group, sign, ret := ReadToken(tokens, i, group, sign, ret, stof);
      if failed.Some? {
        return failed.value;
      }
      i := i + 1;
    }
    assert tokens[..i] == tokens;
    if |group| > 0 {
      r := AccumulateGroup(ret, group, sign, stof);
    } else {
      r := Success(ret);
    }
  }
}
