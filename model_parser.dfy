/** Parser::Parse and the parsers of its lines (parser.cc:130-157,
    211-273): the objective line, the constraint lines, the optional
    integer declaration on the last line, and the move of the declared
    variables' coefficients from FLOAT to INTEGER variables. */
module ModelParsing {
  import opened Wrappers
  import opened Numbers
  import opened Variables
  import opened Expressions
  import opened Tokens
  import opened Models
  import opened Lexing
  import opened Parsing

  // ---------------------------------------------------------------------
  // Constraint and objective lines

  predicate IsRelation(t: TokenType) {
    t == EqTok || t == GeTok || t == LeTok
  }

  function RelationOf(t: TokenType): EquationType {
    if t == EqTok then EQ else if t == GeTok then GE else LE
  }

  /** What Parser::ParseConstraint builds: the tokens before the relation
      are the expression, the last token is the number compared with; the
      constraint is FLOAT. */
  function ConstraintOf(tokens: seq<Token>, stof: string -> Option<real>): Result<Constraint> {
    var n := |tokens|;
    if n < 3 || !IsRelation(tokens[n - 2].ttype) || tokens[n - 1].ttype != NumTok then
      Failure("malformed constraint")
    else
      Assembled(ExpressionOf(tokens[..n - 2], stof), stof(tokens[n - 1].lexim), RelationOf(tokens[n - 2].ttype))
  }

  /** The constraint built from a parsed expression, a parsed right-hand
      side and a relation; the first failure stops it. */
  function Assembled(e: Result<Expression>, rhs: Option<real>, rel: EquationType): (r: Result<Constraint>)
    ensures r.Success? <==> e.Success? && rhs.Some?
    ensures r.Success? ==> r.value == Constraint(e.value, FloatNum(rhs.value), rel, FloatType)
  {
    match e
    case Failure(msg) => Failure(msg)
    case Success(ex) =>
      match rhs
      case None => Failure("stof: not a number")
      case Some(x) => Success(Constraint(ex, FloatNum(x), rel, FloatType))
  }

  /** Parser::ParseConstraint (parser.cc:141-157); the assertions on the
      shape of the line are its failure. */
  method ParseConstraint(tokens: seq<Token>, stof: string -> Option<real>) returns (r: Result<Constraint>)
    ensures r == ConstraintOf(tokens, stof)
  {
    var n := |tokens|;
    if n < 3 || !IsRelation(tokens[n - 2].ttype) || tokens[n - 1].ttype != NumTok {
      return Failure("malformed constraint");
    }
    var ret := NewConstraint(FloatType);
    ret := ret.(equationType := RelationOf(tokens[n - 2].ttype));
    var exp := ParseExpression(tokens[..n - 2], stof);
    if exp.Failure? {
      return Failure(exp.error);
    }
    ret := ret.(expression := exp.value);
    var x := stof(tokens[n - 1].lexim);
    if x.None? {
      return Failure("stof: not a number");
    }
    ret := ret.(compare := FloatNum(x.value));
    return Success(ret);
  }

  /** A constraint line parses exactly when it ends in a relation and a
      number and the tokens before them form an expression; the relation
      gives the equation type, the number the compare value, and the
      expression is the signed sum of its groups. */
  lemma ConstraintOfSucceeds(tokens: seq<Token>, stof: string -> Option<real>)
    ensures var n := |tokens|;
      ConstraintOf(tokens, stof).Success? <==>
        n >= 3 && IsRelation(tokens[n - 2].ttype) && tokens[n - 1].ttype == NumTok &&
        AllAccepted(Split(tokens[..n - 2]), |Split(tokens[..n - 2])| - 1, stof) &&
        stof(tokens[n - 1].lexim).Some?
  {
    var n := |tokens|;
    if n >= 3 && IsRelation(tokens[n - 2].ttype) && tokens[n - 1].ttype == NumTok {
      var front := tokens[..n - 2];
      assert ExpressionOf(front, stof).Success? <==> AllAccepted(Split(front), |Split(front)| - 1, stof) by {
        ExpressionOfSucceeds(front, stof);
      }
    }
  }

  /** The constraint a line parses to: its relation, its number, and the
      signed sum of its groups. */
  lemma ConstraintOfMeaning(tokens: seq<Token>, stof: string -> Option<real>, w: Variable)
    requires ConstraintOf(tokens, stof).Success?
    ensures var n := |tokens|;
      var c := ConstraintOf(tokens, stof).value;
      n >= 3 &&
      (c.equationType == EQ <==> tokens[n - 2].ttype == EqTok) &&
      (c.equationType == GE <==> tokens[n - 2].ttype == GeTok) &&
      (c.equationType == LE <==> tokens[n - 2].ttype == LeTok) &&
      c.dataType == FloatType && TypeOf(c.compare) == FloatType &&
      stof(tokens[n - 1].lexim).Some? && Value(c.compare) == stof(tokens[n - 1].lexim).value &&
      Value(GetCoeffOf(c.expression, w)) == CoeffTotal(Split(tokens[..n - 2]), stof, w) &&
      Value(c.expression.constant) == ConstantTotal(Split(tokens[..n - 2]), stof) &&
      NoZeroCoeffs(c.expression)
  {
    var n := |tokens|;
    var front := tokens[..n - 2];
    var e := ExpressionOf(front, stof).value;
    ExpressionOfValues(front, stof, w);
    var x := stof(tokens[n - 1].lexim).value;
    assert ConstraintOf(tokens, stof).value == Constraint(e, FloatNum(x), RelationOf(tokens[n - 2].ttype), FloatType);
  }

  /** What Parser::ParseOptimizationObject builds: MAX or MIN from the
      first token, the expression from the rest. */
  function ObjectiveOf(tokens: seq<Token>, stof: string -> Option<real>): Result<OptimizationObject> {
    if |tokens| == 0 || (tokens[0].ttype != Max && tokens[0].ttype != Min) then
      Failure("malformed objective")
    else
      match ExpressionOf(tokens[1..], stof)
      case Failure(msg) => Failure(msg)
      case Success(e) => Success(OptimizationObject(e, if tokens[0].ttype == Max then Maximize else Minimize))
  }

  /** Parser::ParseOptimizationObject (parser.cc:130-140). */
  method ParseOptimizationObject(tokens: seq<Token>, stof: string -> Option<real>)
    returns (r: Result<OptimizationObject>)
    ensures r == ObjectiveOf(tokens, stof)
  {
    if |tokens| == 0 || (tokens[0].ttype != Max && tokens[0].ttype != Min) {
      return Failure("malformed objective");
    }
    var obj := NewObjective(FloatType);
    obj := obj.(optType := if tokens[0].ttype == Max then Maximize else Minimize);
    var exp := ParseExpression(tokens[1..], stof);
    if exp.Failure? {
      return Failure(exp.error);
    }
    obj := obj.(expression := exp.value);
    return Success(obj);
  }

  /** An objective line parses exactly when it starts with MAX or MIN and
      the rest is an expression, which is then the signed sum of its
      groups. */
  lemma ObjectiveOfMeaning(tokens: seq<Token>, stof: string -> Option<real>, w: Variable)
    ensures ObjectiveOf(tokens, stof).Success? <==>
      |tokens| > 0 && (tokens[0].ttype == Max || tokens[0].ttype == Min) &&
      AllAccepted(Split(tokens[1..]), |Split(tokens[1..])| - 1, stof)
    ensures ObjectiveOf(tokens, stof).Success? ==>
      var o := ObjectiveOf(tokens, stof).value;
      (o.optType == Maximize <==> tokens[0].ttype == Max) &&
      Value(GetCoeffOf(o.expression, w)) == CoeffTotal(Split(tokens[1..]), stof, w) &&
      Value(o.expression.constant) == ConstantTotal(Split(tokens[1..]), stof) &&
      NoZeroCoeffs(o.expression)
  {
    if |tokens| > 0 {
      ExpressionOfSucceeds(tokens[1..], stof);
      if ExpressionOf(tokens[1..], stof).Success? {
        ExpressionOfValues(tokens[1..], stof, w);
      }
    }
  }

  // ---------------------------------------------------------------------
  // Lines

  /** The tokens cut at every EOL; the piece after the last EOL may be
      empty. */
  function Pieces(tokens: seq<Token>): (r: seq<seq<Token>>)
    ensures |r| > 0
  {
    if tokens == [] then [[]]
    else
      var p := Pieces(tokens[..|tokens| - 1]);
      var t := tokens[|tokens| - 1];
      if t.ttype == Eol then p + [[]]
      else p[..|p| - 1] + [p[|p| - 1] + [t]]
  }

  /** The lines Parse works on: the pieces, without an empty last one. */
  function LinesOf(tokens: seq<Token>): seq<seq<Token>> {
    var p := Pieces(tokens);
    if p[|p| - 1] == [] then p[..|p| - 1] else p
  }

  function EolCount(tokens: seq<Token>): nat {
    if tokens == [] then 0
    else EolCount(tokens[..|tokens| - 1]) + (if tokens[|tokens| - 1].ttype == Eol then 1 else 0)
  }

  function NonEol(tokens: seq<Token>): seq<Token> {
    if tokens == [] then []
    else if tokens[|tokens| - 1].ttype == Eol then NonEol(tokens[..|tokens| - 1])
    else NonEol(tokens[..|tokens| - 1]) + [tokens[|tokens| - 1]]
  }

  function Flatten(lines: seq<seq<Token>>): seq<Token> {
    if lines == [] then [] else Flatten(lines[..|lines| - 1]) + lines[|lines| - 1]
  }

  predicate NoEol(line: seq<Token>) {
    forall k :: 0 <= k < |line| ==> line[k].ttype != Eol
  }

  /** There is one piece more than there are EOLs, no piece holds an EOL,
      and the pieces laid end to end are the other tokens in order. */
  lemma {:induction false} PiecesFlatten(tokens: seq<Token>)
    ensures |Pieces(tokens)| == EolCount(tokens) + 1
    ensures forall i :: 0 <= i < |Pieces(tokens)| ==> NoEol(Pieces(tokens)[i])
    ensures Flatten(Pieces(tokens)) == NonEol(tokens)
    ensures Pieces(tokens)[|Pieces(tokens)| - 1] == [] <==> tokens == [] || tokens[|tokens| - 1].ttype == Eol
  {
    if tokens != [] {
      var init := tokens[..|tokens| - 1];
      var t := tokens[|tokens| - 1];
      PiecesFlatten(init);
      var p := Pieces(init);
      var n := |p|;
      if t.ttype == Eol {
        assert (p + [[]])[..n] == p;
      } else {
        var q := p[..n - 1] + [p[n - 1] + [t]];
        assert q[..n - 1] == p[..n - 1];
        assert p == p[..n - 1] + [p[n - 1]];
        assert Flatten(p) == Flatten(p[..n - 1]) + p[n - 1];
        forall i | 0 <= i < |q| ensures NoEol(q[i]) {
          if i < n - 1 {
            assert q[i] == p[i];
          }
        }
      }
    }
  }

  /** The lines Parse sees: no line holds an EOL, the lines laid end to end
      are the tokens other than EOL, and there is one line per EOL plus one
      for text after the last EOL. */
  lemma LinesOfFlatten(tokens: seq<Token>)
    ensures forall i :: 0 <= i < |LinesOf(tokens)| ==> NoEol(LinesOf(tokens)[i])
    ensures Flatten(LinesOf(tokens)) == NonEol(tokens)
    ensures |LinesOf(tokens)| ==
      EolCount(tokens) + (if tokens != [] && tokens[|tokens| - 1].ttype != Eol then 1 else 0)
  {
    PiecesFlatten(tokens);
    var p := Pieces(tokens);
    if p[|p| - 1] == [] {
      assert p == p[..|p| - 1] + [p[|p| - 1]];
      assert Flatten(p) == Flatten(p[..|p| - 1]) + [];
    }
  }

  /** The line-splitting loop of Parser::Parse (parser.cc:212-222). */
  method SplitLines(tokens: seq<Token>) returns (lines: seq<seq<Token>>)
    ensures lines == LinesOf(tokens)
  {
    lines := [];
    var line: seq<Token> := [];
    var i := 0;
    while i < |tokens|
      invariant 0 <= i <= |tokens| && lines + [line] == Pieces(tokens[..i])
    {
      assert tokens[..i + 1][..i] == tokens[..i];
      assert (lines + [line])[..|lines|] == lines;
      if tokens[i].ttype == Eol {
        lines := lines + [line];
        line := [];
      } else {
        line := line + [tokens[i]];
      }
      i := i + 1;
    }
    assert tokens[..i] == tokens;
    assert (lines + [line])[..|lines|] == lines;
    if |line| > 0 {
      lines := lines + [line];
    }
  }

  // ---------------------------------------------------------------------
  // The integer declaration

  /** A line holding a COMMA declares integer variables. */
  predicate HasComma(line: seq<Token>) {
    exists k :: 0 <= k < |line| && line[k].ttype == Comma
  }

  /** The scan for a COMMA in the last line (parser.cc:232-237). */
  method FindComma(line: seq<Token>) returns (found: bool)
    ensures found <==> HasComma(line)
  {
    found := false;
    var k := 0;
    while k < |line|
      invariant 0 <= k <= |line|
      invariant forall j :: 0 <= j < k ==> line[j].ttype != Comma
    {
      if line[k].ttype == Comma {
        found := true;
        break;
      }
      k := k + 1;
    }
  }

  /** The INTEGER variables named by the VAR tokens of a line. */
  function IntegersOf(line: seq<Token>): set<Variable> {
    set k | 0 <= k < |line| && line[k].ttype == Var :: Variable(line[k].lexim, IntegerType)
  }

  /** The collection of the declared variables (parser.cc:238-245). */
  method CollectIntegers(line: seq<Token>) returns (integers: set<Variable>)
    ensures integers == IntegersOf(line)
  {
    integers := {};
    var k := 0;
    while k < |line|
      invariant 0 <= k <= |line|
      invariant integers == IntegersOf(line[..k])
    {
      assert line[..k + 1][..k] == line[..k];
      assert line[..k + 1][k] == line[k];
      if line[k].ttype == Var {
        integers := integers + {Variable(line[k].lexim, IntegerType)};
      }
      k := k + 1;
    }
    assert line[..k] == line;
  }

  predicate AllInteger(s: set<Variable>) {
    forall v :: v in s ==> v.dtype == IntegerType
  }

  lemma IntegersOfAreInteger(line: seq<Token>)
    ensures AllInteger(IntegersOf(line))
    ensures forall v :: v in IntegersOf(line) <==>
      v.dtype == IntegerType && exists k :: 0 <= k < |line| && line[k].ttype == Var && line[k].lexim == v.name
  {
    forall v: Variable | v.dtype == IntegerType && exists k :: 0 <= k < |line| && line[k].ttype == Var && line[k].lexim == v.name
      ensures v in IntegersOf(line)
    {
      var k :| 0 <= k < |line| && line[k].ttype == Var && line[k].lexim == v.name;
      assert v == Variable(line[k].lexim, IntegerType);
    }
  }

  // ---------------------------------------------------------------------
  // Moving coefficients to the INTEGER variables

  function FloatTwin(v: Variable): Variable {
    Variable(v.name, FloatType)
  }

  function IntegerTwin(v: Variable): Variable {
    Variable(v.name, IntegerType)
  }

  /** `expression.GetCoeffOf(float_var) != kFloatZero`: the FLOAT variable
      of v's name has a coefficient to move. */
  predicate Moves(e: Expression, v: Variable) {
    !NumEquals(GetCoeffOf(e, FloatTwin(v)), FloatZero)
  }

  /** The move of one declared variable v (parser.cc:246-253): v gets the
      coefficient of the FLOAT variable of its name, which is erased. */
  function MoveOne(e: Expression, v: Variable): Expression {
    if Moves(e, v) then SetCoeffOf(SetCoeffOf(e, v, GetCoeffOf(e, FloatTwin(v))), FloatTwin(v), FloatZero)
    else e
  }

  /** Whether w has an entry once the moves of s are done. */
  predicate KeptAfter(e: Expression, s: set<Variable>, w: Variable) {
    if w in s && Moves(e, w) then !IsZero(GetCoeffOf(e, FloatTwin(w)))
    else if w.dtype == FloatType && IntegerTwin(w) in s && Moves(e, IntegerTwin(w)) then false
    else w in e.coeffs
  }

  /** w's coefficient once the moves of s are done. */
  function CoeffAfter(e: Expression, s: set<Variable>, w: Variable): Num {
    if w in s && Moves(e, w) then GetCoeffOf(e, FloatTwin(w)) else GetCoeffOf(e, w)
  }

  /** All moves of the declared INTEGER variables s done: each declared
      variable whose FLOAT namesake has a coefficient takes it over and the
      namesake is erased; everything else stays. */
  function MovedBy(e: Expression, s: set<Variable>): Expression {
    Expression(map w | w in e.coeffs.Keys + s && KeptAfter(e, s, w) :: CoeffAfter(e, s, w), e.constant)
  }

  lemma MovedByNothing(e: Expression)
    ensures MovedBy(e, {}) == e
  {
    assert MovedBy(e, {}).coeffs == e.coeffs;
  }

  /** Moving one more declared variable extends the moves done so far:
      the moves touch distinct names, so their order does not matter. */
  lemma MoveStep(e: Expression, done: set<Variable>, v: Variable)
    requires AllInteger(done) && v.dtype == IntegerType && v !in done
    ensures MovedBy(e, done + {v}) == MoveOne(MovedBy(e, done), v)
  {
    var d := MovedBy(e, done);
    var s := done + {v};
    var f := FloatTwin(v);
    assert f !in done && IntegerTwin(f) == v;
    assert GetCoeffOf(d, f) == GetCoeffOf(e, f);
    assert Moves(d, v) == Moves(e, v);
    var lhs := MovedBy(e, s);
    var rhs := MoveOne(d, v);
    forall w ensures (w in lhs.coeffs <==> w in rhs.coeffs) && (w in lhs.coeffs ==> lhs.coeffs[w] == rhs.coeffs[w]) {
      MoveStepEntry(e, done, v, w);
    }
    assert lhs.coeffs == rhs.coeffs;
  }

  lemma MoveStepEntry(e: Expression, done: set<Variable>, v: Variable, w: Variable)
    requires AllInteger(done) && v.dtype == IntegerType && v !in done
    requires GetCoeffOf(MovedBy(e, done), FloatTwin(v)) == GetCoeffOf(e, FloatTwin(v))
    ensures var lhs := MovedBy(e, done + {v}).coeffs;
      var rhs := MoveOne(MovedBy(e, done), v).coeffs;
      (w in lhs <==> w in rhs) && (w in lhs ==> lhs[w] == rhs[w])
  {
    var d := MovedBy(e, done);
    var f := FloatTwin(v);
    if Moves(e, v) {
      var c := GetCoeffOf(e, f);
      var d1 := SetCoeffOf(d, v, c);
      SetCoeffOfOthers(d, v, c, w);
      SetCoeffOfOthers(d1, f, FloatZero, w);
      if w != v && w != f {
        assert IntegerTwin(w) == v ==> w == f;
      }
    }
  }

  /** The body of the loop over the declared variables. */
  method MoveVariable(e: Expression, v: Variable) returns (r: Expression)
    ensures r == MoveOne(e, v)
  {
    r := e;
    var floatVar := FloatTwin(v);
    if !NumEquals(GetCoeffOf(r, floatVar), FloatZero) {
      r := SetCoeffOf(r, v, GetCoeffOf(r, floatVar));
      r := SetCoeffOf(r, floatVar, FloatZero);
    }
  }

  /** The loop over the declared variables (parser.cc:246-265 for the
      objective, 257-263 for each constraint); the declared variables are
      taken in any order, which MoveStep shows does not matter. */
  method MoveIntegers(e: Expression, integers: set<Variable>) returns (r: Expression)
    requires AllInteger(integers)
    ensures r == MovedBy(e, integers)
  {
    r := e;
    var todo := integers;
    var done: set<Variable> := {};
    MovedByNothing(e);
    while todo != {}
      invariant done + todo == integers && done !! todo && r == MovedBy(e, done)
      decreases todo
    {
      var v :| v in todo;
      MoveStep(e, done, v);
      r := MoveVariable(r, v);
      done := done + {v};
      todo := todo - {v};
    }
  }

  /** After the moves no FLOAT namesake of a declared variable keeps a
      coefficient, a declared variable holds what its FLOAT namesake held,
      and variables of other names are untouched. */
  lemma MovedByMeaning(e: Expression, s: set<Variable>, w: Variable)
    requires AllInteger(s)
    ensures w in s ==> GetCoeffOf(MovedBy(e, s), FloatTwin(w)) == FloatZero
    ensures w in s && Moves(e, w) ==>
      Value(GetCoeffOf(MovedBy(e, s), w)) == Value(GetCoeffOf(e, FloatTwin(w)))
    ensures IntegerTwin(w) !in s ==> GetCoeffOf(MovedBy(e, s), w) == GetCoeffOf(e, w)
    ensures MovedBy(e, s).constant == e.constant
    ensures NoZeroCoeffs(e) ==> NoZeroCoeffs(MovedBy(e, s))
  {
    var m := MovedBy(e, s);
    if w in s {
      var f := FloatTwin(w);
      assert f !in s && IntegerTwin(f) == w;
      if !Moves(e, w) {
        NumEqualsIsIdentity(GetCoeffOf(e, f), FloatZero);
      }
      if Moves(e, w) {
        IsZeroValue(GetCoeffOf(e, f));
      }
    }
    if IntegerTwin(w) !in s {
      assert w !in s;
    }
  }

  // ---------------------------------------------------------------------
  // Whole models

  /** A constraint with the declared variables moved. */
  function Moved(c: Constraint, integers: set<Variable>): Constraint {
    c.(expression := MovedBy(c.expression, integers))
  }

  /** The parser of one constraint line. */
  function LineParser(stof: string -> Option<real>): seq<Token> -> Result<Constraint> {
    (line: seq<Token>) => ConstraintOf(line, stof)
  }

  /** The constraint lines parsed in order, the first failure stopping the
      parse, each expression with the declared variables moved. */
  function ConstraintsOf(lines: seq<seq<Token>>, integers: set<Variable>, parseLine: seq<Token> -> Result<Constraint>)
    : Result<seq<Constraint>>
  {
    if lines == [] then Success([])
    else
      match ConstraintsOf(lines[..|lines| - 1], integers, parseLine)
      case Failure(msg) => Failure(msg)
      case Success(cs) =>
        match parseLine(lines[|lines| - 1])
        case Failure(msg) => Failure(msg)
        case Success(c) => Success(cs + [Moved(c, integers)])
  }

  /** The constraints parse exactly when every line does. */
  lemma {:induction false} ConstraintsOfSucceeds(lines: seq<seq<Token>>, integers: set<Variable>,
                                                   parseLine: seq<Token> -> Result<Constraint>)
    ensures ConstraintsOf(lines, integers, parseLine).Success? <==>
      forall i :: 0 <= i < |lines| ==> parseLine(lines[i]).Success?
  {
    if lines != [] {
      var init := lines[..|lines| - 1];
      ConstraintsOfSucceeds(init, integers, parseLine);
      assert forall i :: 0 <= i < |init| ==> init[i] == lines[i];
    }
  }

  /** The i-th constraint is the i-th line's, with the declared variables
      moved. */
  lemma {:induction false} ConstraintsOfValues(lines: seq<seq<Token>>, integers: set<Variable>,
                                                 parseLine: seq<Token> -> Result<Constraint>)
    requires ConstraintsOf(lines, integers, parseLine).Success?
    ensures var cs := ConstraintsOf(lines, integers, parseLine).value;
      |cs| == |lines| &&
      forall i :: 0 <= i < |lines| ==>
        (parseLine(lines[i]).Success? && cs[i] == Moved(parseLine(lines[i]).value, integers))
  {
    if lines != [] {
      var init := lines[..|lines| - 1];
      ConstraintsOfValues(init, integers, parseLine);
      var cs := ConstraintsOf(lines, integers, parseLine).value;
      var ds := ConstraintsOf(init, integers, parseLine).value;
      assert cs == ds + [Moved(parseLine(lines[|lines| - 1]).value, integers)];
      forall i | 0 <= i < |lines|
        ensures parseLine(lines[i]).Success? && cs[i] == Moved(parseLine(lines[i]).value, integers)
      {
        if i < |init| {
          assert init[i] == lines[i];
          assert cs[i] == ds[i];
        }
      }
    }
  }

  /** The parse of the constraint lines (parser.cc:254-265). */
  method ParseConstraints(lines: seq<seq<Token>>, integers: set<Variable>, stof: string -> Option<real>)
    returns (r: Result<seq<Constraint>>)
    requires AllInteger(integers)
    ensures r == ConstraintsOf(lines, integers, LineParser(stof))
  {
    var constraints: seq<Constraint> := [];
    var i := 0;
    while i < |lines|
      invariant 0 <= i <= |lines|
      invariant ConstraintsOf(lines[..i], integers, LineParser(stof)) == Success(constraints)
    {
      assert lines[..i + 1][..i] == lines[..i];
      var con := ParseConstraint(lines[i], stof);
      assert LineParser(stof)(lines[i]) == con;
      if con.Failure? {
        ConstraintsFailureIsFinal(lines, i, integers, LineParser(stof));
        return Failure(con.error);
      }
      var e := MoveIntegers(con.value.expression, integers);
      constraints := constraints + [con.value.(expression := e)];
      i := i + 1;
    }
    assert lines[..i] == lines;
    return Success(constraints);
  }

  /** The declared integers: the VAR tokens of the last line when it holds
      a COMMA. */
  function DeclaredIntegers(lines: seq<seq<Token>>): set<Variable>
    requires |lines| > 0
  {
    if HasComma(lines[|lines| - 1]) then IntegersOf(lines[|lines| - 1]) else {}
  }

  /** The lines after `st` that are constraints: all but a declaration. */
  function ConstraintLines(lines: seq<seq<Token>>): seq<seq<Token>>
    requires |lines| >= 2
  {
    if |lines| > 2 && HasComma(lines[|lines| - 1]) then lines[2..|lines| - 1] else lines[2..]
  }

  /** The header of a model: an objective line of at least two tokens,
      then a line holding only `st`. */
  predicate WellHeaded(lines: seq<seq<Token>>) {
    |lines| >= 2 && |lines[0]| >= 2 && |lines[1]| == 1 && lines[1][0].ttype == St
  }

  /** What Parser::Parse(tokens) builds. */
  function ModelOf(tokens: seq<Token>, stof: string -> Option<real>): Result<Model> {
    var lines := LinesOf(tokens);
    if !WellHeaded(lines) then Failure("malformed model")
    else
      match ObjectiveOf(lines[0], stof)
      case Failure(msg) => Failure(msg)
      case Success(obj) =>
        var integers := DeclaredIntegers(lines);
        match ConstraintsOf(ConstraintLines(lines), integers, LineParser(stof))
        case Failure(msg) => Failure(msg)
        case Success(cs) => Success(Model(cs, obj.(expression := MovedBy(obj.expression, integers))))
  }

  /** Parser::Parse(std::vector<Token>) (parser.cc:211-267). */
  method Parse(tokens: seq<Token>, stof: string -> Option<real>) returns (r: Result<Model>)
    ensures r == ModelOf(tokens, stof)
  {
    var lines: seq<seq<Token>> := SplitLines(tokens);
    if |lines| < 2 || |lines[0]| < 2 || |lines[1]| != 1 || lines[1][0].ttype != St {
      return Failure("malformed model");
    }
    var optObj := ParseOptimizationObject(lines[0], stof);
    if optObj.Failure? {
      return Failure(optObj.error);
    }
    var sz, integers := ReadDeclaration(lines);
    var obj := optObj.value;
    var moved := MoveIntegers(obj.expression, integers);
    obj := obj.(expression := moved);
    var constraints := ParseConstraints(lines[2..sz], integers, stof);
    ModelOfParts(tokens, stof, lines, optObj, integers, constraints);
    if constraints.Failure? {
      return Failure(constraints.error);
    }
    return Success(Model(constraints.value, obj));
  }

  /** The declaration line, if the last line holds a COMMA, and where
      the constraint lines end (parser.cc:229-245). */
  method ReadDeclaration(lines: seq<seq<Token>>) returns (sz: nat, integers: set<Variable>)
    requires WellHeaded(lines)
    ensures 2 <= sz <= |lines| && lines[2..sz] == ConstraintLines(lines)
    ensures integers == DeclaredIntegers(lines) && AllInteger(integers)
  {
    sz := |lines|;
    integers := {};
    var isIntegerConstraint := FindComma(lines[|lines| - 1]);
    if isIntegerConstraint {
      sz := sz - 1;
      integers := CollectIntegers(lines[|lines| - 1]);
    }
    IntegersOfAreInteger(lines[|lines| - 1]);
    if |lines| == 2 {
      assert !HasComma(lines[1]) by {
        assert forall k :: 0 <= k < |lines[1]| ==> lines[1][k] == lines[1][0];
      }
    }
  }

  /** ModelOf from its parts, for a well-headed token stream. */
  lemma ModelOfParts(tokens: seq<Token>, stof: string -> Option<real>, lines: seq<seq<Token>>,
                     obj: Result<OptimizationObject>, integers: set<Variable>, cs: Result<seq<Constraint>>)
    requires lines == LinesOf(tokens) && WellHeaded(lines)
    requires obj == ObjectiveOf(lines[0], stof) && obj.Success?
    requires integers == DeclaredIntegers(lines)
    requires cs == ConstraintsOf(ConstraintLines(lines), integers, LineParser(stof))
    ensures ModelOf(tokens, stof) ==
      if cs.Failure? then Failure(cs.error)
      else Success(Model(cs.value, obj.value.(expression := MovedBy(obj.value.expression, integers))))
  {
  }

  /** A line that fails stops the whole parse with its own failure. */
  lemma {:induction false} ConstraintsFailureIsFinal(lines: seq<seq<Token>>, i: nat, integers: set<Variable>,
                                                      parseLine: seq<Token> -> Result<Constraint>)
    requires i < |lines| && ConstraintsOf(lines[..i + 1], integers, parseLine).Failure?
    ensures ConstraintsOf(lines, integers, parseLine) == ConstraintsOf(lines[..i + 1], integers, parseLine)
    decreases |lines|
  {
    if i + 1 < |lines| {
      var init := lines[..|lines| - 1];
      assert init[..i + 1] == lines[..i + 1];
      ConstraintsFailureIsFinal(init, i, integers, parseLine);
    } else {
      assert lines[..i + 1] == lines;
    }
  }

  /** A parsed model: line 1 is `st`, the objective comes from line 0, one
      constraint per line after `st` except a final integer declaration,
      and no FLOAT namesake of a declared variable keeps a coefficient. */
  lemma ModelOfMeaning(tokens: seq<Token>, stof: string -> Option<real>)
    requires ModelOf(tokens, stof).Success?
    ensures WellHeaded(LinesOf(tokens)) && ObjectiveOf(LinesOf(tokens)[0], stof).Success?
    ensures var lines := LinesOf(tokens);
      var m := ModelOf(tokens, stof).value;
      (m.objective.optType == Maximize <==> lines[0][0].ttype == Max) &&
      |m.constraints| == |lines| - 2 - (if HasComma(lines[|lines| - 1]) then 1 else 0)
  {
    ModelOfShape(tokens, stof);
    var lines := LinesOf(tokens);
    var cl := ConstraintLines(lines);
    ConstraintsOfValues(cl, DeclaredIntegers(lines), LineParser(stof));
  }

  /** Constraint i of a parsed model is line i + 2 parsed, with the
      declared integer variables moved out of its expression. */
  lemma ModelOfConstraint(tokens: seq<Token>, stof: string -> Option<real>, i: nat)
    requires ModelOf(tokens, stof).Success? && i < |ModelOf(tokens, stof).value.constraints|
    ensures var lines := LinesOf(tokens);
      i + 2 < |lines| && ConstraintOf(lines[i + 2], stof).Success? &&
      ModelOf(tokens, stof).value.constraints[i] ==
        Moved(ConstraintOf(lines[i + 2], stof).value, DeclaredIntegers(lines))
  {
    ModelOfShape(tokens, stof);
    var lines := LinesOf(tokens);
    var cl := ConstraintLines(lines);
    ConstraintsOfAt(cl, DeclaredIntegers(lines), LineParser(stof), i);
    ConstraintLineAt(lines, i);
  }

  lemma ConstraintsOfAt(lines: seq<seq<Token>>, integers: set<Variable>,
                        parseLine: seq<Token> -> Result<Constraint>, i: nat)
    requires ConstraintsOf(lines, integers, parseLine).Success? && i < |ConstraintsOf(lines, integers, parseLine).value|
    ensures i < |lines| && parseLine(lines[i]).Success? &&
      ConstraintsOf(lines, integers, parseLine).value[i] == Moved(parseLine(lines[i]).value, integers)
  {
    ConstraintsOfValues(lines, integers, parseLine);
  }

  lemma ConstraintLineAt(lines: seq<seq<Token>>, i: nat)
    requires |lines| >= 2 && i < |ConstraintLines(lines)|
    ensures i + 2 < |lines| && ConstraintLines(lines)[i] == lines[i + 2]
  {
  }

  /** No FLOAT namesake of a declared integer keeps a coefficient, in the
      objective or in any constraint. */
  lemma ModelOfMovesIntegers(tokens: seq<Token>, stof: string -> Option<real>)
    requires ModelOf(tokens, stof).Success?
    ensures var m := ModelOf(tokens, stof).value;
      forall v :: v in DeclaredIntegers(LinesOf(tokens)) ==>
        GetCoeffOf(m.objective.expression, FloatTwin(v)) == FloatZero &&
        forall i :: 0 <= i < |m.constraints| ==> GetCoeffOf(m.constraints[i].expression, FloatTwin(v)) == FloatZero
  {
    ModelOfShape(tokens, stof);
    var lines := LinesOf(tokens);
    var m := ModelOf(tokens, stof).value;
    var obj := ObjectiveOf(lines[0], stof).value;
    var integers := DeclaredIntegers(lines);
    var cl := ConstraintLines(lines);
    IntegersOfAreInteger(lines[|lines| - 1]);
    ConstraintsOfValues(cl, integers, LineParser(stof));
    forall v | v in integers
      ensures GetCoeffOf(m.objective.expression, FloatTwin(v)) == FloatZero &&
        forall i :: 0 <= i < |m.constraints| ==> GetCoeffOf(m.constraints[i].expression, FloatTwin(v)) == FloatZero
    {
      MovedByMeaning(obj.expression, integers, v);
      forall i | 0 <= i < |m.constraints|
        ensures GetCoeffOf(m.constraints[i].expression, FloatTwin(v)) == FloatZero
      {
        MovedByMeaning(ConstraintOf(cl[i], stof).value.expression, integers, v);
      }
    }
  }

  /** The parts a successful parse is made of. */
  lemma ModelOfShape(tokens: seq<Token>, stof: string -> Option<real>)
    requires ModelOf(tokens, stof).Success?
    ensures var lines := LinesOf(tokens);
      WellHeaded(lines) && ObjectiveOf(lines[0], stof).Success? &&
      var integers := DeclaredIntegers(lines);
      var obj := ObjectiveOf(lines[0], stof).value;
      ConstraintsOf(ConstraintLines(lines), integers, LineParser(stof)).Success? &&
      ModelOf(tokens, stof).value ==
        Model(ConstraintsOf(ConstraintLines(lines), integers, LineParser(stof)).value,
              obj.(expression := MovedBy(obj.expression, integers)))
  {
  }

  /** Parser::Parse(std::string) (parser.cc:269-273): scan, then parse the
      tokens. */
  method ParseString(input: string, stof: string -> Option<real>) returns (r: Result<Model>)
    ensures (exists j :: 0 <= j < |input| && Bad(input, j)) ==> r.Failure?
    ensures r.Success? ==> exists tokens :: WellLexed(input, tokens) && r == ModelOf(tokens, stof)
  {
    var tokens := Scan(input);
    if tokens.Failure? {
      return Failure(tokens.error);
    }
    r := Parse(tokens.value, stof);
  }
}
