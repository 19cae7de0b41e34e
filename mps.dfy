/** The MPS-to-text converter (tools/mps_load.py): it renames the problem's
    variables to x0, x1, ..., renders the objective, the constraints and
    the variable bounds in the text format the LP parser reads, and
    writes them line by line. Reading the MPS file (pulp) is not part of
    this model: the converter starts from the already-read problem.
    `float_to_str` (Python's `format(x, "f")`) is the parameter `fmt`. */
module MpsConversion {
  import opened Strings
  import opened Wrappers

  /** One `{"name": ..., "value": ...}` entry of an affine expression's dict. */
  datatype Coefficient = Coefficient(name: string, value: real)

  /** A constraint's dict: its coefficients, its sense (0 for `=`, 1 for
      `>=`, anything else `<=`) and its constant. */
  datatype ConstraintRecord = ConstraintRecord(coefficients: seq<Coefficient>, sense: int, constant: real)

  /** A variable of the problem with its category and optional bounds. */
  datatype VariableRecord = VariableRecord(name: string, category: string, lowBound: Option<real>, upBound: Option<real>)

  /** What the writer reads from pulp's problem: the variable names in the
      order `fromMPS` lists them, the sense, the objective, the constraints
      in their dictionary's order and the problem's variables. */
  datatype Problem = Problem(
    variables: seq<string>,
    minimize: bool,
    objective: seq<Coefficient>,
    objectiveConstant: real,
    constraints: seq<ConstraintRecord>,
    problemVariables: seq<VariableRecord>)

  const KeyError: string := "KeyError"
  const AssertionError: string := "AssertionError"
  const Continuous: string := "Continuous"

  // ---------------------------------------------------------------------
  // InitializeUnifiedVarNames (tools/mps_load.py:7-11)

  function CanonicalName(i: nat): string {
    "x" + NatToString(i)
  }

  /** The entries InitializeUnifiedVarNames writes, in order: the i-th name
      is mapped to x<i>, a later duplicate overwriting an earlier one. */
  function UnifiedNames(vars: seq<string>): map<string, string>
    decreases |vars|
  {
    if vars == [] then map[]
    else UnifiedNames(vars[..|vars| - 1])[vars[|vars| - 1] := CanonicalName(|vars| - 1)]
  }

  /** Every listed name is mapped, to x<i> for its last position i; no
      other name is. */
  lemma {:induction false} UnifiedNamesAt(vars: seq<string>, i: nat)
    requires i < |vars| && vars[i] !in vars[i + 1..]
    ensures vars[i] in UnifiedNames(vars) && UnifiedNames(vars)[vars[i]] == CanonicalName(i)
    decreases |vars|
  {
    var n := |vars| - 1;
    if i < n {
      assert vars[..n][i + 1..] == vars[i + 1..n];
      assert vars[n] in vars[i + 1..];
      UnifiedNamesAt(vars[..n], i);
    }
  }

  lemma {:induction false} UnifiedNamesKeys(vars: seq<string>)
    ensures forall x :: x in UnifiedNames(vars) <==> x in vars
    decreases |vars|
  {
    if vars != [] {
      var n := |vars| - 1;
      UnifiedNamesKeys(vars[..n]);
      assert vars == vars[..n] + [vars[n]];
    }
  }

  /** The renaming never merges two variables: distinct names get
      distinct canonical names, so with unique names there is exactly
      one entry per variable. */
  lemma UnifiedNamesInjective(vars: seq<string>, a: string, b: string)
    requires a in UnifiedNames(vars) && b in UnifiedNames(vars) && a != b
    ensures UnifiedNames(vars)[a] != UnifiedNames(vars)[b]
  {
    UnifiedNamesKeys(vars);
    var i := LastIndex(vars, a);
    var j := LastIndex(vars, b);
    UnifiedNamesAt(vars, i);
    UnifiedNamesAt(vars, j);
    PrefixedNamesDistinct("x", i, j);
  }

  lemma UnifiedNamesCount(vars: seq<string>)
    requires forall i, j :: 0 <= i < j < |vars| ==> vars[i] != vars[j]
    ensures |UnifiedNames(vars)| == |vars|
    decreases |vars|
  {
    if vars != [] {
      var n := |vars| - 1;
      UnifiedNamesKeys(vars[..n]);
      assert vars[n] !in vars[..n];
      UnifiedNamesCount(vars[..n]);
    }
  }

  /** The last position of a listed name. */
  lemma LastIndex(vars: seq<string>, x: string) returns (i: nat)
    requires x in vars
    ensures i < |vars| && vars[i] == x && x !in vars[i + 1..]
    decreases |vars|
  {
    var n := |vars| - 1;
    if vars[n] == x {
      i := n;
    } else {
      assert x in vars[..n];
      i := LastIndex(vars[..n], x);
      assert vars[i + 1..] == vars[..n][i + 1..] + [vars[n]];
    }
  }

  // ---------------------------------------------------------------------
  // parseExpression (tools/mps_load.py:18-34)

  /** The term at position ind, as the loop renders it: a negative
      coefficient brings its own minus sign, a non-negative one after the
      first term gets a `+`; an unknown name is a KeyError. */
  function TermText(names: map<string, string>, c: Coefficient, ind: nat, fmt: real -> string): Result<string> {
    if c.name !in names then Failure(KeyError)
    else if c.value < 0.0 then Success(fmt(c.value) + "*" + names[c.name])
    else Success((if ind > 0 then "+" else "") + fmt(c.value) + "*" + names[c.name])
  }

  /** The terms rendered in input order, stopping at the first failure. */
  function TermsText(names: map<string, string>, cs: seq<Coefficient>, fmt: real -> string): Result<string>
    decreases |cs|
  {
    if cs == [] then Success("")
    else
      match TermsText(names, cs[..|cs| - 1], fmt)
      case Failure(e) => Failure(e)
      case Success(t) =>
        match TermText(names, cs[|cs| - 1], |cs| - 1, fmt)
        case Failure(e) => Failure(e)
        case Success(u) => Success(t + u)
  }

  /** What parseExpression returns: the terms, then the constant, preceded
      by `+` when at least one term was written. */
  function ExpressionText(names: map<string, string>, cs: seq<Coefficient>, constant: real, fmt: real -> string): Result<string> {
    match TermsText(names, cs, fmt)
    case Failure(e) => Failure(e)
    case Success(t) => Success(t + (if |cs| > 0 then "+" else "") + fmt(constant))
  }

  /** The separator rule on its own: a `+` exactly before a non-negative
      coefficient that is not the first. */
  function Separator(value: real, ind: nat): string {
    if value >= 0.0 && ind > 0 then "+" else ""
  }

  predicate AllNamed(names: map<string, string>, cs: seq<Coefficient>) {
    forall k :: 0 <= k < |cs| ==> cs[k].name in names
  }

  /** The pieces of a rendered expression, one per term. */
  function Pieces(names: map<string, string>, cs: seq<Coefficient>, fmt: real -> string): seq<string>
    requires AllNamed(names, cs)
  {
    seq(|cs|, k requires 0 <= k < |cs| => Separator(cs[k].value, k) + fmt(cs[k].value) + "*" + names[cs[k].name])
  }

  /** parseExpression fails exactly when a name is missing from the map;
      otherwise it writes every term in input order, separated by the
      sign rule, and the constant last (alone when there are no terms). */
  lemma {:induction false} ExpressionTextMeaning(names: map<string, string>, cs: seq<Coefficient>, constant: real, fmt: real -> string)
    ensures ExpressionText(names, cs, constant, fmt).Success? <==> AllNamed(names, cs)
    ensures AllNamed(names, cs) ==>
      ExpressionText(names, cs, constant, fmt).value ==
        Concat(Pieces(names, cs, fmt)) + (if |cs| > 0 then "+" else "") + fmt(constant)
  {
    TermsTextMeaning(names, cs, fmt);
  }

  lemma {:induction false} TermsTextMeaning(names: map<string, string>, cs: seq<Coefficient>, fmt: real -> string)
    ensures TermsText(names, cs, fmt).Success? <==> AllNamed(names, cs)
    ensures AllNamed(names, cs) ==> TermsText(names, cs, fmt).value == Concat(Pieces(names, cs, fmt))
    decreases |cs|
  {
    if cs != [] {
      var n := |cs| - 1;
      TermsTextMeaning(names, cs[..n], fmt);
      assert AllNamed(names, cs) <==> AllNamed(names, cs[..n]) && cs[n].name in names;
      if AllNamed(names, cs) {
        var p := Pieces(names, cs, fmt);
        assert p == Pieces(names, cs[..n], fmt) + [p[n]];
        ConcatAppend(Pieces(names, cs[..n], fmt), [p[n]]);
      }
    }
  }

  // ---------------------------------------------------------------------
  // parseConstraint (tools/mps_load.py:37-47)

  /** Sense 0 is `=`, sense 1 is `>=`, every other sense `<=`. */
  function SenseSymbol(sense: int): string {
    if sense == 0 then "=" else if sense == 1 then ">=" else "<="
  }

  /** What parseConstraint returns: the terms with a zero constant, the
      relation, and the negated constant as the right-hand side. */
  function ConstraintText(names: map<string, string>, con: ConstraintRecord, fmt: real -> string): Result<string> {
    match ExpressionText(names, con.coefficients, 0.0, fmt)
    case Failure(e) => Failure(e)
    case Success(t) => Success(t + SenseSymbol(con.sense) + fmt(-con.constant))
  }

  // ---------------------------------------------------------------------
  // The writer of tools/mps_load.py:60-89

  /** A line written with its newline, or the failure that stopped the run. */
  function Line(r: Result<string>): Result<string> {
    match r
    case Failure(e) => Failure(e)
    case Success(t) => Success(t + "\n")
  }

  /** `name>=bound` or `name<=bound` for a known name. */
  function BoundText(names: map<string, string>, name: string, symbol: string, bound: real, fmt: real -> string): Result<string> {
    if name !in names then Failure(KeyError) else Success(names[name] + symbol + fmt(bound))
  }

  /** The writes one variable causes: the category assertion first, then
      the lower and the upper bound when they are set. */
  function VariableWrites(names: map<string, string>, v: VariableRecord, fmt: real -> string): seq<Result<string>> {
    if v.category != Continuous then [Failure(AssertionError)]
    else
      (if v.lowBound.Some? then [Line(BoundText(names, v.name, ">=", v.lowBound.value, fmt))] else []) +
      (if v.upBound.Some? then [Line(BoundText(names, v.name, "<=", v.upBound.value, fmt))] else [])
  }

  /** The line a bound writes, when it is set. */
  function OneBound(names: map<string, string>, name: string, symbol: string, bound: Option<real>, fmt: real -> string)
    : seq<Result<string>>
  {
    if bound.Some? then [Line(BoundText(names, name, symbol, bound.value, fmt))] else []
  }

  function BoundWrites(names: map<string, string>, vs: seq<VariableRecord>, fmt: real -> string): seq<Result<string>>
    decreases |vs|
  {
    if vs == [] then [] else BoundWrites(names, vs[..|vs| - 1], fmt) + VariableWrites(names, vs[|vs| - 1], fmt)
  }

  function ConstraintWrites(names: map<string, string>, cs: seq<ConstraintRecord>, fmt: real -> string): seq<Result<string>> {
    seq(|cs|, k requires 0 <= k < |cs| => Line(ConstraintText(names, cs[k], fmt)))
  }

  /** Every `out.write` of the writer, in order. */
  function Writes(names: map<string, string>, p: Problem, fmt: real -> string): seq<Result<string>> {
    [Success(if p.minimize then "min " else "max "),
     Line(ExpressionText(names, p.objective, p.objectiveConstant, fmt)),
     Success("st\n")] +
    ConstraintWrites(names, p.constraints, fmt) + BoundWrites(names, p.problemVariables, fmt)
  }

  /** Whether a run completed, and what the output file holds. */
  datatype Outcome = Outcome(completed: bool, text: string)

  /** The outcome of a sequence of writes: every write up to the first
      failure, which ends the run. */
  function Flushed(ws: seq<Result<string>>): Outcome
    decreases |ws|
  {
    if ws == [] then Outcome(true, "")
    else
      var prev := Flushed(ws[..|ws| - 1]);
      var w := ws[|ws| - 1];
      if !prev.completed || w.Failure? then Outcome(false, prev.text) else Outcome(true, prev.text + w.value)
  }

  predicate AllSucceed(ws: seq<Result<string>>) {
    forall k :: 0 <= k < |ws| ==> ws[k].Success?
  }

  /** The values of writes that all succeed. */
  function Written(ws: seq<Result<string>>): seq<string>
    requires AllSucceed(ws)
  {
    seq(|ws|, k requires 0 <= k < |ws| => ws[k].value)
  }

  lemma FlushedSnoc(ws: seq<Result<string>>, w: Result<string>)
    ensures Flushed(ws + [w]) ==
      if !Flushed(ws).completed || w.Failure? then Outcome(false, Flushed(ws).text)
      else Outcome(true, Flushed(ws).text + w.value)
  {
    assert (ws + [w])[..|ws|] == ws;
  }

  lemma {:induction false} FlushedAppend(a: seq<Result<string>>, b: seq<Result<string>>)
    ensures Flushed(a + b) ==
      if !Flushed(a).completed then Flushed(a)
      else Outcome(Flushed(b).completed, Flushed(a).text + Flushed(b).text)
    decreases |b|
  {
    if b == [] {
      assert a + b == a;
      assert Flushed(a).text + "" == Flushed(a).text;
    } else {
      var n := |b| - 1;
      assert a + b == (a + b[..n]) + [b[n]];
      assert b == b[..n] + [b[n]];
      FlushedAppend(a, b[..n]);
      FlushedSnoc(a + b[..n], b[n]);
      FlushedSnoc(b[..n], b[n]);
      if Flushed(a).completed && Flushed(b[..n]).completed && b[n].Success? {
        assert Flushed(a).text + Flushed(b[..n]).text + b[n].value ==
               Flushed(a).text + (Flushed(b[..n]).text + b[n].value);
      }
    }
  }

  /** One more write of a run that has not failed yet: a failure settles
      the outcome of the whole run. */
  lemma FlushedStep(ws: seq<Result<string>>, i: nat)
    requires i < |ws| && Flushed(ws[..i]).completed
    ensures ws[i].Failure? ==> Flushed(ws) == Outcome(false, Flushed(ws[..i]).text)
    ensures ws[i].Success? ==> Flushed(ws[..i + 1]) == Outcome(true, Flushed(ws[..i]).text + ws[i].value)
  {
    var upTo := ws[..i + 1];
    assert upTo[..i] == ws[..i];
    if ws[i].Failure? {
      SliceJoin(ws, i + 1);
      FlushedAppend(ws[..i + 1], ws[i + 1..]);
    }
  }

  lemma SliceJoin(ws: seq<Result<string>>, k: nat)
    requires k <= |ws|
    ensures ws[..k] + ws[k..] == ws
  {
  }

  /** A run completes exactly when no write fails, and the file then holds
      every write in order. */
  lemma {:induction false} FlushedMeaning(ws: seq<Result<string>>)
    ensures Flushed(ws).completed <==> AllSucceed(ws)
    ensures AllSucceed(ws) ==> Flushed(ws).text == Concat(Written(ws))
    decreases |ws|
  {
    if ws != [] {
      var n := |ws| - 1;
      assert ws == ws[..n] + [ws[n]];
      FlushedMeaning(ws[..n]);
      FlushedSnoc(ws[..n], ws[n]);
      AllSucceedAppend(ws[..n], [ws[n]]);
      if AllSucceed(ws) {
        assert Written([ws[n]]) == [ws[n].value];
        ConcatAppend(Written(ws[..n]), [ws[n].value]);
        assert Concat([ws[n].value]) == ws[n].value;
      }
    }
  }

  lemma AllSucceedAppend(a: seq<Result<string>>, b: seq<Result<string>>)
    ensures AllSucceed(a + b) <==> AllSucceed(a) && AllSucceed(b)
    ensures AllSucceed(a + b) ==> Written(a + b) == Written(a) + Written(b)
  {
    if AllSucceed(a) && AllSucceed(b) {
      forall k | 0 <= k < |a + b| ensures (a + b)[k].Success? {
        if k < |a| {
          assert (a + b)[k] == a[k];
        } else {
          assert (a + b)[k] == b[k - |a|];
        }
      }
      assert Written(a + b) == Written(a) + Written(b);
    }
    if AllSucceed(a + b) {
      forall k | 0 <= k < |a| ensures a[k].Success? {
        assert (a + b)[k] == a[k];
      }
      forall k | 0 <= k < |b| ensures b[k].Success? {
        assert (a + b)[|a| + k] == b[k];
      }
    }
  }

  /** A variable the bound loop gets through: continuous, and known by
      name when it has a bound. */
  predicate Writable(names: map<string, string>, v: VariableRecord) {
    v.category == Continuous && ((v.lowBound.Some? || v.upBound.Some?) ==> v.name in names)
  }

  predicate AllWritable(names: map<string, string>, vs: seq<VariableRecord>) {
    forall k :: 0 <= k < |vs| ==> Writable(names, vs[k])
  }

  predicate ConstraintsNamed(names: map<string, string>, cs: seq<ConstraintRecord>) {
    forall k :: 0 <= k < |cs| ==> AllNamed(names, cs[k].coefficients)
  }

  /** What the run needs to complete: every name of the objective and the
      constraints known, and every variable Writable. */
  predicate Convertible(names: map<string, string>, p: Problem) {
    AllNamed(names, p.objective) && ConstraintsNamed(names, p.constraints) && AllWritable(names, p.problemVariables)
  }

  lemma AllWritableSnoc(names: map<string, string>, vs: seq<VariableRecord>, v: VariableRecord)
    ensures AllWritable(names, vs + [v]) <==> AllWritable(names, vs) && Writable(names, v)
  {
    if AllWritable(names, vs + [v]) {
      assert (vs + [v])[|vs|] == v;
      forall k | 0 <= k < |vs| ensures Writable(names, vs[k]) {
        assert (vs + [v])[k] == vs[k];
      }
    }
  }

  lemma {:induction false} BoundWritesAppend(names: map<string, string>, a: seq<VariableRecord>, b: seq<VariableRecord>, fmt: real -> string)
    ensures BoundWrites(names, a + b, fmt) == BoundWrites(names, a, fmt) + BoundWrites(names, b, fmt)
    decreases |b|
  {
    if b == [] {
      assert a + b == a;
    } else {
      var n := |b| - 1;
      var x, y, z := BoundWrites(names, a, fmt), BoundWrites(names, b[..n], fmt), VariableWrites(names, b[n], fmt);
      assert BoundWrites(names, a + b, fmt) == (x + y) + z by {
        assert (a + b)[..|a + b| - 1] == a + b[..n];
        assert (a + b)[|a + b| - 1] == b[n];
        BoundWritesAppend(names, a, b[..n], fmt);
      }
      assert BoundWrites(names, b, fmt) == y + z;
      assert (x + y) + z == x + (y + z);
    }
  }

  lemma BoundWritesStep(names: map<string, string>, vs: seq<VariableRecord>, i: nat, fmt: real -> string)
    requires i < |vs|
    ensures BoundWrites(names, vs[..i + 1], fmt) == BoundWrites(names, vs[..i], fmt) + VariableWrites(names, vs[i], fmt)
  {
    assert vs[..i + 1][..i] == vs[..i];
  }

  /** Once a bound write has failed, the rest of the loop changes nothing. */
  lemma BoundWritesStop(names: map<string, string>, vs: seq<VariableRecord>, i: nat, fmt: real -> string)
    requires i <= |vs| && !Flushed(BoundWrites(names, vs[..i], fmt)).completed
    ensures Flushed(BoundWrites(names, vs, fmt)) == Flushed(BoundWrites(names, vs[..i], fmt))
  {
    assert vs == vs[..i] + vs[i..];
    BoundWritesAppend(names, vs[..i], vs[i..], fmt);
    FlushedAppend(BoundWrites(names, vs[..i], fmt), BoundWrites(names, vs[i..], fmt));
  }

  /** One more variable of the bound loop: its writes follow the earlier
      ones, and when one of them fails the loop's outcome is settled. */
  lemma BoundWritesFlushedStep(names: map<string, string>, vs: seq<VariableRecord>, i: nat, fmt: real -> string)
    requires i < |vs| && Flushed(BoundWrites(names, vs[..i], fmt)).completed
    ensures Flushed(BoundWrites(names, vs[..i + 1], fmt)) ==
      Outcome(Flushed(VariableWrites(names, vs[i], fmt)).completed,
              Flushed(BoundWrites(names, vs[..i], fmt)).text + Flushed(VariableWrites(names, vs[i], fmt)).text)
    ensures !Flushed(VariableWrites(names, vs[i], fmt)).completed ==>
      Flushed(BoundWrites(names, vs, fmt)) == Flushed(BoundWrites(names, vs[..i + 1], fmt))
  {
    BoundWritesStep(names, vs, i, fmt);
    FlushedAppend(BoundWrites(names, vs[..i], fmt), VariableWrites(names, vs[i], fmt));
    if !Flushed(VariableWrites(names, vs[i], fmt)).completed {
      BoundWritesStop(names, vs, i + 1, fmt);
    }
  }

  /** What the output holds after one more variable of the bound loop. */
  lemma BoundWritesProgress(names: map<string, string>, vs: seq<VariableRecord>, i: nat, fmt: real -> string,
                            start: string, before: string, after: string)
    requires i < |vs| && Flushed(BoundWrites(names, vs[..i], fmt)).completed
    requires before == start + Flushed(BoundWrites(names, vs[..i], fmt)).text
    requires after == before + Flushed(VariableWrites(names, vs[i], fmt)).text
    ensures Flushed(VariableWrites(names, vs[i], fmt)).completed ==>
      Flushed(BoundWrites(names, vs[..i + 1], fmt)).completed && after == start + Flushed(BoundWrites(names, vs[..i + 1], fmt)).text
    ensures !Flushed(VariableWrites(names, vs[i], fmt)).completed ==>
      !Flushed(BoundWrites(names, vs, fmt)).completed && after == start + Flushed(BoundWrites(names, vs, fmt)).text
  {
    var a := BoundWrites(names, vs[..i], fmt);
    var b := VariableWrites(names, vs[i], fmt);
    var fa, fb := Flushed(a), Flushed(b);
    assert Flushed(BoundWrites(names, vs[..i + 1], fmt)) == Outcome(fb.completed, fa.text + fb.text) by {
      BoundWritesStep(names, vs, i, fmt);
      FlushedAppend(a, b);
    }
    assert after == start + (fa.text + fb.text) by {
      assert before == start + fa.text;
      AppendAssociates(start, fa.text, fb.text);
    }
    if !fb.completed {
      BoundWritesStop(names, vs, i + 1, fmt);
    }
  }

  lemma AppendAssociates(a: string, b: string, c: string)
    ensures (a + b) + c == a + (b + c)
  {
  }

  lemma VariableWritesSucceed(names: map<string, string>, v: VariableRecord, fmt: real -> string)
    ensures AllSucceed(VariableWrites(names, v, fmt)) <==> Writable(names, v)
  {
    if v.category == Continuous {
      var lows := if v.lowBound.Some? then [Line(BoundText(names, v.name, ">=", v.lowBound.value, fmt))] else [];
      var ups := if v.upBound.Some? then [Line(BoundText(names, v.name, "<=", v.upBound.value, fmt))] else [];
      AllSucceedAppend(lows, ups);
      if v.lowBound.Some? {
        assert AllSucceed(lows) <==> lows[0].Success?;
      }
      if v.upBound.Some? {
        assert AllSucceed(ups) <==> ups[0].Success?;
      }
    } else {
      assert VariableWrites(names, v, fmt)[0].Failure?;
    }
  }

  lemma {:induction false} BoundWritesSucceed(names: map<string, string>, vs: seq<VariableRecord>, fmt: real -> string)
    ensures AllSucceed(BoundWrites(names, vs, fmt)) <==> AllWritable(names, vs)
    decreases |vs|
  {
    if vs != [] {
      var n := |vs| - 1;
      assert vs == vs[..n] + [vs[n]];
      BoundWritesSucceed(names, vs[..n], fmt);
      AllSucceedAppend(BoundWrites(names, vs[..n], fmt), VariableWrites(names, vs[n], fmt));
      VariableWritesSucceed(names, vs[n], fmt);
      AllWritableSnoc(names, vs[..n], vs[n]);
    }
  }

  lemma ConstraintWritesAppend(names: map<string, string>, a: seq<ConstraintRecord>, b: seq<ConstraintRecord>, fmt: real -> string)
    ensures ConstraintWrites(names, a + b, fmt) == ConstraintWrites(names, a, fmt) + ConstraintWrites(names, b, fmt)
  {
  }

  lemma ConstraintWritesSucceed(names: map<string, string>, cs: seq<ConstraintRecord>, fmt: real -> string)
    ensures AllSucceed(ConstraintWrites(names, cs, fmt)) <==> ConstraintsNamed(names, cs)
  {
    var ws := ConstraintWrites(names, cs, fmt);
    forall k | 0 <= k < |cs| ensures ws[k].Success? <==> AllNamed(names, cs[k].coefficients) {
      assert ws[k] == Line(ConstraintText(names, cs[k], fmt));
      ExpressionTextMeaning(names, cs[k].coefficients, 0.0, fmt);
    }
  }

  /** The run completes exactly when the problem is Convertible. */
  lemma ConvertSucceeds(names: map<string, string>, p: Problem, fmt: real -> string)
    ensures Flushed(Writes(names, p, fmt)).completed <==> Convertible(names, p)
  {
    var ws := Writes(names, p, fmt);
    var head := ws[..3];
    var cw := ConstraintWrites(names, p.constraints, fmt);
    var bw := BoundWrites(names, p.problemVariables, fmt);
    assert ws == head + cw + bw;
    FlushedMeaning(ws);
    AllSucceedAppend(head + cw, bw);
    AllSucceedAppend(head, cw);
    assert AllSucceed(head) <==> head[1].Success?;
    ExpressionTextMeaning(names, p.objective, p.objectiveConstant, fmt);
    ConstraintWritesSucceed(names, p.constraints, fmt);
    BoundWritesSucceed(names, p.problemVariables, fmt);
  }

  /** The file the writer leaves: `min`/`max` and the objective, `st`, one
      line per constraint in order, then the bound lines. */
  function Document(names: map<string, string>, p: Problem, fmt: real -> string): seq<string>
    requires Convertible(names, p)
  {
    HeadLines(names, p, fmt) + ConstraintLines(names, p.constraints, fmt) + BoundLines(names, p.problemVariables, fmt)
  }

  function HeadLines(names: map<string, string>, p: Problem, fmt: real -> string): seq<string>
    requires AllNamed(names, p.objective)
  {
    ExpressionTextMeaning(names, p.objective, p.objectiveConstant, fmt);
    [(if p.minimize then "min " else "max ") + ExpressionText(names, p.objective, p.objectiveConstant, fmt).value, "st"]
  }

  function ConstraintLines(names: map<string, string>, cs: seq<ConstraintRecord>, fmt: real -> string): seq<string>
    requires ConstraintsNamed(names, cs)
  {
    seq(|cs|, k requires 0 <= k < |cs| => ConstraintLine(names, cs[k], fmt))
  }

  function ConstraintLine(names: map<string, string>, c: ConstraintRecord, fmt: real -> string): string
    requires AllNamed(names, c.coefficients)
  {
    ExpressionTextMeaning(names, c.coefficients, 0.0, fmt);
    ConstraintText(names, c, fmt).value
  }

  function VariableLines(names: map<string, string>, v: VariableRecord, fmt: real -> string): seq<string>
    requires Writable(names, v)
  {
    (if v.lowBound.Some? then [names[v.name] + ">=" + fmt(v.lowBound.value)] else []) +
    (if v.upBound.Some? then [names[v.name] + "<=" + fmt(v.upBound.value)] else [])
  }

  function BoundLines(names: map<string, string>, vs: seq<VariableRecord>, fmt: real -> string): seq<string>
    requires AllWritable(names, vs)
    decreases |vs|
  {
    if vs == [] then []
    else
      assert AllWritable(names, vs[..|vs| - 1]);
      BoundLines(names, vs[..|vs| - 1], fmt) + VariableLines(names, vs[|vs| - 1], fmt)
  }

  lemma TerminatedAppend(a: seq<string>, b: seq<string>, sep: char)
    ensures Terminated(a + b, sep) == Terminated(a, sep) + Terminated(b, sep)
  {
  }

  lemma VariableWritesAreLines(names: map<string, string>, v: VariableRecord, fmt: real -> string)
    requires Writable(names, v)
    ensures AllSucceed(VariableWrites(names, v, fmt))
    ensures Written(VariableWrites(names, v, fmt)) == Terminated(VariableLines(names, v, fmt), '\n')
  {
    VariableWritesSucceed(names, v, fmt);
  }

  lemma {:induction false} BoundWritesAreLines(names: map<string, string>, vs: seq<VariableRecord>, fmt: real -> string)
    requires AllWritable(names, vs)
    ensures AllSucceed(BoundWrites(names, vs, fmt))
    ensures Written(BoundWrites(names, vs, fmt)) == Terminated(BoundLines(names, vs, fmt), '\n')
    decreases |vs|
  {
    BoundWritesSucceed(names, vs, fmt);
    if vs != [] {
      var n := |vs| - 1;
      var v := vs[n];
      assert AllWritable(names, vs[..n]) && Writable(names, v);
      BoundWritesAreLines(names, vs[..n], fmt);
      VariableWritesAreLines(names, v, fmt);
      AllSucceedAppend(BoundWrites(names, vs[..n], fmt), VariableWrites(names, v, fmt));
      TerminatedAppend(BoundLines(names, vs[..n], fmt), VariableLines(names, v, fmt), '\n');
    }
  }

  lemma ConstraintWritesAreLines(names: map<string, string>, cs: seq<ConstraintRecord>, fmt: real -> string)
    requires ConstraintsNamed(names, cs)
    ensures AllSucceed(ConstraintWrites(names, cs, fmt))
    ensures Written(ConstraintWrites(names, cs, fmt)) == Terminated(ConstraintLines(names, cs, fmt), '\n')
  {
    ConstraintWritesSucceed(names, cs, fmt);
  }

  lemma HeadWritesAreLines(names: map<string, string>, p: Problem, fmt: real -> string)
    requires AllNamed(names, p.objective)
    ensures AllSucceed(Writes(names, p, fmt)[..3])
    ensures Concat(Written(Writes(names, p, fmt)[..3])) == Concat(Terminated(HeadLines(names, p, fmt), '\n'))
  {
    ExpressionTextMeaning(names, p.objective, p.objectiveConstant, fmt);
    var m := if p.minimize then "min " else "max ";
    var o := ExpressionText(names, p.objective, p.objectiveConstant, fmt).value;
    var hl := HeadLines(names, p, fmt);
    assert Written(Writes(names, p, fmt)[..3]) == [m, o + "\n", "st\n"];
    assert Terminated(hl, '\n') == [m + o + "\n", "st\n"] by {
      assert hl == [m + o, "st"];
      assert "st" + "\n" == "st\n";
    }
    HeadConcat(m, o);
  }

  lemma HeadConcat(m: string, o: string)
    ensures Concat([m, o + "\n", "st\n"]) == Concat([m + o + "\n", "st\n"])
  {
    var w := [m, o + "\n", "st\n"];
    var t := [m + o + "\n", "st\n"];
    assert w[1..][1..][1..] == [] && t[1..][1..] == [];
    assert Concat(w[1..][1..]) == "st\n";
    assert Concat(w[1..]) == o + "\n" + "st\n";
    assert Concat(t[1..]) == "st\n";
  }

  /** A completed run writes the document line by line. */
  lemma DocumentWritten(names: map<string, string>, p: Problem, fmt: real -> string)
    requires Convertible(names, p)
    ensures AllSucceed(Writes(names, p, fmt))
    ensures Concat(Written(Writes(names, p, fmt))) == Concat(Terminated(Document(names, p, fmt), '\n'))
  {
    var ws := Writes(names, p, fmt);
    var head := ws[..3];
    var cw := ConstraintWrites(names, p.constraints, fmt);
    var bw := BoundWrites(names, p.problemVariables, fmt);
    var hl := HeadLines(names, p, fmt);
    var cl := ConstraintLines(names, p.constraints, fmt);
    var bl := BoundLines(names, p.problemVariables, fmt);
    assert ws == head + cw + bw;
    HeadWritesAreLines(names, p, fmt);
    ConstraintWritesAreLines(names, p.constraints, fmt);
    BoundWritesAreLines(names, p.problemVariables, fmt);
    AllSucceedAppend(head, cw);
    AllSucceedAppend(head + cw, bw);
    TerminatedAppend(hl + cl, bl, '\n');
    TerminatedAppend(hl, cl, '\n');
    ConcatAppend(Written(head) + Written(cw), Written(bw));
    ConcatAppend(Written(head), Written(cw));
    ConcatAppend(Terminated(hl, '\n') + Terminated(cl, '\n'), Terminated(bl, '\n'));
    ConcatAppend(Terminated(hl, '\n'), Terminated(cl, '\n'));
  }

  /** When the run completes and no rendered number or canonical name holds
      a newline, reading the file back line by line gives exactly the
      document: the objective line, `st`, the constraints in order, the
      bounds. */
  lemma ConvertLines(names: map<string, string>, p: Problem, fmt: real -> string)
    requires Convertible(names, p)
    requires forall x: real :: '\n' !in fmt(x)
    requires forall x :: x in names ==> '\n' !in names[x]
    ensures Flushed(Writes(names, p, fmt)).completed
    ensures Split(Flushed(Writes(names, p, fmt)).text, '\n') == Document(names, p, fmt)
  {
    var ws := Writes(names, p, fmt);
    FlushedMeaning(ws);
    DocumentWritten(names, p, fmt);
    NoNewlineInDocument(names, p, fmt);
    SplitTerminated(Document(names, p, fmt), '\n');
  }

  lemma NoNewlineInDocument(names: map<string, string>, p: Problem, fmt: real -> string)
    requires Convertible(names, p)
    requires forall x: real :: '\n' !in fmt(x)
    requires forall x :: x in names ==> '\n' !in names[x]
    ensures forall k :: 0 <= k < |Document(names, p, fmt)| ==> '\n' !in Document(names, p, fmt)[k]
  {
    var head, body, bounds := HeadLines(names, p, fmt), ConstraintLines(names, p.constraints, fmt),
      BoundLines(names, p.problemVariables, fmt);
    HeadLinesAvoid(names, p, fmt, '\n');
    ConstraintLinesAvoid(names, p.constraints, fmt, '\n');
    BoundLinesAvoid(names, p.problemVariables, fmt, '\n');
    LinesAvoid(head, body, bounds, '\n');
  }

  lemma HeadLinesAvoid(names: map<string, string>, p: Problem, fmt: real -> string, c: char)
    requires AllNamed(names, p.objective) && c != '+' && c != '*' && c !in "min " && c !in "max " && c !in "st"
    requires forall x: real :: c !in fmt(x)
    requires forall x :: x in names ==> c !in names[x]
    ensures forall k :: 0 <= k < |HeadLines(names, p, fmt)| ==> c !in HeadLines(names, p, fmt)[k]
  {
    ExpressionTextMeaning(names, p.objective, p.objectiveConstant, fmt);
    PiecesAvoid(names, p.objective, fmt, c);
  }

  lemma ConstraintLinesAvoid(names: map<string, string>, cs: seq<ConstraintRecord>, fmt: real -> string, c: char)
    requires ConstraintsNamed(names, cs) && c != '+' && c != '*' && c !in "<=" && c !in ">=" && c !in "=="
    requires forall x: real :: c !in fmt(x)
    requires forall x :: x in names ==> c !in names[x]
    ensures forall k :: 0 <= k < |ConstraintLines(names, cs, fmt)| ==> c !in ConstraintLines(names, cs, fmt)[k]
  {
    forall k | 0 <= k < |cs| ensures c !in ConstraintLine(names, cs[k], fmt) {
      ExpressionTextMeaning(names, cs[k].coefficients, 0.0, fmt);
      PiecesAvoid(names, cs[k].coefficients, fmt, c);
    }
  }

  lemma LinesAvoid(a: seq<string>, b: seq<string>, d: seq<string>, c: char)
    requires forall k :: 0 <= k < |a| ==> c !in a[k]
    requires forall k :: 0 <= k < |b| ==> c !in b[k]
    requires forall k :: 0 <= k < |d| ==> c !in d[k]
    ensures forall k :: 0 <= k < |a + b + d| ==> c !in (a + b + d)[k]
  {
  }

  lemma {:induction false} ConcatAvoids(ps: seq<string>, c: char)
    requires forall k :: 0 <= k < |ps| ==> c !in ps[k]
    ensures c !in Concat(ps)
    decreases |ps|
  {
    if ps != [] {
      ConcatAvoids(ps[1..], c);
    }
  }

  lemma PiecesAvoid(names: map<string, string>, cs: seq<Coefficient>, fmt: real -> string, c: char)
    requires AllNamed(names, cs) && c != '+' && c != '*'
    requires forall x: real :: c !in fmt(x)
    requires forall x :: x in names ==> c !in names[x]
    ensures c !in Concat(Pieces(names, cs, fmt))
  {
    var ps := Pieces(names, cs, fmt);
    forall k | 0 <= k < |ps| ensures c !in ps[k] {
      assert ps[k] == Separator(cs[k].value, k) + fmt(cs[k].value) + "*" + names[cs[k].name];
    }
    ConcatAvoids(ps, c);
  }

  lemma {:induction false} BoundLinesAvoid(names: map<string, string>, vs: seq<VariableRecord>, fmt: real -> string, c: char)
    requires AllWritable(names, vs)
    requires c != '<' && c != '>' && c != '='
    requires forall x: real :: c !in fmt(x)
    requires forall x :: x in names ==> c !in names[x]
    ensures forall k :: 0 <= k < |BoundLines(names, vs, fmt)| ==> c !in BoundLines(names, vs, fmt)[k]
    decreases |vs|
  {
    if vs != [] {
      assert AllWritable(names, vs[..|vs| - 1]);
      BoundLinesAvoid(names, vs[..|vs| - 1], fmt, c);
    }
  }

  lemma {:induction false} TermsTextFailureSticks(names: map<string, string>, cs: seq<Coefficient>, j: nat, fmt: real -> string)
    requires j <= |cs| && TermsText(names, cs[..j], fmt).Failure?
    ensures TermsText(names, cs, fmt) == Failure(KeyError)
    decreases |cs|
  {
    var n := |cs| - 1;
    if j <= n {
      assert cs[..n][..j] == cs[..j];
      TermsTextFailureSticks(names, cs[..n], j, fmt);
    } else {
      assert cs[..j] == cs;
      TermsTextFailureIsKeyError(names, cs, fmt);
    }
  }

  lemma {:induction false} TermsTextFailureIsKeyError(names: map<string, string>, cs: seq<Coefficient>, fmt: real -> string)
    ensures TermsText(names, cs, fmt).Failure? ==> TermsText(names, cs, fmt) == Failure(KeyError)
    decreases |cs|
  {
    if cs != [] {
      TermsTextFailureIsKeyError(names, cs[..|cs| - 1], fmt);
    }
  }

  // ---------------------------------------------------------------------
  // The converter's state: the global name map and the output file

  class Converter {
    /** `unified_var_names`. */
    var names: map<string, string>
    /** What the output file holds. */
    var output: string

    constructor()
      ensures names == map[] && output == ""
    {
      names := map[];
      output := "";
    }

    /** InitializeUnifiedVarNames (tools/mps_load.py:7-11). */
    method InitializeUnifiedVarNames(vars: seq<string>)
      modifies this
      ensures names == old(names) + UnifiedNames(vars) && output == old(output)
    {
      var total := 0;
      while total < |vars|
        invariant 0 <= total <= |vars|
        invariant names == old(names) + UnifiedNames(vars[..total]) && output == old(output)
      {
        assert vars[..total + 1][..total] == vars[..total];
        names := names[vars[total] := "x" + NatToString(total)];
        total := total + 1;
      }
      assert vars[..|vars|] == vars;
    }

    /** parseExpression (tools/mps_load.py:18-34). */
    method ParseExpression(cs: seq<Coefficient>, constant: real, fmt: real -> string) returns (r: Result<string>)
      ensures r == ExpressionText(names, cs, constant, fmt)
    {
      var ret := "";
      var ind := 0;
      while ind < |cs|
        invariant 0 <= ind <= |cs|
        invariant TermsText(names, cs[..ind], fmt) == Success(ret)
      {
        assert cs[..ind + 1][..ind] == cs[..ind];
        var item := cs[ind];
        if item.name !in names {
          assert TermsText(names, cs[..ind + 1], fmt).Failure?;
          TermsTextFailureSticks(names, cs, ind + 1, fmt);
          return Failure(KeyError);
        }
        if item.value < 0.0 {
          ret := ret + (fmt(item.value) + "*" + names[item.name]);
        } else {
          ret := ret + ((if ind > 0 then "+" else "") + fmt(item.value) + "*" + names[item.name]);
        }
        ind := ind + 1;
      }
      assert cs[..|cs|] == cs;
      ret := ret + (if ind > 0 then "+" else "") + fmt(constant);
      r := Success(ret);
    }

    /** parseConstraint (tools/mps_load.py:37-47). */
    method ParseConstraint(con: ConstraintRecord, fmt: real -> string) returns (r: Result<string>)
      ensures r == ConstraintText(names, con, fmt)
    {
      var e := ParseExpression(con.coefficients, 0.0, fmt);
      if e.Failure? {
        return e;
      }
      var ret := e.value;
      if con.sense == 0 {
        ret := ret + "=";
      } else if con.sense == 1 {
        ret := ret + ">=";
      } else {
        ret := ret + "<=";
      }
      ret := ret + fmt(-con.constant);
      r := Success(ret);
    }

    /** The `__main__` writer (tools/mps_load.py:59-89), from the problem
        pulp read: the names, then every line, stopping at the first
        KeyError or failed assertion with what was written so far. */
    method WriteTextModel(p: Problem, fmt: real -> string) returns (ok: bool)
      modifies this
      ensures names == old(names) + UnifiedNames(p.variables)
      ensures ok == Flushed(Writes(names, p, fmt)).completed && output == Flushed(Writes(names, p, fmt)).text
    {
      InitializeUnifiedVarNames(p.variables);
      output := "";
      var sense := if p.minimize then "min " else "max ";
      var head := [Success(sense), Line(ExpressionText(names, p.objective, p.objectiveConstant, fmt)), Success("st\n")];
      var cw := ConstraintWrites(names, p.constraints, fmt);
      var bw := BoundWrites(names, p.problemVariables, fmt);
      assert Writes(names, p, fmt) == head + cw + bw;
      FlushedAppend(head + cw, bw);
      FlushedAppend(head, cw);
      FlushedSnoc([], head[0]);
      FlushedSnoc([head[0]], head[1]);
      FlushedSnoc([head[0], head[1]], head[2]);
      assert [] + [head[0]] == [head[0]] && [head[0]] + [head[1]] == [head[0], head[1]];
      assert [head[0], head[1]] + [head[2]] == head;
      output := output + sense;
      var objective := ParseExpression(p.objective, p.objectiveConstant, fmt);
      if objective.Failure? {
        return false;
      }
      output := output + (objective.value + "\n");
      output := output + "st\n";
      ok := WriteConstraints(p.constraints, fmt);
      if !ok {
        return;
      }
      ok := WriteBounds(p.problemVariables, fmt);
    }

    /** The loop of tools/mps_load.py:72-73. */
    method WriteConstraints(cs: seq<ConstraintRecord>, fmt: real -> string) returns (ok: bool)
      modifies this
      ensures names == old(names)
      ensures ok == Flushed(ConstraintWrites(names, cs, fmt)).completed
      ensures output == old(output) + Flushed(ConstraintWrites(names, cs, fmt)).text
    {
      ghost var ws := ConstraintWrites(names, cs, fmt);
      var i := 0;
      while i < |cs|
        invariant 0 <= i <= |cs| && names == old(names)
        invariant Flushed(ws[..i]).completed
        invariant output == old(output) + Flushed(ws[..i]).text
      {
        var line := ParseConstraint(cs[i], fmt);
        assert ws[i] == Line(line);
        FlushedStep(ws, i);
        if line.Failure? {
          return false;
        }
        output := output + (line.value + "\n");
        i := i + 1;
      }
      assert ws[..|cs|] == ws;
      ok := true;
    }

    /** The loop of tools/mps_load.py:74-89. */
    method WriteBounds(vs: seq<VariableRecord>, fmt: real -> string) returns (ok: bool)
      modifies this
      ensures names == old(names)
      ensures ok == Flushed(BoundWrites(names, vs, fmt)).completed
      ensures output == old(output) + Flushed(BoundWrites(names, vs, fmt)).text
    {
      var i := 0;
      while i < |vs|
        invariant 0 <= i <= |vs| && names == old(names)
        invariant Flushed(BoundWrites(names, vs[..i], fmt)).completed
        invariant output == old(output) + Flushed(BoundWrites(names, vs[..i], fmt)).text
      {
        ghost var before := output;
        ok := WriteVariableBounds(vs[i], fmt);
        BoundWritesProgress(names, vs, i, fmt, old(output), before, output);
        if !ok {
          return;
        }
        i := i + 1;
      }
      assert vs[..|vs|] == vs;
      ok := true;
    }

    /** One pass of the loop of tools/mps_load.py:74-89. */
    method WriteVariableBounds(v: VariableRecord, fmt: real -> string) returns (ok: bool)
      modifies this
      ensures names == old(names)
      ensures ok == Flushed(VariableWrites(names, v, fmt)).completed
      ensures output == old(output) + Flushed(VariableWrites(names, v, fmt)).text
    {
      if v.category != Continuous {
        var none: seq<Result<string>> := [];
        FlushedSnoc(none, Failure(AssertionError));
        assert none + [Failure(AssertionError)] == [Failure(AssertionError)];
        return false;
      }
      ghost var start := output;
      ghost var lows, ups := OneBound(names, v.name, ">=", v.lowBound, fmt), OneBound(names, v.name, "<=", v.upBound, fmt);
      assert VariableWrites(names, v, fmt) == lows + ups;
      FlushedAppend(lows, ups);
      ok := WriteBound(v.name, ">=", v.lowBound, fmt);
      if !ok {
        return;
      }
      ok := WriteBound(v.name, "<=", v.upBound, fmt);
      AppendAssociates(start, Flushed(lows).text, Flushed(ups).text);
    }

    /** One `if ... is not None` branch of tools/mps_load.py:77-88: the
        bound, when set, written as a line. */
    method WriteBound(name: string, symbol: string, bound: Option<real>, fmt: real -> string) returns (ok: bool)
      modifies this
      ensures names == old(names)
      ensures ok == Flushed(OneBound(names, name, symbol, bound, fmt)).completed
      ensures output == old(output) + Flushed(OneBound(names, name, symbol, bound, fmt)).text
    {
      var ws := OneBound(names, name, symbol, bound, fmt);
      if bound.None? {
        assert output + "" == output;
        return true;
      }
      FlushedSnoc([], ws[0]);
      assert [] + [ws[0]] == ws;
      if name !in names {
        return false;
      }
      output := output + (names[name] + symbol + fmt(bound.value) + "\n");
      ok := true;
    }
  }
}
