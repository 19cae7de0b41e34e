/** The reader of the plain-text model files of solver.cc (solver.cc:7-124):
    `split`, the field classifier, and ParseFile's per-line field loop,
    which turns every line after the first into a constraint or an
    objective and pushes it into an LP or an ILP model. The file arrives
    as its text; opening and closing it is not part of this model. */
module TextModels {
  import opened Wrappers
  import opened Strings
  import opened Numbers
  import opened Variables
  import opened Expressions
  import opened Models
  import opened LinearPrograms
  import opened IntegerPrograms

  // ---------------------------------------------------------------------
  // split (solver.cc:7-20)

  /** `split(s, delim)`: the pieces repeated getline reads, in order. */
  method SplitFields(s: string, delim: char) returns (elems: seq<string>)
    ensures elems == Split(s, delim)
  {
    elems := [];
    var pos := 0;
    while pos < |s|
      invariant 0 <= pos <= |s|
      invariant elems + Split(s[pos..], delim) == Split(s, delim)
    {
      var item, next := ReadField(s, pos, delim);
      elems, pos := elems + [item], next;
    }
  }

  /** One pass of the loop: the next item, and where reading resumes. */
  method ReadField(s: string, pos: nat, delim: char) returns (item: string, next: nat)
    requires pos < |s|
    ensures pos < next <= |s|
    ensures Split(s[pos..], delim) == [item] + Split(s[next..], delim)
  {
    var end := ReadItem(s, pos, delim);
    item := s[pos..end];
    next := if end < |s| then end + 1 else end;
    ghost var t := s[pos..];
    ghost var k := end - pos;
    assert t[..k] == item;
    assert t[k..] == s[end..];
    assert k < |t| ==> t[k + 1..] == s[next..];
    SplitAt(t, delim, k);
    if k == |t| {
      assert s[next..] == [];
    }
  }

  /** One getline: the item runs from pos to the next delimiter or the
      end of s. */
  method ReadItem(s: string, pos: nat, delim: char) returns (end: nat)
    requires pos <= |s|
    ensures pos <= end <= |s| && delim !in s[pos..end] && (end < |s| ==> s[end] == delim)
  {
    end := pos;
    while end < |s| && s[end] != delim
      invariant pos <= end <= |s| && delim !in s[pos..end]
    {
      assert s[pos..end + 1] == s[pos..end] + [s[end]];
      end := end + 1;
    }
  }

  /** The first piece of t ends at i when i is the first separator, or
      the end of t when t has none. */
  lemma SplitAt(t: string, c: char, i: nat)
    requires t != [] && i <= |t| && c !in t[..i] && (i < |t| ==> t[i] == c)
    ensures Split(t, c) == [t[..i]] + if i < |t| then Split(t[i + 1..], c) else []
  {
    assert IndexOf(t, c) == i;
    assert i == |t| ==> t[..i] == t;
  }

  // ---------------------------------------------------------------------
  // type_of_field (solver.cc:38-49)

  datatype FieldKind = Symbol | Number | Compare | Sign | MinMax

  const EmptyField: string := "assertion failed: empty field"

  /** `type_of_field`: a field of the line is a sign, a comparison, a
      number (a leading digit), an objective keyword or a symbol; an empty
      field, from two adjacent spaces, fails the length assertion. */
  function KindOf(field: string): Result<FieldKind> {
    if |field| == 0 then Failure(EmptyField)
    else if field == "+" || field == "-" then Success(Sign)
    else if field == ">=" || field == "<=" || field == "=" then Success(Compare)
    else if '0' <= field[0] <= '9' then Success(Number)
    else if field == "min" || field == "max" then Success(MinMax)
    else Success(Symbol)
  }

  /** The fields that are not names. */
  predicate IsReserved(field: string) {
    field == "+" || field == "-" || field == ">=" || field == "<=" || field == "=" || field == "min" || field == "max"
  }

  /** The kinds split the non-empty fields: numbers are exactly the
      fields that start with a digit, and symbols exactly the others that
      are not reserved, so a negative literal such as `-3` is a symbol. */
  lemma KindOfPartition(field: string)
    ensures KindOf(field).Failure? <==> field == []
    ensures KindOf(field) == Success(Number) <==> field != [] && IsDigitChar(field[0])
    ensures KindOf(field) == Success(Symbol) <==> field != [] && !IsDigitChar(field[0]) && !IsReserved(field)
    ensures KindOf(field) == Success(Sign) <==> field == "+" || field == "-"
    ensures KindOf(field) == Success(Compare) <==> field == ">=" || field == "<=" || field == "="
    ensures KindOf(field) == Success(MinMax) <==> field == "min" || field == "max"
    ensures KindOf("-3") == Success(Symbol)
  {
    if field != [] && IsReserved(field) {
      assert !IsDigitChar(field[0]);
    }
    assert "-3"[0] == '-';
  }

  // ---------------------------------------------------------------------
  // The field loop of ParseFile (solver.cc:50-109)

  /** std::stoi and std::stof; None is the exception they throw on text
      that does not start with a number. */
  datatype Conversions = Conversions(stoi: string -> Option<int>, stof: string -> Option<real>)

  /** `is_ilp ? Num(std::stoi(field)) : Num(std::stof(field))`. */
  function NumberOf(field: string, t: DataType, conv: Conversions): Result<Num> {
    if t == IntegerType then
      match conv.stoi(field)
      case None => Failure("stoi: not a number")
      case Some(i) => Success(IntNum(i))
    else
      match conv.stof(field)
      case None => Failure("stof: not a number")
      case Some(x) => Success(FloatNum(x))
  }

  /** The variables the field loop updates. */
  datatype LineState = LineState(positive: bool, num: Num, added: bool, isObjective: bool,
                                 expression: Expression, constraint: Constraint, objective: OptimizationObject)

  /** Their values before the first field, for a line of type t. */
  function Start(t: DataType): LineState {
    LineState(true, OneOf(t), true, false, FromNum(ZeroOf(t)), NewConstraint(t), NewObjective(t))
  }

  /** `is_positive ? num : -num`. */
  function Signed(st: LineState): Num {
    if st.positive then st.num else Neg(st.num)
  }

  /** A number read after a sign and before any symbol becomes the
      constant when the next sign or comparison arrives. */
  function Pending(st: LineState): Expression {
    if st.added then st.expression else st.expression.(constant := Signed(st))
  }

  /** The comparison a kCompare field sets. */
  function RelationOf(field: string): EquationType {
    if field == "=" then EQ else if field == ">=" then GE else LE
  }

  /** One pass of the field loop. */
  function Step(st: LineState, field: string, t: DataType, conv: Conversions): Result<LineState> {
    match KindOf(field)
    case Failure(e) => Failure(e)
    case Success(kind) =>
      match kind
      case MinMax =>
        Success(st.(isObjective := true,
                    objective := st.objective.(expression := st.expression,
                                               optType := if field == "min" then Minimize else Maximize)))
      case Symbol =>
        Success(st.(expression := SetCoeffOf(st.expression, NamedVariable(field), Signed(st)),
                    positive := true, num := OneOf(t), added := true))
      case Number =>
        (match NumberOf(field, t, conv)
         case Failure(e) => Failure(e)
         case Success(n) => Success(st.(num := n)))
      case Compare =>
        var e := Pending(st);
        Success(st.(expression := e, constraint := st.constraint.(expression := e, equationType := RelationOf(field))))
      case Sign =>
        Success(st.(expression := Pending(st), added := false, positive := field == "+", num := OneOf(t)))
  }

  /** The field loop over fields, from st. */
  function RunFrom(st: LineState, fields: seq<string>, t: DataType, conv: Conversions): Result<LineState>
    decreases |fields|
  {
    if fields == [] then Success(st)
    else
      match RunFrom(st, fields[..|fields| - 1], t, conv)
      case Failure(e) => Failure(e)
      case Success(s) => Step(s, fields[|fields| - 1], t, conv)
  }

  /** What a line adds to a model. */
  datatype Entry = ObjectiveEntry(objective: OptimizationObject) | ConstraintEntry(constraint: Constraint)

  /** The entry of a line's fields: its objective when a `min`/`max` field
      occurred, or else its constraint compared with the number pending at
      the end of the line (solver.cc:109-120). */
  function FieldsEntry(fields: seq<string>, t: DataType, conv: Conversions): Result<Entry> {
    match RunFrom(Start(t), fields, t, conv)
    case Failure(e) => Failure(e)
    case Success(st) =>
      if st.isObjective then Success(ObjectiveEntry(st.objective))
      else Success(ConstraintEntry(st.constraint.(compare := st.num)))
  }

  function LineEntry(line: string, t: DataType, conv: Conversions): Result<Entry> {
    FieldsEntry(Split(line, ' '), t, conv)
  }

  /** Once a field fails, the line fails with it. */
  lemma {:induction false} RunFromFails(st: LineState, fields: seq<string>, i: nat, t: DataType, conv: Conversions)
    requires i <= |fields| && RunFrom(st, fields[..i], t, conv).Failure?
    ensures RunFrom(st, fields, t, conv) == RunFrom(st, fields[..i], t, conv)
    decreases |fields|
  {
    if i < |fields| {
      var n := |fields| - 1;
      assert fields[..n][..i] == fields[..i];
      RunFromFails(st, fields[..n], i, t, conv);
    } else {
      assert fields[..i] == fields;
    }
  }

  /** One line of the file (solver.cc:37-120): split it into fields and
      run the field loop over them. */
  method ParseLine(line: string, t: DataType, conv: Conversions) returns (r: Result<Entry>)
    ensures r == LineEntry(line, t, conv)
  {
    var fields := SplitFields(line, ' ');
    var constraint := NewConstraint(t);
    var expression := FromNum(ZeroOf(t));
    var obj := NewObjective(t);
    var isPositive := true;
    var num := OneOf(t);
    var added := true;
    var isOptObj := false;
    var i := 0;
    while i < |fields|
      invariant 0 <= i <= |fields|
      invariant RunFrom(Start(t), fields[..i], t, conv) ==
        Success(LineState(isPositive, num, added, isOptObj, expression, constraint, obj))
    {
      var field := fields[i];
      assert fields[..i + 1][..i] == fields[..i];
      var kind := KindOf(field);
      if kind.Failure? {
        RunFromFails(Start(t), fields, i + 1, t, conv);
        return Failure(kind.error);
      }
      match kind.value {
        case MinMax =>
          isOptObj := true;
          obj := obj.(expression := expression);
          if field == "min" {
            obj := obj.(optType := Minimize);
          } else {
            obj := obj.(optType := Maximize);
          }
        case Symbol =>
          var x := NamedVariable(field);
          expression := SetCoeffOf(expression, x, if isPositive then num else Neg(num));
          isPositive := true;
          num := OneOf(t);
          added := true;
        case Number =>
          var n := NumberOf(field, t, conv);
          if n.Failure? {
            RunFromFails(Start(t), fields, i + 1, t, conv);
            return Failure(n.error);
          }
          num := n.value;
        case Compare =>
          if !added {
            expression := expression.(constant := if isPositive then num else Neg(num));
          }
          constraint := constraint.(expression := expression);
          if field == "=" {
            constraint := constraint.(equationType := EQ);
          } else if field == ">=" {
            constraint := constraint.(equationType := GE);
          } else if field == "<=" {
            constraint := constraint.(equationType := LE);
          }
        case Sign =>
          if !added {
            expression := expression.(constant := if isPositive then num else Neg(num));
          }
          added := false;
          if field == "+" {
            isPositive := true;
          } else {
            isPositive := false;
          }
          num := OneOf(t);
      }
      i := i + 1;
    }
    assert fields[..|fields|] == fields;
    constraint := constraint.(compare := num);
    if isOptObj {
      r := Success(ObjectiveEntry(obj));
    } else {
      r := Success(ConstraintEntry(constraint));
    }
  }

  // ---------------------------------------------------------------------
  // Lines written term by term read back as those terms

  /** A term as a line writes it: a sign field, the magnitude, the name. */
  datatype WrittenTerm = WrittenTerm(negative: bool, magnitude: Num, name: string)

  function SignedOf(w: WrittenTerm): Num {
    if w.negative then Neg(w.magnitude) else w.magnitude
  }

  function TermFields(w: WrittenTerm, show: Num -> string): seq<string> {
    [if w.negative then "-" else "+", show(w.magnitude), w.name]
  }

  function TermsFields(ws: seq<WrittenTerm>, show: Num -> string): seq<string>
    decreases |ws|
  {
    if ws == [] then [] else TermsFields(ws[..|ws| - 1], show) + TermFields(ws[|ws| - 1], show)
  }

  function RelationText(rel: EquationType): string {
    match rel
    case EQ => "="
    case GE => ">="
    case LE => "<="
  }

  /** `± m1 x1 ± m2 x2 ... rel rhs`. */
  function ConstraintFields(ws: seq<WrittenTerm>, rel: EquationType, rhs: Num, show: Num -> string): seq<string> {
    TermsFields(ws, show) + [RelationText(rel), show(rhs)]
  }

  /** `± m1 x1 ± m2 x2 ... min` or `... max`. */
  function ObjectiveFields(ws: seq<WrittenTerm>, opt: OptType, show: Num -> string): seq<string> {
    TermsFields(ws, show) + [if opt == Minimize then "min" else "max"]
  }

  /** The expression the terms stand for: each name's coefficient set in
      turn, a later term of the same name replacing an earlier one. */
  function TermsExpression(ws: seq<WrittenTerm>, t: DataType): Expression
    decreases |ws|
  {
    if ws == [] then FromNum(ZeroOf(t))
    else SetCoeffOf(TermsExpression(ws[..|ws| - 1], t), NamedVariable(ws[|ws| - 1].name), SignedOf(ws[|ws| - 1]))
  }

  /** show writes n as a field that starts with a digit, holds no space,
      and that stoi or stof reads back as n. */
  predicate ReadsBack(show: Num -> string, n: Num, t: DataType, conv: Conversions) {
    var f := show(n);
    f != [] && IsDigitChar(f[0]) && ' ' !in f && NumberOf(f, t, conv) == Success(n)
  }

  predicate IsName(name: string) {
    KindOf(name) == Success(Symbol) && ' ' !in name
  }

  /** Terms a line can carry: named by symbols, with positive magnitudes
      that read back. */
  predicate Writable(ws: seq<WrittenTerm>, t: DataType, show: Num -> string, conv: Conversions) {
    forall k :: 0 <= k < |ws| ==>
      IsName(ws[k].name) && Value(ws[k].magnitude) > 0.0 && ReadsBack(show, ws[k].magnitude, t, conv)
  }

  predicate DistinctNames(ws: seq<WrittenTerm>) {
    forall i, j :: 0 <= i < j < |ws| ==> ws[i].name != ws[j].name
  }

  function NamesOf(ws: seq<WrittenTerm>): set<Variable> {
    set k | 0 <= k < |ws| :: NamedVariable(ws[k].name)
  }

  /** A term of positive magnitude stores its signed magnitude under its
      name. */
  lemma TermsExpressionSnoc(ws: seq<WrittenTerm>, t: DataType)
    requires ws != [] && Value(ws[|ws| - 1].magnitude) > 0.0
    ensures TermsExpression(ws, t).constant == TermsExpression(ws[..|ws| - 1], t).constant
    ensures TermsExpression(ws, t).coeffs ==
      TermsExpression(ws[..|ws| - 1], t).coeffs[NamedVariable(ws[|ws| - 1].name) := SignedOf(ws[|ws| - 1])]
  {
    IsZeroValue(SignedOf(ws[|ws| - 1]));
  }

  /** Terms of positive magnitude leave the constant zero and store
      exactly their names. */
  lemma {:induction false} TermsExpressionShape(ws: seq<WrittenTerm>, t: DataType)
    requires forall k :: 0 <= k < |ws| ==> Value(ws[k].magnitude) > 0.0
    ensures TermsExpression(ws, t).constant == ZeroOf(t)
    ensures TermsExpression(ws, t).coeffs.Keys == NamesOf(ws)
    decreases |ws|
  {
    if ws != [] {
      var n := |ws| - 1;
      TermsExpressionShape(ws[..n], t);
      TermsExpressionSnoc(ws, t);
      NamesOfSnoc(ws);
    }
  }

  /** With distinct names, every term's name carries its signed
      magnitude as well. */
  lemma TermsExpressionMeaning(ws: seq<WrittenTerm>, t: DataType)
    requires DistinctNames(ws)
    requires forall k :: 0 <= k < |ws| ==> Value(ws[k].magnitude) > 0.0
    ensures TermsExpression(ws, t).constant == ZeroOf(t)
    ensures TermsExpression(ws, t).coeffs.Keys == NamesOf(ws)
    ensures forall k :: 0 <= k < |ws| ==> TermsExpression(ws, t).coeffs[NamedVariable(ws[k].name)] == SignedOf(ws[k])
  {
    TermsExpressionShape(ws, t);
    forall k | 0 <= k < |ws| ensures TermsExpression(ws, t).coeffs[NamedVariable(ws[k].name)] == SignedOf(ws[k]) {
      TermsExpressionCoefficient(ws, t, k);
    }
  }

  lemma {:induction false} TermsExpressionCoefficient(ws: seq<WrittenTerm>, t: DataType, k: nat)
    requires DistinctNames(ws) && k < |ws|
    requires forall i :: 0 <= i < |ws| ==> Value(ws[i].magnitude) > 0.0
    ensures NamedVariable(ws[k].name) in TermsExpression(ws, t).coeffs
    ensures TermsExpression(ws, t).coeffs[NamedVariable(ws[k].name)] == SignedOf(ws[k])
    decreases |ws|
  {
    var n := |ws| - 1;
    TermsExpressionSnoc(ws, t);
    if k < n {
      var prev := ws[..n];
      assert prev[k] == ws[k] && ws[k].name != ws[n].name;
      TermsExpressionCoefficient(prev, t, k);
    }
  }

  lemma NamesOfSnoc(ws: seq<WrittenTerm>)
    requires ws != []
    ensures NamesOf(ws) == NamesOf(ws[..|ws| - 1]) + {NamedVariable(ws[|ws| - 1].name)}
  {
    var n := |ws| - 1;
    var prev := ws[..n];
    forall x | x in NamesOf(ws) ensures x in NamesOf(prev) + {NamedVariable(ws[n].name)} {
      var k :| 0 <= k < |ws| && x == NamedVariable(ws[k].name);
      if k < n {
        assert prev[k] == ws[k];
      }
    }
    forall x | x in NamesOf(prev) ensures x in NamesOf(ws) {
      var k :| 0 <= k < n && x == NamedVariable(prev[k].name);
      assert prev[k] == ws[k];
    }
  }

  lemma {:induction false} RunFromAppend(st: LineState, a: seq<string>, b: seq<string>, t: DataType, conv: Conversions)
    ensures RunFrom(st, a + b, t, conv) ==
      match RunFrom(st, a, t, conv)
      case Failure(e) => Failure(e)
      case Success(s) => RunFrom(s, b, t, conv)
    decreases |b|
  {
    if b == [] {
      assert a + b == a;
    } else {
      var n := |b| - 1;
      assert (a + b)[..|a + b| - 1] == a + b[..n];
      assert (a + b)[|a + b| - 1] == b[n];
      RunFromAppend(st, a, b[..n], t, conv);
    }
  }

  lemma RunFromOne(st: LineState, field: string, t: DataType, conv: Conversions)
    ensures RunFrom(st, [field], t, conv) == Step(st, field, t, conv)
  {
    assert [field][..0] == [];
  }

  /** One written term, read from a settled state, sets its coefficient
      and leaves the state settled again. */
  lemma TermRun(e: Expression, w: WrittenTerm, t: DataType, show: Num -> string, conv: Conversions)
    requires IsName(w.name) && ReadsBack(show, w.magnitude, t, conv)
    ensures RunFrom(Start(t).(expression := e), TermFields(w, show), t, conv) ==
      Success(Start(t).(expression := SetCoeffOf(e, NamedVariable(w.name), SignedOf(w))))
  {
    var f := TermFields(w, show);
    var s0 := Start(t).(expression := e);
    var s1 := s0.(added := false, positive := !w.negative, num := OneOf(t));
    var s2 := s1.(num := w.magnitude);
    var s3 := Start(t).(expression := SetCoeffOf(e, NamedVariable(w.name), SignedOf(w)));
    KindOfPartition(f[1]);
    assert Step(s0, f[0], t, conv) == Success(s1);
    assert Step(s1, f[1], t, conv) == Success(s2);
    assert Step(s2, f[2], t, conv) == Success(s3);
    assert f == [f[0]] + [f[1]] + [f[2]];
    RunFromAppend(s0, [f[0]] + [f[1]], [f[2]], t, conv);
    RunFromAppend(s0, [f[0]], [f[1]], t, conv);
    RunFromOne(s0, f[0], t, conv);
    RunFromOne(s1, f[1], t, conv);
    RunFromOne(s2, f[2], t, conv);
  }

  lemma {:induction false} TermsRun(ws: seq<WrittenTerm>, t: DataType, show: Num -> string, conv: Conversions)
    requires Writable(ws, t, show, conv)
    ensures RunFrom(Start(t), TermsFields(ws, show), t, conv) == Success(Start(t).(expression := TermsExpression(ws, t)))
    decreases |ws|
  {
    if ws == [] {
      assert Start(t).(expression := FromNum(ZeroOf(t))) == Start(t);
    } else {
      var n := |ws| - 1;
      assert Writable(ws[..n], t, show, conv);
      TermsRun(ws[..n], t, show, conv);
      RunFromAppend(Start(t), TermsFields(ws[..n], show), TermFields(ws[n], show), t, conv);
      TermRun(TermsExpression(ws[..n], t), ws[n], t, show, conv);
    }
  }

  lemma {:induction false} TermsFieldsHaveNoSpace(ws: seq<WrittenTerm>, t: DataType, show: Num -> string, conv: Conversions)
    requires Writable(ws, t, show, conv)
    ensures forall k :: 0 <= k < |TermsFields(ws, show)| ==> ' ' !in TermsFields(ws, show)[k]
    decreases |ws|
  {
    if ws != [] {
      var n := |ws| - 1;
      assert Writable(ws[..n], t, show, conv);
      TermsFieldsHaveNoSpace(ws[..n], t, show, conv);
      var a, b := TermsFields(ws[..n], show), TermFields(ws[n], show);
      forall k | 0 <= k < |a + b| ensures ' ' !in (a + b)[k] {
        if k >= |a| {
          assert (a + b)[k] == b[k - |a|];
        }
      }
    }
  }

  /** Fields without spaces, the last one not empty, split back out of
      the line that joins them. */
  lemma WrittenLineSplits(terms: seq<string>, tail: seq<string>)
    requires forall k :: 0 <= k < |terms| ==> ' ' !in terms[k]
    requires forall k :: 0 <= k < |tail| ==> ' ' !in tail[k]
    requires tail != [] && tail[|tail| - 1] != []
    ensures Split(Join(terms + tail, ' '), ' ') == terms + tail
  {
    var fields := terms + tail;
    forall k | 0 <= k < |fields| ensures ' ' !in fields[k] {
      if k < |terms| {
        assert fields[k] == terms[k];
      } else {
        assert fields[k] == tail[k - |terms|];
      }
    }
    assert fields[|fields| - 1] == tail[|tail| - 1];
    JoinSplit(fields, ' ');
  }

  /** A constraint written as signed terms, a comparison and a
      non-negative number reads back as that constraint. */
  lemma ConstraintLineRoundTrip(ws: seq<WrittenTerm>, rel: EquationType, rhs: Num, t: DataType,
                                show: Num -> string, conv: Conversions)
    requires Writable(ws, t, show, conv) && ReadsBack(show, rhs, t, conv)
    ensures LineEntry(Join(ConstraintFields(ws, rel, rhs, show), ' '), t, conv) ==
      Success(ConstraintEntry(Constraint(TermsExpression(ws, t), rhs, rel, t)))
  {
    var fields := ConstraintFields(ws, rel, rhs, show);
    var terms := TermsFields(ws, show);
    var tail := [RelationText(rel), show(rhs)];
    assert Split(Join(fields, ' '), ' ') == fields by {
      TermsFieldsHaveNoSpace(ws, t, show, conv);
      WrittenLineSplits(terms, tail);
    }
    var s0 := Start(t).(expression := TermsExpression(ws, t));
    var s1 := s0.(constraint := s0.constraint.(expression := s0.expression, equationType := rel));
    assert Step(s0, RelationText(rel), t, conv) == Success(s1) by {
      KindOfPartition(RelationText(rel));
    }
    assert Step(s1, show(rhs), t, conv) == Success(s1.(num := rhs)) by {
      KindOfPartition(show(rhs));
    }
    assert RunFrom(Start(t), terms, t, conv) == Success(s0) by {
      TermsRun(ws, t, show, conv);
    }
    assert RunFrom(Start(t), fields, t, conv) == Success(s1.(num := rhs)) by {
      RunFromAppend(Start(t), terms, tail, t, conv);
      assert tail == [RelationText(rel)] + [show(rhs)];
      RunFromAppend(s0, [RelationText(rel)], [show(rhs)], t, conv);
      RunFromOne(s0, RelationText(rel), t, conv);
      RunFromOne(s1, show(rhs), t, conv);
    }
  }

  /** An objective written as signed terms and `min` or `max` reads back
      as that objective. */
  lemma ObjectiveLineRoundTrip(ws: seq<WrittenTerm>, opt: OptType, t: DataType, show: Num -> string, conv: Conversions)
    requires Writable(ws, t, show, conv)
    ensures LineEntry(Join(ObjectiveFields(ws, opt, show), ' '), t, conv) ==
      Success(ObjectiveEntry(OptimizationObject(TermsExpression(ws, t), opt)))
  {
    var keyword := if opt == Minimize then "min" else "max";
    var fields := ObjectiveFields(ws, opt, show);
    var terms := TermsFields(ws, show);
    assert Split(Join(fields, ' '), ' ') == fields by {
      TermsFieldsHaveNoSpace(ws, t, show, conv);
      WrittenLineSplits(terms, [keyword]);
    }
    var s0 := Start(t).(expression := TermsExpression(ws, t));
    var s1 := s0.(isObjective := true, objective := OptimizationObject(s0.expression, opt));
    assert Step(s0, keyword, t, conv) == Success(s1) by {
      KindOfPartition(keyword);
    }
    assert RunFrom(Start(t), terms, t, conv) == Success(s0) by {
      TermsRun(ws, t, show, conv);
    }
    assert RunFrom(Start(t), fields, t, conv) == Success(s1) by {
      RunFromAppend(Start(t), terms, [keyword], t, conv);
      RunFromOne(s0, keyword, t, conv);
    }
  }

  // ---------------------------------------------------------------------
  // How some lines read

  /** A number before the first sign is never stored: `3 + x >= 5` reads
      as `x >= 5`, while `x + 3 >= 5` keeps the constant 3. */
  lemma LeadingConstantDropped(conv: Conversions)
    requires conv.stof("3") == Some(3.0) && conv.stof("5") == Some(5.0)
    ensures FieldsEntry(["3", "+", "x", ">=", "5"], FloatType, conv) ==
      Success(ConstraintEntry(Constraint(Expression(map[NamedVariable("x") := FloatOne], FloatZero), FloatNum(5.0), GE, FloatType)))
    ensures FieldsEntry(["x", "+", "3", ">=", "5"], FloatType, conv) ==
      Success(ConstraintEntry(Constraint(Expression(map[NamedVariable("x") := FloatOne], FloatNum(3.0)), FloatNum(5.0), GE, FloatType)))
  {
    var t := FloatType;
    var s0 := Start(t);
    var s1 := s0.(num := FloatNum(3.0));
    var s2 := s1.(added := false, positive := true, num := FloatOne);
    var e := SetCoeffOf(s0.expression, NamedVariable("x"), FloatOne);
    var s3 := s2.(expression := e, added := true);
    var s4 := s3.(constraint := s3.constraint.(expression := e, equationType := GE));
    var s5 := s4.(num := FloatNum(5.0));
    KindOfPartition("3");
    KindOfPartition("5");
    KindOfPartition("x");
    assert Step(s0, "3", t, conv) == Success(s1);
    assert Step(s1, "+", t, conv) == Success(s2);
    assert Step(s2, "x", t, conv) == Success(s3);
    assert Step(s3, ">=", t, conv) == Success(s4);
    assert Step(s4, "5", t, conv) == Success(s5);
    StepsRun(s0, ["3", "+", "x", ">=", "5"], [s1, s2, s3, s4, s5], t, conv);
    assert e == Expression(map[NamedVariable("x") := FloatOne], FloatZero);

    var r1 := s0.(expression := e);
    var r2 := r1.(added := false, positive := true, num := FloatOne);
    var r3 := r2.(num := FloatNum(3.0));
    var e3 := e.(constant := FloatNum(3.0));
    var r4 := r3.(expression := e3, constraint := r3.constraint.(expression := e3, equationType := GE));
    var r5 := r4.(num := FloatNum(5.0));
    assert Step(s0, "x", t, conv) == Success(r1);
    assert Step(r1, "+", t, conv) == Success(r2);
    assert Step(r2, "3", t, conv) == Success(r3);
    assert Step(r3, ">=", t, conv) == Success(r4);
    assert Step(r4, "5", t, conv) == Success(r5);
    StepsRun(s0, ["x", "+", "3", ">=", "5"], [r1, r2, r3, r4, r5], t, conv);
  }

  /** A name repeated on a line keeps its last coefficient:
      `x + 2 x >= 1` reads as `2 x >= 1`. */
  lemma RepeatedSymbolOverwrites(conv: Conversions)
    requires conv.stof("2") == Some(2.0) && conv.stof("1") == Some(1.0)
    ensures FieldsEntry(["x", "+", "2", "x", ">=", "1"], FloatType, conv) ==
      Success(ConstraintEntry(Constraint(Expression(map[NamedVariable("x") := FloatNum(2.0)], FloatZero), FloatNum(1.0), GE, FloatType)))
  {
    var t := FloatType;
    var x := NamedVariable("x");
    var s0 := Start(t);
    var e1 := SetCoeffOf(s0.expression, x, FloatOne);
    var s1 := s0.(expression := e1);
    var s2 := s1.(added := false, positive := true, num := FloatOne);
    var s3 := s2.(num := FloatNum(2.0));
    var e4 := SetCoeffOf(e1, x, FloatNum(2.0));
    var s4 := s3.(expression := e4, added := true, num := FloatOne);
    var s5 := s4.(constraint := s4.constraint.(expression := e4, equationType := GE));
    var s6 := s5.(num := FloatNum(1.0));
    KindOfPartition("2");
    KindOfPartition("1");
    KindOfPartition("x");
    assert Step(s0, "x", t, conv) == Success(s1);
    assert Step(s1, "+", t, conv) == Success(s2);
    assert Step(s2, "2", t, conv) == Success(s3);
    assert Step(s3, "x", t, conv) == Success(s4);
    assert Step(s4, ">=", t, conv) == Success(s5);
    assert Step(s5, "1", t, conv) == Success(s6);
    StepsRun(s0, ["x", "+", "2", "x", ">=", "1"], [s1, s2, s3, s4, s5, s6], t, conv);
    assert e4 == Expression(map[x := FloatNum(2.0)], FloatZero);
  }

  /** The objective takes the expression parsed before its keyword:
      `max x` maximises zero, not x. */
  lemma KeywordFirstObjective(conv: Conversions)
    ensures FieldsEntry(["max", "x"], FloatType, conv) ==
      Success(ObjectiveEntry(OptimizationObject(FromNum(FloatZero), Maximize)))
  {
    var t := FloatType;
    var s0 := Start(t);
    var s1 := s0.(isObjective := true, objective := OptimizationObject(FromNum(FloatZero), Maximize));
    var s2 := s1.(expression := SetCoeffOf(s0.expression, NamedVariable("x"), FloatOne));
    KindOfPartition("x");
    assert Step(s0, "max", t, conv) == Success(s1);
    assert Step(s1, "x", t, conv) == Success(s2);
    StepsRun(s0, ["max", "x"], [s1, s2], t, conv);
  }

  /** A run whose every step succeeds ends in the last state. */
  lemma {:induction false} StepsRun(st: LineState, fields: seq<string>, states: seq<LineState>, t: DataType, conv: Conversions)
    requires |states| == |fields| > 0
    requires Step(st, fields[0], t, conv) == Success(states[0])
    requires forall k :: 0 < k < |fields| ==> Step(states[k - 1], fields[k], t, conv) == Success(states[k])
    ensures RunFrom(st, fields, t, conv) == Success(states[|states| - 1])
    decreases |fields|
  {
    var n := |fields| - 1;
    if n == 0 {
      RunFromOne(st, fields[0], t, conv);
    } else {
      StepsRun(st, fields[..n], states[..n], t, conv);
    }
  }

  // ---------------------------------------------------------------------
  // ParseFile (solver.cc:27-124)

  const ObjectiveConstantError: string := "assertion failed: objective constant is not zero"

  /** What the lines push into a model: the constraints in order, and the
      objective of the last objective line, if any. */
  datatype Loaded = Loaded(constraints: seq<Constraint>, objective: Option<OptimizationObject>)

  /** The lines after the first, read in order; a failing line, or an
      objective whose constant is not the zero of t (the assertion of
      SetOptimizationObject), ends the run. */
  function Load(lines: seq<string>, t: DataType, conv: Conversions): Result<Loaded>
    decreases |lines|
  {
    if lines == [] then Success(Loaded([], None))
    else
      match Load(lines[..|lines| - 1], t, conv)
      case Failure(e) => Failure(e)
      case Success(d) =>
        match LineEntry(lines[|lines| - 1], t, conv)
        case Failure(e) => Failure(e)
        case Success(entry) => Push(d, entry, t)
  }

  /** One parsed line pushed into what was loaded so far. */
  function Push(d: Loaded, entry: Entry, t: DataType): Result<Loaded> {
    match entry
    case ObjectiveEntry(o) =>
      if o.expression.constant == ZeroOf(t) then Success(d.(objective := Some(o))) else Failure(ObjectiveConstantError)
    case ConstraintEntry(c) => Success(d.(constraints := d.constraints + [c]))
  }

  function Lines(text: string): seq<string> {
    Split(text, '\n')
  }

  /** Only a first line that is exactly `int` makes the file an ILP. */
  predicate IsIntegerText(text: string) {
    |Lines(text)| > 0 && Lines(text)[0] == "int"
  }

  function TypeOfText(text: string): DataType {
    if IsIntegerText(text) then IntegerType else FloatType
  }

  /** The first line is consumed whatever it holds. */
  function BodyLines(text: string): seq<string> {
    if |Lines(text)| == 0 then [] else Lines(text)[1..]
  }

  function Chosen(previous: OptimizationObject, o: Option<OptimizationObject>): OptimizationObject {
    if o.Some? then o.value else previous
  }

  /** The header line decides the type and is never parsed: any line
      other than `int`, such as an objective, is dropped. */
  lemma HeaderLine(first: string, rest: string)
    requires '\n' !in first
    ensures BodyLines(first + "\n" + rest) == Lines(rest)
    ensures IsIntegerText(first + "\n" + rest) <==> first == "int"
  {
    SplitFirst(first, '\n', rest);
  }

  lemma {:induction false} LoadFails(lines: seq<string>, i: nat, t: DataType, conv: Conversions)
    requires i <= |lines| && Load(lines[..i], t, conv).Failure?
    ensures Load(lines, t, conv) == Load(lines[..i], t, conv)
    decreases |lines|
  {
    if i < |lines| {
      var n := |lines| - 1;
      assert lines[..n][..i] == lines[..i];
      LoadFails(lines[..n], i, t, conv);
    } else {
      assert lines[..i] == lines;
    }
  }

  /** The chosen model holds what its state was before the file plus
      what has been loaded; the other model is as it was. */
  ghost predicate Mirrors(lpModel: LPModel, ilpModel: ILPModel, isIlp: bool, lp0: Form,
                          ilpConstraints0: seq<Constraint>, ilpObjective0: OptimizationObject, d: Loaded)
    reads lpModel, ilpModel
  {
    if isIlp then
      lpModel.State() == lp0 &&
      ilpModel.constraints == ilpConstraints0 + d.constraints &&
      ilpModel.objective == Chosen(ilpObjective0, d.objective)
    else
      ilpModel.constraints == ilpConstraints0 && ilpModel.objective == ilpObjective0 &&
      lpModel.State() == lp0.(constraints := lp0.constraints + d.constraints,
                              objective := Chosen(lp0.objective, d.objective))
  }

  lemma LoadSnoc(lines: seq<string>, i: nat, t: DataType, conv: Conversions)
    requires i < |lines|
    ensures Load(lines[..i + 1], t, conv) ==
      match Load(lines[..i], t, conv)
      case Failure(e) => Failure(e)
      case Success(d) =>
        match LineEntry(lines[i], t, conv)
        case Failure(e) => Failure(e)
        case Success(entry) => Push(d, entry, t)
  {
    assert lines[..i + 1][..i] == lines[..i] && lines[..i + 1][i] == lines[i];
  }

  /** ParseFile: the first line chooses LP or ILP, every later line is
      parsed and pushed into the chosen model, and the other model is left
      alone; it answers whether the file was an ILP. */
  method ParseFile(text: string, lpModel: LPModel, ilpModel: ILPModel, conv: Conversions) returns (r: Result<bool>)
    modifies lpModel, ilpModel
    ensures r.Failure? <==> Load(BodyLines(text), TypeOfText(text), conv).Failure?
    ensures r.Success? ==> r.value == IsIntegerText(text)
    ensures r.Success? ==>
      Mirrors(lpModel, ilpModel, r.value, old(lpModel.State()), old(ilpModel.constraints), old(ilpModel.objective),
              Load(BodyLines(text), TypeOfText(text), conv).value)
  {
    var lines := SplitFields(text, '\n');
    var isIlp := false;
    var line := if |lines| > 0 then lines[0] else "";
    if line == "int" {
      isIlp := true;
    }
    var t := if isIlp then IntegerType else FloatType;
    var body := if |lines| > 0 then lines[1..] else [];
    assert t == TypeOfText(text) && body == BodyLines(text);
    ghost var lp0, ilpConstraints0, ilpObjective0 := lpModel.State(), ilpModel.constraints, ilpModel.objective;
    ghost var d := Loaded([], None);
    assert body[..0] == [];
    var i := 0;
    while i < |body|
      invariant 0 <= i <= |body|
      invariant Load(body[..i], t, conv) == Success(d)
      invariant Mirrors(lpModel, ilpModel, isIlp, lp0, ilpConstraints0, ilpObjective0, d)
    {
      var failed;
      failed, d := LoadLine(body, i, t, conv, lpModel, ilpModel, isIlp, lp0, ilpConstraints0, ilpObjective0, d);
      if failed.Some? {
        return Failure(failed.value);
      }
      i := i + 1;
    }
    assert body[..|body|] == body;
    return Success(isIlp);
  }

  /** One pass of the loop of solver.cc:50-122: line i parsed and its
      entry pushed, or the error that ends the file. */
  method LoadLine(body: seq<string>, i: nat, t: DataType, conv: Conversions, lpModel: LPModel, ilpModel: ILPModel,
                  isIlp: bool, ghost lp0: Form, ghost ilpConstraints0: seq<Constraint>,
                  ghost ilpObjective0: OptimizationObject, ghost d: Loaded)
    returns (failed: Option<string>, ghost dAfter: Loaded)
    requires i < |body| && t == if isIlp then IntegerType else FloatType
    requires Load(body[..i], t, conv) == Success(d)
    requires Mirrors(lpModel, ilpModel, isIlp, lp0, ilpConstraints0, ilpObjective0, d)
    modifies lpModel, ilpModel
    ensures failed.Some? ==> Load(body, t, conv) == Failure(failed.value)
    ensures failed.None? ==>
      Load(body[..i + 1], t, conv) == Success(dAfter) &&
      Mirrors(lpModel, ilpModel, isIlp, lp0, ilpConstraints0, ilpObjective0, dAfter)
  {
    dAfter := d;
    var entry := ParseLine(body[i], t, conv);
    LoadSnoc(body, i, t, conv);
    if entry.Failure? {
      LoadFails(body, i + 1, t, conv);
      return Some(entry.error), d;
    }
    var ok := PushInto(lpModel, ilpModel, isIlp, t, entry.value, lp0, ilpConstraints0, ilpObjective0, d);
    if !ok {
      LoadFails(body, i + 1, t, conv);
      return Some(ObjectiveConstantError), d;
    }
    failed, dAfter := None, Push(d, entry.value, t).value;
  }

  /** One line's entry pushed into the chosen model (solver.cc:110-121). */
  method PushInto(lpModel: LPModel, ilpModel: ILPModel, isIlp: bool, t: DataType, entry: Entry,
                  ghost lp0: Form, ghost ilpConstraints0: seq<Constraint>, ghost ilpObjective0: OptimizationObject,
                  ghost d: Loaded) returns (ok: bool)
    requires t == if isIlp then IntegerType else FloatType
    requires Mirrors(lpModel, ilpModel, isIlp, lp0, ilpConstraints0, ilpObjective0, d)
    modifies lpModel, ilpModel
    ensures ok <==> Push(d, entry, t).Success?
    ensures ok ==> Mirrors(lpModel, ilpModel, isIlp, lp0, ilpConstraints0, ilpObjective0, Push(d, entry, t).value)
  {
    match entry {
      case ObjectiveEntry(obj) =>
        if isIlp {
          ok := ilpModel.SetOptimizationObject(obj);
        } else {
          ok := lpModel.SetOptimizationObject(obj);
        }
      case ConstraintEntry(c) =>
        if isIlp {
          ilpModel.AddConstraint(c);
        } else {
          lpModel.AddConstraint(c);
        }
        assert lp0.constraints + (d.constraints + [c]) == lp0.constraints + d.constraints + [c];
        assert ilpConstraints0 + (d.constraints + [c]) == ilpConstraints0 + d.constraints + [c];
        ok := true;
    }
  }
}
