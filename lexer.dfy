/** The character-level lexer of the text LP format (parser.cc
    Lexer::Scan, IsLetter, IsDigit). */
module Lexing {
  import opened Wrappers
  import opened Tokens

  /** Lexer::IsLetter (parser.cc:124-126). */
  predicate IsLetter(c: char) {
    ('a' <= c <= 'z') || ('A' <= c <= 'Z') || c == '_'
  }

  /** Lexer::IsDigit (parser.cc:128). */
  predicate IsDigit(c: char) {
    '0' <= c <= '9'
  }

  /** Characters that only close a pending token. */
  predicate IsBlank(c: char) {
    c == '\0' || c == ' ' || c == '\t'
  }

  /** Characters that make a one-character (or, for > and <, two-character)
      token of their own. */
  predicate IsOperatorChar(c: char) {
    c == '+' || c == '-' || c == '*' || c == '>' || c == '<' || c == '=' || c == ','
  }

  /** Characters a NUM or VAR token is made of. */
  predicate IsWordChar(c: char) {
    IsLetter(c) || IsDigit(c) || c == '.'
  }

  predicate IsRecognized(c: char) {
    c == '\n' || IsBlank(c) || IsWordChar(c) || IsOperatorChar(c)
  }

  /** `[A-Za-z_][A-Za-z_0-9]*`, the grammar parser.h:11 documents. */
  predicate IsIdentifier(s: string) {
    |s| > 0 && IsLetter(s[0]) && forall i :: 1 <= i < |s| ==> IsLetter(s[i]) || IsDigit(s[i])
  }

  /** A run of digits and dots. */
  predicate IsNumeral(s: string) {
    |s| > 0 && forall i :: 0 <= i < |s| ==> IsDigit(s[i]) || s[i] == '.'
  }

  predicate IsKeyword(s: string) {
    s == "max" || s == "MAX" || s == "min" || s == "MIN" || s == "st" || s == "ST"
  }

  predicate IsWordType(t: TokenType) {
    t == Var || t == NumTok || t == Max || t == Min || t == St
  }

  /** The text a token of each type may carry before keywords are retyped. */
  predicate RawFits(t: TokenType, s: string) {
    match t
    case Var => IsIdentifier(s)
    case NumTok => IsNumeral(s)
    case AddTok => s == "+"
    case SubTok => s == "-"
    case MulTok => s == "*"
    case GeTok => s == ">="
    case LeTok => s == "<="
    case EqTok => s == "="
    case Comma => s == ","
    case Eol => s == "\n"
    case _ => false
  }

  /** The text a token of each type carries in Scan's result. */
  predicate Fits(t: TokenType, s: string) {
    match t
    case Var => IsIdentifier(s) && !IsKeyword(s)
    case Max => s == "max" || s == "MAX"
    case Min => s == "min" || s == "MIN"
    case St => s == "st" || s == "ST"
    case Unknown => false
    case _ => RawFits(t, s)
  }

  /** Where the run of word characters that ends at j begins. */
  function RunStart(input: string, j: nat): (s: nat)
    requires j < |input| && IsWordChar(input[j])
    ensures s <= j && IsWordChar(input[s])
    ensures s == 0 || !IsWordChar(input[s - 1])
    ensures forall i :: s <= i <= j ==> IsWordChar(input[i])
  {
    if j > 0 && IsWordChar(input[j - 1]) then RunStart(input, j - 1) else j
  }

  /** The input position j makes Scan fail: an unrecognised symbol
      (parser.cc:95-96), a `>` or `<` not followed by `=` (parser.cc:72-73,
      79-80), a letter right after a number (parser.cc:37-38) or a `.`
      inside a name (parser.cc:48). */
  predicate Bad(input: string, j: nat)
    requires j < |input|
  {
    var c := input[j];
    !IsRecognized(c) ||
    ((c == '>' || c == '<') && (j + 1 == |input| || input[j + 1] != '=')) ||
    (IsLetter(c) && j > 0 && IsWordChar(input[j - 1]) && !IsLetter(input[RunStart(input, j - 1)])) ||
    (c == '.' && j > 0 && IsWordChar(input[j - 1]) && IsLetter(input[RunStart(input, j - 1)]))
  }

  /** Every character in input[a..b) is blank. */
  predicate AllBlank(input: string, a: int, b: int)
    requires 0 <= a <= b <= |input|
  {
    forall j :: a <= j < b ==> IsBlank(input[j])
  }

  /** The gap before token k, or after the last token when k == |toks|,
      begins at GapStart and ends at GapEnd. */
  function GapStart(toks: seq<Token>, k: int): int
    requires 0 <= k <= |toks|
  {
    if k == 0 then 0 else toks[k - 1].end
  }

  function GapEnd(toks: seq<Token>, k: int, limit: int): int
    requires 0 <= k <= |toks|
  {
    if k == |toks| then limit else toks[k].start
  }

  /** Token t carries the text of input[t.start..t.end], inside
      input[..limit]; a NUM or VAR token begins where its run of word
      characters begins. */
  predicate Spans(input: string, t: Token, limit: int) {
    0 <= t.start < t.end <= limit <= |input| && t.lexim == input[t.start..t.end] &&
    (IsWordType(t.ttype) ==> t.start == 0 || !IsWordChar(input[t.start - 1]))
  }

  predicate AllSpan(input: string, limit: int, toks: seq<Token>) {
    forall k :: 0 <= k < |toks| ==> Spans(input, toks[k], limit)
  }

  predicate GapsBlank(input: string, limit: int, toks: seq<Token>) {
    forall k :: 0 <= k <= |toks| ==>
      0 <= GapStart(toks, k) <= GapEnd(toks, k, limit) <= limit <= |input| &&
      AllBlank(input, GapStart(toks, k), GapEnd(toks, k, limit))
  }

  /** input[..limit] is the texts of toks, in order, separated by blanks
      and nothing else. */
  predicate Lexed(input: string, limit: int, toks: seq<Token>) {
    0 <= limit <= |input| && AllSpan(input, limit, toks) && GapsBlank(input, limit, toks)
  }

  predicate AllRawFit(toks: seq<Token>) {
    forall k :: 0 <= k < |toks| ==> RawFits(toks[k].ttype, toks[k].lexim)
  }

  predicate AllFit(toks: seq<Token>) {
    forall k :: 0 <= k < |toks| ==> Fits(toks[k].ttype, toks[k].lexim)
  }

  /** What Scan promises about a successful result. */
  predicate WellLexed(input: string, toks: seq<Token>) {
    Lexed(input, |input|, toks) && AllFit(toks)
  }

  predicate EolAt(toks: seq<Token>, j: int) {
    exists k :: 0 <= k < |toks| && toks[k].ttype == Eol && toks[k].start == j
  }

  predicate Covered(toks: seq<Token>, j: int) {
    exists k :: 0 <= k < |toks| && toks[k].start <= j < toks[k].end
  }

  /** Character j, at or after the gap before token k, is blank or lies in
      token k or a later one. */
  lemma {:induction false} CoveredFrom(input: string, limit: int, toks: seq<Token>, j: int, k: int)
    requires Lexed(input, limit, toks) && 0 <= j < limit
    requires 0 <= k <= |toks| && GapStart(toks, k) <= j
    ensures IsBlank(input[j]) || exists i :: k <= i < |toks| && toks[i].start <= j < toks[i].end
    decreases |toks| - k
  {
    if j < GapEnd(toks, k, limit) {
      assert AllBlank(input, GapStart(toks, k), GapEnd(toks, k, limit));
    } else if j >= toks[k].end {
      assert GapStart(toks, k + 1) == toks[k].end;
      CoveredFrom(input, limit, toks, j, k + 1);
    }
  }

  /** Only an EOL token holds a newline, and it holds nothing else. */
  lemma NewlineOnlyInEol(t: TokenType, s: string, i: int)
    requires Fits(t, s) && 0 <= i < |s| && s[i] == '\n'
    ensures t == Eol && s == "\n"
  {
  }

  /** A lexed input leaves no character out: every character that is not
      blank lies in a token, and every newline is an EOL token of its own. */
  lemma LexedCovers(input: string, toks: seq<Token>)
    requires WellLexed(input, toks)
    ensures forall j :: 0 <= j < |input| && !IsBlank(input[j]) ==> Covered(toks, j)
    ensures forall j :: 0 <= j < |input| && input[j] == '\n' ==> EolAt(toks, j)
  {
    forall j | 0 <= j < |input| && !IsBlank(input[j]) ensures Covered(toks, j) {
      CoveredFrom(input, |input|, toks, j, 0);
    }
    forall j | 0 <= j < |input| && input[j] == '\n' ensures EolAt(toks, j) {
      CoveredFrom(input, |input|, toks, j, 0);
      var k :| 0 <= k < |toks| && toks[k].start <= j < toks[k].end;
      assert Spans(input, toks[k], |input|);
      assert toks[k].lexim[j - toks[k].start] == '\n';
      NewlineOnlyInEol(toks[k].ttype, toks[k].lexim, j - toks[k].start);
    }
  }

  // ---------------------------------------------------------------------
  // How the lexed prefix grows

  lemma LexedBlank(input: string, limit: int, toks: seq<Token>)
    requires Lexed(input, limit, toks) && limit < |input| && IsBlank(input[limit])
    ensures Lexed(input, limit + 1, toks)
  {
    forall k | 0 <= k <= |toks|
      ensures 0 <= GapStart(toks, k) <= GapEnd(toks, k, limit + 1) <= limit + 1 <= |input|
      ensures AllBlank(input, GapStart(toks, k), GapEnd(toks, k, limit + 1))
    {
      assert AllBlank(input, GapStart(toks, k), GapEnd(toks, k, limit));
    }
  }

  /** A token appended right where the lexed prefix ends. */
  lemma LexedAppend(input: string, limit: int, toks: seq<Token>, t: Token)
    requires Lexed(input, limit, toks) && t.start == limit && Spans(input, t, t.end)
    ensures Lexed(input, t.end, toks + [t])
  {
    var ts := toks + [t];
    forall k | 0 <= k < |ts| ensures Spans(input, ts[k], t.end) {
      if k < |toks| {
        assert ts[k] == toks[k];
      }
    }
    forall k | 0 <= k <= |ts|
      ensures 0 <= GapStart(ts, k) <= GapEnd(ts, k, t.end) <= t.end <= |input|
      ensures AllBlank(input, GapStart(ts, k), GapEnd(ts, k, t.end))
    {
      if k <= |toks| {
        assert GapStart(ts, k) == GapStart(toks, k);
        assert GapEnd(ts, k, t.end) == GapEnd(toks, k, limit);
      }
    }
  }

  /** The last token, whose text ends where the lexed prefix ends, grows by
      one character. */
  lemma LexedExtend(input: string, ret: seq<Token>, tt: TokenType, s: int, limit: int)
    requires 0 <= s < limit < |input|
    requires Lexed(input, limit, ret + [Token(tt, input[s..limit], s, limit)])
    ensures Lexed(input, limit + 1, ret + [Token(tt, input[s..limit + 1], s, limit + 1)])
  {
    var old_ := ret + [Token(tt, input[s..limit], s, limit)];
    var ts := ret + [Token(tt, input[s..limit + 1], s, limit + 1)];
    forall k | 0 <= k < |ts| ensures Spans(input, ts[k], limit + 1) {
      if k < |ret| {
        assert ts[k] == old_[k];
      } else {
        assert Spans(input, old_[k], limit);
      }
    }
    forall k | 0 <= k <= |ts|
      ensures 0 <= GapStart(ts, k) <= GapEnd(ts, k, limit + 1) <= limit + 1 <= |input|
      ensures AllBlank(input, GapStart(ts, k), GapEnd(ts, k, limit + 1))
    {
      if k < |ts| {
        assert GapStart(ts, k) == GapStart(old_, k);
        assert GapEnd(ts, k, limit + 1) == GapEnd(old_, k, limit);
      }
    }
  }

  lemma IdentifierExtend(s: string, c: char)
    requires IsIdentifier(s) && (IsLetter(c) || IsDigit(c))
    ensures IsIdentifier(s + [c])
  {
  }

  lemma NumeralExtend(s: string, c: char)
    requires IsNumeral(s) && (IsDigit(c) || c == '.')
    ensures IsNumeral(s + [c])
  {
  }

  lemma AllRawFitAppend(toks: seq<Token>, t: Token)
    requires AllRawFit(toks) && RawFits(t.ttype, t.lexim)
    ensures AllRawFit(toks + [t])
  {
    forall k | 0 <= k < |toks| + 1 ensures RawFits((toks + [t])[k].ttype, (toks + [t])[k].lexim) {
      if k < |toks| {
        assert (toks + [t])[k] == toks[k];
      }
    }
  }

  // ---------------------------------------------------------------------
  // Scan

  /** The token list with the pending NUM or VAR token closed at cur. */
  function Closed(input: string, ret: seq<Token>, next: Token, cur: int): seq<Token>
    requires next.ttype != Unknown ==> 0 <= next.start <= cur <= |input|
  {
    if next.ttype == Unknown then ret
    else ret + [Token(next.ttype, input[next.start..cur], next.start, cur)]
  }

  /** No position before cur makes Scan fail. */
  predicate Clean(input: string, cur: int)
    requires 0 <= cur <= |input|
  {
    forall j :: 0 <= j < cur ==> !Bad(input, j)
  }

  /** Scan's pending token: none right after a character that ends a word,
      else a NUM or VAR token opened where the current run of word
      characters began, a VAR exactly when that run begins with a letter. */
  predicate PendingOk(input: string, cur: int, next: Token)
    requires 0 <= cur <= |input|
  {
    if next.ttype == Unknown then
      next == UnknownToken && (cur == 0 || !IsWordChar(input[cur - 1]))
    else
      (next.ttype == Var || next.ttype == NumTok) && next.lexim == "" && next.end == -1 &&
      0 < cur && IsWordChar(input[cur - 1]) && next.start == RunStart(input, cur - 1) &&
      (next.ttype == Var <==> IsLetter(input[next.start]))
  }

  /** What holds between the characters Scan has consumed and its state. */
  predicate Scanning(input: string, cur: int, ret: seq<Token>, next: Token) {
    0 <= cur <= |input| && Clean(input, cur) && PendingOk(input, cur, next) &&
    Lexed(input, cur, Closed(input, ret, next, cur)) && AllRawFit(Closed(input, ret, next, cur))
  }

  /** A token that is not a word, pushed right where the scanned prefix ends. */
  lemma ScanningPush(input: string, cur: int, ts: seq<Token>, t: Token)
    requires 0 <= cur <= |input| && Lexed(input, cur, ts) && AllRawFit(ts) && Clean(input, cur)
    requires t.start == cur && Spans(input, t, t.end) && RawFits(t.ttype, t.lexim)
    requires t.ttype != Var && t.ttype != NumTok
    requires forall j :: cur <= j < t.end ==> !Bad(input, j)
    ensures Scanning(input, t.end, ts + [t], UnknownToken)
  {
    LexedAppend(input, cur, ts, t);
    AllRawFitAppend(ts, t);
    assert input[t.end - 1] == t.lexim[|t.lexim| - 1];
  }

  /** A blank closes the pending token and is skipped. */
  lemma ScanningBlank(input: string, cur: int, ts: seq<Token>)
    requires 0 <= cur < |input| && Lexed(input, cur, ts) && AllRawFit(ts) && Clean(input, cur)
    requires IsBlank(input[cur])
    ensures Scanning(input, cur + 1, ts, UnknownToken)
  {
    LexedBlank(input, cur, ts);
  }

  /** A word character with no pending token opens one. */
  lemma ScanningStart(input: string, cur: int, ret: seq<Token>, tt: TokenType)
    requires Scanning(input, cur, ret, UnknownToken) && cur < |input| && IsWordChar(input[cur])
    requires !Bad(input, cur) && tt == (if IsLetter(input[cur]) then Var else NumTok)
    ensures Scanning(input, cur + 1, ret, Token(tt, "", cur, -1))
  {
    var t := Token(tt, input[cur..cur + 1], cur, cur + 1);
    LexedAppend(input, cur, ret, t);
    AllRawFitAppend(ret, t);
  }

  /** A word character that continues the pending token. */
  lemma ScanningExtend(input: string, cur: int, ret: seq<Token>, next: Token)
    requires Scanning(input, cur, ret, next) && next.ttype != Unknown
    requires cur < |input| && IsWordChar(input[cur]) && !Bad(input, cur)
    ensures Scanning(input, cur + 1, ret, next)
  {
    var s := next.start;
    LexedExtend(input, ret, next.ttype, s, cur);
    var before := Token(next.ttype, input[s..cur], s, cur);
    var after := Token(next.ttype, input[s..cur + 1], s, cur + 1);
    assert (ret + [before])[|ret|] == before;
    assert input[s..cur + 1] == input[s..cur] + [input[cur]];
    if next.ttype == Var {
      IdentifierExtend(input[s..cur], input[cur]);
    } else {
      NumeralExtend(input[s..cur], input[cur]);
    }
    forall k | 0 <= k < |ret| + 1 ensures RawFits((ret + [after])[k].ttype, (ret + [after])[k].lexim) {
      if k < |ret| {
        assert (ret + [after])[k] == (ret + [before])[k];
      }
    }
  }

  /** `if (next_tk != kUnknownTk) { ... ret.push_back(next_tk); }`: close
      the pending token at cur. */
  method Flush(input: string, cur: int, ret: seq<Token>, next: Token) returns (r: seq<Token>)
    requires next.ttype == Unknown ==> next == UnknownToken
    requires next.ttype != Unknown ==> 0 <= next.start <= cur <= |input|
    ensures r == Closed(input, ret, next, cur)
  {
    r := ret;
    if TokenNotEquals(next, UnknownToken) {
      var closed := next.(lexim := input[next.start..cur], end := cur);
      r := r + [closed];
    }
  }

  /** The token an operator character starts (parser.cc:50-91); `>` and `<`
      need a `=` after them. */
  method OperatorToken(input: string, cur: int) returns (r: Result<Token>)
    requires 0 <= cur < |input| && IsOperatorChar(input[cur])
    ensures r.Success? ==> var t := r.value;
      t.start == cur && Spans(input, t, t.end) && RawFits(t.ttype, t.lexim) &&
      t.ttype != Var && t.ttype != NumTok && forall j :: cur <= j < t.end ==> !Bad(input, j)
    ensures r.Failure? <==> Bad(input, cur)
  {
    var c := input[cur];
    assert input[cur..cur + 1] == [c];
    if c == '+' {
      r := Success(Token(AddTok, "+", cur, cur + 1));
    } else if c == '-' {
      r := Success(Token(SubTok, "-", cur, cur + 1));
    } else if c == '*' {
      r := Success(Token(MulTok, "*", cur, cur + 1));
    } else if c == '>' || c == '<' {
      if !(cur + 1 < |input|) {
        return Failure("assertion failed: cur + 1 < input.size()");
      }
      if input[cur + 1] != '=' {
        return Failure("assertion failed: input[cur + 1] == '='");
      }
      var t := if c == '>' then Token(GeTok, ">=", cur, cur + 2) else Token(LeTok, "<=", cur, cur + 2);
      assert input[cur..cur + 2] == [c, '='];
      assert !Bad(input, cur + 1);
      r := Success(t);
    } else if c == '=' {
      r := Success(Token(EqTok, "=", cur, cur + 1));
    } else {
      r := Success(Token(Comma, ",", cur, cur + 1));
    }
  }

  /** A letter, digit or dot: open or continue the pending token
      (parser.cc:34-49). A letter after a number, or a dot inside a name,
      fails. */
  method ScanWordChar(input: string, cur: int, ret: seq<Token>, next: Token) returns (r: Result<Token>)
    requires Scanning(input, cur, ret, next) && cur < |input| && IsWordChar(input[cur])
    ensures r.Success? ==> Scanning(input, cur + 1, ret, r.value)
    ensures r.Failure? <==> Bad(input, cur)
  {
    var c := input[cur];
    if IsLetter(c) {
      if TokenEquals(next, UnknownToken) {
        ScanningStart(input, cur, ret, Var);
        return Success(Token(Var, "", cur, -1));
      } else if next.ttype == NumTok {
        return Failure("cannot concat num + var");
      }
    } else if IsDigit(c) {
      if TokenEquals(next, UnknownToken) {
        ScanningStart(input, cur, ret, NumTok);
        return Success(Token(NumTok, "", cur, -1));
      }
    } else {
      if TokenEquals(next, UnknownToken) {
        ScanningStart(input, cur, ret, NumTok);
        return Success(Token(NumTok, "", cur, -1));
      } else if next.ttype != NumTok {
        return Failure("assertion failed: next_tk.type == Token::NUM");
      }
    }
    ScanningExtend(input, cur, ret, next);
    return Success(next);
  }

  /** Retypes VAR tokens spelled max/MAX, min/MIN, st/ST (parser.cc:108-120). */
  function Retyped(t: Token): (r: Token)
    ensures r.lexim == t.lexim && r.start == t.start && r.end == t.end
    ensures RawFits(t.ttype, t.lexim) ==> Fits(r.ttype, r.lexim) && IsWordType(r.ttype) == IsWordType(t.ttype)
  {
    if t.ttype != Var then t
    else if t.lexim == "MAX" || t.lexim == "max" then t.(ttype := Max)
    else if t.lexim == "MIN" || t.lexim == "min" then t.(ttype := Min)
    else if t.lexim == "ST" || t.lexim == "st" then t.(ttype := St)
    else t
  }

  /** The in-place retyping loop at the end of Scan. */
  method RetypeKeywords(ts: seq<Token>) returns (rs: seq<Token>)
    ensures |rs| == |ts| && forall k :: 0 <= k < |ts| ==> rs[k] == Retyped(ts[k])
  {
    rs := ts;
    var k := 0;
    while k < |rs|
      invariant 0 <= k <= |rs| == |ts|
      invariant forall i :: 0 <= i < k ==> rs[i] == Retyped(ts[i])
      invariant forall i :: k <= i < |rs| ==> rs[i] == ts[i]
    {
      var tk := rs[k];
      if tk.ttype == Var {
        if tk.lexim == "MAX" || tk.lexim == "max" {
          tk := tk.(ttype := Max);
        }
        if tk.lexim == "MIN" || tk.lexim == "min" {
          tk := tk.(ttype := Min);
        }
        if tk.lexim == "ST" || tk.lexim == "st" {
          tk := tk.(ttype := St);
        }
      }
      rs := rs[k := tk];
      k := k + 1;
    }
  }

  /** Retyping keywords keeps every span and turns raw texts into final ones. */
  lemma RetypedFits(input: string, ts: seq<Token>, rs: seq<Token>)
    requires Lexed(input, |input|, ts) && AllRawFit(ts)
    requires |rs| == |ts| && forall k :: 0 <= k < |ts| ==> rs[k] == Retyped(ts[k])
    ensures WellLexed(input, rs)
  {
    forall k | 0 <= k < |rs| ensures Spans(input, rs[k], |input|) && Fits(rs[k].ttype, rs[k].lexim) {
      assert Spans(input, ts[k], |input|);
    }
    forall k | 0 <= k <= |rs|
      ensures 0 <= GapStart(rs, k) <= GapEnd(rs, k, |input|) <= |input|
      ensures AllBlank(input, GapStart(rs, k), GapEnd(rs, k, |input|))
    {
      assert GapStart(rs, k) == GapStart(ts, k);
      assert GapEnd(rs, k, |input|) == GapEnd(ts, k, |input|);
    }
  }

  /** One pass of Scan's loop body on the character at cur (parser.cc:9-102). */
  method ScanStep(input: string, cur: int, ret: seq<Token>, next: Token)
    returns (r: Result<(seq<Token>, Token)>, cur2: int)
    requires Scanning(input, cur, ret, next) && cur < |input|
    ensures r.Success? ==> cur < cur2 <= |input| && Scanning(input, cur2, r.value.0, r.value.1)
    ensures r.Failure? <==> Bad(input, cur)
  {
    var c := input[cur];
    cur2 := cur + 1;
    if c == '\n' {
      var ts := Flush(input, cur, ret, next);
      var eol := Token(Eol, "\n", cur, cur + 1);
      assert input[cur..cur + 1] == [c];
      ScanningPush(input, cur, ts, eol);
      r := Success((ts + [eol], UnknownToken));
    } else if IsBlank(c) {
      var ts := Flush(input, cur, ret, next);
      ScanningBlank(input, cur, ts);
      r := Success((ts, UnknownToken));
    } else if IsWordChar(c) {
      var step := ScanWordChar(input, cur, ret, next);
      if step.Failure? {
        return Failure(step.error), cur2;
      }
      r := Success((ret, step.value));
    } else if IsOperatorChar(c) {
      var ts := Flush(input, cur, ret, next);
      var op := OperatorToken(input, cur);
      if op.Failure? {
        return Failure(op.error), cur2;
      }
      ScanningPush(input, cur, ts, op.value);
      r := Success((ts + [op.value], UnknownToken));
      cur2 := op.value.end;
    } else {
      r := Failure("Lexing error: un-recognized symbol");
    }
  }

  /** Lexer::Scan (parser.cc:3-122). On success the input is the texts of
      the tokens, in order, separated by blanks only, each text of the shape
      its type demands (so LexedCovers applies); Scan fails exactly when
      some position of the input is Bad. */
  method Scan(input: string) returns (r: Result<seq<Token>>)
    ensures r.Success? ==> WellLexed(input, r.value)
    ensures r.Failure? <==> exists j :: 0 <= j < |input| && Bad(input, j)
  {
    var cur := 0;
    var ret: seq<Token> := [];
    var next := UnknownToken;
    while cur < |input|
      invariant Scanning(input, cur, ret, next)
      decreases |input| - cur
    {
      var step, cur2 := ScanStep(input, cur, ret, next);
      if step.Failure? {
        return Failure(step.error);
      }
      ret, next, cur := step.value.0, step.value.1, cur2;
    }
    ret := Flush(input, cur, ret, next);
    var retyped := RetypeKeywords(ret);
    RetypedFits(input, ret, retyped);
    return Success(retyped);
  }

  /** There is no division token (parser.h:25): a `/` anywhere in the
      input makes Scan fail. */
  lemma SlashIsBad(input: string, j: nat)
    requires j < |input| && input[j] == '/'
    ensures Bad(input, j)
  {
  }
}
