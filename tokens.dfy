/** Tokens of the text LP format (parser.h `Token`). */
module Tokens {

  /** `Token::TokenType`. UNKNOWN (= 0) is the "no pending token" sentinel.
      COMMA is produced by the lexer and read by the parser although the
      enum as declared in parser.h:9-27 lacks it. */
  datatype TokenType =
    | Unknown | Var | NumTok
    | Max | Min | St
    | EqTok | GeTok | LeTok
    | AddTok | SubTok | MulTok
    | Eol | Comma

  /** A token with its text and the half-open span [start, end) of the
      input it was read from (int, since the sentinel uses -1). */
  datatype Token = Token(ttype: TokenType, lexim: string, start: int, end: int)

  /** `{Token::UNKNOWN, "", -1, -1}`, the lexer's empty pending token. */
  const UnknownToken: Token := Token(Unknown, "", -1, -1)

  /** Token == (parser.h:34-37). */
  predicate TokenEquals(a: Token, b: Token) {
    a.ttype == b.ttype && a.lexim == b.lexim && a.start == b.start && a.end == b.end
  }

  /** Token != (parser.h:39). */
  predicate TokenNotEquals(a: Token, b: Token) {
    !TokenEquals(a, b)
  }

  /** Token equality is field-wise identity, and != is its negation. */
  lemma TokenEqualityIsIdentity(a: Token, b: Token)
    ensures TokenEquals(a, b) <==> a == b
    ensures TokenNotEquals(a, b) <==> a != b
  {
  }

  /** A pending token differs from the sentinel exactly when its type is
      not UNKNOWN, as long as a pending token of type UNKNOWN is always
      the sentinel itself. */
  lemma PendingTestIsTypeTest(t: Token)
    requires t.ttype == Unknown ==> t == UnknownToken
    ensures TokenNotEquals(t, UnknownToken) <==> t.ttype != Unknown
  {
  }
}
