/** The token kinds of the SQL lexer and the tokens it produces. */
module Tokens {
  /** The pattern names; a token's kind is the name of the pattern that matched it. */
  datatype Kind =
    | NUMBER | STRING
    | SELECT | FROM | WHERE | AND | OR | NOT
    | IDENTIFIER
    | ASTERISK | EQ | NEQ | LTE | GTE | LT | GT
    | COMMA | SEMICOLON | LPAREN | RPAREN
    | SKIP | MISMATCH

  datatype Token = Token(kind: Kind, text: string)

  /** The name of each pattern, as error messages print it. */
  function KindName(k: Kind): string
  {
    match k
    case NUMBER => "NUMBER"
    case STRING => "STRING"
    case SELECT => "SELECT"
    case FROM => "FROM"
    case WHERE => "WHERE"
    case AND => "AND"
    case OR => "OR"
    case NOT => "NOT"
    case IDENTIFIER => "IDENTIFIER"
    case ASTERISK => "ASTERISK"
    case EQ => "EQ"
    case NEQ => "NEQ"
    case LTE => "LTE"
    case GTE => "GTE"
    case LT => "LT"
    case GT => "GT"
    case COMMA => "COMMA"
    case SEMICOLON => "SEMICOLON"
    case LPAREN => "LPAREN"
    case RPAREN => "RPAREN"
    case SKIP => "SKIP"
    case MISMATCH => "MISMATCH"
  }
}
