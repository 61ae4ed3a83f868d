/**
 * The exceptions the pipeline raises. Each constructor is one raise site's
 * kind of failure and keeps the values its message interpolates;
 * `ClassName` and `Message` give the Python exception class and text.
 */
module Errors {
  import opened Tokens

  datatype Error =
    /** The lexer met a character no pattern before MISMATCH accepts. */
    | UnexpectedCharacter(text: string)
    /** A statement starts with something other than SELECT. */
    | UnsupportedSqlStatement(text: string)
    /** `expect` found a token of another kind. */
    | ExpectedKind(expected: Kind, got: Kind)
    /** The token after a column in a WHERE leaf is not a comparison operator. */
    | ExpectedComparator(got: Kind)
    /** The right-hand side of a WHERE leaf is not a NUMBER, STRING or IDENTIFIER. */
    | UnexpectedWhereToken(text: string)
    /** Reading a token past the end of the list. */
    | IndexError
    /** A dictionary lookup of a key the node does not have. */
    | KeyError(key: string)
    /** A stage that handles only SELECT met another statement type. */
    | UnsupportedStatementType(kind: string)
    /** The IR generator met a statement other than SELECT. */
    | IrSelectOnly
    /** The IR condition printer met a node it has no rule for. */
    | UnknownConditionType(node: string)
    /** Not an exception: text the model does not reproduce, Python's repr of an operand record. */
    | RecordRepr

  function ClassName(e: Error): string
  {
    match e
    case IndexError => "IndexError"
    case KeyError(_) => "KeyError"
    case UnsupportedStatementType(_) => "ValueError"
    case IrSelectOnly => "ValueError"
    case UnknownConditionType(_) => "ValueError"
    case RecordRepr => "repr"
    case _ => "SyntaxError"
  }

  /** The exception's text, as `str(e)` prints it. */
  function Message(e: Error): string
  {
    match e
    case UnexpectedCharacter(c) => "Unexpected character: " + c
    case UnsupportedSqlStatement(v) => "Unsupported SQL statement: " + v
    case ExpectedKind(x, y) => "Expected " + KindName(x) + " but got " + KindName(y)
    case ExpectedComparator(y) => "Expected comparison operator but got " + KindName(y)
    case UnexpectedWhereToken(v) => "Unexpected token in WHERE clause: " + v
    case IndexError => "list index out of range"
    case KeyError(k) => "'" + k + "'"
    case UnsupportedStatementType(s) => "Unsupported statement type: " + s
    case IrSelectOnly => "Only SELECT statements are supported in IR."
    case UnknownConditionType(n) => "Unknown condition type: " + n
    case RecordRepr => ""
  }
}
