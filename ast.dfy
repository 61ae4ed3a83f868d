/**
 * The statement and condition trees the stages pass along. The source uses
 * dictionaries told apart by their keys and their "type" tag; each shape that
 * occurs becomes its own constructor here.
 */
module Ast {
  import opened Wrappers
  import Lexer

  /** A typed operand record `{type, value}`, or a nested subquery. */
  datatype Operand =
    | Number(value: string)        // type NUMBER
    | Str(value: string)           // type STRING
    | Ident(value: string)         // type IDENTIFIER
    | Subquery(columns: seq<string>, table: string, where: Option<Node>)  // type SUBQUERY

  datatype Node =
    /** The parser's untagged leaf `{left, op, right}`. */
    | Leaf(leftText: string, op: string, rightText: string)
    /** A tagged CONDITION `{column, op, value}`, as the IR normalisation builds it. */
    | Condition(column: string, op: string, value: string)
    /** A tagged CONDITION whose sides are operand records `{left, op, right}`. */
    | Comparison(leftOperand: Operand, op: string, rightOperand: Operand)
    /** A tagged BOOLEAN `{value}`. */
    | Boolean(truth: bool)
    /** A tagged LOGIC `{op, left, right}`. */
    | Logic(op: string, left: Node, right: Node)

  /** A JOIN entry `{table, on: {left, op, right}, where}`; `on.left` may be None. */
  datatype Join = Join(table: string, onLeft: Option<string>, onOp: string, onRight: string, where: Option<Node>)

  /**
   * A SELECT statement. A statement without a "joins" key has no joins; one
   * without an "optimization_log" key has an empty log.
   */
  datatype Select = Select(columns: seq<string>, table: string, where: Option<Node>,
                           joins: seq<Join>, log: seq<string>)

  /** A statement: a SELECT or any other statement type, known by its type name. */
  datatype Stmt = SelectStmt(select: Select) | Unsupported(kind: string)

  /** The trees the parser builds: LOGIC nodes over untagged leaves. */
  predicate ParserShaped(n: Node)
  {
    match n
    case Leaf(_, _, _) => true
    case Logic(_, l, r) => ParserShaped(l) && ParserShaped(r)
    case _ => false
  }

  /** The non-LOGIC nodes of a tree. */
  function Leaves(n: Node): multiset<Node>
  {
    if n.Logic? then Leaves(n.left) + Leaves(n.right) else multiset{n}
  }

  lemma {:induction false} LeavesAreNotLogic(n: Node, x: Node)
    requires x in Leaves(n)
    ensures !x.Logic?
  {
    if n.Logic? {
      if x in Leaves(n.left) {
        LeavesAreNotLogic(n.left, x);
      } else {
        LeavesAreNotLogic(n.right, x);
      }
    }
  }

  /** Python's `str.isdigit`, over ASCII digits. */
  predicate IsDigitString(s: string)
  {
    |s| > 0 && forall i :: 0 <= i < |s| ==> Lexer.IsDigit(s[i])
  }

  /** `sep.join(parts)` */
  function JoinWith(sep: string, parts: seq<string>): string
  {
    if parts == [] then ""
    else if |parts| == 1 then parts[0]
    else parts[0] + sep + JoinWith(sep, parts[1..])
  }
}
