/**
 * The quoting SQL projection: statements back to SQL text with a leaf's
 * right-hand value in single quotes unless it is all digits; statements
 * other than SELECT are skipped.
 */
module SqlRenderer {
  import opened Wrappers
  import opened Errors
  import opened Ast
  import Lexer

  /** A leaf's right-hand value: in single quotes unless it is all digits. */
  function QuoteValue(right: string): string
  {
    if IsDigitString(right) then right else "'" + right + "'"
  }

  /**
   * `condition_to_str` on a present condition: LOGIC as `(left op right)`,
   * an untagged leaf as `left op right` with the value quoted. A tagged
   * CONDITION or BOOLEAN has no "left" key; a CONDITION with operand records
   * would print the records' repr.
   */
  function ConditionToStr(n: Node): Result<string, Error>
  {
    match n
    case Logic(op, l, r) =>
      (match ConditionToStr(l)
       case Err(e) => Err(e)
       case Ok(left) =>
         match ConditionToStr(r)
         case Err(e) => Err(e)
         case Ok(right) => Ok("(" + left + " " + op + " " + right + ")"))
    case Leaf(left, op, right) => Ok(left + " " + op + " " + QuoteValue(right))
    case Comparison(_, _, _) => Err(RecordRepr)
    case _ => Err(KeyError("left"))
  }

  /** A parser-built tree always renders: the printer only fails on tagged leaves. */
  lemma {:induction false} ConditionToStrFails(n: Node)
    ensures ConditionToStr(n).Err? <==> exists x :: x in Leaves(n) && !x.Leaf?
    ensures ParserShaped(n) ==> ConditionToStr(n).Ok?
  {
    if n.Logic? {
      ConditionToStrFails(n.left);
      ConditionToStrFails(n.right);
      if ParserShaped(n) {
        assert ParserShaped(n.left) && ParserShaped(n.right);
      }
    } else {
      assert Leaves(n) == multiset{n};
    }
  }

  /** A STRING value that already carries its quotes is quoted a second time. */
  lemma StringValueQuotedTwice()
    ensures ConditionToStr(Leaf("a", "=", "'b'")) == Ok("a = ''b''")
  {
    var v := "'b'";
    assert v[0] == '\'' && !Lexer.IsDigit(v[0]);
    assert QuoteValue(v) == "''b''";
    assert "a" + " " + "=" + " " + "''b''" == "a = ''b''";
  }

  /** The column list: the names joined by ", ", and `*` for `["*"]`. */
  function ColumnsText(columns: seq<string>): string
  {
    if columns != ["*"] then JoinWith(", ", columns) else "*"
  }

  /** The `*` special case prints what the general case would. */
  lemma ColumnsTextIsJoin(columns: seq<string>)
    ensures ColumnsText(columns) == JoinWith(", ", columns)
  {
  }

  function SelectLine(s: Select): Result<string, Error>
  {
    var where := if s.where.None? then Ok("") else
                   match ConditionToStr(s.where.value)
                   case Err(e) => Err(e)
                   case Ok(c) => Ok(" WHERE " + c);
    match where
    case Err(e) => Err(e)
    case Ok(w) => Ok("SELECT " + ColumnsText(s.columns) + " FROM " + s.table + w + ";")
  }

  /** The lines of `ast_to_sql`: one per SELECT, in order; other statements are skipped. */
  function SqlLines(ast: seq<Stmt>): Result<seq<string>, Error>
  {
    if ast == [] then Ok([])
    else if ast[0].Unsupported? then SqlLines(ast[1..])
    else
      match SelectLine(ast[0].select)
      case Err(e) => Err(e)
      case Ok(line) => Prepend([line], SqlLines(ast[1..]))
  }

  /** `ast_to_sql`: the lines joined by newlines. */
  method AstToSql(ast: seq<Stmt>) returns (r: Result<string, Error>)
    ensures r == match SqlLines(ast)
                 case Ok(lines) => Ok(JoinWith("\n", lines))
                 case Err(e) => Err(e)
  {
    var statements: seq<string> := [];
    assert ast[0..] == ast;
    PrependNil(SqlLines(ast));
    for i := 0 to |ast|
      invariant SqlLines(ast) == Prepend(statements, SqlLines(ast[i..]))
    {
      assert ast[i..][0] == ast[i] && ast[i..][1..] == ast[i + 1..];
      if ast[i].Unsupported? {
        continue;
      }
      var stmt := ast[i].select;
      var whereStr := "";
      if stmt.where.Some? {
        var c := ConditionToStr(stmt.where.value);
        if c.Err? {
          return Err(c.error);
        }
        whereStr := " WHERE " + c.value;
      }
      var sql := "SELECT " + ColumnsText(stmt.columns) + " FROM " + stmt.table + whereStr + ";";
      assert SelectLine(stmt) == Ok(sql);
      PrependPrepend(statements, [sql], SqlLines(ast[i + 1..]));
      statements := statements + [sql];
    }
    assert ast[|ast|..] == [];
    assert statements + [] == statements;
    return Ok(JoinWith("\n", statements));
  }

  function SelectCount(ast: seq<Stmt>): nat
  {
    if ast == [] then 0 else (if ast[0].SelectStmt? then 1 else 0) + SelectCount(ast[1..])
  }

  /**
   * `ast_to_sql` succeeds exactly when every SELECT's WHERE renders, and
   * then gives as many lines as there are SELECT statements, every
   * parser-built statement rendering.
   */
  lemma {:induction false} SqlLinesResult(ast: seq<Stmt>)
    ensures SqlLines(ast).Ok? <==>
              forall i :: 0 <= i < |ast| && ast[i].SelectStmt? ==> SelectLine(ast[i].select).Ok?
    ensures SqlLines(ast).Ok? ==> |SqlLines(ast).value| == SelectCount(ast)
  {
    if ast != [] {
      SqlLinesResult(ast[1..]);
      assert forall i :: 1 <= i < |ast| ==> ast[i] == ast[1..][i - 1];
    }
  }

  /** A SELECT whose WHERE is absent or parser-built always renders. */
  lemma ParsedSelectRenders(s: Select)
    requires s.where.Some? ==> ParserShaped(s.where.value)
    ensures SelectLine(s).Ok?
  {
    if s.where.Some? {
      ConditionToStrFails(s.where.value);
    }
  }
}
