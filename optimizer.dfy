/**
 * The optimizer the command-line pipeline uses: per SELECT, order-preserving
 * removal of duplicate columns and a cost-based swap of LOGIC children; and
 * the projection of the statements back to SQL text.
 */
module Optimizer {
  import opened Wrappers
  import opened Errors
  import opened Ast
  import opened Passes

  /**
   * `condition_cost`: a node with a string `right` (an untagged leaf) costs 1
   * when that string is all digits and 2 otherwise; every node without a
   * string `right` costs 3.
   */
  function Cost(n: Node): (c: int)
    ensures 1 <= c <= 3
    ensures c < 3 <==> n.Leaf?
    ensures c == 1 <==> n.Leaf? && IsDigitString(n.rightText)
  {
    match n
    case Leaf(_, _, right) => if IsDigitString(right) then 1 else 2
    case _ => 3
  }

  /** `optimize_select`: the statement with its columns deduplicated (unless one is `*`) and its WHERE tree reordered. */
  function OptimizeSelect(s: Select): Select
  {
    var columns := if "*" in s.columns then s.columns else Dedup(s.columns);
    var where := match s.where
                 case None => None
                 case Some(w) => Some(Reorder(w, Cost));
    s.(columns := columns, where := where)
  }

  function OptimizeStmt(s: Stmt): Result<Stmt, Error>
  {
    match s
    case SelectStmt(sel) => Ok(SelectStmt(OptimizeSelect(sel)))
    case Unsupported(kind) => Err(UnsupportedStatementType(kind))
  }

  /** `optimize`: every statement optimized in order; a non-SELECT aborts the batch. */
  method Optimize(ast: seq<Stmt>) returns (r: Result<seq<Stmt>, Error>)
    ensures r == Traverse(ast, OptimizeStmt)
  {
    var optimized: seq<Stmt> := [];
    assert ast[0..] == ast;
    PrependNil(Traverse(ast, OptimizeStmt));
    for i := 0 to |ast|
      invariant Traverse(ast, OptimizeStmt) == Prepend(optimized, Traverse(ast[i..], OptimizeStmt))
    {
      match ast[i] {
        case SelectStmt(sel) =>
          TraverseStep(ast, i, OptimizeStmt, optimized, SelectStmt(OptimizeSelect(sel)));
          optimized := optimized + [SelectStmt(OptimizeSelect(sel))];
        case Unsupported(kind) =>
          assert ast[i..][0] == ast[i];
          return Err(UnsupportedStatementType(kind));
      }
    }
    assert ast[|ast|..] == [];
    assert optimized + [] == optimized;
    return Ok(optimized);
  }

  /**
   * `optimize` succeeds exactly when every statement is a SELECT, and then
   * returns one optimized statement per input statement, in order; otherwise
   * it fails on the first statement that is not a SELECT.
   */
  lemma OptimizeResult(ast: seq<Stmt>)
    ensures Traverse(ast, OptimizeStmt).Ok? <==> forall i :: 0 <= i < |ast| ==> ast[i].SelectStmt?
    ensures Traverse(ast, OptimizeStmt).Ok? ==>
              |Traverse(ast, OptimizeStmt).value| == |ast| &&
              forall i :: 0 <= i < |ast| ==>
                Traverse(ast, OptimizeStmt).value[i] == SelectStmt(OptimizeSelect(ast[i].select))
    ensures Traverse(ast, OptimizeStmt).Err? ==>
              exists i :: 0 <= i < |ast| && ast[i].Unsupported? &&
                          Traverse(ast, OptimizeStmt).error == UnsupportedStatementType(ast[i].kind) &&
                          forall j :: 0 <= j < i ==> ast[j].SelectStmt?
  {
    TraverseResult(ast, OptimizeStmt);
  }

  /**
   * What `optimize_select` does and does not change: the columns keep their
   * names (and lose their repeats unless one is `*`); the WHERE tree keeps its
   * leaves and operators with each LOGIC node's cheaper child first; the table,
   * joins and log are untouched.
   */
  lemma OptimizeSelectEffect(s: Select)
    ensures var o := OptimizeSelect(s);
      && o.table == s.table && o.joins == s.joins && o.log == s.log
      && (forall c :: c in o.columns <==> c in s.columns)
      && ("*" !in s.columns ==> NoDuplicates(o.columns))
      && ("*" in s.columns ==> o.columns == s.columns)
      && o.where.Some? == s.where.Some?
      && (s.where.Some? ==>
            && Ordered(o.where.value, Cost)
            && Leaves(o.where.value) == Leaves(s.where.value)
            && Ops(o.where.value) == Ops(s.where.value))
  {
    DedupSameNames(s.columns);
    if s.where.Some? {
      ReorderOrdered(s.where.value, Cost);
      ReorderKeepsLeaves(s.where.value, Cost);
      ReorderKeepsOps(s.where.value, Cost);
    }
  }

  /**
   * Optimizing twice is optimizing once, and a statement comes back unchanged
   * exactly when its columns have no repeats (or include `*`) and its WHERE
   * tree is already in cost order.
   */
  lemma OptimizeSelectIdempotent(s: Select)
    ensures OptimizeSelect(OptimizeSelect(s)) == OptimizeSelect(s)
    ensures OptimizeSelect(s) == s <==>
              ("*" in s.columns || NoDuplicates(s.columns)) &&
              (s.where.Some? ==> Ordered(s.where.value, Cost))
  {
    DedupSameNames(s.columns);
    DedupIdempotent(s.columns);
    if NoDuplicates(s.columns) {
      FromKeysDistinct(s.columns, {});
    }
    if s.where.Some? {
      ReorderIdempotent(s.where.value, Cost);
    }
  }

  /** `SELECT * FROM users;` comes back from `optimize` as it went in. */
  lemma StarSelectUnchanged(table: string)
    ensures var stmt := SelectStmt(Select(["*"], table, None, [], []));
            Traverse([stmt], OptimizeStmt) == Ok([stmt])
  {
    var stmt := SelectStmt(Select(["*"], table, None, [], []));
    assert [stmt][1..] == [];
    assert "*" in stmt.select.columns;
    assert OptimizeStmt(stmt) == Ok(stmt);
    assert [stmt] + [] == [stmt];
  }

  // ---------------------------------------------------------------------
  // ast_to_sql

  /**
   * `format_logic_condition`: a tagged CONDITION with `column` is
   * `column op value`, LOGIC is `(left op right)`, any other tagged node is
   * `<unknown condition>`. An untagged leaf has no "type" key and a CONDITION
   * with operand records has no "column" key: both raise KeyError.
   */
  function FormatLogic(n: Node): Result<string, Error>
  {
    match n
    case Leaf(_, _, _) => Err(KeyError("type"))
    case Condition(column, op, value) => Ok(column + " " + op + " " + value)
    case Comparison(_, _, _) => Err(KeyError("column"))
    case Boolean(_) => Ok("<unknown condition>")
    case Logic(op, l, r) =>
      match FormatLogic(l)
      case Err(e) => Err(e)
      case Ok(left) =>
        match FormatLogic(r)
        case Err(e) => Err(e)
        case Ok(right) => Ok("(" + left + " " + op + " " + right + ")")
  }

  /**
   * The WHERE clause of one statement: an untagged leaf and a CONDITION are
   * written out directly, LOGIC through `FormatLogic`; any other node drops
   * the clause.
   */
  function WhereClause(where: Option<Node>): Result<string, Error>
  {
    match where
    case None => Ok("")
    case Some(Leaf(left, op, right)) => Ok(" WHERE " + left + " " + op + " " + right)
    case Some(Condition(column, op, value)) => Ok(" WHERE " + column + " " + op + " " + value)
    case Some(Comparison(_, _, _)) => Err(KeyError("column"))
    case Some(Boolean(_)) => Ok("")
    case Some(Logic(_, _, _)) =>
      match FormatLogic(where.value)
      case Err(e) => Err(e)
      case Ok(text) => Ok(" WHERE " + text)
  }

  function SqlLine(s: Stmt): Result<string, Error>
  {
    match s
    case Unsupported(kind) => Err(UnsupportedStatementType(kind))
    case SelectStmt(sel) =>
      match WhereClause(sel.where)
      case Err(e) => Err(e)
      case Ok(where) => Ok("SELECT " + JoinWith(", ", sel.columns) + " FROM " + sel.table + where + ";")
  }

  /** `ast_to_sql`: one line per statement, joined by newlines. */
  method AstToSql(ast: seq<Stmt>) returns (r: Result<string, Error>)
    ensures r == match Traverse(ast, SqlLine)
                 case Ok(lines) => Ok(JoinWith("\n", lines))
                 case Err(e) => Err(e)
  {
    var lines: seq<string> := [];
    assert ast[0..] == ast;
    PrependNil(Traverse(ast, SqlLine));
    for i := 0 to |ast|
      invariant Traverse(ast, SqlLine) == Prepend(lines, Traverse(ast[i..], SqlLine))
    {
      var line := SqlLine(ast[i]);
      if line.Err? {
        assert ast[i..][0] == ast[i];
        return Err(line.error);
      }
      TraverseStep(ast, i, SqlLine, lines, line.value);
      lines := lines + [line.value];
    }
    assert ast[|ast|..] == [];
    assert lines + [] == lines;
    return Ok(JoinWith("\n", lines));
  }

  /** The LOGIC formatter fails exactly when the tree has an untagged leaf or a CONDITION with operand records. */
  lemma {:induction false} FormatLogicFails(n: Node)
    ensures FormatLogic(n).Err? <==> exists x :: x in Leaves(n) && (x.Leaf? || x.Comparison?)
  {
    if n.Logic? {
      FormatLogicFails(n.left);
      FormatLogicFails(n.right);
    } else {
      assert Leaves(n) == multiset{n};
    }
  }

  /**
   * A WHERE tree as the parser builds it cannot be rendered once it holds an
   * AND or OR: its leaves are untagged, and only the top-level position
   * accepts an untagged leaf. (The command-line pipeline first turns the
   * leaves into tagged CONDITION nodes.)
   */
  lemma ParserLogicNotRendered(n: Node)
    requires ParserShaped(n) && n.Logic?
    ensures WhereClause(Some(n)) == Err(KeyError("type"))
  {
    LeftmostLeafFails(n);
  }

  lemma {:induction false} LeftmostLeafFails(n: Node)
    requires ParserShaped(n)
    ensures FormatLogic(n) == Err(KeyError("type"))
  {
    if n.Logic? {
      LeftmostLeafFails(n.left);
    }
  }
}
