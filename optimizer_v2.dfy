/**
 * The richer optimizer: an optimization log per statement, cost-based
 * reordering over CONDITION nodes with operand records, constant folding,
 * elimination of always-true conditions, and the rewrite of an
 * IN-subquery into a JOIN; and its SQL projection, joins included.
 */
module OptimizerV2 {
  import opened Wrappers
  import opened Errors
  import opened Ast
  import opened Passes
  import Lexer

  const DedupLogEntry := "Removed duplicate columns"
  const JoinLogEntry := "Converted IN-subquery to JOIN"

  /** `operand.get("value", "")`: a subquery record has no value. */
  function OperandValue(o: Operand): string
  {
    if o.Subquery? then "" else o.value
  }

  /**
   * `condition_cost`: a node not tagged CONDITION costs 3; a tagged CONDITION
   * costs 1 when its right operand's value is all digits and 2 otherwise. A
   * CONDITION with `column`/`value` fields has no operand records, so it costs 2.
   */
  function Cost(n: Node): (c: int)
    ensures 1 <= c <= 3
    ensures c < 3 <==> n.Comparison? || n.Condition?
    ensures c == 1 <==> n.Comparison? && IsDigitString(OperandValue(n.rightOperand))
  {
    match n
    case Comparison(_, _, right) => if IsDigitString(OperandValue(right)) then 1 else 2
    case Condition(_, _, _) => 2
    case _ => 3
  }

  /** `normalize_condition`: LOGIC nodes are rebuilt over their normalized children; anything else is returned as it is. */
  function Normalize(n: Node): Node
  {
    if n.Logic? then Logic(n.op, Normalize(n.left), Normalize(n.right)) else n
  }

  /** This normalization changes nothing: it has no rule that turns an untagged leaf into a tagged one. */
  lemma {:induction false} NormalizeIsIdentity(n: Node)
    ensures Normalize(n) == n
  {
    if n.Logic? {
      NormalizeIsIdentity(n.left);
      NormalizeIsIdentity(n.right);
    }
  }

  // ---------------------------------------------------------------------
  // Integer literals and comparisons

  /** A NUMBER text Python reads as an integer literal: digits, with no leading zero unless all are zeros. */
  predicate IsIntLiteral(s: string)
  {
    IsDigitString(s) && (s[0] != '0' || forall i :: 0 <= i < |s| ==> s[i] == '0')
  }

  function DigitsValue(s: string): nat
    requires IsDigitString(s) || s == []
  {
    if s == [] then 0
    else DigitsValue(s[..|s| - 1]) * 10 + (s[|s| - 1] as int - '0' as int)
  }

  /** The five operators for which `eval` of two integers gives a truth value. `=` is not Python syntax. */
  predicate Foldable(op: string)
  {
    op == "!=" || op == "<" || op == ">" || op == "<=" || op == ">="
  }

  predicate IsComparator(op: string)
  {
    op == "=" || Foldable(op)
  }

  function Compare(op: string, a: int, b: int): bool
    requires IsComparator(op)
  {
    if op == "=" then a == b
    else if op == "!=" then a != b
    else if op == "<" then a < b
    else if op == ">" then a > b
    else if op == "<=" then a <= b
    else a >= b
  }

  // ---------------------------------------------------------------------
  // What a condition means

  /** The integer an operand stands for, given the values of the columns. */
  function OperandInt(o: Operand, env: string -> int): Option<int>
  {
    match o
    case Number(v) => if IsIntLiteral(v) then Some(DigitsValue(v)) else None
    case Ident(c) => Some(env(c))
    case _ => None
  }

  predicate IsAnd(op: string) { Lexer.UpperStr(op) == "AND" }

  predicate IsOr(op: string) { Lexer.UpperStr(op) == "OR" }

  /**
   * The truth of a condition over integer columns: a comparison of two
   * integers, a BOOLEAN, AND/OR of two known truths. None where the value is
   * not determined by this reading (strings, subqueries, untagged leaves).
   */
  function Eval(n: Node, env: string -> int): Option<bool>
  {
    match n
    case Comparison(l, op, r) =>
      var a, b := OperandInt(l, env), OperandInt(r, env);
      if IsComparator(op) && a.Some? && b.Some? then Some(Compare(op, a.value, b.value)) else None
    case Boolean(b) => Some(b)
    case Logic(op, l, r) =>
      var a, b := Eval(l, env), Eval(r, env);
      if a.None? || b.None? then None
      else if IsAnd(op) then Some(a.value && b.value)
      else if IsOr(op) then Some(a.value || b.value)
      else None
    case _ => None
  }

  /** A missing WHERE condition selects every row. */
  function EvalWhere(w: Option<Node>, env: string -> int): Option<bool>
  {
    if w.None? then Some(true) else Eval(w.value, env)
  }

  /** Reordering only swaps the operands of AND and OR, so it keeps the meaning. */
  lemma {:induction false} ReorderKeepsMeaning(n: Node, cost: Node -> int, env: string -> int)
    ensures Eval(Reorder(n, cost), env) == Eval(n, env)
  {
    if n.Logic? {
      ReorderKeepsMeaning(n.left, cost, env);
      ReorderKeepsMeaning(n.right, cost, env);
    }
  }

  // ---------------------------------------------------------------------
  // constant_fold

  predicate FoldableComparison(n: Node)
  {
    && n.Comparison? && n.leftOperand.Number? && n.rightOperand.Number?
    && Foldable(n.op) && IsIntLiteral(n.leftOperand.value) && IsIntLiteral(n.rightOperand.value)
  }

  /**
   * `constant_fold`: a CONDITION comparing two integer literals with one of
   * the five foldable operators becomes the BOOLEAN `eval` gives; LOGIC has
   * both children folded; anything else is left as it is.
   */
  function ConstantFold(n: Node): Node
  {
    if FoldableComparison(n) then
      Boolean(Compare(n.op, DigitsValue(n.leftOperand.value), DigitsValue(n.rightOperand.value)))
    else if n.Logic? then Logic(n.op, ConstantFold(n.left), ConstantFold(n.right))
    else n
  }

  /** Folding keeps the meaning of the condition. */
  lemma {:induction false} ConstantFoldKeepsMeaning(n: Node, env: string -> int)
    ensures Eval(ConstantFold(n), env) == Eval(n, env)
  {
    if n.Logic? {
      ConstantFoldKeepsMeaning(n.left, env);
      ConstantFoldKeepsMeaning(n.right, env);
    }
  }

  /** Folding leaves no foldable comparison behind. */
  lemma {:induction false} ConstantFoldComplete(n: Node)
    ensures forall x :: x in Leaves(ConstantFold(n)) ==> !FoldableComparison(x)
  {
    if n.Logic? {
      ConstantFoldComplete(n.left);
      ConstantFoldComplete(n.right);
    } else {
      assert Leaves(ConstantFold(n)) == multiset{ConstantFold(n)};
    }
  }

  /** Folding replaces leaves one for one and keeps the LOGIC structure. */
  lemma {:induction false} ConstantFoldShape(n: Node)
    ensures |Leaves(ConstantFold(n))| == |Leaves(n)|
    ensures Ops(ConstantFold(n)) == Ops(n)
    ensures !n.Logic? && !FoldableComparison(n) ==> ConstantFold(n) == n
  {
    if n.Logic? {
      ConstantFoldShape(n.left);
      ConstantFoldShape(n.right);
    }
  }

  // ---------------------------------------------------------------------
  // eliminate_redundant_condition

  predicate IsOneEqualsOne(n: Node)
  {
    n == Comparison(Number("1"), "=", Number("1"))
  }

  /**
   * `eliminate_redundant_condition`: BOOLEAN true and the literal `1 = 1`
   * vanish, BOOLEAN false stays; a LOGIC node whose child vanished is
   * replaced by the other child (None when both vanished).
   */
  function EliminateRedundant(n: Node): Option<Node>
  {
    match n
    case Boolean(b) => if b then None else Some(Boolean(false))
    case Logic(op, l, r) =>
      var left, right := EliminateRedundant(l), EliminateRedundant(r);
      if left.None? then right
      else if right.None? then left
      else Some(Logic(op, left.value, right.value))
    case _ => if IsOneEqualsOne(n) then None else Some(n)
  }

  /**
   * What survives elimination: only leaves of the input, never BOOLEAN true
   * nor `1 = 1`; and everything vanishes only when every leaf was one of those.
   */
  lemma {:induction false} EliminateRedundantLeaves(n: Node)
    ensures EliminateRedundant(n).Some? ==>
              && Leaves(EliminateRedundant(n).value) <= Leaves(n)
              && forall x :: x in Leaves(EliminateRedundant(n).value) ==> x != Boolean(true) && !IsOneEqualsOne(x)
    ensures EliminateRedundant(n).None? <==> forall x :: x in Leaves(n) ==> x == Boolean(true) || IsOneEqualsOne(x)
  {
    if n.Logic? {
      EliminateRedundantLeaves(n.left);
      EliminateRedundantLeaves(n.right);
    } else {
      assert Leaves(n) == multiset{n};
    }
  }

  predicate AllAnd(n: Node)
  {
    n.Logic? ==> IsAnd(n.op) && AllAnd(n.left) && AllAnd(n.right)
  }

  /** On a conjunction, dropping the always-true parts keeps the meaning. */
  lemma {:induction false} EliminateKeepsConjunctions(n: Node, env: string -> int)
    requires AllAnd(n)
    ensures EvalWhere(EliminateRedundant(n), env) == Eval(n, env)
  {
    if n.Logic? {
      EliminateKeepsConjunctions(n.left, env);
      EliminateKeepsConjunctions(n.right, env);
    } else if n.Comparison? {
      if IsOneEqualsOne(n) {
        assert IsIntLiteral("1");
        assert DigitsValue("1") == DigitsValue("") * 10 + 1;
      }
    }
  }

  /** Under OR, dropping an always-true side changes the meaning: `x = 5 OR TRUE` becomes `x = 5`. */
  lemma OrCollapseChangesMeaning()
    ensures var n := Logic("OR", Comparison(Ident("x"), "=", Number("5")), Boolean(true));
            var env := (c: string) => 0;
            && EliminateRedundant(n) == Some(n.left)
            && Eval(n, env) == Some(true)
            && EvalWhere(EliminateRedundant(n), env) == Some(false)
  {
    var n := Logic("OR", Comparison(Ident("x"), "=", Number("5")), Boolean(true));
    assert !IsOneEqualsOne(n.left);
    assert IsIntLiteral("5");
    assert DigitsValue("5") == DigitsValue("") * 10 + 5;
    assert Lexer.UpperStr("OR") == "OR";
    assert Lexer.UpperStr("OR") != "AND";
  }

  // ---------------------------------------------------------------------
  // convert_in_subquery_to_join

  /** The JOIN's left side: the IN operand's value, or None for a record without one. */
  function JoinLeft(o: Operand): Option<string>
  {
    if o.Subquery? then None else Some(o.value)
  }

  /** The WHERE is an IN whose right side is a subquery selecting at least one column. */
  predicate IsInSubquery(w: Option<Node>)
  {
    && w.Some? && w.value.Comparison? && w.value.op == "IN"
    && w.value.rightOperand.Subquery? && |w.value.rightOperand.columns| > 0
  }

  /**
   * The statement after the rewrite: one JOIN on the subquery's table, keyed
   * on `<table>.<first column>` and carrying the subquery's WHERE, is appended;
   * the WHERE is dropped and the rewrite is logged. Any other statement is unchanged.
   */
  function Converted(s: Select): Select
  {
    if !IsInSubquery(s.where) then s
    else
      var sub := s.where.value.rightOperand;
      var join := Join(sub.table, JoinLeft(s.where.value.leftOperand), "=", sub.table + "." + sub.columns[0], sub.where);
      s.(joins := s.joins + [join], where := None, log := s.log + [JoinLogEntry])
  }

  /** `convert_in_subquery_to_join` */
  method ConvertInSubqueryToJoin(stmt: Select) returns (r: Select)
    ensures r == Converted(stmt)
  {
    r := stmt;
    if r.where.None? || !r.where.value.Comparison? || r.where.value.op != "IN" {
      return;
    }
    var condition := r.where.value;
    if !condition.rightOperand.Subquery? {
      return;
    }
    var sub := condition.rightOperand;
    if |sub.columns| == 0 {
      return;
    }
    var subColumn := sub.columns[0];
    var join := Join(sub.table, JoinLeft(condition.leftOperand), "=", sub.table + "." + subColumn, sub.where);
    r := r.(joins := r.joins + [join]);
    r := r.(where := None);
    r := r.(log := r.log + [JoinLogEntry]);
  }

  /**
   * The rewrite appends exactly one JOIN and one log entry and clears the
   * WHERE when it applies, and changes nothing otherwise; columns and table
   * are never touched. The JOIN is on the subquery's table, matches the IN
   * operand with `=` against `<table>.<first column>`, and keeps the
   * subquery's WHERE.
   */
  lemma ConvertedEffect(s: Select)
    ensures Converted(s).columns == s.columns && Converted(s).table == s.table
    ensures IsInSubquery(s.where) ==>
              && Converted(s).where.None?
              && |Converted(s).joins| == |s.joins| + 1 && Converted(s).joins[..|s.joins|] == s.joins
              && Converted(s).joins[|s.joins|].table == s.where.value.rightOperand.table
              && Converted(s).joins[|s.joins|].where == s.where.value.rightOperand.where
              && Converted(s).joins[|s.joins|].onLeft == JoinLeft(s.where.value.leftOperand)
              && Converted(s).joins[|s.joins|].onOp == "="
              && Converted(s).joins[|s.joins|].onRight
                 == s.where.value.rightOperand.table + "." + s.where.value.rightOperand.columns[0]
              && Converted(s).log == s.log + [JoinLogEntry]
    ensures !IsInSubquery(s.where) ==> Converted(s) == s
  {
    if IsInSubquery(s.where) {
      var j := Converted(s).joins;
      assert j[..|s.joins|] == s.joins;
    }
  }

  // ---------------------------------------------------------------------
  // optimize_select and optimize

  /** The WHERE passes: reorder, fold, then eliminate. */
  function SimplifyWhere(w: Option<Node>): Option<Node>
  {
    if w.None? then None else EliminateRedundant(ConstantFold(Reorder(w.value, Cost)))
  }

  /** What `optimize_select` makes of a statement. */
  function Optimized(s: Select): Select
  {
    var columns := if "*" in s.columns then s.columns else Dedup(s.columns);
    var log := if |columns| < |s.columns| then s.log + [DedupLogEntry] else s.log;
    Converted(s.(columns := columns, log := log, where := SimplifyWhere(s.where)))
  }

  /** `optimize_select` */
  method OptimizeSelect(stmt: Select) returns (r: Select)
    ensures r == Optimized(stmt)
  {
    r := stmt;
    if "*" !in r.columns {
      var originalLength := |r.columns|;
      r := r.(columns := Dedup(r.columns));
      if |r.columns| < originalLength {
        r := r.(log := r.log + [DedupLogEntry]);
      }
    }
    if r.where.Some? {
      r := r.(where := Some(Reorder(r.where.value, Cost)));
      r := r.(where := Some(ConstantFold(r.where.value)));
      r := r.(where := EliminateRedundant(r.where.value));
    }
    if r.where.Some? && r.where.value.Comparison? && r.where.value.op == "IN" && r.where.value.rightOperand.Subquery? {
      r := ConvertInSubqueryToJoin(r);
    }
  }

  /** The statement `optimize` hands to `optimize_select`: log emptied, WHERE normalized. */
  function Prepared(s: Select): Select
  {
    s.(log := [], where := if s.where.None? then None else Some(Normalize(s.where.value)))
  }

  function OptimizeStmt(s: Stmt): Result<Stmt, Error>
  {
    match s
    case SelectStmt(sel) => Ok(SelectStmt(Optimized(Prepared(sel))))
    case Unsupported(kind) => Err(UnsupportedStatementType(kind))
  }

  /** `optimize`: every statement has its log reset and is optimized, in order; a non-SELECT aborts the batch. */
  method Optimize(ast: seq<Stmt>) returns (r: Result<seq<Stmt>, Error>)
    ensures r == Traverse(ast, OptimizeStmt)
  {
    var optimized: seq<Stmt> := [];
    assert ast[0..] == ast;
    PrependNil(Traverse(ast, OptimizeStmt));
    for i := 0 to |ast|
      invariant Traverse(ast, OptimizeStmt) == Prepend(optimized, Traverse(ast[i..], OptimizeStmt))
    {
      if ast[i].Unsupported? {
        assert ast[i..][0] == ast[i];
        return Err(UnsupportedStatementType(ast[i].kind));
      }
      var stmt := ast[i].select;
      stmt := stmt.(log := []);
      stmt := stmt.(where := if stmt.where.None? then None else Some(Normalize(stmt.where.value)));
      stmt := OptimizeSelect(stmt);
      TraverseStep(ast, i, OptimizeStmt, optimized, SelectStmt(stmt));
      optimized := optimized + [SelectStmt(stmt)];
    }
    assert ast[|ast|..] == [];
    assert optimized + [] == optimized;
    return Ok(optimized);
  }

  /**
   * `optimize` succeeds exactly when every statement is a SELECT, and then
   * yields one statement per input statement, in order, each with a fresh log.
   */
  lemma OptimizeResult(ast: seq<Stmt>)
    ensures Traverse(ast, OptimizeStmt).Ok? <==> forall i :: 0 <= i < |ast| ==> ast[i].SelectStmt?
    ensures Traverse(ast, OptimizeStmt).Ok? ==>
              |Traverse(ast, OptimizeStmt).value| == |ast| &&
              forall i :: 0 <= i < |ast| ==>
                Traverse(ast, OptimizeStmt).value[i] == SelectStmt(Optimized(Prepared(ast[i].select)))
  {
    TraverseResult(ast, OptimizeStmt);
  }

  /**
   * The log `optimize` leaves on a statement: "Removed duplicate columns"
   * exactly when deduplication shortened the columns, then "Converted
   * IN-subquery to JOIN" exactly when the rewrite applied.
   */
  lemma OptimizedLog(s: Select)
    ensures var p := Prepared(s);
            var deduped := "*" !in s.columns && !NoDuplicates(s.columns);
            var converted := IsInSubquery(SimplifyWhere(p.where));
            Optimized(p).log == (if deduped then [DedupLogEntry] else []) + (if converted then [JoinLogEntry] else [])
  {
    DedupShortens(s.columns);
  }

  /**
   * On a conjunction of integer comparisons the WHERE passes keep the meaning:
   * a row is selected after them exactly when it was before.
   */
  lemma SimplifyKeepsConjunctions(w: Node, env: string -> int)
    requires AllAnd(w)
    ensures EvalWhere(SimplifyWhere(Some(w)), env) == Eval(w, env)
  {
    var reordered := Reorder(w, Cost);
    ReorderKeepsMeaning(w, Cost, env);
    ReorderKeepsAllAnd(w, Cost);
    ConstantFoldKeepsMeaning(reordered, env);
    ConstantFoldKeepsAllAnd(reordered);
    EliminateKeepsConjunctions(ConstantFold(reordered), env);
  }

  lemma {:induction false} ReorderKeepsAllAnd(n: Node, cost: Node -> int)
    requires AllAnd(n)
    ensures AllAnd(Reorder(n, cost))
  {
    if n.Logic? {
      ReorderKeepsAllAnd(n.left, cost);
      ReorderKeepsAllAnd(n.right, cost);
    }
  }

  lemma {:induction false} ConstantFoldKeepsAllAnd(n: Node)
    requires AllAnd(n)
    ensures AllAnd(ConstantFold(n))
  {
    if n.Logic? {
      ConstantFoldKeepsAllAnd(n.left);
      ConstantFoldKeepsAllAnd(n.right);
    }
  }

  /** `SELECT * FROM users WHERE 1 = 1;` loses its WHERE. */
  lemma TautologyDropped(table: string)
    ensures var s := Select(["*"], table, Some(Comparison(Number("1"), "=", Number("1"))), [], []);
            Optimized(Prepared(s)) == s.(where := None)
  {
    var w := Comparison(Number("1"), "=", Number("1"));
    assert !Foldable("=");
    assert ConstantFold(w) == w;
    assert "*" in ["*"];
  }

  // ---------------------------------------------------------------------
  // ast_to_sql

  /** `format_operand`: a STRING value in single quotes, a record without a value as `<unknown>`, others bare. */
  function FormatOperand(o: Operand): string
  {
    match o
    case Str(v) => "'" + v + "'"
    case Subquery(_, _, _) => "<unknown>"
    case _ => o.value
  }

  /**
   * `format_logic_condition`: CONDITION as `left op right`, LOGIC in
   * parentheses, BOOLEAN as TRUE or FALSE. An untagged leaf has no "type" key
   * and a CONDITION with `column`/`value` fields has no "left" key.
   */
  function FormatCondition(n: Node): Result<string, Error>
  {
    match n
    case Leaf(_, _, _) => Err(KeyError("type"))
    case Condition(_, _, _) => Err(KeyError("left"))
    case Comparison(l, op, r) => Ok(FormatOperand(l) + " " + op + " " + FormatOperand(r))
    case Boolean(b) => Ok(if b then "TRUE" else "FALSE")
    case Logic(op, l, r) =>
      match FormatCondition(l)
      case Err(e) => Err(e)
      case Ok(left) =>
        match FormatCondition(r)
        case Err(e) => Err(e)
        case Ok(right) => Ok("(" + left + " " + op + " " + right + ")")
  }

  /** The formatter fails exactly on a tree holding an untagged leaf or a CONDITION without operand records. */
  lemma {:induction false} FormatConditionFails(n: Node)
    ensures FormatCondition(n).Err? <==> exists x :: x in Leaves(n) && (x.Leaf? || x.Condition?)
  {
    if n.Logic? {
      FormatConditionFails(n.left);
      FormatConditionFails(n.right);
    } else {
      assert Leaves(n) == multiset{n};
    }
  }

  // `JOIN t ON l op r`, followed by a filter comment when the join carries a WHERE; a missing left side prints as None.
  function JoinText(j: Join): Result<string, Error>
  {
    var left := if j.onLeft.Some? then j.onLeft.value else "None";
    var text := "JOIN " + j.table + " ON " + left + " " + j.onOp + " " + j.onRight;
    if j.where.None? then Ok(text)
    else
      match FormatCondition(j.where.value)
      case Err(e) => Err(e)
      case Ok(filter) => Ok(text + " /* filter: " + filter + " */")
  }

  /** The join clause of a statement that has a joins list: a space, then the joins separated by spaces. */
  method JoinClause(joins: seq<Join>) returns (r: Result<string, Error>)
    ensures r == match Traverse(joins, JoinText)
                 case Ok(texts) => Ok(" " + JoinWith(" ", texts))
                 case Err(e) => Err(e)
  {
    var texts: seq<string> := [];
    assert joins[0..] == joins;
    PrependNil(Traverse(joins, JoinText));
    for i := 0 to |joins|
      invariant Traverse(joins, JoinText) == Prepend(texts, Traverse(joins[i..], JoinText))
    {
      var text := JoinText(joins[i]);
      if text.Err? {
        assert joins[i..][0] == joins[i];
        return Err(text.error);
      }
      TraverseStep(joins, i, JoinText, texts, text.value);
      texts := texts + [text.value];
    }
    assert joins[|joins|..] == [];
    assert texts + [] == texts;
    return Ok(" " + JoinWith(" ", texts));
  }

  function JoinsClause(joins: seq<Join>): Result<string, Error>
  {
    if joins == [] then Ok("")
    else
      match Traverse(joins, JoinText)
      case Ok(texts) => Ok(" " + JoinWith(" ", texts))
      case Err(e) => Err(e)
  }

  function SqlLine(s: Stmt): Result<string, Error>
  {
    match s
    case Unsupported(kind) => Err(UnsupportedStatementType(kind))
    case SelectStmt(sel) =>
      var where := if sel.where.None? then Ok("") else
                     match FormatCondition(sel.where.value)
                     case Err(e) => Err(e)
                     case Ok(text) => Ok(" WHERE " + text);
      match where
      case Err(e) => Err(e)
      case Ok(w) =>
        match JoinsClause(sel.joins)
        case Err(e) => Err(e)
        case Ok(joins) => Ok("SELECT " + JoinWith(", ", sel.columns) + " FROM " + sel.table + joins + w + ";")
  }

  /** `ast_to_sql`: one line per statement, joins before the WHERE, lines joined by newlines. */
  method AstToSql(ast: seq<Stmt>) returns (r: Result<string, Error>)
    ensures r == match Traverse(ast, SqlLine)
                 case Ok(lines) => Ok(JoinWith("\n", lines))
                 case Err(e) => Err(e)
  {
    var lines: seq<string> := [];
    assert ast[0..] == ast;
    PrependNil(Traverse(ast, SqlLine));
    for i := 0 to |ast|
      invariant Traverse(ast, SqlLine) == Prepend(lines, Traverse(ast[i..], SqlLine))
    {
      if ast[i].Unsupported? {
        assert ast[i..][0] == ast[i];
        return Err(UnsupportedStatementType(ast[i].kind));
      }
      var stmt := ast[i].select;
      var whereClause := "";
      if stmt.where.Some? {
        var text := FormatCondition(stmt.where.value);
        if text.Err? {
          assert ast[i..][0] == ast[i];
          return Err(text.error);
        }
        whereClause := " WHERE " + text.value;
      }
      var joinClause: Result<string, Error> := Ok("");
      if |stmt.joins| > 0 {
        joinClause := JoinClause(stmt.joins);
      }
      if joinClause.Err? {
        assert ast[i..][0] == ast[i];
        return Err(joinClause.error);
      }
      var line := "SELECT " + JoinWith(", ", stmt.columns) + " FROM " + stmt.table + joinClause.value + whereClause + ";";
      assert SqlLine(ast[i]) == Ok(line);
      TraverseStep(ast, i, SqlLine, lines, line);
      lines := lines + [line];
    }
    assert ast[|ast|..] == [];
    assert lines + [] == lines;
    return Ok(JoinWith("\n", lines));
  }
}
