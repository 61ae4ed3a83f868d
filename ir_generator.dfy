/**
 * The intermediate representation: relational-algebra text
 * `π[columns] (σ[condition] (table))` per SELECT, the normalization that
 * tags the parser's leaves as CONDITION nodes, and the IR record form of a
 * statement.
 */
module IrGenerator {
  import opened Wrappers
  import opened Errors
  import opened Ast

  /** `normalize_condition`: an untagged leaf becomes a CONDITION, LOGIC is rebuilt, anything else is returned as it is. */
  function Normalize(n: Node): Node
  {
    match n
    case Leaf(left, op, right) => Condition(left, op, right)
    case Logic(op, l, r) => Logic(op, Normalize(l), Normalize(r))
    case _ => n
  }

  /** Trees of LOGIC nodes over CONDITION nodes with `column`/`value` fields. */
  predicate Typed(n: Node)
  {
    match n
    case Condition(_, _, _) => true
    case Logic(_, l, r) => Typed(l) && Typed(r)
    case _ => false
  }

  /**
   * Normalization keeps every LOGIC operator in place, maps each leaf on its
   * own, and leaves no untagged leaf behind; a parser-built tree becomes a
   * tree of LOGIC and CONDITION nodes only.
   */
  lemma {:induction false} NormalizeShape(n: Node)
    ensures forall x :: x in Leaves(Normalize(n)) ==> !x.Leaf?
    ensures |Leaves(Normalize(n))| == |Leaves(n)|
    ensures ParserShaped(n) ==> Typed(Normalize(n))
  {
    if n.Logic? {
      NormalizeShape(n.left);
      NormalizeShape(n.right);
    } else {
      assert Leaves(Normalize(n)) == multiset{Normalize(n)};
    }
  }

  /** Normalizing twice is normalizing once. */
  lemma {:induction false} NormalizeIdempotent(n: Node)
    ensures Normalize(Normalize(n)) == Normalize(n)
  {
    if n.Logic? {
      NormalizeIdempotent(n.left);
      NormalizeIdempotent(n.right);
    }
  }

  /** Normalization changes a tree exactly when the tree holds an untagged leaf. */
  lemma {:induction false} NormalizeChanges(n: Node)
    ensures Normalize(n) == n <==> forall x :: x in Leaves(n) ==> !x.Leaf?
  {
    if n.Logic? {
      NormalizeChanges(n.left);
      NormalizeChanges(n.right);
    } else {
      assert Leaves(n) == multiset{n};
    }
  }

  /** Python's repr of a BOOLEAN node, as the error message shows it. */
  function BooleanRepr(b: bool): string
  {
    "{'type': 'BOOLEAN', 'value': " + (if b then "True" else "False") + "}"
  }

  /**
   * `condition_to_string`: LOGIC as `(left op right)`, CONDITION as
   * `column op value`. An untagged leaf has no "type" key, a CONDITION with
   * operand records has no "column" key, and a BOOLEAN is an unknown type.
   */
  function ConditionToString(n: Node): Result<string, Error>
  {
    match n
    case Leaf(_, _, _) => Err(KeyError("type"))
    case Condition(column, op, value) => Ok(column + " " + op + " " + value)
    case Comparison(_, _, _) => Err(KeyError("column"))
    case Boolean(b) => Err(UnknownConditionType(BooleanRepr(b)))
    case Logic(op, l, r) =>
      match ConditionToString(l)
      case Err(e) => Err(e)
      case Ok(left) =>
        match ConditionToString(r)
        case Err(e) => Err(e)
        case Ok(right) => Ok("(" + left + " " + op + " " + right + ")")
  }

  /** The printer succeeds exactly on LOGIC/CONDITION trees, so never on its error branch after normalizing a parser-built tree. */
  lemma {:induction false} ConditionToStringTotal(n: Node)
    ensures ConditionToString(n).Ok? <==> Typed(n)
  {
    if n.Logic? {
      ConditionToStringTotal(n.left);
      ConditionToStringTotal(n.right);
    }
  }

  /** The text of one statement. */
  function IrLine(s: Stmt): Result<string, Error>
  {
    match s
    case Unsupported(_) => Err(IrSelectOnly)
    case SelectStmt(sel) =>
      var columns := JoinWith(", ", sel.columns);
      if sel.where.None? then Ok("π[" + columns + "] (" + sel.table + ")")
      else
        match ConditionToString(sel.where.value)
        case Err(e) => Err(e)
        case Ok(c) => Ok("π[" + columns + "] (σ[" + c + "] (" + sel.table + "))")
  }

  /** `generate_ir`: one line per statement, joined by newlines; a non-SELECT aborts. */
  method GenerateIr(ast: seq<Stmt>) returns (r: Result<string, Error>)
    ensures r == match Traverse(ast, IrLine)
                 case Ok(lines) => Ok(JoinWith("\n", lines))
                 case Err(e) => Err(e)
  {
    var expressions: seq<string> := [];
    assert ast[0..] == ast;
    PrependNil(Traverse(ast, IrLine));
    for i := 0 to |ast|
      invariant Traverse(ast, IrLine) == Prepend(expressions, Traverse(ast[i..], IrLine))
    {
      if ast[i].Unsupported? {
        assert ast[i..][0] == ast[i];
        return Err(IrSelectOnly);
      }
      var stmt := ast[i].select;
      var ra: string;
      if stmt.where.Some? {
        var condition := ConditionToString(stmt.where.value);
        if condition.Err? {
          assert ast[i..][0] == ast[i];
          return Err(condition.error);
        }
        ra := "π[" + JoinWith(", ", stmt.columns) + "] (σ[" + condition.value + "] (" + stmt.table + "))";
      } else {
        ra := "π[" + JoinWith(", ", stmt.columns) + "] (" + stmt.table + ")";
      }
      TraverseStep(ast, i, IrLine, expressions, ra);
      expressions := expressions + [ra];
    }
    assert ast[|ast|..] == [];
    assert expressions + [] == expressions;
    return Ok(JoinWith("\n", expressions));
  }

  /**
   * `generate_ir` succeeds exactly when every statement is a SELECT whose
   * WHERE, if any, is a LOGIC/CONDITION tree; it then yields one line per
   * statement, and a line has a σ exactly when its statement has a WHERE.
   */
  lemma GenerateIrResult(ast: seq<Stmt>)
    ensures Traverse(ast, IrLine).Ok? <==>
              forall i :: 0 <= i < |ast| ==>
                ast[i].SelectStmt? && (ast[i].select.where.Some? ==> Typed(ast[i].select.where.value))
    ensures Traverse(ast, IrLine).Ok? ==> |Traverse(ast, IrLine).value| == |ast|
    ensures Traverse(ast, IrLine).Ok? ==>
              forall i :: 0 <= i < |ast| ==>
                (Traverse(ast, IrLine).value[i] == Projection(ast[i].select) <==> ast[i].select.where.None?)
  {
    TraverseResult(ast, IrLine);
    forall i | 0 <= i < |ast| && ast[i].SelectStmt? && ast[i].select.where.Some?
      ensures ConditionToString(ast[i].select.where.value).Ok? <==> Typed(ast[i].select.where.value)
    {
      ConditionToStringTotal(ast[i].select.where.value);
    }
    if Traverse(ast, IrLine).Ok? {
      forall i | 0 <= i < |ast|
        ensures Traverse(ast, IrLine).value[i] == Projection(ast[i].select) <==> ast[i].select.where.None?
      {
        IrLineSelection(ast[i]);
      }
    }
  }

  /** A line without a selection: `π[columns] (table)`. */
  function Projection(sel: Select): string
  {
    "π[" + JoinWith(", ", sel.columns) + "] (" + sel.table + ")"
  }

  /** A line is the bare projection exactly when its statement has no WHERE;
      otherwise the table is wrapped in a σ longer than the bare table. */
  lemma IrLineSelection(s: Stmt)
    requires IrLine(s).Ok?
    ensures IrLine(s).value == Projection(s.select) <==> s.select.where.None?
  {
    if s.select.where.Some? {
      assert |IrLine(s).value| > |Projection(s.select)|;
    }
  }

  // ---------------------------------------------------------------------
  // The IR record form

  datatype IrNode =
    | IrLogic(op: string, left: IrNode, right: IrNode)
    | IrCondition(column: string, op: string, value: string)
    /** `{"type": "UNKNOWN_CONDITION", "content": node}` */
    | UnknownCondition(content: Node)

  datatype IrSelect = IrSelect(columns: seq<string>, table: string, where: Option<IrNode>)

  /**
   * `format_condition_ir`: LOGIC and CONDITION are copied field by field,
   * any other tagged node is wrapped as UNKNOWN_CONDITION; an untagged leaf
   * has no "type" key and a CONDITION with operand records has no "column" key.
   */
  function FormatConditionIr(n: Node): Result<IrNode, Error>
  {
    match n
    case Leaf(_, _, _) => Err(KeyError("type"))
    case Condition(column, op, value) => Ok(IrCondition(column, op, value))
    case Comparison(_, _, _) => Err(KeyError("column"))
    case Boolean(_) => Ok(UnknownCondition(n))
    case Logic(op, l, r) =>
      match FormatConditionIr(l)
      case Err(e) => Err(e)
      case Ok(left) =>
        match FormatConditionIr(r)
        case Err(e) => Err(e)
        case Ok(right) => Ok(IrLogic(op, left, right))
  }

  /** The AST node an IR node was copied from. */
  function FromIr(ir: IrNode): Node
  {
    match ir
    case IrLogic(op, l, r) => Logic(op, FromIr(l), FromIr(r))
    case IrCondition(column, op, value) => Condition(column, op, value)
    case UnknownCondition(content) => content
  }

  /**
   * The IR form loses nothing: reading it back gives the original tree. It
   * exists exactly when the tree has neither an untagged leaf nor a
   * CONDITION with operand records.
   */
  lemma {:induction false} FormatConditionIrRoundTrip(n: Node)
    ensures FormatConditionIr(n).Ok? ==> FromIr(FormatConditionIr(n).value) == n
    ensures FormatConditionIr(n).Ok? <==> forall x :: x in Leaves(n) ==> !x.Leaf? && !x.Comparison?
  {
    if n.Logic? {
      FormatConditionIrRoundTrip(n.left);
      FormatConditionIrRoundTrip(n.right);
    } else {
      assert Leaves(n) == multiset{n};
    }
  }

  /** `generate_ir_select`: columns and table copied, the WHERE in IR form. */
  function GenerateIrSelect(s: Select): Result<IrSelect, Error>
  {
    if s.where.None? then Ok(IrSelect(s.columns, s.table, None))
    else
      match FormatConditionIr(s.where.value)
      case Err(e) => Err(e)
      case Ok(w) => Ok(IrSelect(s.columns, s.table, Some(w)))
  }

  /** The IR record keeps the columns and the table, and its WHERE reads back as the statement's. */
  lemma GenerateIrSelectKeeps(s: Select)
    ensures GenerateIrSelect(s).Ok? ==>
              var ir := GenerateIrSelect(s).value;
              && ir.columns == s.columns && ir.table == s.table
              && ir.where.Some? == s.where.Some?
              && (s.where.Some? ==> FromIr(ir.where.value) == s.where.value)
  {
    if s.where.Some? {
      FormatConditionIrRoundTrip(s.where.value);
    }
  }
}
