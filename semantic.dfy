/**
 * Semantic checks: error accumulation against a schema that maps each table
 * name to its column names. Findings are values; `Text` gives the message
 * each one prints as.
 */
module Semantic {
  import opened Wrappers
  import opened Errors
  import opened Ast

  /** Table name to the table's column names. */
  type Schema = map<string, seq<string>>

  datatype Finding =
    | NoSuchTable(table: string)
    | UnsupportedType(kind: string)
    | NoSuchColumn(column: string, table: string)
    | ColumnNotInTable(column: string)
    | UnknownCondition

  function Text(f: Finding): string
  {
    match f
    case NoSuchTable(t) => "Table '" + t + "' does not exist."
    case UnsupportedType(k) => "Unsupported statement type: " + k
    case NoSuchColumn(c, t) => "Column '" + c + "' does not exist in table '" + t + "'."
    case ColumnNotInTable(c) => "Column '" + c + "' not found in table."
    case UnknownCondition => "Unknown condition type."
  }

  // ---------------------------------------------------------------------
  // validate: the table of every statement

  /** The finding validate records for one statement, if any. */
  function StatementFindings(s: Stmt, schema: Schema): seq<Finding>
  {
    match s
    case SelectStmt(sel) => if sel.table in schema then [] else [NoSuchTable(sel.table)]
    case Unsupported(kind) => [UnsupportedType(kind)]
  }

  function ValidateAll(stmts: seq<Stmt>, schema: Schema): seq<Finding>
  {
    if stmts == [] then [] else StatementFindings(stmts[0], schema) + ValidateAll(stmts[1..], schema)
  }

  method Validate(stmts: seq<Stmt>, schema: Schema) returns (errors: seq<Finding>)
    ensures errors == ValidateAll(stmts, schema)
  {
    errors := [];
    var validTables := schema.Keys;
    for i := 0 to |stmts|
      invariant errors == ValidateAll(stmts[..i], schema)
    {
      match stmts[i] {
        case SelectStmt(sel) =>
          if sel.table !in validTables {
            errors := errors + [NoSuchTable(sel.table)];
          }
        case Unsupported(kind) =>
          errors := errors + [UnsupportedType(kind)];
      }
      ValidateAllAppend(stmts[..i], [stmts[i]], schema);
      assert stmts[..i + 1] == stmts[..i] + [stmts[i]];
    }
    assert stmts[..|stmts|] == stmts;
  }

  /** Findings come in statement order. */
  lemma {:induction false} ValidateAllAppend(a: seq<Stmt>, b: seq<Stmt>, schema: Schema)
    ensures ValidateAll(a + b, schema) == ValidateAll(a, schema) + ValidateAll(b, schema)
  {
    if a == [] {
      assert a + b == b;
    } else {
      var h := StatementFindings(a[0], schema);
      calc {
        ValidateAll(a + b, schema);
        { assert (a + b)[0] == a[0]; assert (a + b)[1..] == a[1..] + b; }
        h + ValidateAll(a[1..] + b, schema);
        { ValidateAllAppend(a[1..], b, schema); }
        h + (ValidateAll(a[1..], schema) + ValidateAll(b, schema));
        (h + ValidateAll(a[1..], schema)) + ValidateAll(b, schema);
        ValidateAll(a, schema) + ValidateAll(b, schema);
      }
    }
  }

  /** The statements validate reports: a SELECT on an unknown table, or a non-SELECT. */
  predicate Rejected(s: Stmt, schema: Schema)
  {
    s.Unsupported? || s.select.table !in schema
  }

  function RejectedCount(stmts: seq<Stmt>, schema: Schema): nat
  {
    if stmts == [] then 0
    else (if Rejected(stmts[0], schema) then 1 else 0) + RejectedCount(stmts[1..], schema)
  }

  /** Exactly one finding per rejected statement, and each finding is the one
      of some rejected statement. */
  lemma {:induction false} OneFindingPerRejected(stmts: seq<Stmt>, schema: Schema)
    ensures |ValidateAll(stmts, schema)| == RejectedCount(stmts, schema)
    ensures forall f :: f in ValidateAll(stmts, schema) ==>
              exists i :: 0 <= i < |stmts| && Rejected(stmts[i], schema) && StatementFindings(stmts[i], schema) == [f]
  {
    if stmts != [] {
      OneFindingPerRejected(stmts[1..], schema);
      forall f | f in ValidateAll(stmts, schema)
        ensures exists i :: 0 <= i < |stmts| && Rejected(stmts[i], schema) && StatementFindings(stmts[i], schema) == [f]
      {
        if f in StatementFindings(stmts[0], schema) {
          assert Rejected(stmts[0], schema) && StatementFindings(stmts[0], schema) == [f];
        } else {
          var i :| 0 <= i < |stmts[1..]| && Rejected(stmts[1..][i], schema) && StatementFindings(stmts[1..][i], schema) == [f];
          assert stmts[i + 1] == stmts[1..][i];
        }
      }
    }
  }

  /** validate reports nothing exactly when every statement is a SELECT on a known table. */
  lemma {:induction false} NoFindingsIff(stmts: seq<Stmt>, schema: Schema)
    ensures ValidateAll(stmts, schema) == [] <==> forall s :: s in stmts ==> !Rejected(s, schema)
  {
    if stmts != [] {
      NoFindingsIff(stmts[1..], schema);
      assert forall s :: s in stmts <==> s == stmts[0] || s in stmts[1..];
      assert StatementFindings(stmts[0], schema) == [] <==> !Rejected(stmts[0], schema);
    }
  }

  // ---------------------------------------------------------------------
  // validate_select and validate_condition

  /** The selected columns missing from the table, in column order. */
  function MissingColumns(columns: seq<string>, table: string, tableColumns: seq<string>): seq<Finding>
  {
    if columns == [] then []
    else (if columns[0] in tableColumns then [] else [NoSuchColumn(columns[0], table)])
         + MissingColumns(columns[1..], table, tableColumns)
  }

  /** validate_condition. An untagged leaf is read as a CONDITION on its left
      text; a tagged CONDITION with operand records has no "column" key. */
  function ConditionFindings(n: Node, tableColumns: seq<string>): Result<seq<Finding>, Error>
  {
    match n
    case Leaf(left, _, _) => Ok(if left in tableColumns then [] else [ColumnNotInTable(left)])
    case Condition(column, _, _) => Ok(if column in tableColumns then [] else [ColumnNotInTable(column)])
    case Comparison(_, _, _) => Err(KeyError("column"))
    case Boolean(_) => Ok([UnknownCondition])
    case Logic(_, l, r) =>
      match ConditionFindings(l, tableColumns)
      case Err(e) => Err(e)
      case Ok(left) =>
        match ConditionFindings(r, tableColumns)
        case Err(e) => Err(e)
        case Ok(right) => Ok(left + right)
  }

  /** validate_select: an unknown table is the only finding; otherwise the
      missing columns (none for `*`), then the findings of the WHERE tree. */
  function SelectFindings(s: Select, schema: Schema): Result<seq<Finding>, Error>
  {
    if s.table !in schema then Ok([NoSuchTable(s.table)])
    else
      var columnFindings := if s.columns != ["*"] then MissingColumns(s.columns, s.table, schema[s.table]) else [];
      match s.where
      case None => Ok(columnFindings)
      case Some(w) =>
        match ConditionFindings(w, schema[s.table])
        case Err(e) => Err(e)
        case Ok(c) => Ok(columnFindings + c)
  }

  method ValidateSelect(stmt: Select, schema: Schema) returns (r: Result<seq<Finding>, Error>)
    ensures r == SelectFindings(stmt, schema)
  {
    var errors: seq<Finding> := [];
    if stmt.table !in schema {
      return Ok([NoSuchTable(stmt.table)]);
    }
    var tableColumns := schema[stmt.table];
    if stmt.columns != ["*"] {
      for i := 0 to |stmt.columns|
        invariant errors == MissingColumns(stmt.columns[..i], stmt.table, tableColumns)
      {
        if stmt.columns[i] !in tableColumns {
          errors := errors + [NoSuchColumn(stmt.columns[i], stmt.table)];
        }
        MissingColumnsAppend(stmt.columns[..i], [stmt.columns[i]], stmt.table, tableColumns);
        assert stmt.columns[..i + 1] == stmt.columns[..i] + [stmt.columns[i]];
      }
      assert stmt.columns[..|stmt.columns|] == stmt.columns;
    }
    if stmt.where.Some? {
      var c := ConditionFindings(stmt.where.value, tableColumns);
      if c.Err? {
        return Err(c.error);
      }
      errors := errors + c.value;
    }
    return Ok(errors);
  }

  /** Column findings come in column order. */
  lemma {:induction false} MissingColumnsAppend(a: seq<string>, b: seq<string>, table: string, tableColumns: seq<string>)
    ensures MissingColumns(a + b, table, tableColumns)
            == MissingColumns(a, table, tableColumns) + MissingColumns(b, table, tableColumns)
  {
    if a == [] {
      assert a + b == b;
    } else {
      var h := if a[0] in tableColumns then [] else [NoSuchColumn(a[0], table)];
      calc {
        MissingColumns(a + b, table, tableColumns);
        { assert (a + b)[0] == a[0]; assert (a + b)[1..] == a[1..] + b; }
        h + MissingColumns(a[1..] + b, table, tableColumns);
        { MissingColumnsAppend(a[1..], b, table, tableColumns); }
        h + (MissingColumns(a[1..], table, tableColumns) + MissingColumns(b, table, tableColumns));
        (h + MissingColumns(a[1..], table, tableColumns)) + MissingColumns(b, table, tableColumns);
        MissingColumns(a, table, tableColumns) + MissingColumns(b, table, tableColumns);
      }
    }
  }

  /** One finding per selected column absent from the table, and no other. */
  lemma {:induction false} MissingColumnsExact(columns: seq<string>, table: string, tableColumns: seq<string>)
    ensures forall f :: f in MissingColumns(columns, table, tableColumns) <==>
              f.NoSuchColumn? && f.table == table && f.column in columns && f.column !in tableColumns
    ensures MissingColumns(columns, table, tableColumns) == [] <==> forall c :: c in columns ==> c in tableColumns
  {
    if columns != [] {
      MissingColumnsExact(columns[1..], table, tableColumns);
      assert forall c :: c in columns <==> c == columns[0] || c in columns[1..];
    }
  }

  // ---------------------------------------------------------------------
  // validate_condition leaf by leaf

  /** The non-LOGIC nodes of a tree, left to right. */
  function LeavesInOrder(n: Node): seq<Node>
  {
    if n.Logic? then LeavesInOrder(n.left) + LeavesInOrder(n.right) else [n]
  }

  /** What validate_condition reports for a single non-LOGIC node. */
  function LeafFindings(x: Node, tableColumns: seq<string>): seq<Finding>
  {
    match x
    case Leaf(left, _, _) => if left in tableColumns then [] else [ColumnNotInTable(left)]
    case Condition(column, _, _) => if column in tableColumns then [] else [ColumnNotInTable(column)]
    case Boolean(_) => [UnknownCondition]
    case _ => []
  }

  function LeavesFindings(leaves: seq<Node>, tableColumns: seq<string>): seq<Finding>
  {
    if leaves == [] then [] else LeafFindings(leaves[0], tableColumns) + LeavesFindings(leaves[1..], tableColumns)
  }

  lemma {:induction false} LeavesFindingsAppend(a: seq<Node>, b: seq<Node>, tableColumns: seq<string>)
    ensures LeavesFindings(a + b, tableColumns) == LeavesFindings(a, tableColumns) + LeavesFindings(b, tableColumns)
  {
    if a == [] {
      assert a + b == b;
    } else {
      var h := LeafFindings(a[0], tableColumns);
      calc {
        LeavesFindings(a + b, tableColumns);
        { assert (a + b)[0] == a[0]; assert (a + b)[1..] == a[1..] + b; }
        h + LeavesFindings(a[1..] + b, tableColumns);
        { LeavesFindingsAppend(a[1..], b, tableColumns); }
        h + (LeavesFindings(a[1..], tableColumns) + LeavesFindings(b, tableColumns));
        (h + LeavesFindings(a[1..], tableColumns)) + LeavesFindings(b, tableColumns);
        LeavesFindings(a, tableColumns) + LeavesFindings(b, tableColumns);
      }
    }
  }

  predicate HasComparison(leaves: seq<Node>)
  {
    exists i :: 0 <= i < |leaves| && leaves[i].Comparison?
  }

  /** validate_condition reports, leaf by leaf from left to right, a missing
      column for an untagged leaf (its left text) or a CONDITION, and "Unknown
      condition type." for a BOOLEAN; it raises KeyError exactly when some leaf
      is a CONDITION with operand records. */
  lemma {:induction false} ConditionFindingsByLeaves(n: Node, tableColumns: seq<string>)
    ensures HasComparison(LeavesInOrder(n)) <==> ConditionFindings(n, tableColumns).Err?
    ensures !HasComparison(LeavesInOrder(n)) ==>
              ConditionFindings(n, tableColumns) == Ok(LeavesFindings(LeavesInOrder(n), tableColumns))
    ensures HasComparison(LeavesInOrder(n)) ==> ConditionFindings(n, tableColumns) == Err(KeyError("column"))
  {
    if n.Logic? {
      var l, r := LeavesInOrder(n.left), LeavesInOrder(n.right);
      ConditionFindingsByLeaves(n.left, tableColumns);
      ConditionFindingsByLeaves(n.right, tableColumns);
      LeavesFindingsAppend(l, r, tableColumns);
      HasComparisonAppend(l, r);
    } else {
      SingleLeafFindings(n, tableColumns);
    }
  }

  lemma HasComparisonAppend(a: seq<Node>, b: seq<Node>)
    ensures HasComparison(a + b) <==> HasComparison(a) || HasComparison(b)
  {
    if HasComparison(a + b) {
      var i :| 0 <= i < |a + b| && (a + b)[i].Comparison?;
      if i >= |a| {
        assert b[i - |a|].Comparison?;
      }
    }
    if HasComparison(a) {
      var i :| 0 <= i < |a| && a[i].Comparison?;
      assert (a + b)[i].Comparison?;
    }
    if HasComparison(b) {
      var i :| 0 <= i < |b| && b[i].Comparison?;
      assert (a + b)[i + |a|].Comparison?;
    }
  }

  lemma SingleLeafFindings(n: Node, tableColumns: seq<string>)
    requires !n.Logic?
    ensures HasComparison(LeavesInOrder(n)) <==> n.Comparison?
    ensures LeavesFindings(LeavesInOrder(n), tableColumns) == LeafFindings(n, tableColumns)
  {
    assert LeavesInOrder(n) == [n];
    assert [n][0] == n;
    assert LeavesFindings([n], tableColumns) == LeafFindings(n, tableColumns) + LeavesFindings([], tableColumns);
  }

  /** The left texts of the leaves of a parser-built tree, left to right. */
  function LeafColumns(n: Node): seq<string>
  {
    match n
    case Leaf(left, _, _) => [left]
    case Logic(_, l, r) => LeafColumns(l) + LeafColumns(r)
    case _ => []
  }

  /** On a parser-built tree, validate_condition never raises and reports the
      leaves whose left text is not a column, in order; right texts are never checked. */
  lemma {:induction false} ParserTreeFindings(n: Node, tableColumns: seq<string>)
    requires ParserShaped(n)
    ensures ConditionFindings(n, tableColumns) == Ok(MissingLeafColumns(LeafColumns(n), tableColumns))
  {
    if n.Logic? {
      ParserTreeFindings(n.left, tableColumns);
      ParserTreeFindings(n.right, tableColumns);
      MissingLeafColumnsAppend(LeafColumns(n.left), LeafColumns(n.right), tableColumns);
      assert LeafColumns(n) == LeafColumns(n.left) + LeafColumns(n.right);
      assert ConditionFindings(n, tableColumns)
             == Ok(MissingLeafColumns(LeafColumns(n.left), tableColumns) + MissingLeafColumns(LeafColumns(n.right), tableColumns));
    } else {
      assert LeafColumns(n) == [n.leftText];
      var f := if n.leftText in tableColumns then [] else [ColumnNotInTable(n.leftText)];
      assert ConditionFindings(n, tableColumns) == Ok(f);
      assert MissingLeafColumns([n.leftText], tableColumns) == f + [] == f;
    }
  }

  function MissingLeafColumns(columns: seq<string>, tableColumns: seq<string>): seq<Finding>
  {
    if columns == [] then []
    else (if columns[0] in tableColumns then [] else [ColumnNotInTable(columns[0])])
         + MissingLeafColumns(columns[1..], tableColumns)
  }

  lemma {:induction false} MissingLeafColumnsAppend(a: seq<string>, b: seq<string>, tableColumns: seq<string>)
    ensures MissingLeafColumns(a + b, tableColumns) == MissingLeafColumns(a, tableColumns) + MissingLeafColumns(b, tableColumns)
  {
    if a == [] {
      assert a + b == b;
    } else {
      var h := if a[0] in tableColumns then [] else [ColumnNotInTable(a[0])];
      calc {
        MissingLeafColumns(a + b, tableColumns);
        { assert (a + b)[0] == a[0]; assert (a + b)[1..] == a[1..] + b; }
        h + MissingLeafColumns(a[1..] + b, tableColumns);
        { MissingLeafColumnsAppend(a[1..], b, tableColumns); }
        h + (MissingLeafColumns(a[1..], tableColumns) + MissingLeafColumns(b, tableColumns));
        (h + MissingLeafColumns(a[1..], tableColumns)) + MissingLeafColumns(b, tableColumns);
        MissingLeafColumns(a, tableColumns) + MissingLeafColumns(b, tableColumns);
      }
    }
  }

  lemma {:induction false} MissingLeafColumnsEmpty(columns: seq<string>, tableColumns: seq<string>)
    ensures MissingLeafColumns(columns, tableColumns) == [] <==> forall c :: c in columns ==> c in tableColumns
  {
    if columns != [] {
      MissingLeafColumnsEmpty(columns[1..], tableColumns);
      assert forall c :: c in columns <==> c == columns[0] || c in columns[1..];
    }
  }

  /** A parsed SELECT passes validate_select exactly when its table exists, each
      selected column (unless `*`) is in it, and so is each WHERE leaf's left text. */
  lemma SelectCleanIff(s: Select, schema: Schema)
    requires s.where.Some? ==> ParserShaped(s.where.value)
    ensures SelectFindings(s, schema) == Ok([]) <==>
              && s.table in schema
              && (s.columns == ["*"] || forall c :: c in s.columns ==> c in schema[s.table])
              && (s.where.Some? ==> forall c :: c in LeafColumns(s.where.value) ==> c in schema[s.table])
  {
    if s.table in schema {
      MissingColumnsExact(s.columns, s.table, schema[s.table]);
      if s.where.Some? {
        ParserTreeFindings(s.where.value, schema[s.table]);
        MissingLeafColumnsEmpty(LeafColumns(s.where.value), schema[s.table]);
      }
    }
  }
}
