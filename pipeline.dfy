/**
 * How the stages fit together: what the parser hands on, and how the
 * renderers of the different stages agree on the trees they share.
 */
module Pipeline {
  import opened Wrappers
  import opened Ast
  import opened Tokens
  import opened Lexer
  import opened Parser
  import ParserProperties
  import Passes
  import Optimizer
  import OptimizerV2
  import IrGenerator
  import SqlRenderer

  /** A statement as the parser builds it: a SELECT without joins or log, its WHERE a LOGIC tree over untagged leaves. */
  predicate Parsed(s: Stmt)
  {
    && s.SelectStmt? && s.select.joins == [] && s.select.log == []
    && (s.select.where.Some? ==> ParserShaped(s.select.where.value))
  }

  lemma SelectParsed(t: seq<Token>, p: nat)
    requires p <= |t| && SelectAt(t, p).Ok?
    ensures Parsed(SelectStmt(SelectAt(t, p).value.0))
  {
    var q, end := ParserProperties.SelectParts(t, p);
    if t[q + 2].kind == WHERE {
      ParserProperties.ConditionShaped(t, q + 3);
    }
  }

  /** Every statement a successful parse returns has the parser's shape. */
  lemma {:induction false} ProgramParsed(t: seq<Token>, p: nat)
    requires p <= |t| && ProgramAt(t, p).Ok?
    ensures forall i :: 0 <= i < |ProgramAt(t, p).value| ==> Parsed(ProgramAt(t, p).value[i])
    decreases |t| - p
  {
    if p < |t| {
      var (stmt, q) := StatementAt(t, p).value;
      SelectParsed(t, p);
      ProgramParsed(t, SkipSemicolon(t, q));
    }
  }

  /** On LOGIC/CONDITION trees the optimizer's SQL printer and the IR printer produce the same text. */
  lemma {:induction false} TypedPrintersAgree(n: Node)
    requires IrGenerator.Typed(n)
    ensures Optimizer.FormatLogic(n) == IrGenerator.ConditionToString(n)
    ensures Optimizer.FormatLogic(n).Ok?
  {
    if n.Logic? {
      TypedPrintersAgree(n.left);
      TypedPrintersAgree(n.right);
    }
  }

  /**
   * A parsed WHERE, reordered by the optimizer and then normalized for the
   * IR, prints without error and identically in the optimized SQL and in the
   * σ of the IR.
   */
  lemma OptimizedWherePrints(n: Node)
    requires ParserShaped(n)
    ensures var m := IrGenerator.Normalize(Passes.Reorder(n, Optimizer.Cost));
            && IrGenerator.ConditionToString(m).Ok?
            && Optimizer.FormatLogic(m) == IrGenerator.ConditionToString(m)
            && Optimizer.WhereClause(Some(m)) == Ok(" WHERE " + IrGenerator.ConditionToString(m).value)
  {
    var r := Passes.Reorder(n, Optimizer.Cost);
    Passes.ReorderParserShaped(n, Optimizer.Cost);
    IrGenerator.NormalizeShape(r);
    var m := IrGenerator.Normalize(r);
    assert IrGenerator.Typed(m);
    TypedPrintersAgree(m);
    if m.Condition? {
      assert " WHERE " + m.column + " " + m.op + " " + m.value
          == " WHERE " + (m.column + " " + m.op + " " + m.value);
    }
  }

  /** The parser tree with every leaf's value quoted as the quoting renderer does. */
  function QuoteValues(n: Node): Node
  {
    match n
    case Leaf(left, op, right) => Leaf(left, op, SqlRenderer.QuoteValue(right))
    case Logic(op, l, r) => Logic(op, QuoteValues(l), QuoteValues(r))
    case _ => n
  }

  /** The quoting renderer prints a parsed tree as the IR printer prints it once its values are quoted. */
  lemma {:induction false} QuotingRendererAgrees(n: Node)
    requires ParserShaped(n)
    ensures SqlRenderer.ConditionToStr(n) == IrGenerator.ConditionToString(IrGenerator.Normalize(QuoteValues(n)))
  {
    if n.Logic? {
      QuotingRendererAgrees(n.left);
      QuotingRendererAgrees(n.right);
    }
  }

  /**
   * The richer optimizer leaves a parsed WHERE as it is (its normalization
   * tags nothing, every untagged leaf costs the same, nothing folds or
   * vanishes), and its SQL printer then fails on the first untagged leaf.
   */
  lemma ParsedWhereUntouchedByV2(n: Node)
    requires ParserShaped(n)
    ensures OptimizerV2.SimplifyWhere(Some(n)) == Some(n)
    ensures OptimizerV2.FormatCondition(n) == Err(Errors.KeyError("type"))
  {
    ParsedTreeOrderedV2(n);
    Passes.OrderedUnchanged(n, OptimizerV2.Cost);
    ParsedTreeFixedV2(n);
  }

  lemma {:induction false} ParsedTreeOrderedV2(n: Node)
    requires ParserShaped(n)
    ensures Passes.Ordered(n, OptimizerV2.Cost)
  {
    if n.Logic? {
      ParsedTreeOrderedV2(n.left);
      ParsedTreeOrderedV2(n.right);
    }
  }

  lemma {:induction false} ParsedTreeFixedV2(n: Node)
    requires ParserShaped(n)
    ensures OptimizerV2.ConstantFold(n) == n
    ensures OptimizerV2.EliminateRedundant(n) == Some(n)
    ensures OptimizerV2.FormatCondition(n) == Err(Errors.KeyError("type"))
  {
    if n.Logic? {
      ParsedTreeFixedV2(n.left);
      ParsedTreeFixedV2(n.right);
    }
  }
}
