/**
 * What the parser guarantees about its input and output: the shape of column
 * lists, the shape of conditions, the nesting of AND/OR chains, transparent
 * parentheses, one statement per SELECT token, and the closing semicolon.
 */
module ParserProperties {
  import opened Wrappers
  import opened Errors
  import opened Tokens
  import opened Lexer
  import opened Ast
  import opened Parser

  // ---------------------------------------------------------------------
  // Column lists

  /** t[p..q] is IDENTIFIER (COMMA IDENTIFIER)*. */
  predicate Alternates(t: seq<Token>, p: nat, q: nat)
    requires p <= q <= |t|
    decreases q - p
  {
    && q - p >= 1 && t[p].kind == IDENTIFIER
    && (q - p == 1 || (q - p >= 3 && t[p + 1].kind == COMMA && Alternates(t, p + 2, q)))
  }

  /** The texts of the identifiers of an alternating run. */
  function IdentifierTexts(t: seq<Token>, p: nat, q: nat): seq<string>
    requires p <= q <= |t|
    decreases q - p
  {
    if q - p <= 1 then (if q == p then [] else [t[p].text])
    else [t[p].text] + IdentifierTexts(t, p + 2, q)
  }

  /** A parsed identifier list is an alternating run, ended by a non-comma,
      and its names are the identifier texts in order. */
  lemma {:induction false} IdentsSound(t: seq<Token>, p: nat)
    requires p <= |t| && IdentsAt(t, p).Ok?
    ensures var (names, q) := IdentsAt(t, p).value;
            Alternates(t, p, q) && t[q].kind != COMMA && names == IdentifierTexts(t, p, q)
    decreases |t| - p
  {
    if t[p + 1].kind == COMMA {
      IdentsSound(t, p + 2);
    }
  }

  /** Conversely, every alternating run ended by a non-comma parses to its texts. */
  lemma {:induction false} IdentsComplete(t: seq<Token>, p: nat, q: nat)
    requires p <= q < |t| && Alternates(t, p, q) && t[q].kind != COMMA
    ensures IdentsAt(t, p) == Ok((IdentifierTexts(t, p, q), q))
    decreases q - p
  {
    if q - p > 1 {
      IdentsComplete(t, p + 2, q);
    }
  }

  /** columns is ["*"] after an ASTERISK, and otherwise the identifier list. */
  lemma ColumnsShape(t: seq<Token>, p: nat)
    requires p <= |t| && ColumnsAt(t, p).Ok?
    ensures var (names, q) := ColumnsAt(t, p).value;
            if t[p].kind == ASTERISK then names == ["*"] && q == p + 1
            else Alternates(t, p, q) && t[q].kind != COMMA && names == IdentifierTexts(t, p, q)
  {
    if t[p].kind != ASTERISK {
      IdentsSound(t, p);
    }
  }

  // ---------------------------------------------------------------------
  // Conditions

  /** The parser builds only LOGIC nodes over untagged leaves. */
  lemma {:induction false} ConditionShaped(t: seq<Token>, p: nat)
    requires p <= |t| && ConditionAt(t, p).Ok?
    ensures ParserShaped(ConditionAt(t, p).value.0)
    decreases |t| - p, 1
  {
    var (left, q) := AtomicAt(t, p).value;
    AtomicShaped(t, p);
    ChainShaped(t, q, left);
  }

  lemma {:induction false} AtomicShaped(t: seq<Token>, p: nat)
    requires p <= |t| && AtomicAt(t, p).Ok?
    ensures ParserShaped(AtomicAt(t, p).value.0)
    decreases |t| - p, 0
  {
    if t[p].kind == LPAREN {
      ConditionShaped(t, p + 1);
    }
  }

  lemma {:induction false} ChainShaped(t: seq<Token>, q: nat, left: Node)
    requires q <= |t| && ParserShaped(left) && ChainAt(t, q, left).Ok?
    ensures ParserShaped(ChainAt(t, q, left).value.0)
    decreases |t| - q, 2
  {
    if IsLogicKind(t[q].kind) {
      var (right, q') := ConditionAt(t, q + 1).value;
      ConditionShaped(t, q + 1);
      ChainShaped(t, q', Logic(t[q].text, left, right));
    }
  }

  /** A leaf is `IDENTIFIER comparator operand`, with the three token texts. */
  lemma LeafShape(t: seq<Token>, p: nat)
    requires p <= |t| && ComparisonAt(t, p).Ok?
    ensures p + 3 <= |t|
    ensures t[p].kind == IDENTIFIER && IsComparator(t[p + 1].kind) && IsOperandKind(t[p + 2].kind)
    ensures ComparisonAt(t, p).value.0 == Leaf(t[p].text, t[p + 1].text, t[p + 2].text)
  {
  }

  /** Any other operator or right-hand token is an error naming it. */
  lemma LeafErrors(t: seq<Token>, p: nat)
    requires p + 2 < |t| && t[p].kind == IDENTIFIER
    ensures !IsComparator(t[p + 1].kind) ==>
              ComparisonAt(t, p) == Err(ExpectedComparator(t[p + 1].kind))
    ensures IsComparator(t[p + 1].kind) && !IsOperandKind(t[p + 2].kind) ==>
              ComparisonAt(t, p) == Err(UnexpectedWhereToken(t[p + 2].text))
  {
  }

  /** AND/OR chains nest to the right: after an atomic condition a, an AND or OR
      joins a with the whole condition that follows, and the loop ends there. */
  lemma RightNested(t: seq<Token>, p: nat)
    requires p <= |t| && ConditionAt(t, p).Ok?
    requires var q := AtomicAt(t, p).value.1; q < |t| && IsLogicKind(t[q].kind)
    ensures var (a, q) := AtomicAt(t, p).value;
            ConditionAt(t, q + 1).Ok?
            && ConditionAt(t, p) == Ok((Logic(t[q].text, a, ConditionAt(t, q + 1).value.0),
                                        ConditionAt(t, q + 1).value.1))
  {
    var (a, q) := AtomicAt(t, p).value;
    ChainStep(t, q, a);
    var (b, r) := ConditionAt(t, q + 1).value;
    ChainStop(t, r, Logic(t[q].text, a, b));
  }

  /** Parentheses leave no trace: `( c )` yields the node of c. */
  lemma ParenthesesTransparent(t: seq<Token>, p: nat)
    requires p < |t| && t[p].kind == LPAREN && ConditionAt(t, p + 1).Ok?
    requires var q := ConditionAt(t, p + 1).value.1;
             q + 1 < |t| && t[q].kind == RPAREN && !IsLogicKind(t[q + 1].kind)
    ensures ConditionAt(t, p) == Ok((ConditionAt(t, p + 1).value.0, ConditionAt(t, p + 1).value.1 + 1))
  {
    var (c, q) := ConditionAt(t, p + 1).value;
    assert AtomicAt(t, p) == Ok((c, q + 1));
    assert ChainAt(t, q + 1, c) == Ok((c, q + 1));
  }

  // ---------------------------------------------------------------------
  // Statements

  /** The number of SELECT tokens in t[i..j]. */
  function SelectCount(t: seq<Token>, i: nat, j: nat): nat
    requires i <= j <= |t|
    decreases j - i
  {
    if i == j then 0 else (if t[i].kind == SELECT then 1 else 0) + SelectCount(t, i + 1, j)
  }

  lemma {:induction false} SelectCountSplit(t: seq<Token>, i: nat, j: nat, k: nat)
    requires i <= j <= k <= |t|
    ensures SelectCount(t, i, k) == SelectCount(t, i, j) + SelectCount(t, j, k)
    decreases j - i
  {
    if i < j {
      SelectCountSplit(t, i + 1, j, k);
    }
  }

  lemma {:induction false} IdentsHaveNoSelect(t: seq<Token>, p: nat)
    requires p <= |t| && IdentsAt(t, p).Ok?
    ensures SelectCount(t, p, IdentsAt(t, p).value.1) == 0
    decreases |t| - p
  {
    var q := IdentsAt(t, p).value.1;
    if t[p + 1].kind == COMMA {
      IdentsHaveNoSelect(t, p + 2);
      assert SelectCount(t, p, q) == SelectCount(t, p + 2, q);
    }
  }

  lemma {:induction false} ConditionHasNoSelect(t: seq<Token>, p: nat)
    requires p <= |t| && ConditionAt(t, p).Ok?
    ensures SelectCount(t, p, ConditionAt(t, p).value.1) == 0
    decreases |t| - p, 1
  {
    var (left, q) := AtomicAt(t, p).value;
    AtomicHasNoSelect(t, p);
    ChainHasNoSelect(t, q, left);
    SelectCountSplit(t, p, q, ConditionAt(t, p).value.1);
  }

  lemma {:induction false} AtomicHasNoSelect(t: seq<Token>, p: nat)
    requires p <= |t| && AtomicAt(t, p).Ok?
    ensures SelectCount(t, p, AtomicAt(t, p).value.1) == 0
    decreases |t| - p, 0
  {
    var q := AtomicAt(t, p).value.1;
    if t[p].kind == LPAREN {
      ConditionHasNoSelect(t, p + 1);
      SelectCountSplit(t, p + 1, q - 1, q);
    } else {
      LeafShape(t, p);
      assert SelectCount(t, p + 2, q) == 0;
      assert SelectCount(t, p + 1, q) == 0;
    }
  }

  lemma {:induction false} ChainHasNoSelect(t: seq<Token>, q: nat, left: Node)
    requires q <= |t| && ChainAt(t, q, left).Ok?
    ensures SelectCount(t, q, ChainAt(t, q, left).value.1) == 0
    decreases |t| - q, 2
  {
    if IsLogicKind(t[q].kind) {
      var (right, r) := ConditionAt(t, q + 1).value;
      ConditionHasNoSelect(t, q + 1);
      ChainHasNoSelect(t, r, Logic(t[q].text, left, right));
      SelectCountSplit(t, q + 1, r, ChainAt(t, q, left).value.1);
    }
  }

  /** The pieces of a parsed SELECT: the column list ends at q, FROM and the
      table name follow, then either a WHERE condition or the end of the
      statement; the statement has no joins and no log. */
  lemma SelectParts(t: seq<Token>, p: nat) returns (q: nat, end: nat)
    requires p <= |t| && SelectAt(t, p).Ok?
    ensures p < |t| && t[p].kind == SELECT
    ensures ColumnsAt(t, p + 1).Ok? && ColumnsAt(t, p + 1).value.1 == q
    ensures q + 2 < |t| && t[q].kind == FROM && t[q + 1].kind == IDENTIFIER
    ensures end == SelectAt(t, p).value.1
    ensures SelectAt(t, p).value.0.joins == [] && SelectAt(t, p).value.0.log == []
    ensures t[q + 2].kind == WHERE ==>
              && ConditionAt(t, q + 3).Ok? && end == ConditionAt(t, q + 3).value.1
              && SelectAt(t, p).value.0.where == Some(ConditionAt(t, q + 3).value.0)
    ensures t[q + 2].kind != WHERE ==> end == q + 2 && SelectAt(t, p).value.0.where == None
  {
    q := ColumnsAt(t, p + 1).value.1;
    end := SelectAt(t, p).value.1;
  }

  lemma ColumnsHaveNoSelect(t: seq<Token>, p: nat)
    requires p <= |t| && ColumnsAt(t, p).Ok?
    ensures SelectCount(t, p, ColumnsAt(t, p).value.1) == 0
  {
    if t[p].kind != ASTERISK {
      IdentsHaveNoSelect(t, p);
    } else {
      assert SelectCount(t, p + 1, p + 1) == 0;
    }
  }

  /** A statement holds exactly one SELECT token: its first. */
  lemma SelectHasOneSelect(t: seq<Token>, p: nat)
    requires p <= |t| && SelectAt(t, p).Ok?
    ensures SelectCount(t, p, SelectAt(t, p).value.1) == 1
  {
    var q, end := SelectParts(t, p);
    ColumnsHaveNoSelect(t, p + 1);
    if t[q + 2].kind == WHERE {
      ConditionHasNoSelect(t, q + 3);
    }
    PartsHaveOneSelect(t, p, q, end);
  }

  lemma PartsHaveOneSelect(t: seq<Token>, p: nat, q: nat, end: nat)
    requires p < q && q + 2 <= end <= |t|
    requires t[p].kind == SELECT && t[q].kind == FROM && t[q + 1].kind == IDENTIFIER
    requires SelectCount(t, p + 1, q) == 0
    requires end == q + 2 || (t[q + 2].kind == WHERE && q + 3 <= end && SelectCount(t, q + 3, end) == 0)
    ensures SelectCount(t, p, end) == 1
  {
    if end > q + 2 {
      assert SelectCount(t, q + 2, end) == SelectCount(t, q + 3, end);
    }
    assert SelectCount(t, q + 1, end) == SelectCount(t, q + 2, end);
    assert SelectCount(t, q, end) == SelectCount(t, q + 1, end);
    SelectCountSplit(t, p + 1, q, end);
    assert SelectCount(t, p, end) == 1 + SelectCount(t, p + 1, end);
  }

  /** A successful parse yields one statement per SELECT token, in order. */
  lemma {:induction false} OneStatementPerSelect(t: seq<Token>, p: nat)
    requires p <= |t| && ProgramAt(t, p).Ok?
    ensures |ProgramAt(t, p).value| == SelectCount(t, p, |t|)
    decreases |t| - p
  {
    if p < |t| {
      var q := StatementAt(t, p).value.1;
      var next := SkipSemicolon(t, q);
      SelectHasOneSelect(t, p);
      OneStatementPerSelect(t, next);
      SelectCountSplit(t, p, q, |t|);
      SelectCountSplit(t, q, next, |t|);
    }
  }

  /** A successful parse of a non-empty token list ends with a semicolon: every
      statement is followed by a token, and one that is not `;` must start
      another statement. */
  lemma {:induction false} EndsWithSemicolon(t: seq<Token>, p: nat)
    requires p < |t| && ProgramAt(t, p).Ok?
    ensures t[|t| - 1].kind == SEMICOLON
    decreases |t| - p
  {
    var next := SkipSemicolon(t, StatementAt(t, p).value.1);
    if next < |t| {
      EndsWithSemicolon(t, next);
    }
  }

  /** A statement that does not start with SELECT is an error naming its first token. */
  lemma NonSelectRejected(t: seq<Token>, p: nat)
    requires p < |t| && t[p].kind != SELECT
    ensures ProgramAt(t, p) == Err(UnsupportedSqlStatement(t[p].text))
  {
  }

  /** `SELEC id FROM;` fails on its first token. */
  lemma MisspelledSelectFails()
    ensures ProgramAt([Token(IDENTIFIER, "SELEC"), Token(IDENTIFIER, "id"), Token(FROM, "FROM"),
                       Token(SEMICOLON, ";")], 0)
            == Err(UnsupportedSqlStatement("SELEC"))
  {
  }

  /** `SELECT * FROM users` without `;` fails looking past the last token. */
  lemma MissingSemicolonFails()
    ensures ProgramAt([Token(SELECT, "SELECT"), Token(ASTERISK, "*"), Token(FROM, "FROM"),
                       Token(IDENTIFIER, "users")], 0)
            == Err(IndexError)
  {
  }
}
