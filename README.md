# SQL query optimizer front end, in Dafny

This project models the compiler core of a small SQL query optimizer. The
core accepts a restricted `SELECT` dialect:

- `tokenize` turns a query string into `(KIND, text)` tokens. It tries a
  fixed priority list of regular expressions, drops blanks and raises on an
  unknown character.
- A recursive-descent `Parser` object with a moving `position` builds
  statement records. Their WHERE trees are `LOGIC` nodes over untagged
  `{left, op, right}` leaves.
- `validate` and `validate_select` collect semantic findings against a
  schema.
- Two optimizers rewrite the statements:
  - the one the command line uses: column deduplication and a cost-based
    swap of `LOGIC` children;
  - a richer one: optimization log, reordering, constant folding,
    elimination of always-true conditions and the IN-subquery-to-JOIN
    rewrite.
- Three printers turn statements back into text:
  - the relational-algebra IR, `π[columns] (σ[condition] (table))`;
  - the IR record form;
  - SQL, once per optimizer and once in the utility module, which quotes
    values.

Python dictionaries are told apart by their keys and their `"type"` tag.
Each shape that occurs is its own constructor here (`Ast.Node`: `Leaf`,
`Condition`, `Comparison`, `Boolean`, `Logic`). A Python exception is an
`Errors.Error` value carried in a `Result`. Each stage has three parts:

- a specification function (`Lex`, `ProgramAt`, `ValidateAll`, `Traverse`
  over a per-statement function, …);
- the loop or the object method that the source runs, proved equal to that
  function;
- lemmas stating what the function guarantees.

Files:

- `tokens.dfy`, `wrappers.dfy`, `errors.dfy`, `ast.dfy`: token kinds,
  `Option`/`Result`, the loop-collecting `Traverse`, exceptions, and the
  statement and condition trees.
- `lexer.dfy`: the token specification, first-match semantics, `Tokenize`,
  and the properties of its output.
- `parser.dfy`, `parser_properties.dfy`: the `Parser` class, the grammar as
  functions, and what a parse yields.
- `semantic.dfy`: `validate`, `validate_select` and `validate_condition`.
- `passes.dfy`: column deduplication and cost-based reordering, which both
  optimizers share.
- `optimizer.dfy`: the command-line optimizer and its SQL printer.
- `optimizer_v2.dfy`: the richer optimizer, a reference truth semantics
  (`Eval`) for conditions, and its SQL printer.
- `ir_generator.dfy`: IR text, IR normalization and the IR record form.
- `sql_renderer.dfy`: the quoting SQL printer of the utility module.
- `pipeline.dfy`: how the stages fit together. This covers what the parser
  hands on and where the printers agree or fail on the parser's trees.

## Where the code departs from what its names and tests suggest

The model follows the code in each of these places.

- **Keyword text:** `tokenize` upper-cases the kind only (`app/lexer.py:43`).
  The value keeps its source spelling, so `select` lexes as
  `Token(SELECT, "select")`. The lexer tests read `t['type']` from each
  token (`tests/test_lexer.py:7`), but the tokens are `(kind, value)` tuples.
- **Normalization in the richer optimizer:** its `normalize_condition` only
  rebuilds `LOGIC` nodes (`app/tempCodeRunnerFile.py:215-229`). Its namesake
  in `app/ir_generator.py:65-73` tags raw leaves as `CONDITION`. An untagged
  parser leaf therefore stays untagged, and the optimizer leaves a parsed
  WHERE exactly as it is (`Pipeline.ParsedWhereUntouchedByV2`).
- **Optimization log:** the richer optimizer empties each statement's log on
  every call (`app/tempCodeRunnerFile.py:5`). A second run does not keep the
  first run's log.
- **Constant folding of `1 = 1`:** `constant_fold` builds a Python expression
  and `eval`s it (`app/tempCodeRunnerFile.py:74`). `1 = 1` is not a Python
  expression, so `=` never folds. `1 = 1` is removed by the elimination pass
  instead (`app/tempCodeRunnerFile.py:98-106`, `OptimizerV2.TautologyDropped`).
- **Join key:** the JOIN's `on.left` is the IN operand's bare value
  (`app/tempCodeRunnerFile.py:155`), while its `on.right` is table-qualified
  (line 157).
- **IN-subqueries:** the optimizer looks for `op == "IN"`
  (`app/tempCodeRunnerFile.py:29-31`), but the parser has no rule for `IN` or
  subqueries. Only trees built by other code can trigger the rewrite.
- **Printers can fail:**
  - The command-line optimizer's `ast_to_sql` says it supports SELECT
    statements with an optional WHERE (`app/optimizer.py:60-63`). It raises
    `KeyError('type')` on a parsed WHERE holding AND/OR, unless the leaves
    were tagged first (`Optimizer.ParserLogicNotRendered`,
    `Pipeline.OptimizedWherePrints`).
  - The richer optimizer's SQL printer raises the same on any parsed WHERE
    (`Pipeline.ParsedWhereUntouchedByV2`).
  - Validation raises `KeyError('column')` on a `CONDITION` whose sides are
    operand records.
- **End-to-end tests:**
  - `tests/test_ent_to_end.py:21-28` expects `validate` to report
    "Column 'foo' does not exist". But `validate` checks only table names and
    statement types (`app/semantic.py:17-29`), so for
    `SELECT id, foo FROM users;` on a known table it reports nothing
    (`Semantic.NoFindingsIff`).
  - `tests/test_ent_to_end.py:16-19` hands the command-line optimizer's output
    for `... WHERE age > 25;` to `generate_ir`. That WHERE is still an
    untagged parser leaf, so `condition_to_string` raises `KeyError('type')`
    (`IrGenerator.GenerateIrResult`). Had it succeeded, the IR would be a
    string, which the test's `dict`-or-`list` check rejects.
- **Always-true under OR:** `eliminate_redundant_condition` removes an
  always-true side under `OR` as well as under `AND`. Under `OR` that is not
  redundant: it changes the meaning. `OptimizerV2.OrCollapseChangesMeaning`
  exhibits a row selected before the pass and not after it.
  `OptimizerV2.SimplifyKeepsConjunctions` proves the passes keep the meaning
  on conjunctions.

## Model

| member | source | states |
|---|---|---|
| Lexer.Tokenize | app/lexer.py:29-45 | The scan equals the first-match specification `Lex`: blanks are dropped and an unknown character raises. Every token is well formed: a keyword's text spells the keyword in some case, a NUMBER is digits with an optional fraction, a STRING is a quoted run without inner quotes, and an IDENTIFIER is a word that is not a keyword. The token texts concatenated spell the input with the blanks outside string literals removed. |
| Lexer.FirstMatchEarliest | app/lexer.py:4-32 | The alternative that wins at a position is the earliest one in the specification list that matches there. |
| Lexer.FirstMatchMatches | app/lexer.py:31-36 | The winning alternative does match at the position, with the reported length. |
| Lexer.FirstMatchFinds | app/lexer.py:31-34 | If any alternative matches, the alternation finds a winner. |
| Lexer.FirstMatchWithinPrefix | app/lexer.py:4-27 | When an alternative among the first m matches, the winner is among the first m: priority order is respected. |
| Lexer.FirstMatchTotal | app/lexer.py:25-26 | Some alternative matches at every position (blanks by SKIP, anything else by MISMATCH), so the scan never skips a character. |
| Lexer.KeywordWordMatches | app/lexer.py:7-13 | A whole word spelling a keyword in any letter case matches that keyword's pattern (case-insensitive, with word boundaries). |
| Lexer.KeywordBeatsIdentifier | app/lexer.py:7-13 | A matching keyword pattern wins over IDENTIFIER. |
| Lexer.IdentifierNotKeyword | app/lexer.py:7-13 | When IDENTIFIER wins, no keyword pattern matched at that position. |
| Lexer.NumberShape | app/lexer.py:5 | A NUMBER match is digits, optionally followed by a point and more digits. |
| Lexer.StringShape | app/lexer.py:6 | A STRING match starts and ends with a quote and holds no quote in between. |
| Lexer.StringWins | app/lexer.py:5-6 | A quote with a closing quote later on is one STRING token that runs to the first closing quote, both quotes included. |
| Lexer.UnclosedQuoteFails | app/lexer.py:6-41 | A quote that is never closed is matched by MISMATCH alone, and the scan fails on the quote. |
| Lexer.IdentifierShape | app/lexer.py:13 | An IDENTIFIER match that no keyword matched gives a well-formed IDENTIFIER token. |
| Lexer.FirstAt | app/lexer.py:4-34 | When every alternative before position i fails and alternative i matches, alternative i wins with its own length. |
| Lexer.LessThanTokens | app/lexer.py:17-19 | At a `<`, the winner is one LTE token of length 2 when `=` follows, and LT of length 1 otherwise. |
| Lexer.GreaterThanTokens | app/lexer.py:18-20 | At a `>`, the winner is one GTE token of length 2 when `=` follows, and GT of length 1 otherwise. |
| Lexer.BangTokens | app/lexer.py:16-26 | At a `!`, the winner is one NEQ token when `=` follows; a lone `!` is an unexpected character. |
| Lexer.IdentifierUnlessKeyword | app/lexer.py:7-13 | An identifier-shaped word lexes as one IDENTIFIER covering the whole word exactly when its upper-case spelling is not a keyword. |
| Lexer.IdentifierWins | app/lexer.py:7-13 | A word that does not spell a keyword is one IDENTIFIER token over the whole word. |
| Lexer.KeywordMatchIsWholeWord | app/lexer.py:7-12 | A keyword pattern that matches covers a whole word, and that word spells the keyword. |
| Lexer.SelectWordWins | app/lexer.py:7 | A word spelling SELECT in any letter case is the SELECT keyword, of length 6. |
| Lexer.StrayCharacterFails | app/lexer.py:26-41 | A character no token starts with (not a word character, blank, quote or operator symbol) is matched by MISMATCH alone, and the scan fails on it. |
| Lexer.DigitBeforeLetterFails | app/lexer.py:5-26 | Digits glued to a letter (`1a`) match neither NUMBER nor IDENTIFIER, so the scan fails on the first digit. |
| Lexer.MismatchFails | app/lexer.py:40-41 | When MISMATCH wins, the scan fails on that one character. |
| Lexer.SelectedIsIdentifier | app/lexer.py:7-13 | `selected` is one IDENTIFIER of length 8, not SELECT followed by `ed`. |
| Lexer.SelectIsKeyword | app/lexer.py:7-32 | `select` in lower case is the SELECT keyword. |
| Lexer.LessEqualIsOneToken | app/lexer.py:17 | A leading `<=` is one LTE token, whatever follows. |
| Lexer.GluedNumberFails | app/lexer.py:5-41 | `1a` is rejected at its first character. |
| Lexer.PlusFails | app/lexer.py:26-41 | `+` is rejected. |
| Lexer.DotFails | app/lexer.py:26-41 | A dot outside a number is rejected. |
| Lexer.CarriageReturnFails | app/lexer.py:25-41 | A carriage return is not a blank, so it is rejected. |
| Lexer.NumberToken | app/lexer.py:5 | A NUMBER match yields a well-formed NUMBER token. |
| Lexer.StringToken | app/lexer.py:6 | A STRING match yields a well-formed STRING token. |
| Lexer.KeywordToken | app/lexer.py:7-12 | A keyword match yields a well-formed token of that keyword. |
| Lexer.IdentifierToken | app/lexer.py:13 | An IDENTIFIER match where no keyword matched yields a well-formed IDENTIFIER token. |
| Lexer.FixedToken | app/lexer.py:14-24 | An operator or punctuation match yields a token whose text is exactly that symbol. |
| Lexer.TokenShape | app/lexer.py:5-24 | The token a match of any kind yields has the shape its kind promises. |
| Lexer.MatchedToken | app/lexer.py:34-43 | The token built from the winning alternative is well formed. |
| Lexer.OkStep | app/lexer.py:34-43 | One step of a successful scan: SKIP adds nothing, and any other winner adds exactly `(kind, matched text)` in front of the rest. |
| Lexer.LexWellFormed | app/lexer.py:34-45 | Every token of a successful scan is well formed. No SKIP or MISMATCH token is ever emitted. |
| Lexer.SqueezeSkipsBlanks | app/lexer.py:25 | A run of blanks contributes nothing to the squeezed text. |
| Lexer.SqueezeCopies | app/lexer.py:25 | A run of non-blank, non-quote characters is copied as it is. |
| Lexer.SqueezeString | app/lexer.py:6 | A closed quoted literal is copied whole, blanks included. |
| Lexer.SqueezePlainToken | app/lexer.py:5-24 | The text of a token other than a STRING is copied verbatim by the squeeze. |
| Lexer.SqueezeStringToken | app/lexer.py:6 | The text of a STRING token is copied verbatim by the squeeze. |
| Lexer.SkipSqueeze | app/lexer.py:38-39 | A SKIP match is exactly what the squeeze drops. |
| Lexer.LexSpellsSqueeze | app/lexer.py:34-45 | The texts of the tokens of a successful scan, concatenated, are the input with the blanks outside string literals removed. |
| Parser.Parser.constructor | app/parser.py:2-4 | A new parser holds the tokens at position 0. |
| Parser.Parser.Peek | app/parser.py:106-107 | Returns the token at the position, or IndexError past the end. |
| Parser.Parser.Advance | app/parser.py:109-110 | Moves the position one token on. |
| Parser.Parser.Expect | app/parser.py:112-117 | Consumes a token of the expected kind and returns it. Otherwise it raises "Expected K but got K'" and does not move. |
| Parser.Parser.Parse | app/parser.py:6-17 | Returns the grammar's `ProgramAt`: statements until the tokens run out, each optionally followed by one `;`. On success the position is at the end. |
| Parser.Parser.ParseStatement | app/parser.py:20-25 | Result and new position are those of `StatementAt`: a SELECT, or "Unsupported SQL statement" naming the first token. |
| Parser.Parser.ParseSelect | app/parser.py:27-45 | Result and new position are those of `SelectAt`: `SELECT columns FROM IDENTIFIER [WHERE condition]`. |
| Parser.Parser.ParseColumns | app/parser.py:47-59 | Result and new position are those of `ColumnsAt`: `*`, or identifiers separated by commas. |
| Parser.Parser.ParseCondition | app/parser.py:61-102 | Result and new position are those of `ConditionAt`: an atomic condition, then AND/OR with a condition parsed recursively. |
| Parser.Parser.ParseAtomicCondition | app/parser.py:62-86 | Result and new position are those of `AtomicAt`: a parenthesized condition or a comparison leaf. |
| Parser.Parser.ParseComparison | app/parser.py:70-86 | Result and new position are those of `ComparisonAt`: `IDENTIFIER comparator (NUMBER \| STRING \| IDENTIFIER)`, giving an untagged leaf. |
| ParserProperties.IdentsSound | app/parser.py:53-59 | A parsed column list is a run alternating IDENTIFIER and COMMA, ended by a non-comma. The names are the identifiers' texts, in order. |
| ParserProperties.IdentsComplete | app/parser.py:53-59 | Conversely, every such run parses to its identifiers' texts. |
| ParserProperties.ColumnsShape | app/parser.py:47-59 | The columns are `["*"]` after an ASTERISK, and otherwise exactly the identifier list. |
| ParserProperties.ConditionShaped | app/parser.py:61-102 | A parsed condition holds only LOGIC nodes over untagged leaves. |
| ParserProperties.AtomicShaped | app/parser.py:62-86 | A parsed atomic condition holds only LOGIC nodes over untagged leaves. |
| ParserProperties.ChainShaped | app/parser.py:92-100 | The AND/OR loop keeps the tree made of LOGIC nodes over untagged leaves. |
| ParserProperties.LeafShape | app/parser.py:70-86 | A leaf is IDENTIFIER, comparator, then NUMBER/STRING/IDENTIFIER, with the three token texts. |
| ParserProperties.LeafErrors | app/parser.py:72-79 | Any other operator raises "Expected comparison operator but got K". Any other right-hand token raises "Unexpected token in WHERE clause: text". |
| ParserProperties.RightNested | app/parser.py:88-100 | `a OP rest` parses as LOGIC(OP, a, rest), so operators nest to the right whatever they are. |
| ParserProperties.ParenthesesTransparent | app/parser.py:64-68 | `( c )` yields the node of c; parentheses leave no trace. |
| ParserProperties.ColumnsHaveNoSelect | app/parser.py:47-59 | A column list holds no SELECT token. |
| ParserProperties.ConditionHasNoSelect | app/parser.py:61-102 | A condition holds no SELECT token. |
| ParserProperties.SelectParts | app/parser.py:27-45 | A parsed SELECT is the SELECT token, the columns, FROM, the table name, then either a WHERE condition or the end. It has no joins and no log. |
| ParserProperties.SelectHasOneSelect | app/parser.py:27-45 | A parsed statement holds exactly one SELECT token: its first. |
| ParserProperties.OneStatementPerSelect | app/parser.py:6-17 | A successful parse returns exactly as many statements as there are SELECT tokens. |
| ParserProperties.EndsWithSemicolon | app/parser.py:6-17 | A non-empty token list that parses ends with `;`, because a missing `;` makes the parser read past the end. |
| ParserProperties.NonSelectRejected | app/parser.py:20-25 | A statement not starting with SELECT raises "Unsupported SQL statement" naming its first token. |
| ParserProperties.MisspelledSelectFails | app/parser.py:20-25 | `SELEC id FROM;` fails on its first token. |
| ParserProperties.MissingSemicolonFails | app/parser.py:36 | `SELECT * FROM users` without `;` fails with IndexError when peeking for WHERE. |
| Semantic.Validate | app/semantic.py:17-29 | The loop's findings equal `ValidateAll`: for each statement in order, a missing table or an unsupported type. |
| Semantic.ValidateAllAppend | app/semantic.py:22-28 | Findings come in statement order: those of `a + b` are those of `a`, then those of `b`. |
| Semantic.OneFindingPerRejected | app/semantic.py:22-28 | Exactly one finding per rejected statement. Each finding is that of some rejected statement. |
| Semantic.NoFindingsIff | app/semantic.py:17-29 | `validate` reports nothing exactly when every statement is a SELECT on a table of the schema. |
| Semantic.ValidateSelect | app/semantic.py:33-55 | The method's result equals `SelectFindings`: an unknown table is the only finding; otherwise the missing columns (none for `*`), then the WHERE tree's findings. KeyError propagates. |
| Semantic.MissingColumnsAppend | app/semantic.py:46-49 | Column findings come in column order. |
| Semantic.MissingColumnsExact | app/semantic.py:46-49 | There is a finding for a column exactly when the column is selected and absent from the table. There are none exactly when every column exists. |
| Semantic.ConditionFindingsByLeaves | app/semantic.py:58-83 | `validate_condition` fails with KeyError('column') exactly when some leaf is a CONDITION with operand records. Otherwise it reports each leaf's finding, left to right. |
| Semantic.ParserTreeFindings | app/semantic.py:63-79 | On a parser-built tree, the findings are one "not found" per leaf whose left column is missing, in leaf order. |
| Semantic.SelectCleanIff | app/semantic.py:33-83 | A parsed SELECT passes `validate_select` exactly when three things hold: its table exists, every selected column (unless `*`) exists, and every column named in the WHERE exists. |
| Passes.DedupSameNames | app/optimizer.py:14-15 | Deduplication keeps the same set of names and leaves no name twice. |
| Passes.DedupExtend | app/optimizer.py:15 | Each name is kept at its first occurrence: one more column appends itself exactly when it is new. |
| Passes.FromKeysDistinct | app/optimizer.py:15 | A list without repeats comes back unchanged. |
| Passes.DedupIdempotent | app/optimizer.py:15 | Deduplicating twice is deduplicating once. |
| Passes.DedupShortens | app/tempCodeRunnerFile.py:17-20 | Deduplication shortens the list exactly when some name repeats, which is when the log entry is written. |
| Passes.ReorderOrdered | app/optimizer.py:25-57 | After reordering, every LOGIC node's left child costs no more than its right child. |
| Passes.ReorderKeepsLeaves | app/optimizer.py:48-57 | Reordering keeps the multiset of leaves. |
| Passes.ReorderKeepsOps | app/optimizer.py:52-57 | Reordering keeps the multiset of LOGIC operators. |
| Passes.OrderedUnchanged | app/optimizer.py:48-57 | A tree already in cost order is returned unchanged. |
| Passes.ReorderIdempotent | app/optimizer.py:25-57 | Reordering twice is reordering once. A tree is its own reordering exactly when it is in cost order. |
| Passes.ReorderParserShaped | app/optimizer.py:31-32 | Reordering a parser-built tree gives a parser-built tree. |
| Optimizer.Cost | app/optimizer.py:37-46 | The cost is between 1 and 3. It is below 3 exactly for an untagged leaf (one with a string `right`), and 1 exactly when that string is all digits. |
| Optimizer.Optimize | app/optimizer.py:1-8 | The loop's result equals `Traverse` of `optimize_select`: a non-SELECT aborts with "Unsupported statement type". |
| Optimizer.OptimizeResult | app/optimizer.py:1-8 | `optimize` succeeds exactly when all statements are SELECTs. It then returns one optimized statement per input, in order; otherwise it fails on the first non-SELECT. |
| Optimizer.OptimizeSelectEffect | app/optimizer.py:12-21 | Columns keep their names and lose repeats unless `*` is among them. The WHERE keeps its leaves and operators and ends in cost order. Table, joins and log are untouched. |
| Optimizer.OptimizeSelectIdempotent | app/optimizer.py:12-21 | Optimizing twice is optimizing once. A statement is unchanged exactly when its columns have no repeats (or include `*`) and its WHERE is in cost order. |
| Optimizer.StarSelectUnchanged | tests/test_optimizer.py:6-14 | `SELECT * FROM users;` comes back from `optimize` as it went in. |
| Optimizer.AstToSql | app/optimizer.py:59-95 | The loop's result is `Traverse` of the per-statement SQL line, with the lines joined by newlines. |
| Optimizer.FormatLogicFails | app/optimizer.py:64-72 | `format_logic_condition` fails exactly when the tree holds an untagged leaf or a CONDITION with operand records. |
| Optimizer.ParserLogicNotRendered | app/optimizer.py:81-88 | A parser-built WHERE holding AND/OR is not rendered: its leftmost untagged leaf raises KeyError('type'). |
| Optimizer.LeftmostLeafFails | app/optimizer.py:64-68 | On a parser-built tree, `format_logic_condition` raises KeyError('type'). |
| OptimizerV2.Cost | app/tempCodeRunnerFile.py:43-52 | The cost is between 1 and 3, below 3 exactly for a tagged CONDITION. It is 1 exactly when the right operand's value is all digits. |
| OptimizerV2.NormalizeIsIdentity | app/tempCodeRunnerFile.py:215-229 | This normalization returns every tree unchanged. |
| OptimizerV2.ReorderKeepsMeaning | app/tempCodeRunnerFile.py:36-62 | Reordering keeps the truth value of the condition on every row. |
| OptimizerV2.ConstantFoldKeepsMeaning | app/tempCodeRunnerFile.py:65-85 | Folding keeps the truth value of the condition on every row. |
| OptimizerV2.ConstantFoldComplete | app/tempCodeRunnerFile.py:65-85 | After folding, no comparison of two integer literals with a foldable operator remains. |
| OptimizerV2.ConstantFoldShape | app/tempCodeRunnerFile.py:65-85 | Folding replaces leaves one for one and keeps the LOGIC operators. Anything it cannot fold is left as it is. |
| OptimizerV2.EliminateRedundantLeaves | app/tempCodeRunnerFile.py:88-123 | What survives is made of leaves of the input, never `TRUE` nor `1 = 1`. Everything vanishes exactly when every leaf was one of those. |
| OptimizerV2.EliminateKeepsConjunctions | app/tempCodeRunnerFile.py:88-123 | On a conjunction, elimination keeps the truth value on every row; an absent WHERE selects every row. |
| OptimizerV2.OrCollapseChangesMeaning | app/tempCodeRunnerFile.py:108-115 | `x = 5 OR TRUE` collapses to `x = 5`, which rejects a row the original selected. |
| OptimizerV2.ConvertInSubqueryToJoin | app/tempCodeRunnerFile.py:126-165 | The method's result is `Converted`: the IN-subquery rewrite, or the statement unchanged. |
| OptimizerV2.ConvertedEffect | app/tempCodeRunnerFile.py:126-165 | When the rewrite applies, it appends exactly one JOIN and one log entry, and clears the WHERE. The JOIN is on the subquery's table and carries the subquery's WHERE. Its key matches the IN operand's bare value (None for a record without one) with `=` against `<subquery table>.<first subquery column>`. Otherwise nothing changes. Columns and table are kept. |
| OptimizerV2.OptimizeSelect | app/tempCodeRunnerFile.py:14-33 | The method's result is `Optimized`: deduplicate and log, then reorder, fold and eliminate, then rewrite an IN-subquery. |
| OptimizerV2.Optimize | app/tempCodeRunnerFile.py:1-11 | The loop's result is `Traverse` of: reset the log, normalize, optimize. A non-SELECT aborts. |
| OptimizerV2.OptimizeResult | app/tempCodeRunnerFile.py:1-11 | `optimize` succeeds exactly when all statements are SELECTs. It then returns one optimized statement per input, in order, each with a fresh log. |
| OptimizerV2.OptimizedLog | app/tempCodeRunnerFile.py:5-31 | The log holds "Removed duplicate columns" exactly when deduplication shortened the columns, then "Converted IN-subquery to JOIN" exactly when the rewrite applied. |
| OptimizerV2.SimplifyKeepsConjunctions | app/tempCodeRunnerFile.py:22-26 | On a conjunction, reorder, fold and eliminate together keep the truth value of the WHERE on every row. |
| OptimizerV2.ReorderKeepsAllAnd | app/tempCodeRunnerFile.py:36-62 | Reordering a conjunction gives a conjunction. |
| OptimizerV2.ConstantFoldKeepsAllAnd | app/tempCodeRunnerFile.py:80-83 | Folding a conjunction gives a conjunction. |
| OptimizerV2.TautologyDropped | app/tempCodeRunnerFile.py:98-106 | `SELECT * FROM users WHERE 1 = 1;` loses its WHERE and changes in no other way. |
| OptimizerV2.FormatConditionFails | app/tempCodeRunnerFile.py:176-188 | The SQL condition printer fails exactly when the tree holds an untagged leaf or a CONDITION without operand records. |
| OptimizerV2.JoinClause | app/tempCodeRunnerFile.py:198-206 | The join clause is a space followed by the joins' texts separated by spaces. A join filter that cannot be printed aborts. |
| OptimizerV2.AstToSql | app/tempCodeRunnerFile.py:168-212 | The loop's result is `Traverse` of the per-statement line, with the joins before the WHERE and the lines joined by newlines. |
| IrGenerator.NormalizeShape | app/ir_generator.py:49-76 | Normalization leaves no untagged leaf and keeps the number of leaves. A parser-built tree becomes LOGIC over CONDITION nodes. |
| IrGenerator.NormalizeIdempotent | app/ir_generator.py:49-76 | Normalizing twice is normalizing once. |
| IrGenerator.NormalizeChanges | app/ir_generator.py:65-76 | Normalization changes a tree exactly when the tree holds an untagged leaf. |
| IrGenerator.ConditionToStringTotal | app/ir_generator.py:78-86 | `condition_to_string` succeeds exactly on trees of LOGIC over CONDITION nodes. |
| IrGenerator.GenerateIr | app/ir_generator.py:1-14 | The loop's result is `Traverse` of the per-statement π/σ line, with the lines joined by newlines. A non-SELECT raises "Only SELECT statements are supported in IR." |
| IrGenerator.GenerateIrResult | app/ir_generator.py:1-14 | `generate_ir` succeeds exactly when every statement is a SELECT whose WHERE, if any, is LOGIC over CONDITION. It then gives one line per statement, and a line is the bare projection `π[columns] (table)` exactly when its statement has no WHERE. |
| IrGenerator.IrLineSelection | app/ir_generator.py:5-10 | A statement's line is the bare projection exactly when it has no WHERE; with a WHERE, the table is wrapped in a σ. |
| IrGenerator.FormatConditionIrRoundTrip | app/ir_generator.py:28-47 | The IR record reads back as the original tree. It exists exactly when the tree has no untagged leaf and no CONDITION with operand records. |
| IrGenerator.GenerateIrSelectKeeps | app/ir_generator.py:18-25 | The IR record keeps the columns and the table, and its WHERE reads back as the statement's. |
| SqlRenderer.ConditionToStrFails | app/utils.py:29-49 | `condition_to_str` fails exactly when the tree holds a tagged leaf, so a parser-built tree always renders. A tagged `CONDITION` leaf raises `KeyError('left')`. A `CONDITION` with operand records, which Python prints using the records' repr, is the error `RecordRepr` here, standing in for that repr text. |
| SqlRenderer.StringValueQuotedTwice | app/utils.py:44-48 | A STRING value that already carries its quotes is quoted a second time: `a = ''b''`. |
| SqlRenderer.ColumnsTextIsJoin | app/utils.py:55 | The `*` special case prints what joining the names would. |
| SqlRenderer.AstToSql | app/utils.py:51-66 | The loop's result is the SELECT lines, with non-SELECT statements skipped, joined by newlines. |
| SqlRenderer.SqlLinesResult | app/utils.py:51-66 | `ast_to_sql` succeeds exactly when every SELECT's line renders. It then gives one line per SELECT statement. |
| SqlRenderer.ParsedSelectRenders | app/utils.py:53-61 | A SELECT whose WHERE is absent or parser-built always renders. |
| Pipeline.SelectParsed | app/parser.py:27-45 | A parsed SELECT has no joins and no log, and its WHERE is LOGIC over untagged leaves. |
| Pipeline.ProgramParsed | app/parser.py:6-17 | Every statement a successful parse returns has that shape. |
| Pipeline.TypedPrintersAgree | app/optimizer.py:64-72 | On LOGIC/CONDITION trees, the optimizer's condition printer and the IR's `condition_to_string` give the same text and do not fail. |
| Pipeline.OptimizedWherePrints | app/ir_generator.py:49-86 | A parsed WHERE, reordered and then normalized, prints without error. Its optimized-SQL WHERE clause is ` WHERE ` followed by exactly the IR's σ text, whether the WHERE is a single comparison or holds AND/OR. |
| Pipeline.QuotingRendererAgrees | app/utils.py:29-49 | The quoting printer prints a parsed tree as the IR printer prints it once the values are quoted and the leaves tagged. |
| Pipeline.ParsedWhereUntouchedByV2 | app/tempCodeRunnerFile.py:1-33 | The richer optimizer leaves a parsed WHERE unchanged, and its SQL printer then raises KeyError('type'). |
| Pipeline.ParsedTreeOrderedV2 | app/tempCodeRunnerFile.py:43-52 | A parsed tree is already in the richer optimizer's cost order: every untagged node costs 3. |
| Pipeline.ParsedTreeFixedV2 | app/tempCodeRunnerFile.py:65-123 | Folding and elimination leave a parsed tree unchanged. |

## Left out

- Schema loading from `schema/mock_schema.json` (`app/semantic.py:4-15`): the schema is a parameter. A table's `"columns"` entry is its list of column names.
- `save_to_file` in `app/utils.py`, the debug prints of `normalize_condition` in `app/ir_generator.py`, `main.py`, `run.py`, the GUI, the visualizer and the mock executor: I/O and presentation. They are not part of this model.
- Errors.Message: exceptions whose Python message embeds a dictionary's repr (`optimize` on a non-SELECT, `condition_to_string` on an unknown node) carry the statement type or the node instead of the repr text. A `CONDITION` with operand records that `condition_to_str` would print as its repr is the error `RecordRepr`.
- In-place mutation and aliasing: both optimizers and `constant_fold` update the statement dictionaries they are given. The model works on values, so it does not capture that the input list is changed too or that the output aliases the input.
- OptimizerV2.ConstantFold: a comparison of decimal NUMBER literals (`1.5 < 2`), which Python's `eval` would fold, is left unfolded. Only integer literals and the operators `!=`, `<`, `>`, `<=`, `>=` fold. An integer literal has no leading zero before a non-zero digit; all-zero spellings such as `00` fold, as Python's `eval` accepts them. For a literal such as `01` and for `=`, `eval` raises and the node stays, as in the source.
- OptimizerV2.ConvertInSubqueryToJoin: subquery columns are names. A column given as an operand record (the `<unknown_col>` fallback) and a non-record IN operand are not modelled.
- A `"joins"` key holding an empty list (which would print a lone space) is not distinguished from an absent key. Likewise, an empty-dictionary WHERE, which is falsy in Python, is not modelled.
- Character classes: the lexer's `\b`, `\d` and letters and Python's `isdigit` are modelled on ASCII. Python's Unicode digits and letters are left out.
- The concrete AND/OR example tree is not stated as its own lemma. `ParserProperties.RightNested` states the general right-nesting it follows from.
- The `None` branch of `condition_to_str` (`app/utils.py:31-32`): `ast_to_sql` only calls it on a present WHERE (`app/utils.py:58-59`), and no LOGIC node of the model has an absent side.
- `tests/test_lexer.py` reads tokens as dictionaries with a `"type"` key, while `tokenize` returns `(kind, text)` pairs. The model follows `tokenize`.
