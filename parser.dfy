/**
 * The parser: recursive descent with one token of lookahead. A Parser object
 * holds the token list and a position that only moves forward; each parsing
 * routine is a method on it.
 *
 * Each method is specified by a function of the tokens and the starting
 * position (`ConditionAt`, `ColumnsAt`, ...) giving what the routine returns
 * together with the position it leaves behind, or the error it raises.
 * Reading a token past the end raises IndexError, as indexing a Python list
 * does.
 */
module Parser {
  import opened Wrappers
  import opened Errors
  import opened Tokens
  import opened Lexer
  import opened Ast

  // ---------------------------------------------------------------------
  // The routines as functions of (tokens, position)

  function PeekAt(t: seq<Token>, p: nat): Result<Token, Error>
  {
    if p < |t| then Ok(t[p]) else Err(IndexError)
  }

  function ExpectAt(t: seq<Token>, p: nat, k: Kind): Result<Token, Error>
  {
    if p >= |t| then Err(IndexError)
    else if t[p].kind != k then
      Err(ExpectedKind(k, t[p].kind))
    else Ok(t[p])
  }

  predicate IsComparator(k: Kind)
  {
    k == EQ || k == NEQ || k == LT || k == GT || k == LTE || k == GTE
  }

  predicate IsOperandKind(k: Kind)
  {
    k == NUMBER || k == STRING || k == IDENTIFIER
  }

  predicate IsLogicKind(k: Kind)
  {
    k == AND || k == OR
  }

  /** `IDENTIFIER (COMMA IDENTIFIER)*` followed by a token that is not a comma. */
  function IdentsAt(t: seq<Token>, p: nat): (r: Result<(seq<string>, nat), Error>)
    requires p <= |t|
    ensures r.Ok? ==> p < r.value.1 < |t|
    decreases |t| - p
  {
    match ExpectAt(t, p, IDENTIFIER)
    case Err(e) => Err(e)
    case Ok(name) =>
      match PeekAt(t, p + 1)
      case Err(e) => Err(e)
      case Ok(next) =>
        if next.kind == COMMA then
          match IdentsAt(t, p + 2)
          case Err(e) => Err(e)
          case Ok((names, q)) => Ok(([name.text] + names, q))
        else Ok(([name.text], p + 1))
  }

  function ColumnsAt(t: seq<Token>, p: nat): (r: Result<(seq<string>, nat), Error>)
    requires p <= |t|
    ensures r.Ok? ==> p < r.value.1 <= |t|
  {
    match PeekAt(t, p)
    case Err(e) => Err(e)
    case Ok(first) =>
      if first.kind == ASTERISK then Ok((["*"], p + 1)) else IdentsAt(t, p)
  }

  /** A condition: an atomic condition, then the AND/OR chain after it. When it
      succeeds, a token follows and it is neither AND nor OR. */
  function ConditionAt(t: seq<Token>, p: nat): (r: Result<(Node, nat), Error>)
    requires p <= |t|
    ensures r.Ok? ==> p < r.value.1 < |t| && !IsLogicKind(t[r.value.1].kind)
    decreases |t| - p, 1
  {
    match AtomicAt(t, p)
    case Err(e) => Err(e)
    case Ok((left, q)) => ChainAt(t, q, left)
  }

  /** A parenthesised condition, or `IDENTIFIER comparator (NUMBER|STRING|IDENTIFIER)`. */
  function AtomicAt(t: seq<Token>, p: nat): (r: Result<(Node, nat), Error>)
    requires p <= |t|
    ensures r.Ok? ==> p < r.value.1 <= |t|
    decreases |t| - p, 0
  {
    match PeekAt(t, p)
    case Err(e) => Err(e)
    case Ok(first) =>
      if first.kind == LPAREN then
        match ConditionAt(t, p + 1)
        case Err(e) => Err(e)
        case Ok((inner, q)) =>
          match ExpectAt(t, q, RPAREN)
          case Err(e) => Err(e)
          case Ok(_) => Ok((inner, q + 1))
      else ComparisonAt(t, p)
  }

  /** `IDENTIFIER comparator (NUMBER|STRING|IDENTIFIER)`, giving an untagged leaf. */
  function ComparisonAt(t: seq<Token>, p: nat): (r: Result<(Node, nat), Error>)
    requires p <= |t|
    ensures r.Ok? ==> r.value.1 == p + 3 <= |t|
  {
    match ExpectAt(t, p, IDENTIFIER)
    case Err(e) => Err(e)
    case Ok(left) =>
      match PeekAt(t, p + 1)
      case Err(e) => Err(e)
      case Ok(operator) =>
        if !IsComparator(operator.kind) then
          Err(ExpectedComparator(operator.kind))
        else
          match PeekAt(t, p + 2)
          case Err(e) => Err(e)
          case Ok(right) =>
            if !IsOperandKind(right.kind) then
              Err(UnexpectedWhereToken(right.text))
            else Ok((Leaf(left.text, operator.text, right.text), p + 3))
  }

  /** The loop of parse_condition: while the next token is AND or OR, join the
      condition built so far with the condition that follows. */
  function ChainAt(t: seq<Token>, q: nat, left: Node): (r: Result<(Node, nat), Error>)
    requires q <= |t|
    ensures r.Ok? ==> q <= r.value.1 < |t| && !IsLogicKind(t[r.value.1].kind)
    decreases |t| - q, 2
  {
    match PeekAt(t, q)
    case Err(e) => Err(e)
    case Ok(next) =>
      if IsLogicKind(next.kind) then
        match ConditionAt(t, q + 1)
        case Err(e) => Err(e)
        case Ok((right, q')) => ChainAt(t, q', Logic(next.text, left, right))
      else Ok((left, q))
  }

  /** One turn of the AND/OR loop: the operator joins what came before with the next condition. */
  lemma ChainStep(t: seq<Token>, q: nat, left: Node)
    requires q < |t| && IsLogicKind(t[q].kind)
    ensures ConditionAt(t, q + 1).Err? ==> ChainAt(t, q, left) == Err(ConditionAt(t, q + 1).error)
    ensures ConditionAt(t, q + 1).Ok? ==>
              ChainAt(t, q, left)
              == ChainAt(t, ConditionAt(t, q + 1).value.1, Logic(t[q].text, left, ConditionAt(t, q + 1).value.0))
  {
  }

  /** The AND/OR loop stops at any other token. */
  lemma ChainStop(t: seq<Token>, q: nat, left: Node)
    requires q < |t| && !IsLogicKind(t[q].kind)
    ensures ChainAt(t, q, left) == Ok((left, q))
  {
  }

  /** `SELECT columns FROM IDENTIFIER [WHERE condition]` */
  function SelectAt(t: seq<Token>, p: nat): (r: Result<(Select, nat), Error>)
    requires p <= |t|
    ensures r.Ok? ==> p < r.value.1 < |t|
  {
    match ExpectAt(t, p, SELECT)
    case Err(e) => Err(e)
    case Ok(_) =>
      match ColumnsAt(t, p + 1)
      case Err(e) => Err(e)
      case Ok((columns, q)) =>
        match ExpectAt(t, q, FROM)
        case Err(e) => Err(e)
        case Ok(_) =>
          match ExpectAt(t, q + 1, IDENTIFIER)
          case Err(e) => Err(e)
          case Ok(table) =>
            match PeekAt(t, q + 2)
            case Err(e) => Err(e)
            case Ok(next) =>
              if next.kind == WHERE then
                match ConditionAt(t, q + 3)
                case Err(e) => Err(e)
                case Ok((where, q')) => Ok((Select(columns, table.text, Some(where), [], []), q'))
              else Ok((Select(columns, table.text, None, [], []), q + 2))
  }

  function StatementAt(t: seq<Token>, p: nat): (r: Result<(Select, nat), Error>)
    requires p <= |t|
    ensures r.Ok? ==> p < r.value.1 < |t|
  {
    match PeekAt(t, p)
    case Err(e) => Err(e)
    case Ok(first) =>
      if first.kind == SELECT then SelectAt(t, p)
      else Err(UnsupportedSqlStatement(first.text))
  }

  /** Where the next statement starts: one SEMICOLON after a statement is skipped. */
  function SkipSemicolon(t: seq<Token>, q: nat): nat
  {
    if q < |t| && t[q].kind == SEMICOLON then q + 1 else q
  }

  /** The statements from position p to the end of the tokens. */
  function ProgramAt(t: seq<Token>, p: nat): Result<seq<Stmt>, Error>
    requires p <= |t|
    decreases |t| - p
  {
    if p == |t| then Ok([])
    else match StatementAt(t, p)
      case Err(e) => Err(e)
      case Ok((stmt, q)) => Prepend([SelectStmt(stmt)], ProgramAt(t, SkipSemicolon(t, q)))
  }

  /** The column list result with names put in front. */
  function PrependNames(names: seq<string>, r: Result<(seq<string>, nat), Error>): Result<(seq<string>, nat), Error>
  {
    match r
    case Ok((rest, q)) => Ok((names + rest, q))
    case Err(e) => Err(e)
  }

  lemma PrependNamesNil(r: Result<(seq<string>, nat), Error>)
    ensures PrependNames([], r) == r
  {
    if r.Ok? { assert [] + r.value.0 == r.value.0; }
  }

  lemma PrependNamesTwice(a: seq<string>, b: seq<string>, r: Result<(seq<string>, nat), Error>)
    ensures PrependNames(a, PrependNames(b, r)) == PrependNames(a + b, r)
  {
    if r.Ok? { assert a + (b + r.value.0) == (a + b) + r.value.0; }
  }

  /** An atomic condition that does not open a parenthesis is a leaf. */
  lemma AtomicLeaf(t: seq<Token>, p: nat)
    requires p < |t| && t[p].kind != LPAREN
    ensures AtomicAt(t, p) == ComparisonAt(t, p)
  {
  }

  /** A parenthesised condition: the inner condition, then a closing parenthesis. */
  lemma AtomicParen(t: seq<Token>, p: nat)
    requires p < |t| && t[p].kind == LPAREN
    ensures ConditionAt(t, p + 1).Err? ==> AtomicAt(t, p) == Err(ConditionAt(t, p + 1).error)
    ensures ConditionAt(t, p + 1).Ok? ==>
              var (inner, q) := ConditionAt(t, p + 1).value;
              AtomicAt(t, p) == if ExpectAt(t, q, RPAREN).Err? then Err(ExpectAt(t, q, RPAREN).error) else Ok((inner, q + 1))
  {
  }

  /** A name followed by a comma: the list goes on after the comma. */
  lemma IdentsStep(t: seq<Token>, p: nat)
    requires p + 1 < |t| && t[p].kind == IDENTIFIER && t[p + 1].kind == COMMA
    ensures IdentsAt(t, p) == PrependNames([t[p].text], IdentsAt(t, p + 2))
  {
  }

  /** A name followed by anything else ends the list. */
  lemma IdentsStop(t: seq<Token>, p: nat)
    requires p + 1 < |t| && t[p].kind == IDENTIFIER && t[p + 1].kind != COMMA
    ensures IdentsAt(t, p) == Ok(([t[p].text], p + 1))
  {
  }

  // ---------------------------------------------------------------------
  // The parser object

  class Parser {
    const tokens: seq<Token>
    var position: nat

    constructor(tokens: seq<Token>)
      ensures this.tokens == tokens && position == 0
    {
      this.tokens := tokens;
      position := 0;
    }

    /** The position never passes the end of the tokens. */
    predicate Valid()
      reads this
    {
      position <= |tokens|
    }

    method Peek() returns (r: Result<Token, Error>)
      ensures r == PeekAt(tokens, position)
    {
      if position < |tokens| {
        r := Ok(tokens[position]);
      } else {
        r := Err(IndexError);
      }
    }

    method Advance()
      modifies this
      ensures position == old(position) + 1
    {
      position := position + 1;
    }

    /** Consumes one token of kind k, or raises without moving. */
    method Expect(k: Kind) returns (r: Result<Token, Error>)
      modifies this
      ensures r == ExpectAt(tokens, old(position), k)
      ensures position == if r.Ok? then old(position) + 1 else old(position)
    {
      var token := Peek();
      if token.Err? {
        return Err(token.error);
      }
      if token.value.kind != k {
        return Err(ExpectedKind(k, token.value.kind));
      }
      Advance();
      return Ok(token.value);
    }

    /** parse: statements until the tokens run out, each optionally followed by one `;`. */
    method Parse() returns (r: Result<seq<Stmt>, Error>)
      requires Valid()
      modifies this
      ensures r == ProgramAt(tokens, old(position))
      ensures r.Ok? ==> position == |tokens|
    {
      var ast: seq<Stmt> := [];
      PrependNil(ProgramAt(tokens, position));
      while position < |tokens|
        invariant Valid() && old(position) <= position
        invariant ProgramAt(tokens, old(position)) == Prepend(ast, ProgramAt(tokens, position))
        decreases |tokens| - position
      {
        ghost var start := position;
        var stmt := ParseStatement();
        if stmt.Err? {
          return Err(stmt.error);
        }
        PrependPrepend(ast, [SelectStmt(stmt.value)], ProgramAt(tokens, SkipSemicolon(tokens, position)));
        ast := ast + [SelectStmt(stmt.value)];
        if position < |tokens| {
          var next := Peek();
          if next.value.kind == SEMICOLON {
            Advance();
          }
        }
        assert position == SkipSemicolon(tokens, StatementAt(tokens, start).value.1);
      }
      assert ast + [] == ast;
      return Ok(ast);
    }

    method ParseStatement() returns (r: Result<Select, Error>)
      requires Valid()
      modifies this
      ensures Valid() && old(position) <= position
      ensures WithPos(r, position) == StatementAt(tokens, old(position))
    {
      var first := Peek();
      if first.Err? {
        return Err(first.error);
      }
      if first.value.kind == SELECT {
        r := ParseSelect();
      } else {
        r := Err(UnsupportedSqlStatement(first.value.text));
      }
    }

    method ParseSelect() returns (r: Result<Select, Error>)
      requires Valid()
      modifies this
      ensures Valid() && old(position) <= position
      ensures WithPos(r, position) == SelectAt(tokens, old(position))
    {
      var keyword := Expect(SELECT);
      if keyword.Err? {
        return Err(keyword.error);
      }
      var columns := ParseColumns();
      if columns.Err? {
        return Err(columns.error);
      }
      var from := Expect(FROM);
      if from.Err? {
        return Err(from.error);
      }
      var table := Expect(IDENTIFIER);
      if table.Err? {
        return Err(table.error);
      }
      var where: Option<Node> := None;
      var next := Peek();
      if next.Err? {
        return Err(next.error);
      }
      if next.value.kind == WHERE {
        var _ := Expect(WHERE);
        var condition := ParseCondition();
        if condition.Err? {
          return Err(condition.error);
        }
        where := Some(condition.value);
      }
      return Ok(Select(columns.value, table.value.text, where, [], []));
    }

    method ParseColumns() returns (r: Result<seq<string>, Error>)
      requires Valid()
      modifies this
      ensures Valid() && old(position) <= position
      ensures WithPos(r, position) == ColumnsAt(tokens, old(position))
    {
      var first := Peek();
      if first.Err? {
        return Err(first.error);
      }
      if first.value.kind == ASTERISK {
        var _ := Expect(ASTERISK);
        return Ok(["*"]);
      }
      var columns: seq<string> := [];
      PrependNamesNil(IdentsAt(tokens, position));
      while true
        invariant Valid() && old(position) <= position
        invariant ColumnsAt(tokens, old(position)) == PrependNames(columns, IdentsAt(tokens, position))
        decreases |tokens| - position
      {
        ghost var start := position;
        var name := Expect(IDENTIFIER);
        if name.Err? {
          return Err(name.error);
        }
        var next := Peek();
        if next.Err? {
          return Err(next.error);
        }
        if next.value.kind == COMMA {
          IdentsStep(tokens, start);
          PrependNamesTwice(columns, [name.value.text], IdentsAt(tokens, start + 2));
          columns := columns + [name.value.text];
          var _ := Expect(COMMA);
        } else {
          IdentsStop(tokens, start);
          columns := columns + [name.value.text];
          break;
        }
      }
      return Ok(columns);
    }

    method ParseCondition() returns (r: Result<Node, Error>)
      requires Valid()
      modifies this
      ensures Valid() && old(position) <= position
      ensures WithPos(r, position) == ConditionAt(tokens, old(position))
      decreases |tokens| - position, 1
    {
      var atomic := ParseAtomicCondition();
      if atomic.Err? {
        return Err(atomic.error);
      }
      var left := atomic.value;
      while true
        invariant Valid() && old(position) < position
        invariant ConditionAt(tokens, old(position)) == ChainAt(tokens, position, left)
        decreases |tokens| - position
      {
        var next := Peek();
        if next.Err? {
          return Err(next.error);
        }
        if !IsLogicKind(next.value.kind) {
          ChainStop(tokens, position, left);
          break;
        }
        ghost var q := position;
        var op := Expect(next.value.kind);
        var right := ParseCondition();
        ChainStep(tokens, q, left);
        if right.Err? {
          return Err(right.error);
        }
        left := Logic(op.value.text, left, right.value);
      }
      return Ok(left);
    }

    method ParseAtomicCondition() returns (r: Result<Node, Error>)
      requires Valid()
      modifies this
      ensures Valid() && old(position) <= position
      ensures WithPos(r, position) == AtomicAt(tokens, old(position))
      decreases |tokens| - position, 0
    {
      var first := Peek();
      if first.Err? {
        return Err(first.error);
      }
      if first.value.kind == LPAREN {
        ghost var p := position;
        var _ := Expect(LPAREN);
        var condition := ParseCondition();
        AtomicParen(tokens, p);
        if condition.Err? {
          return Err(condition.error);
        }
        var close := Expect(RPAREN);
        if close.Err? {
          return Err(close.error);
        }
        return Ok(condition.value);
      }
      AtomicLeaf(tokens, position);
      r := ParseComparison();
    }

    /** The leaf branch of parse_atomic_condition: `IDENTIFIER comparator operand`. */
    method ParseComparison() returns (r: Result<Node, Error>)
      requires Valid()
      modifies this
      ensures Valid() && old(position) <= position
      ensures WithPos(r, position) == ComparisonAt(tokens, old(position))
    {
      var left := Expect(IDENTIFIER);
      if left.Err? {
        return Err(left.error);
      }
      var operator := Peek();
      if operator.Err? {
        return Err(operator.error);
      }
      if !IsComparator(operator.value.kind) {
        return Err(ExpectedComparator(operator.value.kind));
      }
      Advance();
      var right := Peek();
      if right.Err? {
        return Err(right.error);
      }
      if !IsOperandKind(right.value.kind) {
        return Err(UnexpectedWhereToken(right.value.text));
      }
      Advance();
      return Ok(Leaf(left.value.text, operator.value.text, right.value.text));
    }
  }
}
