/**
 * The lexer: a scanner over an ordered list of token patterns in which, at
 * every position, the first pattern that matches wins. Runs of blanks are
 * matched and dropped; the first character no other pattern accepts is
 * matched by MISMATCH and fails the whole call.
 *
 * The regular expressions of the pattern list are written out as small
 * matching functions (one per pattern), with `\b`, `\d` and the letter
 * classes read over ASCII.
 */
module Lexer {
  import opened Wrappers
  import opened Errors
  import opened Tokens

  /** The patterns in the order they are tried. */
  const TokenSpecification: seq<Kind> :=
    [NUMBER, STRING, SELECT, FROM, WHERE, AND, OR, NOT, IDENTIFIER,
     ASTERISK, EQ, NEQ, LTE, GTE, LT, GT, COMMA, SEMICOLON, LPAREN, RPAREN,
     SKIP, MISMATCH]

  // ---------------------------------------------------------------------
  // Character classes

  predicate IsDigit(c: char) { '0' <= c <= '9' }

  /** `[a-zA-Z_]` */
  predicate IsIdentStart(c: char) { 'a' <= c <= 'z' || 'A' <= c <= 'Z' || c == '_' }

  /** `\w`: the characters `\b` separates from the rest */
  predicate IsWordChar(c: char) { IsIdentStart(c) || IsDigit(c) }

  /** `[ \t\n]` */
  predicate IsBlank(c: char) { c == ' ' || c == '\t' || c == '\n' }

  function Upper(c: char): char
  {
    if 'a' <= c <= 'z' then (c as int - 32) as char else c
  }

  function UpperStr(s: string): (u: string)
    ensures |u| == |s|
    ensures forall i :: 0 <= i < |s| ==> u[i] == Upper(s[i])
  {
    if s == [] then [] else [Upper(s[0])] + UpperStr(s[1..])
  }

  /** `\b` at position i: exactly one of the neighbouring characters is a word character. */
  predicate WordBoundary(s: string, i: nat)
    requires i <= |s|
  {
    (i > 0 && IsWordChar(s[i - 1])) != (i < |s| && IsWordChar(s[i]))
  }

  // ---------------------------------------------------------------------
  // Greedy runs

  function DigitsEnd(s: string, i: nat): (e: nat)
    requires i <= |s|
    ensures i <= e <= |s|
    ensures e == |s| || !IsDigit(s[e])
    decreases |s| - i
  {
    if i < |s| && IsDigit(s[i]) then DigitsEnd(s, i + 1) else i
  }

  function WordEnd(s: string, i: nat): (e: nat)
    requires i <= |s|
    ensures i <= e <= |s|
    ensures e == |s| || !IsWordChar(s[e])
    decreases |s| - i
  {
    if i < |s| && IsWordChar(s[i]) then WordEnd(s, i + 1) else i
  }

  function BlanksEnd(s: string, i: nat): (e: nat)
    requires i <= |s|
    ensures i <= e <= |s|
    ensures e == |s| || !IsBlank(s[e])
    decreases |s| - i
  {
    if i < |s| && IsBlank(s[i]) then BlanksEnd(s, i + 1) else i
  }

  /** The first quote at or after i, or |s| when there is none. */
  function QuoteEnd(s: string, i: nat): (e: nat)
    requires i <= |s|
    ensures i <= e <= |s|
    ensures e == |s| || s[e] == '\''
    decreases |s| - i
  {
    if i < |s| && s[i] != '\'' then QuoteEnd(s, i + 1) else i
  }

  /** Everything DigitsEnd skips over is digits. */
  lemma {:induction false} DigitsRun(s: string, i: nat, j: nat)
    requires i <= |s| && i <= j < DigitsEnd(s, i)
    ensures IsDigit(s[j])
    decreases j - i
  {
    if i < j {
      DigitsRun(s, i + 1, j);
    }
  }

  /** Everything WordEnd skips over is word characters. */
  lemma {:induction false} WordRun(s: string, i: nat, j: nat)
    requires i <= |s| && i <= j < WordEnd(s, i)
    ensures IsWordChar(s[j])
    decreases j - i
  {
    if i < j {
      WordRun(s, i + 1, j);
    }
  }

  /** Everything BlanksEnd skips over is blanks. */
  lemma {:induction false} BlanksRun(s: string, i: nat, j: nat)
    requires i <= |s| && i <= j < BlanksEnd(s, i)
    ensures IsBlank(s[j])
    decreases j - i
  {
    if i < j {
      BlanksRun(s, i + 1, j);
    }
  }

  /** Everything QuoteEnd skips over is characters other than a quote. */
  lemma {:induction false} QuoteFree(s: string, i: nat, j: nat)
    requires i <= |s| && i <= j < QuoteEnd(s, i)
    ensures s[j] != '\''
    decreases j - i
  {
    if i < j {
      QuoteFree(s, i + 1, j);
    }
  }

  // ---------------------------------------------------------------------
  // One matcher per pattern; each yields the length of the match at p

  /** `\b\d+(\.\d+)?\b`: the fraction is taken only when a boundary follows it. */
  function MatchNumber(s: string, p: nat): Option<nat>
    requires p < |s|
  {
    if !(WordBoundary(s, p) && IsDigit(s[p])) then None
    else
      var d := DigitsEnd(s, p);
      if d + 1 < |s| && s[d] == '.' && IsDigit(s[d + 1]) && WordBoundary(s, DigitsEnd(s, d + 1)) then
        Some(DigitsEnd(s, d + 1) - p)
      else if WordBoundary(s, d) then Some(d - p)
      else None
  }

  /** `'[^']*'` */
  function MatchString(s: string, p: nat): Option<nat>
    requires p < |s|
  {
    if s[p] == '\'' && QuoteEnd(s, p + 1) < |s| then Some(QuoteEnd(s, p + 1) + 1 - p) else None
  }

  /** `\bWORD\b`, case-insensitively. */
  function MatchKeyword(s: string, p: nat, word: string): Option<nat>
    requires p < |s|
  {
    if WordBoundary(s, p) && p + |word| <= |s| && UpperStr(s[p..p + |word|]) == word
       && WordBoundary(s, p + |word|)
    then Some(|word|) else None
  }

  /** `\b[a-zA-Z_][a-zA-Z0-9_]*\b`; the greedy run ends where a non-word character
      (or the end) begins, so the closing boundary holds there. */
  function MatchIdentifier(s: string, p: nat): Option<nat>
    requires p < |s|
  {
    if WordBoundary(s, p) && IsIdentStart(s[p]) then Some(WordEnd(s, p + 1) - p) else None
  }

  function MatchLiteral(s: string, p: nat, lit: string): Option<nat>
    requires p < |s|
  {
    if p + |lit| <= |s| && s[p..p + |lit|] == lit then Some(|lit|) else None
  }

  predicate IsKeywordKind(k: Kind)
  {
    k.SELECT? || k.FROM? || k.WHERE? || k.AND? || k.OR? || k.NOT?
  }

  function KeywordName(k: Kind): string
    requires IsKeywordKind(k)
  {
    match k
    case SELECT => "SELECT"
    case FROM => "FROM"
    case WHERE => "WHERE"
    case AND => "AND"
    case OR => "OR"
    case NOT => "NOT"
  }

  /** w is the upper-case spelling of a keyword. */
  predicate IsKeywordText(w: string)
  {
    exists k :: IsKeywordKind(k) && KeywordName(k) == w
  }

  /** The kinds whose pattern is a fixed piece of text. */
  predicate IsFixedKind(k: Kind)
  {
    k.ASTERISK? || k.EQ? || k.NEQ? || k.LTE? || k.GTE? || k.LT? || k.GT?
    || k.COMMA? || k.SEMICOLON? || k.LPAREN? || k.RPAREN?
  }

  function FixedText(k: Kind): string
    requires IsFixedKind(k)
  {
    match k
    case ASTERISK => "*"
    case EQ => "="
    case NEQ => "!="
    case LTE => "<="
    case GTE => ">="
    case LT => "<"
    case GT => ">"
    case COMMA => ","
    case SEMICOLON => ";"
    case LPAREN => "("
    case RPAREN => ")"
  }

  /** Length of the match of pattern k at position p, if it matches there. */
  function MatchLength(k: Kind, s: string, p: nat): (r: Option<nat>)
    requires p < |s|
    ensures r.Some? ==> 0 < r.value <= |s| - p
  {
    if k.NUMBER? then MatchNumber(s, p)
    else if k.STRING? then MatchString(s, p)
    else if IsKeywordKind(k) then MatchKeyword(s, p, KeywordName(k))
    else if k.IDENTIFIER? then MatchIdentifier(s, p)
    else if IsFixedKind(k) then MatchLiteral(s, p, FixedText(k))
    else if k.SKIP? then (if IsBlank(s[p]) then Some(BlanksEnd(s, p) - p) else None)
    else if s[p] != '\n' then Some(1)   // MISMATCH: `.`
    else None
  }

  /** The first pattern of specs that matches at p, with its length. */
  function FirstMatch(specs: seq<Kind>, s: string, p: nat): (r: Option<(Kind, nat)>)
    requires p < |s|
    ensures r.Some? ==> 0 < r.value.1 <= |s| - p
  {
    if specs == [] then None
    else match MatchLength(specs[0], s, p)
      case Some(n) => Some((specs[0], n))
      case None => FirstMatch(specs[1..], s, p)
  }

  // ---------------------------------------------------------------------
  // The scan

  /** The tokens of s from position p on: blanks dropped, the first MISMATCH fatal.
      Where no pattern matches (which never happens, see FirstMatchTotal) the
      search moves on by one character, as a regular-expression scan does. */
  function Lex(s: string, p: nat): Result<seq<Token>, Error>
    requires p <= |s|
    decreases |s| - p
  {
    if p == |s| then Ok([])
    else match FirstMatch(TokenSpecification, s, p)
      case None => Lex(s, p + 1)
      case Some((k, n)) =>
        if k == SKIP then Lex(s, p + n)
        else if k == MISMATCH then Err(UnexpectedCharacter(s[p..p + n]))
        else Prepend([Token(k, s[p..p + n])], Lex(s, p + n))
  }

  /** The concatenation of the token texts. */
  function Texts(toks: seq<Token>): string
  {
    if toks == [] then "" else toks[0].text + Texts(toks[1..])
  }

  /** Independent reference for what the tokens spell: s from p on with every
      blank outside a closed quoted literal deleted. */
  function Squeeze(s: string, p: nat): string
    requires p <= |s|
    decreases |s| - p
  {
    if p == |s| then ""
    else if IsBlank(s[p]) then Squeeze(s, p + 1)
    else if s[p] == '\'' && QuoteEnd(s, p + 1) < |s| then
      s[p..QuoteEnd(s, p + 1) + 1] + Squeeze(s, QuoteEnd(s, p + 1) + 1)
    else [s[p]] + Squeeze(s, p + 1)
  }

  /** Numbers: digits, optionally one dot with digits on both sides. */
  predicate IsNumberText(x: string)
  {
    && |x| > 0 && IsDigit(x[0]) && IsDigit(x[|x| - 1])
    && (forall i :: 0 <= i < |x| ==> IsDigit(x[i]) || x[i] == '.')
    && (forall i, j :: 0 <= i < |x| && 0 <= j < |x| && x[i] == '.' && x[j] == '.' ==> i == j)
  }

  /** What a token of each kind looks like. */
  predicate WellFormedToken(t: Token)
  {
    if t.kind.NUMBER? then IsNumberText(t.text)
    else if t.kind.STRING? then
      && |t.text| >= 2 && t.text[0] == '\'' && t.text[|t.text| - 1] == '\''
      && (forall i :: 0 < i < |t.text| - 1 ==> t.text[i] != '\'')
    else if IsKeywordKind(t.kind) then UpperStr(t.text) == KeywordName(t.kind)
    else if t.kind.IDENTIFIER? then
      && |t.text| > 0 && IsIdentStart(t.text[0])
      && (forall i :: 0 <= i < |t.text| ==> IsWordChar(t.text[i]))
      && !IsKeywordText(UpperStr(t.text))
    else if IsFixedKind(t.kind) then t.text == FixedText(t.kind)
    else false  // SKIP and MISMATCH never become tokens
  }

  /** tokenize: the loop over the successive matches. */
  method Tokenize(code: string) returns (r: Result<seq<Token>, Error>)
    ensures r == Lex(code, 0)
    ensures r.Ok? ==> forall t :: t in r.value ==> WellFormedToken(t)
    ensures r.Ok? ==> Texts(r.value) == Squeeze(code, 0)
  {
    var tokens: seq<Token> := [];
    var pos := 0;
    PrependNil(Lex(code, 0));
    if Lex(code, 0).Ok? {
      LexWellFormed(code, 0);
      AllWellFormedMembers(Lex(code, 0).value);
      LexSpellsSqueeze(code, 0);
    }
    while pos < |code|
      invariant pos <= |code|
      invariant Lex(code, 0) == Prepend(tokens, Lex(code, pos))
      decreases |code| - pos
    {
      var m := FirstMatch(TokenSpecification, code, pos);
      if m.None? {
        pos := pos + 1;
      } else {
        var (kind, n) := m.value;
        var value := code[pos..pos + n];
        if kind == SKIP {
        } else if kind == MISMATCH {
          r := Err(UnexpectedCharacter(value));
          assert Lex(code, pos) == r;
          return;
        } else {
          PrependPrepend(tokens, [Token(kind, value)], Lex(code, pos + n));
          tokens := tokens + [Token(kind, value)];
        }
        pos := pos + n;
      }
    }
    assert Lex(code, pos) == Ok([]);
    assert tokens + [] == tokens;
    r := Ok(tokens);
  }

  // ---------------------------------------------------------------------
  // Lemmas: first match wins

  /** The winner does match, with the length reported. */
  lemma {:induction false} FirstMatchMatches(specs: seq<Kind>, s: string, p: nat)
    requires p < |s| && FirstMatch(specs, s, p).Some?
    ensures MatchLength(FirstMatch(specs, s, p).value.0, s, p) == Some(FirstMatch(specs, s, p).value.1)
  {
    if MatchLength(specs[0], s, p).None? {
      FirstMatchMatches(specs[1..], s, p);
    }
  }

  /** FirstMatch picks the earliest pattern in the list that matches. */
  lemma {:induction false} FirstMatchEarliest(specs: seq<Kind>, s: string, p: nat)
    requires p < |s|
    requires FirstMatch(specs, s, p).Some?
    ensures exists i :: 0 <= i < |specs| && specs[i] == FirstMatch(specs, s, p).value.0
              && forall j :: 0 <= j < i ==> MatchLength(specs[j], s, p).None?
  {
    if MatchLength(specs[0], s, p).Some? {
      assert specs[0] == FirstMatch(specs, s, p).value.0;
    } else {
      FirstMatchEarliest(specs[1..], s, p);
      var i :| 0 <= i < |specs[1..]| && specs[1..][i] == FirstMatch(specs[1..], s, p).value.0
                && forall j :: 0 <= j < i ==> MatchLength(specs[1..][j], s, p).None?;
      assert specs[i + 1] == FirstMatch(specs, s, p).value.0;
      forall j | 0 <= j < i + 1 ensures MatchLength(specs[j], s, p).None? {
        if j > 0 { assert specs[j] == specs[1..][j - 1]; }
      }
    }
  }

  /** If some pattern of the list matches, FirstMatch finds one. */
  lemma {:induction false} FirstMatchFinds(specs: seq<Kind>, s: string, p: nat, k: Kind)
    requires p < |s|
    requires k in specs && MatchLength(k, s, p).Some?
    ensures FirstMatch(specs, s, p).Some?
  {
    if specs[0] != k {
      assert k in specs[1..];
      FirstMatchFinds(specs[1..], s, p, k);
    }
  }

  /** Some pattern always matches: blanks by SKIP, everything else by MISMATCH. */
  lemma FirstMatchTotal(s: string, p: nat)
    requires p < |s|
    ensures FirstMatch(TokenSpecification, s, p).Some?
  {
    if IsBlank(s[p]) {
      FirstMatchFinds(TokenSpecification, s, p, SKIP);
    } else {
      FirstMatchFinds(TokenSpecification, s, p, MISMATCH);
    }
  }

  /** When a pattern among the first m matches, the winner is among the first m. */
  lemma {:induction false} FirstMatchWithinPrefix(specs: seq<Kind>, s: string, p: nat, m: nat, k: Kind)
    requires p < |s| && m <= |specs|
    requires k in specs[..m] && MatchLength(k, s, p).Some?
    ensures FirstMatch(specs, s, p).Some? && FirstMatch(specs, s, p).value.0 in specs[..m]
  {
    if MatchLength(specs[0], s, p).None? {
      assert specs[0] != k;
      assert k in specs[1..][..m - 1] by {
        var i :| 0 <= i < m && specs[i] == k;
        assert specs[1..][..m - 1][i - 1] == k;
      }
      FirstMatchWithinPrefix(specs[1..], s, p, m - 1, k);
      var w := FirstMatch(specs[1..], s, p).value.0;
      var i :| 0 <= i < m - 1 && specs[1..][..m - 1][i] == w;
      assert specs[..m][i + 1] == w;
    }
  }

  // ---------------------------------------------------------------------
  // Lemmas: the shape of each token

  /** An identifier-shaped word spelling a keyword is matched by that keyword's pattern. */
  lemma KeywordWordMatches(s: string, p: nat, k: Kind)
    requires p < |s| && IsKeywordKind(k)
    requires MatchIdentifier(s, p).Some?
    requires UpperStr(s[p..p + MatchIdentifier(s, p).value]) == KeywordName(k)
    ensures MatchLength(k, s, p).Some?
  {
    var n := MatchIdentifier(s, p).value;
    var e := WordEnd(s, p + 1);
    assert p + n == e;
    assert IsWordChar(s[e - 1]);
    assert WordBoundary(s, p + |KeywordName(k)|);
  }

  lemma NumberShape(s: string, p: nat)
    requires p < |s| && MatchNumber(s, p).Some?
    ensures IsNumberText(s[p..p + MatchNumber(s, p).value])
  {
    var n := MatchNumber(s, p).value;
    var t := s[p..p + n];
    var d := DigitsEnd(s, p);
    if n == d - p {
      forall i | 0 <= i < |t| ensures IsDigit(t[i]) {
        DigitsRun(s, p, p + i);
      }
    } else {
      assert t[d - p] == '.';
      forall i | 0 <= i < |t| && i != d - p ensures IsDigit(t[i]) {
        if i < d - p { DigitsRun(s, p, p + i); } else { DigitsRun(s, d + 1, p + i); }
      }
    }
  }

  /** The keyword patterns come before IDENTIFIER, so a matching keyword wins. */
  lemma KeywordBeatsIdentifier(s: string, p: nat, kw: Kind)
    requires p < |s| && IsKeywordKind(kw) && MatchLength(kw, s, p).Some?
    ensures FirstMatch(TokenSpecification, s, p).Some?
    ensures FirstMatch(TokenSpecification, s, p).value.0 != IDENTIFIER
  {
    assert TokenSpecification[..8] == [NUMBER, STRING, SELECT, FROM, WHERE, AND, OR, NOT];
    FirstMatchWithinPrefix(TokenSpecification, s, p, 8, kw);
  }

  /** When IDENTIFIER wins, no keyword pattern matched. */
  lemma IdentifierNotKeyword(s: string, p: nat)
    requires p < |s|
    requires FirstMatch(TokenSpecification, s, p).Some? && FirstMatch(TokenSpecification, s, p).value.0 == IDENTIFIER
    ensures forall kw :: IsKeywordKind(kw) ==> MatchLength(kw, s, p).None?
  {
    forall kw | IsKeywordKind(kw) ensures MatchLength(kw, s, p).None? {
      if MatchLength(kw, s, p).Some? {
        KeywordBeatsIdentifier(s, p, kw);
      }
    }
  }

  lemma IdentifierShape(s: string, p: nat)
    requires p < |s|
    requires MatchIdentifier(s, p).Some?
    requires forall kw :: IsKeywordKind(kw) ==> MatchLength(kw, s, p).None?
    ensures WellFormedToken(Token(IDENTIFIER, s[p..p + MatchIdentifier(s, p).value]))
  {
    var t := s[p..p + MatchIdentifier(s, p).value];
    forall i | 0 < i < |t| ensures IsWordChar(t[i]) {
      WordRun(s, p + 1, p + i);
    }
    forall kw | IsKeywordKind(kw) ensures UpperStr(t) != KeywordName(kw) {
      if UpperStr(t) == KeywordName(kw) {
        KeywordWordMatches(s, p, kw);
      }
    }
  }

  lemma StringShape(s: string, p: nat)
    requires p < |s| && MatchString(s, p).Some?
    ensures var t := s[p..p + MatchString(s, p).value];
            |t| >= 2 && t[0] == '\'' && t[|t| - 1] == '\''
            && forall i :: 0 < i < |t| - 1 ==> t[i] != '\''
  {
    var t := s[p..p + MatchString(s, p).value];
    forall i | 0 < i < |t| - 1 ensures t[i] != '\'' {
      assert t[i] == s[p + i];
      QuoteFree(s, p + 1, p + i);
    }
  }

  /** What a match of each kind of pattern means in terms of its matcher. */
  lemma MatchCases(s: string, p: nat, k: Kind, n: nat)
    requires p < |s| && MatchLength(k, s, p) == Some(n)
    ensures k.NUMBER? ==> MatchNumber(s, p) == Some(n)
    ensures k.STRING? ==> MatchString(s, p) == Some(n)
    ensures IsKeywordKind(k) ==> MatchKeyword(s, p, KeywordName(k)) == Some(n)
    ensures k.IDENTIFIER? ==> MatchIdentifier(s, p) == Some(n)
    ensures IsFixedKind(k) ==> MatchLiteral(s, p, FixedText(k)) == Some(n)
  {
  }

  lemma NumberToken(s: string, p: nat, n: nat)
    requires p < |s| && MatchNumber(s, p) == Some(n)
    ensures p + n <= |s| && WellFormedToken(Token(NUMBER, s[p..p + n]))
  {
    NumberShape(s, p);
  }

  lemma StringToken(s: string, p: nat, n: nat)
    requires p < |s| && MatchString(s, p) == Some(n)
    ensures p + n <= |s| && WellFormedToken(Token(STRING, s[p..p + n]))
  {
    StringShape(s, p);
  }

  lemma KeywordToken(s: string, p: nat, k: Kind, n: nat)
    requires p < |s| && IsKeywordKind(k) && MatchKeyword(s, p, KeywordName(k)) == Some(n)
    ensures p + n <= |s| && WellFormedToken(Token(k, s[p..p + n]))
  {
  }

  lemma IdentifierToken(s: string, p: nat, n: nat)
    requires p < |s| && MatchIdentifier(s, p) == Some(n)
    requires forall kw :: IsKeywordKind(kw) ==> MatchLength(kw, s, p).None?
    ensures p + n <= |s| && WellFormedToken(Token(IDENTIFIER, s[p..p + n]))
  {
    IdentifierShape(s, p);
  }

  lemma FixedToken(s: string, p: nat, k: Kind, n: nat)
    requires p < |s| && IsFixedKind(k) && MatchLiteral(s, p, FixedText(k)) == Some(n)
    ensures p + n <= |s| && WellFormedToken(Token(k, s[p..p + n]))
  {
  }

  /** The token a match yields has the shape its kind promises. */
  lemma TokenShape(s: string, p: nat, k: Kind, n: nat)
    requires p < |s| && k != SKIP && k != MISMATCH
    requires k.NUMBER? ==> MatchNumber(s, p) == Some(n)
    requires k.STRING? ==> MatchString(s, p) == Some(n)
    requires IsKeywordKind(k) ==> MatchKeyword(s, p, KeywordName(k)) == Some(n)
    requires k.IDENTIFIER? ==> MatchIdentifier(s, p) == Some(n)
    requires k.IDENTIFIER? ==> forall kw :: IsKeywordKind(kw) ==> MatchLength(kw, s, p).None?
    requires IsFixedKind(k) ==> MatchLiteral(s, p, FixedText(k)) == Some(n)
    ensures p + n <= |s| && WellFormedToken(Token(k, s[p..p + n]))
  {
    if k.NUMBER? {
      NumberToken(s, p, n);
    } else if k.STRING? {
      StringToken(s, p, n);
    } else if IsKeywordKind(k) {
      KeywordToken(s, p, k, n);
    } else if k.IDENTIFIER? {
      IdentifierToken(s, p, n);
    } else {
      FixedToken(s, p, k, n);
    }
  }

  /** The well-formed token the winning pattern yields. */
  lemma MatchedToken(s: string, p: nat, k: Kind, n: nat)
    requires p < |s|
    requires FirstMatch(TokenSpecification, s, p) == Some((k, n))
    requires k != SKIP && k != MISMATCH
    ensures p + n <= |s| && WellFormedToken(Token(k, s[p..p + n]))
  {
    FirstMatchMatches(TokenSpecification, s, p);
    MatchCases(s, p, k, n);
    if k == IDENTIFIER {
      IdentifierNotKeyword(s, p);
    }
    TokenShape(s, p, k, n);
  }

  predicate AllWellFormed(toks: seq<Token>)
  {
    toks == [] || (WellFormedToken(toks[0]) && AllWellFormed(toks[1..]))
  }

  lemma {:induction false} AllWellFormedMembers(toks: seq<Token>)
    requires AllWellFormed(toks)
    ensures forall t :: t in toks ==> WellFormedToken(t)
  {
    if toks != [] {
      AllWellFormedMembers(toks[1..]);
      assert forall t :: t in toks ==> t == toks[0] || t in toks[1..];
    }
  }

  /** A successful scan that has not reached the end takes a SKIP or token step. */
  lemma OkStep(s: string, p: nat) returns (k: Kind, n: nat)
    requires p < |s| && Lex(s, p).Ok?
    ensures FirstMatch(TokenSpecification, s, p) == Some((k, n))
    ensures k != MISMATCH && p + n <= |s| && Lex(s, p + n).Ok?
    ensures k == SKIP ==> Lex(s, p).value == Lex(s, p + n).value
    ensures k != SKIP ==> Lex(s, p).value == [Token(k, s[p..p + n])] + Lex(s, p + n).value
  {
    FirstMatchTotal(s, p);
    k, n := FirstMatch(TokenSpecification, s, p).value.0, FirstMatch(TokenSpecification, s, p).value.1;
  }

  lemma AllWellFormedCons(t: Token, rest: seq<Token>)
    requires WellFormedToken(t) && AllWellFormed(rest)
    ensures AllWellFormed([t] + rest)
  {
    assert ([t] + rest)[1..] == rest;
  }

  /** Every token of a successful scan is well formed; none is SKIP or MISMATCH. */
  lemma {:induction false} LexWellFormed(s: string, p: nat)
    requires p <= |s| && Lex(s, p).Ok?
    ensures AllWellFormed(Lex(s, p).value)
    decreases |s| - p
  {
    if p < |s| {
      var k, n := OkStep(s, p);
      LexWellFormed(s, p + n);
      if k != SKIP {
        MatchedToken(s, p, k, n);
        AllWellFormedCons(Token(k, s[p..p + n]), Lex(s, p + n).value);
      }
    }
  }

  // ---------------------------------------------------------------------
  // Lemmas: the tokens spell the input without its blank runs

  lemma {:induction false} SqueezeSkipsBlanks(s: string, p: nat, q: nat)
    requires p <= q <= |s|
    requires forall i :: p <= i < q ==> IsBlank(s[i])
    ensures Squeeze(s, p) == Squeeze(s, q)
    decreases q - p
  {
    if p < q {
      SqueezeSkipsBlanks(s, p + 1, q);
    }
  }

  /** A character Squeeze copies on its own: neither blank nor a quote. */
  predicate Plain(c: char)
  {
    !IsBlank(c) && c != '\''
  }

  lemma {:induction false} SqueezeCopies(s: string, p: nat, q: nat)
    requires p <= q <= |s|
    requires forall i :: p <= i < q ==> Plain(s[i])
    ensures Squeeze(s, p) == s[p..q] + Squeeze(s, q)
    decreases q - p
  {
    if p < q {
      var rest := Squeeze(s, q);
      calc {
        Squeeze(s, p);
        { SqueezePlainStep(s, p); }
        [s[p]] + Squeeze(s, p + 1);
        { SqueezeCopies(s, p + 1, q); }
        [s[p]] + (s[p + 1..q] + rest);
        ([s[p]] + s[p + 1..q]) + rest;
        { assert s[p..q] == [s[p]] + s[p + 1..q]; }
        s[p..q] + rest;
      }
    }
  }

  lemma SqueezePlainStep(s: string, p: nat)
    requires p < |s| && Plain(s[p])
    ensures Squeeze(s, p) == [s[p]] + Squeeze(s, p + 1)
  {
  }

  predicate AllPlain(x: string)
  {
    forall i :: 0 <= i < |x| ==> Plain(x[i])
  }

  /** Apart from string literals, token texts hold neither blanks nor quotes. */
  lemma PlainTokenText(t: Token)
    requires WellFormedToken(t) && !t.kind.STRING?
    ensures AllPlain(t.text)
  {
    if IsKeywordKind(t.kind) {
      KeywordPlain(t.text, t.kind);
    } else if t.kind.IDENTIFIER? || t.kind.NUMBER? {
    } else {
      FixedTextPlain(t.kind);
    }
  }

  lemma KeywordPlain(x: string, k: Kind)
    requires IsKeywordKind(k) && UpperStr(x) == KeywordName(k)
    ensures AllPlain(x)
  {
    forall i | 0 <= i < |x| ensures Plain(x[i]) {
      assert Upper(x[i]) == KeywordName(k)[i];
    }
  }

  lemma FixedTextPlain(k: Kind)
    requires IsFixedKind(k)
    ensures AllPlain(FixedText(k))
  {
  }

  /** A token other than a string literal or a blank run is copied verbatim by Squeeze. */
  lemma SqueezePlainToken(s: string, p: nat, k: Kind, n: nat)
    requires p < |s|
    requires FirstMatch(TokenSpecification, s, p) == Some((k, n))
    requires k != SKIP && k != MISMATCH && k != STRING
    ensures p + n <= |s| && Squeeze(s, p) == s[p..p + n] + Squeeze(s, p + n)
  {
    MatchedToken(s, p, k, n);
    var t := s[p..p + n];
    PlainTokenText(Token(k, t));
    SqueezePlainText(s, p, t);
  }

  /** A string literal token is copied verbatim by Squeeze. */
  lemma SqueezeStringToken(s: string, p: nat, n: nat)
    requires p < |s|
    requires FirstMatch(TokenSpecification, s, p) == Some((STRING, n))
    ensures p + n <= |s| && Squeeze(s, p) == s[p..p + n] + Squeeze(s, p + n)
  {
    FirstMatchMatches(TokenSpecification, s, p);
    SqueezeString(s, p, n);
  }

  /** A closed quoted literal is copied whole, blanks included. */
  lemma SqueezeString(s: string, p: nat, n: nat)
    requires p < |s| && MatchString(s, p) == Some(n)
    ensures Squeeze(s, p) == s[p..p + n] + Squeeze(s, p + n)
  {
  }

  /** A run of plain characters is copied as it is. */
  lemma SqueezePlainText(s: string, p: nat, t: string)
    requires p + |t| <= |s| && t == s[p..p + |t|]
    requires AllPlain(t)
    ensures Squeeze(s, p) == t + Squeeze(s, p + |t|)
  {
    forall i | p <= i < p + |t| ensures Plain(s[i]) {
      assert s[i] == t[i - p];
    }
    SqueezeCopies(s, p, p + |t|);
  }

  /** A blank run is dropped by Squeeze. */
  lemma SkipSqueeze(s: string, p: nat, n: nat)
    requires p < |s|
    requires FirstMatch(TokenSpecification, s, p) == Some((SKIP, n))
    ensures Squeeze(s, p) == Squeeze(s, p + n)
  {
    FirstMatchMatches(TokenSpecification, s, p);
    forall i | p <= i < p + n ensures IsBlank(s[i]) {
      BlanksRun(s, p, i);
    }
    SqueezeSkipsBlanks(s, p, p + n);
  }

  lemma TextsCons(t: Token, rest: seq<Token>)
    ensures Texts([t] + rest) == t.text + Texts(rest)
  {
    assert ([t] + rest)[1..] == rest;
  }

  /** On success, concatenating the token texts gives back the input with the
      blanks outside quoted literals deleted. */
  lemma {:induction false} LexSpellsSqueeze(s: string, p: nat)
    requires p <= |s| && Lex(s, p).Ok?
    ensures Texts(Lex(s, p).value) == Squeeze(s, p)
    decreases |s| - p
  {
    if p < |s| {
      var k, n := OkStep(s, p);
      LexSpellsSqueeze(s, p + n);
      if k == SKIP {
        SkipSqueeze(s, p, n);
      } else {
        if k == STRING {
          SqueezeStringToken(s, p, n);
        } else {
          SqueezePlainToken(s, p, k, n);
        }
        TextsCons(Token(k, s[p..p + n]), Lex(s, p + n).value);
      }
    }
  }

  // ---------------------------------------------------------------------
  // Lemmas: which pattern wins at a given kind of position

  /** When the patterns before position i all fail and pattern i matches, pattern i wins. */
  lemma {:induction false} FirstAt(specs: seq<Kind>, s: string, p: nat, i: nat, n: nat)
    requires p < |s| && i < |specs|
    requires forall j :: 0 <= j < i ==> MatchLength(specs[j], s, p).None?
    requires MatchLength(specs[i], s, p) == Some(n)
    ensures FirstMatch(specs, s, p) == Some((specs[i], n))
    decreases i
  {
    if i > 0 {
      assert MatchLength(specs[0], s, p).None?;
      forall j | 0 <= j < i - 1 ensures MatchLength(specs[1..][j], s, p).None? {
        assert specs[1..][j] == specs[j + 1];
      }
      FirstAt(specs[1..], s, p, i - 1, n);
    }
  }

  /** A keyword pattern never matches where the character is not a letter or `_`. */
  lemma NoKeywordAtNonLetter(s: string, p: nat, k: Kind)
    requires p < |s| && IsKeywordKind(k) && !IsIdentStart(s[p])
    ensures MatchLength(k, s, p).None?
  {
    var w := KeywordName(k);
    if MatchKeyword(s, p, w).Some? {
      KeywordNameUpper(k);
    }
  }

  /** Keywords are spelled in upper-case letters. */
  lemma KeywordNameUpper(k: Kind)
    requires IsKeywordKind(k)
    ensures |KeywordName(k)| > 0
    ensures forall i :: 0 <= i < |KeywordName(k)| ==> 'A' <= KeywordName(k)[i] <= 'Z'
  {
  }

  /** A fixed-text pattern only matches at its own first character. */
  lemma FixedNeedsFirstChar(s: string, p: nat, k: Kind)
    requires p < |s| && IsFixedKind(k) && MatchLength(k, s, p).Some?
    ensures s[p] == FixedText(k)[0]
  {
    assert s[p..p + |FixedText(k)|][0] == s[p];
  }

  /** At a character that is neither a word character nor a quote, none of the
      first nine patterns (NUMBER, STRING, the keywords, IDENTIFIER) matches. */
  lemma NoWordPatternAt(s: string, p: nat)
    requires p < |s| && !IsWordChar(s[p]) && s[p] != '\''
    ensures forall j :: 0 <= j < 9 ==> MatchLength(TokenSpecification[j], s, p).None?
  {
    forall j | 0 <= j < 9 ensures MatchLength(TokenSpecification[j], s, p).None? {
      if IsKeywordKind(TokenSpecification[j]) {
        NoKeywordAtNonLetter(s, p, TokenSpecification[j]);
      }
    }
  }

  /** At a symbol other than `*`, `=` and `!`, none of the first twelve patterns
      (up to NEQ) matches. */
  lemma NoPatternBeforeLte(s: string, p: nat)
    requires p < |s| && !IsWordChar(s[p]) && s[p] != '\''
    requires s[p] != '*' && s[p] != '=' && s[p] != '!'
    ensures forall j :: 0 <= j < 12 ==> MatchLength(TokenSpecification[j], s, p).None?
  {
    NoWordPatternAt(s, p);
    forall j | 9 <= j < 12 ensures MatchLength(TokenSpecification[j], s, p).None? {
      var k := TokenSpecification[j];
      if MatchLength(k, s, p).Some? { FixedNeedsFirstChar(s, p, k); }
    }
  }

  /** The two-character text t at p is matched by its own fixed pattern only when
      both characters are there. */
  lemma TwoCharMatch(s: string, p: nat, k: Kind)
    requires p < |s| && IsFixedKind(k) && |FixedText(k)| == 2 && s[p] == FixedText(k)[0]
    ensures MatchLength(k, s, p) == if p + 1 < |s| && s[p + 1] == FixedText(k)[1] then Some(2) else None
  {
    if p + 2 <= |s| {
      assert s[p..p + 2] == [s[p], s[p + 1]];
    }
  }

  /** `<=` is one LTE token; a `<` not followed by `=` is LT. */
  lemma LessThanTokens(s: string, p: nat)
    requires p < |s| && s[p] == '<'
    ensures FirstMatch(TokenSpecification, s, p)
            == if p + 1 < |s| && s[p + 1] == '=' then Some((LTE, 2)) else Some((LT, 1))
  {
    if p + 1 < |s| && s[p + 1] == '=' {
      NoPatternBeforeLte(s, p);
      TwoCharMatch(s, p, LTE);
      FirstAt(TokenSpecification, s, p, 12, 2);
    } else {
      LoneLess(s, p);
    }
  }

  lemma LoneLess(s: string, p: nat)
    requires p < |s| && s[p] == '<' && !(p + 1 < |s| && s[p + 1] == '=')
    ensures FirstMatch(TokenSpecification, s, p) == Some((LT, 1))
  {
    NoPatternBeforeLte(s, p);
    TwoCharMatch(s, p, LTE);
    if MatchLength(GTE, s, p).Some? { FixedNeedsFirstChar(s, p, GTE); }
    assert s[p..p + 1] == "<";
    FirstAt(TokenSpecification, s, p, 14, 1);
  }

  /** `>=` is one GTE token; a `>` not followed by `=` is GT. */
  lemma GreaterThanTokens(s: string, p: nat)
    requires p < |s| && s[p] == '>'
    ensures FirstMatch(TokenSpecification, s, p)
            == if p + 1 < |s| && s[p + 1] == '=' then Some((GTE, 2)) else Some((GT, 1))
  {
    NoPatternBeforeLte(s, p);
    if MatchLength(LTE, s, p).Some? { FixedNeedsFirstChar(s, p, LTE); }
    TwoCharMatch(s, p, GTE);
    if p + 1 < |s| && s[p + 1] == '=' {
      FirstAt(TokenSpecification, s, p, 13, 2);
    } else {
      if MatchLength(LT, s, p).Some? { FixedNeedsFirstChar(s, p, LT); }
      assert s[p..p + 1] == ">";
      FirstAt(TokenSpecification, s, p, 15, 1);
    }
  }

  /** A `!` not followed by `=` matches no pattern before MISMATCH. */
  lemma LoneBangFails(s: string, p: nat)
    requires p < |s| && s[p] == '!' && !(p + 1 < |s| && s[p + 1] == '=')
    ensures FirstMatch(TokenSpecification, s, p) == Some((MISMATCH, 1))
  {
    NoWordPatternAt(s, p);
    TwoCharMatch(s, p, NEQ);
    forall j | 9 <= j < 21 ensures MatchLength(TokenSpecification[j], s, p).None? {
      var k := TokenSpecification[j];
      if k != NEQ && IsFixedKind(k) && MatchLength(k, s, p).Some? { FixedNeedsFirstChar(s, p, k); }
    }
    FirstAt(TokenSpecification, s, p, 21, 1);
  }

  /** `!=` is one NEQ token; a `!` not followed by `=` is an unexpected character. */
  lemma BangTokens(s: string, p: nat)
    requires p < |s| && s[p] == '!'
    ensures FirstMatch(TokenSpecification, s, p)
            == if p + 1 < |s| && s[p + 1] == '=' then Some((NEQ, 2)) else Some((MISMATCH, 1))
  {
    if p + 1 < |s| && s[p + 1] == '=' {
      BangEquals(s, p);
    } else {
      LoneBangFails(s, p);
    }
  }

  lemma BangEquals(s: string, p: nat)
    requires p + 1 < |s| && s[p] == '!' && s[p + 1] == '='
    ensures FirstMatch(TokenSpecification, s, p) == Some((NEQ, 2))
  {
    NoWordPatternAt(s, p);
    TwoCharMatch(s, p, NEQ);
    forall j | 9 <= j < 11 ensures MatchLength(TokenSpecification[j], s, p).None? {
      var k := TokenSpecification[j];
      if MatchLength(k, s, p).Some? { FixedNeedsFirstChar(s, p, k); }
    }
    FirstAt(TokenSpecification, s, p, 11, 2);
  }

  /** The characters no pattern other than MISMATCH can start with. */
  predicate IsStrayChar(c: char)
  {
    !IsWordChar(c) && !IsBlank(c) && c != '\'' && c != '!'
    && c !in ['*', '=', '<', '>', ',', ';', '(', ')']
  }

  /** At a character that is not blank and that no fixed text starts with, none of
      the patterns from ASTERISK to SKIP matches. */
  lemma NoSymbolPatternAt(s: string, p: nat)
    requires p < |s| && !IsBlank(s[p]) && s[p] != '!'
    requires s[p] !in ['*', '=', '<', '>', ',', ';', '(', ')']
    ensures forall j :: 9 <= j < 21 ==> MatchLength(TokenSpecification[j], s, p).None?
  {
    forall j | 9 <= j < 21 ensures MatchLength(TokenSpecification[j], s, p).None? {
      var k := TokenSpecification[j];
      if IsFixedKind(k) && MatchLength(k, s, p).Some? {
        FixedNeedsFirstChar(s, p, k);
      }
    }
  }

  /** A stray character (`+`, `.`, a carriage return, ...) is matched by MISMATCH
      alone, so the scan fails on it. */
  lemma StrayCharacterFails(s: string, p: nat)
    requires p < |s| && IsStrayChar(s[p])
    ensures FirstMatch(TokenSpecification, s, p) == Some((MISMATCH, 1))
    ensures Lex(s, p) == Err(UnexpectedCharacter([s[p]]))
  {
    NoWordPatternAt(s, p);
    NoSymbolPatternAt(s, p);
    FirstAt(TokenSpecification, s, p, 21, 1);
    MismatchFails(s, p);
  }

  /** WordEnd stops at the first non-word character. */
  lemma {:induction false} WordEndAt(s: string, i: nat, q: nat)
    requires i <= q <= |s|
    requires forall j :: i <= j < q ==> IsWordChar(s[j])
    requires q == |s| || !IsWordChar(s[q])
    ensures WordEnd(s, i) == q
    decreases q - i
  {
    if i < q {
      WordEndAt(s, i + 1, q);
    }
  }

  /** A keyword pattern that matches covers the whole word, and that word spells the keyword. */
  lemma KeywordMatchIsWholeWord(s: string, p: nat, k: Kind)
    requires p < |s| && IsKeywordKind(k) && MatchLength(k, s, p).Some?
    ensures WordEnd(s, p) == p + |KeywordName(k)|
    ensures UpperStr(s[p..WordEnd(s, p)]) == KeywordName(k)
  {
    var w := KeywordName(k);
    KeywordNameUpper(k);
    forall j | p <= j < p + |w| ensures IsWordChar(s[j]) {
      assert UpperStr(s[p..p + |w|])[j - p] == Upper(s[j]);
    }
    assert IsWordChar(s[p + |w| - 1]);
    WordEndAt(s, p, p + |w|);
  }

  /** An identifier-shaped word lexes as IDENTIFIER exactly when its upper-case
      spelling is not a keyword; a keyword spelling lexes as that keyword. */
  lemma IdentifierUnlessKeyword(s: string, p: nat)
    requires p < |s| && MatchIdentifier(s, p).Some?
    ensures var word := UpperStr(s[p..p + MatchIdentifier(s, p).value]);
            FirstMatch(TokenSpecification, s, p) == Some((IDENTIFIER, MatchIdentifier(s, p).value))
            <==> !IsKeywordText(word)
  {
    var word := UpperStr(s[p..p + MatchIdentifier(s, p).value]);
    if IsKeywordText(word) {
      var k :| IsKeywordKind(k) && KeywordName(k) == word;
      KeywordWordMatches(s, p, k);
      KeywordBeatsIdentifier(s, p, k);
    } else {
      IdentifierWins(s, p);
    }
  }

  lemma IdentifierWins(s: string, p: nat)
    requires p < |s| && MatchIdentifier(s, p).Some?
    requires !IsKeywordText(UpperStr(s[p..p + MatchIdentifier(s, p).value]))
    ensures FirstMatch(TokenSpecification, s, p) == Some((IDENTIFIER, MatchIdentifier(s, p).value))
  {
    var n := MatchIdentifier(s, p).value;
    assert WordEnd(s, p) == p + n;
    forall j | 0 <= j < 8 ensures MatchLength(TokenSpecification[j], s, p).None? {
      var k := TokenSpecification[j];
      if IsKeywordKind(k) && MatchLength(k, s, p).Some? {
        KeywordMatchIsWholeWord(s, p, k);
      }
    }
    FirstAt(TokenSpecification, s, p, 8, n);
  }

  /** A word spelling SELECT, in any letter case, is the SELECT keyword. */
  lemma SelectWordWins(s: string, p: nat)
    requires p < |s| && MatchIdentifier(s, p).Some?
    requires UpperStr(s[p..p + MatchIdentifier(s, p).value]) == "SELECT"
    ensures FirstMatch(TokenSpecification, s, p) == Some((SELECT, 6))
  {
    KeywordWordMatches(s, p, SELECT);
    FirstAt(TokenSpecification, s, p, 2, 6);
  }

  /** A quote with a closing quote later on is one STRING token running to that
      closing quote, both quotes included. */
  lemma StringWins(s: string, p: nat)
    requires p < |s| && s[p] == '\'' && QuoteEnd(s, p + 1) < |s|
    ensures FirstMatch(TokenSpecification, s, p) == Some((STRING, QuoteEnd(s, p + 1) + 1 - p))
  {
    assert MatchLength(TokenSpecification[0], s, p).None?;
    FirstAt(TokenSpecification, s, p, 1, QuoteEnd(s, p + 1) + 1 - p);
  }

  /** A quote that is never closed matches no pattern but MISMATCH, so the scan
      fails on the quote. */
  lemma UnclosedQuoteFails(s: string, p: nat)
    requires p < |s| && s[p] == '\'' && QuoteEnd(s, p + 1) == |s|
    ensures FirstMatch(TokenSpecification, s, p) == Some((MISMATCH, 1))
    ensures Lex(s, p) == Err(UnexpectedCharacter("'"))
  {
    forall j | 0 <= j < 9 ensures MatchLength(TokenSpecification[j], s, p).None? {
      var k := TokenSpecification[j];
      if IsKeywordKind(k) {
        NoKeywordAtNonLetter(s, p, k);
      }
    }
    NoSymbolPatternAt(s, p);
    FirstAt(TokenSpecification, s, p, 21, 1);
    MismatchFails(s, p);
  }

  /** Digits glued to a letter (`1a`) match neither NUMBER nor IDENTIFIER, so the
      scan fails on the first digit. */
  lemma DigitBeforeLetterFails(s: string, p: nat)
    requires p < |s| && IsDigit(s[p]) && WordBoundary(s, p)
    requires DigitsEnd(s, p) < |s| && IsIdentStart(s[DigitsEnd(s, p)])
    ensures FirstMatch(TokenSpecification, s, p) == Some((MISMATCH, 1))
    ensures Lex(s, p) == Err(UnexpectedCharacter([s[p]]))
  {
    GluedNumberNoWordPattern(s, p);
    NoSymbolPatternAt(s, p);
    FirstAt(TokenSpecification, s, p, 21, 1);
    MismatchFails(s, p);
  }

  lemma GluedNumberNoWordPattern(s: string, p: nat)
    requires p < |s| && IsDigit(s[p])
    requires DigitsEnd(s, p) < |s| && IsIdentStart(s[DigitsEnd(s, p)])
    ensures forall j :: 0 <= j < 9 ==> MatchLength(TokenSpecification[j], s, p).None?
  {
    GluedNumberNoMatch(s, p);
    forall j | 0 <= j < 9 ensures MatchLength(TokenSpecification[j], s, p).None? {
      var k := TokenSpecification[j];
      if IsKeywordKind(k) {
        NoKeywordAtNonLetter(s, p, k);
      }
    }
  }

  /** When MISMATCH wins, the scan fails on that one character. */
  lemma MismatchFails(s: string, p: nat)
    requires p < |s| && FirstMatch(TokenSpecification, s, p) == Some((MISMATCH, 1))
    ensures Lex(s, p) == Err(UnexpectedCharacter([s[p]]))
  {
    assert s[p..p + 1] == [s[p]];
  }

  // ---------------------------------------------------------------------
  // Examples

  /** `selected` is a word of its own, not SELECT followed by `ed`. */
  lemma SelectedIsIdentifier()
    ensures FirstMatch(TokenSpecification, "selected", 0) == Some((IDENTIFIER, 8))
  {
    var s := "selected";
    WordEndAt(s, 1, 8);
    assert MatchIdentifier(s, 0) == Some(8);
    assert !IsKeywordText(UpperStr(s[0..8])) by {
      forall k | IsKeywordKind(k) ensures KeywordName(k) != UpperStr(s[0..8]) {
        assert |KeywordName(k)| <= 6;
      }
    }
    IdentifierUnlessKeyword(s, 0);
  }

  /** `select`, in any letter case, is the keyword. */
  lemma SelectIsKeyword()
    ensures FirstMatch(TokenSpecification, "select", 0) == Some((SELECT, 6))
  {
    var s := "select";
    WordEndAt(s, 1, 6);
    assert UpperStr(s[0..6]) == "SELECT";
    SelectWordWins(s, 0);
  }

  /** Whatever follows, a leading `<=` is one token, not `<` followed by `=`. */
  lemma LessEqualIsOneToken(rest: string)
    ensures FirstMatch(TokenSpecification, "<=" + rest, 0) == Some((LTE, 2))
  {
    var s := "<=" + rest;
    assert s[0] == '<' && s[1] == '=';
    LessThanTokens(s, 0);
  }

  lemma GluedNumberNoMatch(s: string, p: nat)
    requires p < |s| && IsDigit(s[p])
    requires DigitsEnd(s, p) < |s| && IsIdentStart(s[DigitsEnd(s, p)])
    ensures MatchNumber(s, p).None?
  {
    var d := DigitsEnd(s, p);
    DigitsRun(s, p, d - 1);
  }

  /** `1a` is rejected at its first character. */
  lemma GluedNumberFails()
    ensures Lex("1a", 0) == Err(UnexpectedCharacter("1"))
  {
    assert DigitsEnd("1a", 0) == 1;
    DigitBeforeLetterFails("1a", 0);
  }

  /** `+` is rejected. */
  lemma PlusFails()
    ensures Lex("+", 0) == Err(UnexpectedCharacter("+"))
  {
    var s := "+";
    assert IsStrayChar(s[0]);
    StrayCharacterFails(s, 0);
  }

  /** A dot outside a number is rejected. */
  lemma DotFails()
    ensures Lex(".", 0) == Err(UnexpectedCharacter("."))
  {
    var s := ".";
    assert IsStrayChar(s[0]);
    StrayCharacterFails(s, 0);
  }

  /** A carriage return is not a blank, so it is rejected. */
  lemma CarriageReturnFails()
    ensures Lex("\r", 0) == Err(UnexpectedCharacter("\r"))
  {
    var s := "\r";
    assert IsStrayChar(s[0]);
    StrayCharacterFails(s, 0);
  }
}
