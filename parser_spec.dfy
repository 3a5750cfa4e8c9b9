/**
 * The reference parse functions (parser/parser.go) over the token sequence the lexer yields.
 *
 * Each function takes the index `i` of the parser's current token and returns what the Go
 * method builds, the index of the current token when it returns (`last`) and the errors it
 * appends. The class `Parser.Parser` is proved to agree with these functions; the lemmas
 * here state what they promise.
 */
module ParserSpec {
  import opened Wrappers
  import opened Token
  import opened Lexer
  import opened LexerProperties
  import opened Ast

  /** A parse error: only its kind and its data are modelled, not the message text. */
  datatype ParseError =
    | PeekError(expected: TokenType, got: TokenType)
    | NoPrefix(kind: TokenType)
    | BadInt(literal: string)

  /** The prefix handlers NewParser registers, as tags. */
  datatype PrefixFn = ParseIdentifierFn | ParseIntegerFn | ParsePrefixFn

  /** The prefix handler table as NewParser leaves it. */
  const PrefixHandlers: map<TokenType, PrefixFn> := map[
    TokenType.Identifier := ParseIdentifierFn,
    Int := ParseIntegerFn,
    Bang := ParsePrefixFn,
    Minus := ParsePrefixFn]

  /**
   * The handler the table gives a kind, or None for an unlisted kind (Go's map lookup
   * yields nil); HandlerLookup shows it reads the table.
   */
  function PrefixParseFns(kind: TokenType): Option<PrefixFn> {
    if kind == TokenType.Identifier then Some(ParseIdentifierFn)
    else if kind == Int then Some(ParseIntegerFn)
    else if kind == Bang || kind == Minus then Some(ParsePrefixFn)
    else None
  }

  /**
   * The lookup reads the table NewParser registers: exactly the four registered kinds have a
   * handler, each the one registered for it.
   */
  lemma HandlerLookup(kind: TokenType)
    ensures PrefixParseFns(kind).Some? <==> kind in PrefixHandlers
    ensures kind in PrefixHandlers ==> PrefixParseFns(kind) == Some(PrefixHandlers[kind])
    ensures PrefixParseFns(kind).Some? <==> kind in {TokenType.Identifier, Int, Bang, Minus}
    ensures PrefixParseFns(kind) == Some(ParseIdentifierFn) <==> kind == TokenType.Identifier
    ensures PrefixParseFns(kind) == Some(ParseIntegerFn) <==> kind == Int
    ensures PrefixParseFns(kind) == Some(ParsePrefixFn) <==> kind == Bang || kind == Minus
  {
  }

  // ---------------------------------------------------------------------------------------
  // Integer literals: strconv.ParseInt(literal, 0, 64) on digit strings

  const MaxInt64: int := 0x7fff_ffff_ffff_ffff

  /** The value of a string of decimal digit characters read in the given base. */
  function DigitsValue(s: string, base: nat): int {
    if |s| == 0 then 0 else DigitsValue(s[..|s| - 1], base) * base + (s[|s| - 1] as int - '0' as int)
  }

  predicate IsOctalDigits(s: string) {
    forall i :: 0 <= i < |s| ==> '0' <= s[i] <= '7'
  }

  /**
   * strconv.ParseInt with base 0 and 64 bits, for the literals an Int token holds: a leading
   * 0 makes the rest octal (so "0" is 0 and "09" fails), anything else is decimal, and a
   * value above 2^63-1 fails. A literal that is not a digit string fails as well.
   */
  function ParseInt64(literal: string): (r: Option<int>)
    ensures r.Some? ==> 0 <= r.value <= MaxInt64
  {
    if !IsDigitString(literal) then None
    else if literal[0] == '0' then
      var digits := literal[1..];
      if !IsOctalDigits(digits) || DigitsValue(digits, 8) > MaxInt64 then None
      else (DigitsValueNonNegative(digits, 8); Some(DigitsValue(digits, 8)))
    else if DigitsValue(literal, 10) > MaxInt64 then None
    else (DigitsValueNonNegative(literal, 10); Some(DigitsValue(literal, 10)))
  }

  lemma {:induction false} DigitsValueNonNegative(s: string, base: nat)
    requires forall i :: 0 <= i < |s| ==> '0' <= s[i] <= '9'
    ensures DigitsValue(s, base) >= 0
  {
    if |s| > 0 {
      DigitsValueNonNegative(s[..|s| - 1], base);
    }
  }

  /** strconv.FormatInt(n, 10) for n >= 0: decimal digits with no leading zero. */
  function FormatDecimal(n: nat): string {
    if n < 10 then [('0' as int + n) as char]
    else FormatDecimal(n / 10) + [('0' as int + n % 10) as char]
  }

  /**
   * Formatting in decimal and parsing back with ParseInt64 gives the number again: the
   * decimal literals of every int64 value from 0 up parse to themselves.
   */
  lemma {:induction false} DecimalRoundTrip(n: nat)
    requires n <= MaxInt64
    ensures ParseInt64(FormatDecimal(n)) == Some(n)
  {
    FormatDecimalDigits(n);
    var s := FormatDecimal(n);
    if n == 0 {
      assert s[1..] == "";
    }
  }

  lemma {:induction false} FormatDecimalDigits(n: nat)
    ensures IsDigitString(FormatDecimal(n))
    ensures n > 0 ==> FormatDecimal(n)[0] != '0'
    ensures DigitsValue(FormatDecimal(n), 10) == n
  {
    var s := FormatDecimal(n);
    if n >= 10 {
      FormatDecimalDigits(n / 10);
      assert s[..|s| - 1] == FormatDecimal(n / 10);
      assert s[0] == FormatDecimal(n / 10)[0];
    }
  }

  /** The parser_test integer fixtures and strconv's octal reading. */
  lemma ParseInt64Fixtures()
    ensures ParseInt64("5") == Some(5)
    ensures ParseInt64("15") == Some(15)
    ensures ParseInt64("9") == Some(9)
    ensures ParseInt64("0") == Some(0)
    ensures ParseInt64("010") == Some(8)
    ensures ParseInt64("09") == None
  {
    assert "010"[1..] == "10";
    assert "09"[1..] == "9" && "9"[0] == '9';
  }

  // ---------------------------------------------------------------------------------------
  // Expressions

  datatype ExprResult = ExprResult(expr: Option<Expression>, last: nat, errors: seq<ParseError>)

  /**
   * parseExpression with the current token at index i. The precedence argument is unused
   * by the code, which applies the prefix handler of the current token and nothing else.
   */
  function ParseExpressionAt(toks: seq<Token>, i: nat): (r: ExprResult)
    ensures i <= r.last
    decreases |toks| - i
  {
    var tok := TokenAt(toks, i);
    match PrefixParseFns(tok.kind)
    case None => ExprResult(None, i, [NoPrefix(tok.kind)])
    case Some(ParseIdentifierFn) => ExprResult(Some(Ident(Ast.Identifier(tok, tok.literal))), i, [])
    case Some(ParseIntegerFn) =>
      (match ParseInt64(tok.literal)
       case None => ExprResult(None, i, [BadInt(tok.literal)])
       case Some(v) => ExprResult(Some(IntegerLiteral(tok, v)), i, []))
    case Some(ParsePrefixFn) =>
      assert i < |toks|;
      var right := ParseExpressionAt(toks, i + 1);
      ExprResult(Some(PrefixExpression(tok, tok.literal, right.expr)), right.last, right.errors)
  }

  /**
   * The shapes the registered prefix handlers build: an identifier whose value is its token's
   * literal, an integer literal from an Int token with its parsed value, or a `!`/`-` node
   * whose operator is its token's literal around such an operand, if any. No BooleanLiteral
   * and no InfixExpression can come out of the parser.
   */
  predicate Parsed(e: Expression) {
    match e
    case Ident(ident) => ident.token.kind == TokenType.Identifier && ident.value == ident.token.literal
    case IntegerLiteral(token, v) => token.kind == Int && ParseInt64(token.literal) == Some(v)
    case BooleanLiteral(_, _) => false
    case PrefixExpression(token, operator, right) =>
      token.kind in {Bang, Minus} && operator == token.literal && (right.Some? ==> Parsed(right.value))
    case InfixExpression(_, _, _, _) => false
  }

  /**
   * What parseExpression promises: it appends at most one error, and none exactly when it
   * returns an expression with every operand present; what it returns has a registered
   * handler's shape and starts at the current token; it advances only over `!` and `-`.
   */
  lemma {:induction false} ExpressionOutcome(toks: seq<Token>, i: nat)
    ensures var r := ParseExpressionAt(toks, i);
      |r.errors| <= 1 &&
      (r.errors == [] <==> r.expr.Some? && r.expr.value.Complete()) &&
      (r.expr.Some? ==> Parsed(r.expr.value) && r.expr.value.TokenLiteral() == TokenAt(toks, i).literal) &&
      (r.expr.None? <==>
         (PrefixParseFns(TokenAt(toks, i).kind).None? ||
          (TokenAt(toks, i).kind == Int && ParseInt64(TokenAt(toks, i).literal).None?))) &&
      (forall j :: i <= j < r.last ==> TokenAt(toks, j).kind in {Bang, Minus})
    decreases |toks| - i
  {
    var tok := TokenAt(toks, i);
    if tok.kind in {Bang, Minus} {
      assert i < |toks|;
      ExpressionOutcome(toks, i + 1);
    }
  }

  /** A parsed identifier renders as its token literal, as the tests check. */
  lemma ParsedIdentifierRendering(e: Expression)
    requires e.Ident? && Parsed(e)
    ensures e.String() == e.TokenLiteral() == e.ident.token.literal
  {
  }

  // ---------------------------------------------------------------------------------------
  // Statements

  datatype StmtResult = StmtResult(stmt: Option<Statement>, last: nat, errors: seq<ParseError>)

  /** A Semicolon token lies at or after index i. */
  predicate SemicolonFrom(toks: seq<Token>, i: nat)
    decreases |toks| - i
  {
    i < |toks| && (toks[i].kind == Semicolon || SemicolonFrom(toks, i + 1))
  }

  /**
   * The skip loop of the let and return parsers: the index of the first Semicolon at or
   * after i (SkipFindsFirstSemicolon). It needs one to remain (SkipLoopNeedsSemicolon).
   */
  function SkipToSemicolon(toks: seq<Token>, i: nat): (j: nat)
    requires SemicolonFrom(toks, i)
    ensures i <= j < |toks| && toks[j].kind == Semicolon
    decreases |toks| - i
  {
    if toks[i].kind == Semicolon then i else SkipToSemicolon(toks, i + 1)
  }

  /** The skip loop stops at the first Semicolon: every token it passes over is something else. */
  lemma {:induction false} SkipFindsFirstSemicolon(toks: seq<Token>, i: nat)
    requires SemicolonFrom(toks, i)
    ensures forall k :: i <= k < SkipToSemicolon(toks, i) ==> TokenAt(toks, k).kind != Semicolon
    decreases |toks| - i
  {
    if toks[i].kind != Semicolon {
      SkipFindsFirstSemicolon(toks, i + 1);
    }
  }

  /**
   * With no Semicolon at or after i the skip loop's condition stays true for ever: every
   * later token, including the endless EOFs, is not a Semicolon.
   */
  lemma {:induction false} SkipLoopNeedsSemicolon(toks: seq<Token>, i: nat)
    requires !SemicolonFrom(toks, i)
    ensures forall j :: i <= j ==> TokenAt(toks, j).kind != Semicolon
    decreases |toks| - i
  {
    if i < |toks| {
      SkipLoopNeedsSemicolon(toks, i + 1);
    }
  }

  /** The let parser reaches its skip loop only after `let IDENT =`, and then a `;` must remain. */
  predicate LetHalts(toks: seq<Token>, i: nat) {
    TokenAt(toks, i + 1).kind == TokenType.Identifier && TokenAt(toks, i + 2).kind == Assign ==>
      SemicolonFrom(toks, i + 2)
  }

  /** parseLetStatement with the current token (the `let`) at index i. */
  function ParseLetAt(toks: seq<Token>, i: nat): (r: StmtResult)
    requires LetHalts(toks, i)
    ensures i <= r.last
  {
    var tok := TokenAt(toks, i);
    var peek := TokenAt(toks, i + 1);
    if peek.kind != TokenType.Identifier then StmtResult(None, i, [PeekError(TokenType.Identifier, peek.kind)])
    else
      var name := Ast.Identifier(peek, peek.literal);
      var after := TokenAt(toks, i + 2);
      if after.kind != Assign then StmtResult(None, i + 1, [PeekError(Assign, after.kind)])
      else StmtResult(Some(LetStatement(tok, name, None)), SkipToSemicolon(toks, i + 2), [])
  }

  /** parseReturnStatement with the current token (the `return`) at index i. */
  function ParseReturnAt(toks: seq<Token>, i: nat): (r: StmtResult)
    requires SemicolonFrom(toks, i)
    ensures i <= r.last
  {
    StmtResult(Some(ReturnStatement(TokenAt(toks, i), None)), SkipToSemicolon(toks, i), [])
  }

  /**
   * parseExpressionStatement: the expression, then a `;` only if the peek token is one. The
   * statement's token is read before the expression is parsed (see
   * `ExpressionStatementTokenOrder` for when the other order would differ).
   */
  function ParseExpressionStatementAt(toks: seq<Token>, i: nat): (r: StmtResult)
    ensures i <= r.last
  {
    var e := ParseExpressionAt(toks, i);
    var last := if TokenAt(toks, e.last + 1).kind == Semicolon then e.last + 1 else e.last;
    StmtResult(Some(ExpressionStatement(TokenAt(toks, i), e.expr)), last, e.errors)
  }

  /** The statement at i returns: its skip loop, if it reaches one, finds a `;`. */
  predicate StatementHalts(toks: seq<Token>, i: nat) {
    var kind := TokenAt(toks, i).kind;
    (kind == Let ==> LetHalts(toks, i)) && (kind == Return ==> SemicolonFrom(toks, i))
  }

  /** parseStatement: dispatch on the current token's kind. */
  function ParseStatementAt(toks: seq<Token>, i: nat): (r: StmtResult)
    requires StatementHalts(toks, i)
    ensures i <= r.last
  {
    var kind := TokenAt(toks, i).kind;
    if kind == Let then ParseLetAt(toks, i)
    else if kind == Return then ParseReturnAt(toks, i)
    else ParseExpressionStatementAt(toks, i)
  }

  /**
   * The let parser returns a statement exactly for `let IDENT =`: then it holds the `let`
   * token, the identifier named by the peek token, no value, appends no error and leaves the
   * current token on the first `;`. Otherwise it returns nothing and appends exactly one
   * peek error, having advanced past the identifier if there was one.
   */
  lemma LetOutcome(toks: seq<Token>, i: nat)
    requires LetHalts(toks, i)
    ensures var r := ParseLetAt(toks, i);
      var ok := TokenAt(toks, i + 1).kind == TokenType.Identifier && TokenAt(toks, i + 2).kind == Assign;
      (r.stmt.Some? <==> ok) &&
      (ok ==> r.errors == [] && r.stmt.value.LetStatement? && r.stmt.value.token == TokenAt(toks, i) &&
              r.stmt.value.name.token == TokenAt(toks, i + 1) &&
              r.stmt.value.name.String() == r.stmt.value.name.TokenLiteral() &&
              r.stmt.value.value.None? && TokenAt(toks, r.last).kind == Semicolon && i + 2 <= r.last &&
              (forall k :: i + 2 <= k < r.last ==> TokenAt(toks, k).kind != Semicolon)) &&
      (!ok ==> |r.errors| == 1 && r.errors[0].PeekError? && r.last <= i + 1)
  {
    if TokenAt(toks, i + 1).kind == TokenType.Identifier && TokenAt(toks, i + 2).kind == Assign {
      SkipFindsFirstSemicolon(toks, i + 2);
    }
  }

  /** The return parser always returns a statement holding the `return` token and no value. */
  lemma ReturnOutcome(toks: seq<Token>, i: nat)
    requires SemicolonFrom(toks, i)
    ensures var r := ParseReturnAt(toks, i);
      r.errors == [] && r.stmt == Some(ReturnStatement(TokenAt(toks, i), None)) &&
      r.stmt.value.TokenLiteral() == TokenAt(toks, i).literal &&
      TokenAt(toks, r.last).kind == Semicolon && i <= r.last &&
      (forall k :: i <= k < r.last ==> TokenAt(toks, k).kind != Semicolon)
  {
    SkipFindsFirstSemicolon(toks, i);
  }

  /**
   * The expression statement always returns a statement, which holds the token it began at;
   * it consumes a `;` exactly when the token after the expression is one.
   */
  lemma ExpressionStatementOutcome(toks: seq<Token>, i: nat)
    ensures var e := ParseExpressionAt(toks, i);
      var r := ParseExpressionStatementAt(toks, i);
      r.stmt.Some? && r.stmt.value.ExpressionStatement? && r.stmt.value.TokenLiteral() == TokenAt(toks, i).literal &&
      r.stmt.value.expression == e.expr && r.errors == e.errors &&
      (r.last == e.last + 1 <==> TokenAt(toks, e.last + 1).kind == Semicolon) &&
      (r.last == e.last <==> TokenAt(toks, e.last + 1).kind != Semicolon)
  {
  }

  /**
   * The composite literal of parseExpressionStatement reads the current token and calls
   * parseExpression, and Go leaves the order of the two unspecified. They read the same token
   * unless the statement starts with `!` or `-`: only then does parseExpression advance, and a
   * call made first would leave the statement holding the token at `last` instead.
   */
  lemma ExpressionStatementTokenOrder(toks: seq<Token>, i: nat)
    ensures var e := ParseExpressionAt(toks, i);
      (TokenAt(toks, i).kind !in {Bang, Minus} ==> e.last == i) &&
      (TokenAt(toks, i).kind in {Bang, Minus} ==> i < e.last)
  {
    ExpressionOutcome(toks, i);
  }

  /**
   * Every statement appends at most one error, and exactly one when it returns nothing; a
   * statement it returns has a token literal that is the current token's.
   */
  lemma StatementOutcome(toks: seq<Token>, i: nat)
    requires StatementHalts(toks, i)
    ensures var r := ParseStatementAt(toks, i);
      |r.errors| <= 1 && (r.stmt.None? ==> |r.errors| == 1) &&
      (r.stmt.Some? ==> r.stmt.value.TokenLiteral() == TokenAt(toks, i).literal)
  {
    var kind := TokenAt(toks, i).kind;
    if kind == Let {
      LetOutcome(toks, i);
    } else if kind != Return {
      ExpressionOutcome(toks, i);
    }
  }

  // ---------------------------------------------------------------------------------------
  // Programs

  /**
   * ParseProgram returns: every statement the loop meets from index i on returns, up to the
   * first EOF at the start of a round.
   */
  predicate ProgramHalts(toks: seq<Token>, i: nat)
    decreases |toks| - i
  {
    TokenAt(toks, i).kind == EOF ||
    (StatementHalts(toks, i) && ProgramHalts(toks, ParseStatementAt(toks, i).last + 1))
  }

  /** The statements and errors of the loop from index i on, and the index of the EOF it stops at. */
  datatype ProgramResult = ProgramResult(statements: seq<Statement>, errors: seq<ParseError>, end: nat)

  /**
   * ParseProgram's loop from the current token at i: a statement is kept only when the
   * statement parser returns one; each round then advances one more token.
   */
  function ParseProgramFrom(toks: seq<Token>, i: nat): (r: ProgramResult)
    requires ProgramHalts(toks, i)
    ensures i <= r.end
    decreases |toks| - i
  {
    if TokenAt(toks, i).kind == EOF then ProgramResult([], [], i)
    else
      var s := ParseStatementAt(toks, i);
      var rest := ParseProgramFrom(toks, s.last + 1);
      ProgramResult(Kept(s.stmt) + rest.statements, s.errors + rest.errors, rest.end)
  }

  lemma AppendAssociates<T>(a: seq<T>, b: seq<T>, c: seq<T>)
    ensures (a + b) + c == a + (b + c)
  {
  }

  /** What a round adds to the program: the statement, when the statement parser returned one. */
  function Kept(stmt: Option<Statement>): seq<Statement> {
    if stmt.Some? then [stmt.value] else []
  }

  /**
   * One round of the loop: when the program so far and the errors so far, followed by what
   * the loop yields from i, make up the whole, the same holds after the round, from the
   * index after the statement.
   */
  lemma RoundStep(toks: seq<Token>, i: nat, j: int, total: ProgramResult, errors0: seq<ParseError>,
                  before: seq<Statement>, after: seq<Statement>, errorsBefore: seq<ParseError>, errorsAfter: seq<ParseError>)
    requires ProgramHalts(toks, i) && TokenAt(toks, i).kind != EOF
    requires before + ParseProgramFrom(toks, i).statements == total.statements
    requires errorsBefore + ParseProgramFrom(toks, i).errors == errors0 + total.errors
    requires ParseProgramFrom(toks, i).end == total.end
    requires j == ParseStatementAt(toks, i).last + 1
    requires after == before + Kept(ParseStatementAt(toks, i).stmt)
    requires errorsAfter == errorsBefore + ParseStatementAt(toks, i).errors
    ensures 0 <= j && ProgramHalts(toks, j)
    ensures after + ParseProgramFrom(toks, j).statements == total.statements
    ensures errorsAfter + ParseProgramFrom(toks, j).errors == errors0 + total.errors
    ensures ParseProgramFrom(toks, j).end == total.end
  {
    var s := ParseStatementAt(toks, i);
    var rest := ParseProgramFrom(toks, j);
    AppendAssociates(before, Kept(s.stmt), rest.statements);
    AppendAssociates(errorsBefore, s.errors, rest.errors);
  }

  /** Whether a round of the loop starts at index j, when the loop starts at i. */
  predicate RoundStart(toks: seq<Token>, i: nat, j: nat)
    requires ProgramHalts(toks, i)
    decreases |toks| - i
  {
    TokenAt(toks, i).kind != EOF && (j == i || RoundStart(toks, ParseStatementAt(toks, i).last + 1, j))
  }

  /**
   * ParseProgram stops at an EOF, and exactly there, since no round starts at an EOF; the
   * rounds start at increasing indices before that point.
   */
  lemma {:induction false} ProgramStopsAtEOF(toks: seq<Token>, i: nat)
    requires ProgramHalts(toks, i)
    ensures var r := ParseProgramFrom(toks, i);
      TokenAt(toks, r.end).kind == EOF &&
      (forall j: nat :: RoundStart(toks, i, j) ==> i <= j < r.end && TokenAt(toks, j).kind != EOF)
    decreases |toks| - i
  {
    if TokenAt(toks, i).kind != EOF {
      var next := ParseStatementAt(toks, i).last + 1;
      ProgramStopsAtEOF(toks, next);
      assert ParseProgramFrom(toks, i).end == ParseProgramFrom(toks, next).end;
      forall j: nat | RoundStart(toks, i, j)
        ensures i <= j < ParseProgramFrom(toks, i).end && TokenAt(toks, j).kind != EOF
      {
        if j != i {
          assert RoundStart(toks, next, j);
        }
      }
    }
  }

  /**
   * Over the whole loop: no more statements than rounds, no more errors than rounds, and
   * statements and errors together at least as many as rounds. The per-round facts behind
   * these totals are StatementOutcome's.
   */
  lemma {:induction false} ProgramCounts(toks: seq<Token>, i: nat)
    requires ProgramHalts(toks, i)
    ensures var r := ParseProgramFrom(toks, i);
      |r.statements| + |r.errors| >= Rounds(toks, i) &&
      |r.statements| <= Rounds(toks, i) && |r.errors| <= Rounds(toks, i)
    decreases |toks| - i
  {
    if TokenAt(toks, i).kind != EOF {
      var s := ParseStatementAt(toks, i);
      var r, rest := ParseProgramFrom(toks, i), ParseProgramFrom(toks, s.last + 1);
      assert r.statements == Kept(s.stmt) + rest.statements && r.errors == s.errors + rest.errors;
      assert Rounds(toks, i) == 1 + Rounds(toks, s.last + 1);
      StatementOutcome(toks, i);
      assert |Kept(s.stmt)| <= 1 && |s.errors| <= 1 && |Kept(s.stmt)| + |s.errors| >= 1;
      ProgramCounts(toks, s.last + 1);
    }
  }

  /** The number of rounds the loop runs from index i. */
  function Rounds(toks: seq<Token>, i: nat): nat
    requires ProgramHalts(toks, i)
    decreases |toks| - i
  {
    if TokenAt(toks, i).kind == EOF then 0 else 1 + Rounds(toks, ParseStatementAt(toks, i).last + 1)
  }

  // ---------------------------------------------------------------------------------------
  // ParseProgram as written

  /**
   * The entries ParseProgram appends as the code is written: parseStatement returns the let
   * parser's *LetStatement through the Statement interface, so a nil pointer arrives as a
   * non-nil interface value and `stmt != nil` holds in every round. Each round appends its
   * result, None standing for the nil pointer.
   */
  function ProgramEntriesFrom(toks: seq<Token>, i: nat): (r: seq<Option<Statement>>)
    requires ProgramHalts(toks, i)
    ensures |r| == Rounds(toks, i)
    decreases |toks| - i
  {
    if TokenAt(toks, i).kind == EOF then []
    else
      var s := ParseStatementAt(toks, i);
      [s.stmt] + ProgramEntriesFrom(toks, s.last + 1)
  }

  /** The statements among the entries, in order. */
  function Present(entries: seq<Option<Statement>>): seq<Statement> {
    if |entries| == 0 then [] else Kept(entries[0]) + Present(entries[1..])
  }

  lemma {:induction false} PresentLength(entries: seq<Option<Statement>>)
    ensures |Present(entries)| <= |entries|
    ensures |Present(entries)| == |entries| <==> None !in entries
  {
    if |entries| > 0 {
      PresentLength(entries[1..]);
      assert entries == [entries[0]] + entries[1..];
    }
  }

  /**
   * The program as written holds one entry per round, and the corrected program is exactly
   * its non-nil entries. A nil entry is there exactly when some statement failed, and then an
   * error was reported, so a run without errors cannot tell the two apart.
   */
  lemma {:induction false} EntriesAndStatements(toks: seq<Token>, i: nat)
    requires ProgramHalts(toks, i)
    ensures var entries := ProgramEntriesFrom(toks, i);
      var r := ParseProgramFrom(toks, i);
      |entries| == Rounds(toks, i) && Present(entries) == r.statements &&
      (None in entries <==> |r.statements| < Rounds(toks, i)) &&
      (None in entries ==> r.errors != [])
    decreases |toks| - i
  {
    var entries := ProgramEntriesFrom(toks, i);
    if TokenAt(toks, i).kind != EOF {
      var s := ParseStatementAt(toks, i);
      var rest := ProgramEntriesFrom(toks, s.last + 1);
      EntriesAndStatements(toks, s.last + 1);
      assert entries[1..] == rest;
      if None in entries {
        if s.stmt.None? {
          StatementOutcome(toks, i);
        } else {
          assert None in rest;
        }
      }
    }
    PresentLength(entries);
  }
}
