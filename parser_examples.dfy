/**
 * The parser_test fixtures, stated over the tokens of each test's input (the token after the
 * last one listed is EOF, as TokenAt reads past the end). For `let x 5;` the tokens are also
 * derived from the bytes, through the lexer, and the fixture shows the nil entry that
 * ParseProgram as written keeps.
 */
module ParserExamples {
  import opened Wrappers
  import opened Token
  import opened Lexer
  import opened LexerProperties
  import opened Ast
  import opened ParserSpec

  // ---------------------------------------------------------------------------------------
  // Lexing `let x 5;`

  const LetMissingAssign: seq<Byte> := "let x 5;"

  lemma LexLetKeyword()
    ensures Lex(LetMissingAssign, 0) == (Token(Let, "let"), 3)
  {
    var s := LetMissingAssign;
    assert IdentifierEnd(s, 0) == 3;
    assert s[0..3] == "let";
  }

  lemma LexNameX()
    ensures Lex(LetMissingAssign, 3) == (Token(TokenType.Identifier, "x"), 5)
  {
    var s := LetMissingAssign;
    assert SkipWhitespaceFrom(s, 3) == 4;
    assert IdentifierEnd(s, 4) == 5;
    assert s[4..5] == "x";
  }

  lemma LexFive()
    ensures Lex(LetMissingAssign, 5) == (Token(Int, "5"), 7)
  {
    var s := LetMissingAssign;
    assert SkipWhitespaceFrom(s, 5) == 6;
    assert DigitEnd(s, 6) == 7;
    assert s[6..7] == "5";
  }

  lemma LexSemicolon()
    ensures Lex(LetMissingAssign, 7) == (Token(Semicolon, ";"), 8)
  {
  }

  /** The calls of NextToken over `let x 5;`: let, x, 5, ; and then the end of input. */
  lemma LetMissingAssignCalls(st: Stream)
    requires st == Stream(LetMissingAssign, 0)
    ensures st.At(0) == Token(Let, "let") && st.At(1) == Token(TokenType.Identifier, "x")
    ensures st.At(2) == Token(Int, "5") && st.At(3) == Token(Semicolon, ";")
    ensures st.Pos(4) == 8 == |st.input|
  {
    LexLetKeyword();
    PullStep(st, 0, Token(Let, "let"), 3);
    LexNameX();
    PullStep(st, 1, Token(TokenType.Identifier, "x"), 5);
    LexFive();
    PullStep(st, 2, Token(Int, "5"), 7);
    LexSemicolon();
    PullStep(st, 3, Token(Semicolon, ";"), 8);
  }

  // ---------------------------------------------------------------------------------------
  // "returns error in invalid let statement", and the nil entry

  const FiveStatement: Statement := ExpressionStatement(Token(Int, "5"), Some(IntegerLiteral(Token(Int, "5"), 5)))

  lemma FiveStatementAt(toks: seq<Token>, i: nat)
    requires TokenAt(toks, i) == Token(Int, "5") && TokenAt(toks, i + 1) == Token(Semicolon, ";")
    ensures ParseStatementAt(toks, i) == StmtResult(Some(FiveStatement), i + 1, [])
  {
    assert ParseInt64("5") == Some(5);
  }

  /** The loop's last round: the current token is EOF. */
  lemma ProgramEnds(toks: seq<Token>, i: nat)
    requires TokenAt(toks, i).kind == EOF
    ensures ProgramHalts(toks, i) && ParseProgramFrom(toks, i) == ProgramResult([], [], i)
    ensures ProgramEntriesFrom(toks, i) == []
  {
  }

  /** A round that returns is followed by a loop that returns: the loop from i returns. */
  lemma RoundHalts(toks: seq<Token>, i: nat, last: nat)
    requires TokenAt(toks, i).kind != EOF && StatementHalts(toks, i) && ParseStatementAt(toks, i).last == last
    requires ProgramHalts(toks, last + 1)
    ensures ProgramHalts(toks, i)
  {
  }

  /** One round of the loop, given the statement it parses and what the loop yields after it. */
  lemma ProgramRound(toks: seq<Token>, i: nat, stmt: Option<Statement>, last: nat, errors: seq<ParseError>, rest: ProgramResult)
    requires TokenAt(toks, i).kind != EOF && StatementHalts(toks, i)
    requires ParseStatementAt(toks, i).stmt == stmt && ParseStatementAt(toks, i).last == last
    requires ParseStatementAt(toks, i).errors == errors
    requires ProgramHalts(toks, last + 1) && ParseProgramFrom(toks, last + 1) == rest
    ensures ProgramHalts(toks, i)
    ensures ParseProgramFrom(toks, i) == ProgramResult(Kept(stmt) + rest.statements, errors + rest.errors, rest.end)
  {
    RoundHalts(toks, i, last);
    var s := ParseStatementAt(toks, i);
    assert s.stmt == stmt && s.last == last && s.errors == errors;
    var r := ParseProgramFrom(toks, i);
    assert r.statements == Kept(stmt) + rest.statements && r.errors == errors + rest.errors && r.end == rest.end;
  }

  /** The same round, as written: its result is appended whatever it is. */
  lemma EntriesRound(toks: seq<Token>, i: nat, stmt: Option<Statement>, last: nat, entries: seq<Option<Statement>>)
    requires TokenAt(toks, i).kind != EOF && StatementHalts(toks, i)
    requires ParseStatementAt(toks, i).stmt == stmt && ParseStatementAt(toks, i).last == last
    requires ProgramHalts(toks, last + 1) && ProgramEntriesFrom(toks, last + 1) == entries
    ensures ProgramHalts(toks, i) && ProgramEntriesFrom(toks, i) == [stmt] + entries
  {
    RoundHalts(toks, i, last);
    var s := ParseStatementAt(toks, i);
    assert s.stmt == stmt && s.last == last;
  }

  /** `let IDENT` followed by an Int: the let parser gives up on the identifier, missing its `=`. */
  lemma MissingAssignAt(toks: seq<Token>, i: nat)
    requires TokenAt(toks, i).kind == Let && TokenAt(toks, i + 1).kind == TokenType.Identifier
    requires TokenAt(toks, i + 2).kind == Int
    ensures StatementHalts(toks, i)
    ensures ParseStatementAt(toks, i) == StmtResult(None, i + 1, [PeekError(Assign, Int)])
  {
  }

  /** Whether toks starts with the tokens of `let x 5;`, followed by EOF. */
  predicate LetMissingAssignPrefix(toks: seq<Token>) {
    TokenAt(toks, 0) == Token(Let, "let") && TokenAt(toks, 1) == Token(TokenType.Identifier, "x") &&
    TokenAt(toks, 2) == Token(Int, "5") && TokenAt(toks, 3) == Token(Semicolon, ";") &&
    TokenAt(toks, 4).kind == EOF
  }

  /** From the `5`, the loop parses one statement and stops at the EOF after the `;`. */
  lemma FiveThenEOF(toks: seq<Token>)
    requires LetMissingAssignPrefix(toks)
    ensures ProgramHalts(toks, 2) && ParseProgramFrom(toks, 2) == ProgramResult([FiveStatement], [], 4)
  {
    ProgramEnds(toks, 4);
    FiveStatementAt(toks, 2);
    ProgramRound(toks, 2, Some(FiveStatement), 3, [], ProgramResult([], [], 4));
  }

  /** The same, as written: one entry, the `5;` statement. */
  lemma FiveThenEOFEntries(toks: seq<Token>)
    requires LetMissingAssignPrefix(toks)
    ensures ProgramHalts(toks, 2) && ProgramEntriesFrom(toks, 2) == [Some(FiveStatement)]
  {
    ProgramEnds(toks, 4);
    FiveStatementAt(toks, 2);
    EntriesRound(toks, 2, Some(FiveStatement), 3, []);
  }

  /**
   * `let x 5;` reports exactly one error, the missing `=`. The let parser gives up on the
   * `x`, so the `5;` after it parses as an expression statement of its own.
   */
  lemma LetMissingAssignFixture(toks: seq<Token>)
    requires LetMissingAssignPrefix(toks)
    ensures ProgramHalts(toks, 0)
    ensures ParseProgramFrom(toks, 0) == ProgramResult([FiveStatement], [PeekError(Assign, Int)], 4)
  {
    FiveThenEOF(toks);
    MissingAssignAt(toks, 0);
    ProgramRound(toks, 0, None, 1, [PeekError(Assign, Int)], ProgramResult([FiveStatement], [], 4));
  }

  /**
   * As written, ParseProgram keeps the let parser's nil result for `let x 5;`: the program
   * holds a nil entry before the `5;` statement, where the corrected one holds only the latter.
   */
  lemma TypedNilFixture(toks: seq<Token>)
    requires LetMissingAssignPrefix(toks)
    ensures ProgramHalts(toks, 0) && ProgramEntriesFrom(toks, 0) == [None, Some(FiveStatement)]
  {
    FiveThenEOFEntries(toks);
    MissingAssignAt(toks, 0);
    EntriesRound(toks, 0, None, 1, [Some(FiveStatement)]);
  }

  /** The lexer's tokens for `let x 5;` are such a sequence. */
  lemma LetMissingAssignLexes()
    ensures LetMissingAssignPrefix(Tokens(Stream(LetMissingAssign, 0)))
  {
    var st := Stream(LetMissingAssign, 0);
    LetMissingAssignCalls(st);
    EOFForever(st, 4, 4);
    TokensAgree(st, 0);
    TokensAgree(st, 1);
    TokensAgree(st, 2);
    TokensAgree(st, 3);
    TokensAgree(st, 4);
  }

  // ---------------------------------------------------------------------------------------
  // The other parser_test cases, one statement at a time, wherever their tokens occur

  /**
   * "let statement": `let NAME = INT;` is a let statement holding the `let` token and the
   * name, whose value and token literal are both NAME, with no value, no error, and the
   * current token left on the `;`.
   */
  lemma LetFixture(toks: seq<Token>, i: nat, name: string)
    requires TokenAt(toks, i) == Token(Let, "let") && TokenAt(toks, i + 1) == Token(TokenType.Identifier, name)
    requires TokenAt(toks, i + 2).kind == Assign && TokenAt(toks, i + 3).kind == Int
    requires TokenAt(toks, i + 4).kind == Semicolon
    ensures StatementHalts(toks, i)
    ensures var r := ParseStatementAt(toks, i);
      r == StmtResult(Some(LetStatement(Token(Let, "let"), Ast.Identifier(Token(TokenType.Identifier, name), name), None)), i + 4, []) &&
      r.stmt.value.TokenLiteral() == "let" && r.stmt.value.name.value == name && r.stmt.value.name.TokenLiteral() == name
  {
    assert SemicolonFrom(toks, i + 4);
    assert SkipToSemicolon(toks, i + 3) == i + 4;
    assert SkipToSemicolon(toks, i + 2) == i + 4;
    var r := ParseStatementAt(toks, i);
    assert r.stmt == Some(LetStatement(Token(Let, "let"), Ast.Identifier(Token(TokenType.Identifier, name), name), None));
    assert r.last == i + 4 && r.errors == [];
  }

  /** An identifier token: an expression statement of that identifier, over a `;` if one follows. */
  lemma IdentifierStatementAt(toks: seq<Token>, i: nat, name: string)
    requires TokenAt(toks, i) == Token(TokenType.Identifier, name)
    ensures var tok := Token(TokenType.Identifier, name);
      ParseStatementAt(toks, i) == StmtResult(Some(ExpressionStatement(tok, Some(Ident(Ast.Identifier(tok, name))))),
        if TokenAt(toks, i + 1).kind == Semicolon then i + 1 else i, [])
  {
    var tok := Token(TokenType.Identifier, name);
    var e := ParseExpressionAt(toks, i);
    assert e.expr == Some(Ident(Ast.Identifier(tok, name))) && e.last == i && e.errors == [];
    var r := ParseStatementAt(toks, i);
    assert r.stmt == Some(ExpressionStatement(tok, e.expr)) && r.errors == [];
  }

  /** "identifier expression": `foobar;` is an expression statement of the identifier foobar. */
  lemma IdentifierFixture(toks: seq<Token>, i: nat)
    requires TokenAt(toks, i) == Token(TokenType.Identifier, "foobar") && TokenAt(toks, i + 1).kind == Semicolon
    ensures var foobar := Token(TokenType.Identifier, "foobar");
      ParseStatementAt(toks, i) ==
        StmtResult(Some(ExpressionStatement(foobar, Some(Ident(Ast.Identifier(foobar, "foobar"))))), i + 1, [])
  {
    IdentifierStatementAt(toks, i, "foobar");
  }

  /** A `!` or `-` token, an Int token with a valid literal and a `;`: one prefix statement. */
  lemma PrefixAt(toks: seq<Token>, i: nat, op: Token, digits: string, v: int)
    requires op.kind == Bang || op.kind == Minus
    requires TokenAt(toks, i) == op && TokenAt(toks, i + 1) == Token(Int, digits) && ParseInt64(digits) == Some(v)
    requires TokenAt(toks, i + 2).kind == Semicolon
    ensures ParseStatementAt(toks, i) == StmtResult(Some(ExpressionStatement(op,
      Some(PrefixExpression(op, op.literal, Some(IntegerLiteral(Token(Int, digits), v)))))), i + 2, [])
  {
    var operand := ParseExpressionAt(toks, i + 1);
    assert operand.expr == Some(IntegerLiteral(Token(Int, digits), v)) && operand.last == i + 1 && operand.errors == [];
    var e := ParseExpressionAt(toks, i);
    assert e.expr == Some(PrefixExpression(op, op.literal, operand.expr)) && e.last == i + 1 && e.errors == [];
    var r := ParseStatementAt(toks, i);
    assert r.stmt == Some(ExpressionStatement(op, e.expr)) && r.last == i + 2 && r.errors == [];
  }

  /**
   * "prefix operators": `-15;` and `!9;` are expression statements of a prefix node whose
   * operator is the `-` or `!` and whose operand is the integer literal.
   */
  lemma PrefixFixtures(toks: seq<Token>, i: nat)
    requires TokenAt(toks, i + 2).kind == Semicolon
    ensures TokenAt(toks, i) == Token(Minus, "-") && TokenAt(toks, i + 1) == Token(Int, "15") ==>
      ParseStatementAt(toks, i) == StmtResult(Some(ExpressionStatement(Token(Minus, "-"),
        Some(PrefixExpression(Token(Minus, "-"), "-", Some(IntegerLiteral(Token(Int, "15"), 15)))))), i + 2, [])
    ensures TokenAt(toks, i) == Token(Bang, "!") && TokenAt(toks, i + 1) == Token(Int, "9") ==>
      ParseStatementAt(toks, i) == StmtResult(Some(ExpressionStatement(Token(Bang, "!"),
        Some(PrefixExpression(Token(Bang, "!"), "!", Some(IntegerLiteral(Token(Int, "9"), 9)))))), i + 2, [])
  {
    ParseInt64Fixtures();
    if TokenAt(toks, i) == Token(Minus, "-") && TokenAt(toks, i + 1) == Token(Int, "15") {
      PrefixAt(toks, i, Token(Minus, "-"), "15", 15);
    }
    if TokenAt(toks, i) == Token(Bang, "!") && TokenAt(toks, i + 1) == Token(Int, "9") {
      PrefixAt(toks, i, Token(Bang, "!"), "9", 9);
    }
  }

  /**
   * "boolean literal expression": `true` and `false` are not keywords, so `true;` parses as
   * an identifier, not a boolean literal.
   */
  lemma BooleanWordFixture(toks: seq<Token>, i: nat, word: string)
    requires word == "true" || word == "false"
    requires TokenAt(toks, i) == Token(LookupIdentifier(word), word) && TokenAt(toks, i + 1).kind == Semicolon
    ensures var tok := Token(TokenType.Identifier, word);
      ParseStatementAt(toks, i) == StmtResult(Some(ExpressionStatement(tok, Some(Ident(Ast.Identifier(tok, word))))), i + 1, [])
  {
    UnlistedWordsAreIdentifiers();
    IdentifierStatementAt(toks, i, word);
  }

  /** A token kind with no prefix handler: a statement with no expression and one error. */
  lemma NoPrefixStatementAt(toks: seq<Token>, i: nat)
    requires TokenAt(toks, i).kind !in {Let, Return, TokenType.Identifier, Int, Bang, Minus, Semicolon}
    requires TokenAt(toks, i + 1).kind != Semicolon
    ensures var tok := TokenAt(toks, i);
      ParseStatementAt(toks, i) == StmtResult(Some(ExpressionStatement(tok, None)), i, [NoPrefix(tok.kind)])
  {
    var e := ParseExpressionAt(toks, i);
    assert e.expr == None && e.last == i && e.errors == [NoPrefix(TokenAt(toks, i).kind)];
    var r := ParseStatementAt(toks, i);
    assert r.stmt == Some(ExpressionStatement(TokenAt(toks, i), None)) && r.last == i && r.errors == e.errors;
  }

  /**
   * "return statement": `return` is not a keyword either, so `return 12 + 5;` starts with an
   * expression statement of the identifier `return`, which leaves the `12` for the next
   * round; and `+` has no prefix handler, so the round at the `+` reports that.
   */
  lemma ReturnWordFixture(toks: seq<Token>, i: nat)
    requires TokenAt(toks, i) == Token(LookupIdentifier("return"), "return") && TokenAt(toks, i + 1).kind == Int
    requires TokenAt(toks, i + 2) == Token(Plus, "+") && TokenAt(toks, i + 3).kind == Int
    ensures var tok := Token(TokenType.Identifier, "return");
      ParseStatementAt(toks, i) == StmtResult(Some(ExpressionStatement(tok, Some(Ident(Ast.Identifier(tok, "return"))))), i, [])
    ensures ParseStatementAt(toks, i + 2) == StmtResult(Some(ExpressionStatement(Token(Plus, "+"), None)), i + 2, [NoPrefix(Plus)])
  {
    UnlistedWordsAreIdentifiers();
    IdentifierStatementAt(toks, i, "return");
    NoPrefixStatementAt(toks, i + 2);
  }
}
