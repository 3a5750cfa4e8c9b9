/**
 * The parser object (parser/parser.go): a two-token window over a live lexer, the prefix
 * handler table and the error list, all updated in place. Every method is proved to do what
 * the reference function of ParserSpec says, from the index of the current token in the
 * lexer's token sequence.
 */
module Parser {
  import opened Wrappers
  import opened Token
  import opened Lexer
  import opened LexerProperties
  import opened Ast
  import opened Precedence
  import opened ParserSpec

  class Parser {
    const lexer: Lexer
    /** The tokens the lexer yields from where its cursor stood when the parser was made. */
    ghost const source: Stream
    ghost const toks: seq<Token>

    var currToken: Token
    var peekToken: Token
    var prefixParseFns: map<TokenType, PrefixFn>
    var errors: seq<ParseError>

    /** The index of currToken in toks; it starts at -2, before the constructor's two pulls. */
    ghost var idx: int

    /**
     * The window tracks the lexer: the lexer's cursor is where the stream's (idx + 2)-th call
     * starts, toks lists the stream's tokens, and both tokens of the window are the stream's
     * at idx and idx + 1. The two stream facts are stated per position, so that they are
     * only looked at where a stream position is.
     */
    ghost predicate Pulling()
      reads this, lexer
    {
      lexer.Valid() && lexer.input == source.input && -2 <= idx &&
      (forall n: nat {:trigger source.Pos(n)} :: n == idx + 2 ==> lexer.pos == source.Pos(n)) &&
      (forall k: nat {:trigger source.At(k)} :: TokenAt(toks, k) == source.At(k)) &&
      (0 <= idx + 1 ==> peekToken == TokenAt(toks, idx + 1)) &&
      (0 <= idx ==> currToken == TokenAt(toks, idx))
    }

    /** A constructed parser: the window is full and the handler table is the registered one. */
    ghost predicate Valid()
      reads this, lexer
    {
      Pulling() && 0 <= idx && prefixParseFns == PrefixHandlers
    }

    /**
     * NewParser: registers the four prefix handlers and pulls two tokens, so the window holds
     * the lexer's first two tokens and there are no errors.
     */
    constructor (l: Lexer)
      requires l.Valid()
      modifies l
      ensures lexer == l && source == Stream(l.input, old(l.pos)) && toks == Tokens(source)
      ensures Valid() && idx == 0 && errors == []
      ensures currToken == source.At(0) && peekToken == source.At(1)
    {
      lexer := l;
      source := Stream(l.input, l.pos);
      toks := Tokens(Stream(l.input, l.pos));
      currToken := Token(Illegal, "");
      peekToken := Token(Illegal, "");
      prefixParseFns := map[];
      errors := [];
      idx := -2;
      new;
      forall k: nat
        ensures TokenAt(toks, k) == source.At(k)
      {
        TokensAgree(source, k);
      }
      RegisterPrefixParseFn(TokenType.Identifier, ParseIdentifierFn);
      RegisterPrefixParseFn(Int, ParseIntegerFn);
      RegisterPrefixParseFn(Bang, ParsePrefixFn);
      RegisterPrefixParseFn(Minus, ParsePrefixFn);
      NextToken();
      NextToken();
      assert TokenAt(toks, 0) == source.At(0) && TokenAt(toks, 1) == source.At(1);
    }

    method RegisterPrefixParseFn(kind: TokenType, fn: PrefixFn)
      modifies this
      ensures prefixParseFns == old(prefixParseFns)[kind := fn]
      ensures currToken == old(currToken) && peekToken == old(peekToken)
      ensures errors == old(errors) && idx == old(idx)
    {
      prefixParseFns := prefixParseFns[kind := fn];
    }

    /**
     * nextToken: peek moves into curr and exactly one token is pulled from the lexer; the
     * lexer's error result, always absent, is dropped.
     */
    method NextToken()
      requires Pulling()
      modifies this, lexer
      ensures Pulling() && idx == old(idx) + 1
      ensures currToken == old(peekToken)
      ensures errors == old(errors) && prefixParseFns == old(prefixParseFns)
    {
      ghost var k: nat := idx + 2;
      assert lexer.pos == source.Pos(k);
      currToken := peekToken;
      var peek, _ := lexer.NextToken();
      PullStep(source, k, peek, lexer.pos);
      peekToken := peek;
      idx := idx + 1;
      assert idx + 1 == k && idx + 2 == k + 1;
    }

    predicate CurrTokenIs(kind: TokenType)
      reads this
    {
      currToken.kind == kind
    }

    predicate PeekTokenIs(kind: TokenType)
      reads this
    {
      peekToken.kind == kind
    }

    function Errors(): seq<ParseError>
      reads this
    {
      errors
    }

    /** The level of the peek token's kind in the operator table, Lowest when unlisted. */
    function PeekPrecedence(): (p: Level)
      reads this
      ensures Lowest <= p < Prefix
      ensures p == Lowest <==> peekToken.kind !in Precedences
    {
      PrecedenceOf(peekToken.kind)
    }

    /** The level of the current token's kind in the operator table, Lowest when unlisted. */
    function CurrPrecedence(): (p: Level)
      reads this
      ensures Lowest <= p < Prefix
      ensures p == Lowest <==> currToken.kind !in Precedences
    {
      PrecedenceOf(currToken.kind)
    }

    /** peekError: appends one error naming the expected kind and the peek token's kind. */
    method PeekError(kind: TokenType)
      modifies this
      ensures errors == old(errors) + [ParseError.PeekError(kind, peekToken.kind)]
      ensures currToken == old(currToken) && peekToken == old(peekToken)
      ensures prefixParseFns == old(prefixParseFns) && idx == old(idx)
    {
      errors := errors + [ParseError.PeekError(kind, peekToken.kind)];
    }

    /** noPrefixParseFnError: appends one error naming the kind. */
    method NoPrefixParseFnError(kind: TokenType)
      modifies this
      ensures errors == old(errors) + [NoPrefix(kind)]
      ensures currToken == old(currToken) && peekToken == old(peekToken)
      ensures prefixParseFns == old(prefixParseFns) && idx == old(idx)
    {
      errors := errors + [NoPrefix(kind)];
    }

    /**
     * expectPeek: on a match it advances once and leaves the errors alone; otherwise it
     * appends exactly one error and leaves the window where it was.
     */
    method ExpectPeek(kind: TokenType) returns (ok: bool)
      requires Valid()
      modifies this, lexer
      ensures Valid()
      ensures ok <==> old(peekToken).kind == kind
      ensures ok ==> idx == old(idx) + 1 && errors == old(errors)
      ensures !ok ==> (idx == old(idx) && currToken == old(currToken) && peekToken == old(peekToken) &&
        errors == old(errors) + [ParseError.PeekError(kind, old(peekToken).kind)])
    {
      if PeekTokenIs(kind) {
        NextToken();
        return true;
      } else {
        PeekError(kind);
        return false;
      }
    }

    /** parseIdentifier: an identifier for the current token, named by its literal. */
    method ParseIdentifier() returns (e: Expression)
      requires Valid()
      ensures e.Ident? && e.ident.token == currToken && e.String() == e.TokenLiteral() == currToken.literal
      ensures PrefixParseFns(currToken.kind) == Some(ParseIdentifierFn) ==>
        ParseExpressionAt(toks, idx) == ExprResult(Some(e), idx, [])
    {
      e := Ident(Ast.Identifier(currToken, currToken.literal));
    }

    /** parseIntLiteral: the literal's value, or one error and nothing when it does not parse. */
    method ParseIntLiteral() returns (e: Option<Expression>)
      requires Valid()
      modifies this
      ensures Valid() && idx == old(idx) && currToken == old(currToken) && peekToken == old(peekToken)
      ensures ParseInt64(currToken.literal).Some? ==>
        e == Some(IntegerLiteral(currToken, ParseInt64(currToken.literal).value)) && errors == old(errors)
      ensures ParseInt64(currToken.literal).None? ==>
        e == None && errors == old(errors) + [BadInt(currToken.literal)]
    {
      var literal := currToken.literal;
      var value := ParseInt64(literal);
      if value.None? {
        errors := errors + [BadInt(literal)];
        return None;
      }
      return Some(IntegerLiteral(currToken, value.value));
    }

    /**
     * parseExpression: applies the current token's prefix handler, or appends one error when
     * it has none. The precedence is not consulted.
     */
    method ParseExpression(precedence: Level) returns (e: Option<Expression>)
      requires Valid()
      modifies this, lexer
      ensures Valid()
      ensures var r := ParseExpressionAt(toks, old(idx));
        e == r.expr && idx == r.last && errors == old(errors) + r.errors
      decreases |toks| - idx, 1
    {
      HandlerLookup(currToken.kind);
      if currToken.kind !in prefixParseFns {
        NoPrefixParseFnError(currToken.kind);
        return None;
      }
      match prefixParseFns[currToken.kind]
      case ParseIdentifierFn =>
        var ident := ParseIdentifier();
        e := Some(ident);
      case ParseIntegerFn =>
        e := ParseIntLiteral();
      case ParsePrefixFn =>
        assert idx < |toks|;
        e := ParsePrefixExpression();
    }

    /**
     * parsePrefixExpression, the handler registered for `!` and `-`: records the operator,
     * advances one token and parses exactly one operand.
     */
    method ParsePrefixExpression() returns (e: Option<Expression>)
      requires Valid() && PrefixParseFns(currToken.kind) == Some(ParsePrefixFn)
      modifies this, lexer
      ensures Valid()
      ensures var r := ParseExpressionAt(toks, old(idx));
        e == r.expr && idx == r.last && errors == old(errors) + r.errors
      ensures e.Some? && e.value.PrefixExpression? && e.value.operator == old(currToken).literal
      decreases |toks| - idx, 0
    {
      assert idx < |toks|;
      var token := currToken;
      NextToken();
      var right := ParseExpression(Prefix);
      e := Some(PrefixExpression(token, token.literal, right));
    }

    /**
     * parseLetStatement: a statement only for `let IDENT =`, left on the first `;` after it;
     * otherwise nothing, with the one error expectPeek appended.
     */
    method ParseLetStatement() returns (s: Option<Statement>)
      requires Valid() && LetHalts(toks, idx)
      modifies this, lexer
      ensures Valid()
      ensures var r := ParseLetAt(toks, old(idx));
        s == r.stmt && idx == r.last && errors == old(errors) + r.errors
    {
      var token := currToken;
      var ok := ExpectPeek(TokenType.Identifier);
      if !ok {
        return None;
      }
      var name := Ast.Identifier(currToken, currToken.literal);
      ok := ExpectPeek(Assign);
      if !ok {
        return None;
      }
      ghost var start := idx;
      while !CurrTokenIs(Semicolon)
        invariant Valid() && start <= idx && SemicolonFrom(toks, idx)
        invariant SkipToSemicolon(toks, idx) == SkipToSemicolon(toks, start)
        invariant errors == old(errors)
        decreases |toks| - idx
      {
        NextToken();
      }
      return Some(LetStatement(token, name, None));
    }

    /** parseReturnStatement: a statement holding the `return` token, left on the first `;`. */
    method ParseReturnStatement() returns (s: Statement)
      requires Valid() && SemicolonFrom(toks, idx)
      modifies this, lexer
      ensures Valid()
      ensures var r := ParseReturnAt(toks, old(idx));
        Some(s) == r.stmt && idx == r.last && errors == old(errors) + r.errors
    {
      s := ReturnStatement(currToken, None);
      ghost var start := idx;
      while !CurrTokenIs(Semicolon)
        invariant Valid() && start <= idx && SemicolonFrom(toks, idx)
        invariant SkipToSemicolon(toks, idx) == SkipToSemicolon(toks, start)
        invariant errors == old(errors)
        decreases |toks| - idx
      {
        NextToken();
      }
    }

    /** parseExpressionStatement: the expression, then a `;` only if the peek token is one. */
    method ParseExpressionStatement() returns (s: Statement)
      requires Valid()
      modifies this, lexer
      ensures Valid()
      ensures var r := ParseExpressionStatementAt(toks, old(idx));
        Some(s) == r.stmt && idx == r.last && errors == old(errors) + r.errors
    {
      ghost var e := ParseExpressionAt(toks, idx);
      var token := currToken;
      var expression := ParseExpression(Lowest);
      s := ExpressionStatement(token, expression);
      assert idx == e.last;
      if PeekTokenIs(Semicolon) {
        NextToken();
      }
    }

    /** parseStatement: dispatch on the current token's kind. */
    method ParseStatement() returns (s: Option<Statement>)
      requires Valid() && StatementHalts(toks, idx)
      modifies this, lexer
      ensures Valid()
      ensures var r := ParseStatementAt(toks, old(idx));
        s == r.stmt && idx == r.last && errors == old(errors) + r.errors
    {
      if currToken.kind == Let {
        s := ParseLetStatement();
      } else if currToken.kind == Return {
        var r := ParseReturnStatement();
        s := Some(r);
      } else {
        var r := ParseExpressionStatement();
        s := Some(r);
      }
    }

    /**
     * ParseProgram: parses statements until the current token is EOF, keeping each statement
     * the statement parser returns and advancing one token after each; errors only accumulate.
     * This is the corrected loop: a failed statement is dropped, where the code as written
     * appends it as a nil entry (`ProgramEntriesFrom`). The statements kept are exactly the
     * non-nil entries of the loop as written.
     */
    method ParseProgram() returns (prog: Program)
      requires Valid() && ProgramHalts(toks, idx)
      modifies this, lexer
      ensures Valid()
      ensures var r := ParseProgramFrom(toks, old(idx));
        prog.statements == r.statements && errors == old(errors) + r.errors && idx == r.end
      ensures prog.statements == Present(ProgramEntriesFrom(toks, old(idx)))
    {
      prog := NewProgram();
      EntriesAndStatements(toks, idx);
      ghost var total := ParseProgramFrom(toks, idx);
      ghost var errorsAtStart := errors;
      while !CurrTokenIs(EOF)
        invariant Valid() && ProgramHalts(toks, idx)
        invariant prog.statements + ParseProgramFrom(toks, idx).statements == total.statements
        invariant errors + ParseProgramFrom(toks, idx).errors == errorsAtStart + total.errors
        invariant ParseProgramFrom(toks, idx).end == total.end
        decreases |toks| - idx
      {
        ghost var i, before, errorsBefore := idx, prog.statements, errors;
        var stmt := ParseStatement();
        if stmt.Some? {
          prog := Program(prog.statements + [stmt.value]);
        } else {
          assert before + Kept(stmt) == before;
        }
        NextToken();
        RoundStep(toks, i, idx, total, errorsAtStart, before, prog.statements, errorsBefore, errors);
      }
    }
  }
}
