# Monkey front end in Dafny

A model of the front end of the "Monkey" interpreter (fabiante/monkeylang), with proofs about it:
- the token table;
- the byte-level lexer;
- the syntax-tree nodes and their renderings;
- the operator precedence table;
- the partial Pratt parser.

Files, one module each:

| file | module | models |
|---|---|---|
| `wrappers.dfy` | `Wrappers` | `Option`, which stands for Go's nil pointers and absent map entries |
| `token.dfy` | `Token` | token/token.go: the token kinds, the token value and the keyword lookup |
| `lexer.dfy` | `Lexer` | lexer/lexer.go. `Lex` describes one `NextToken` call as a function. `Stream` is the token sequence a lexer yields. The class `Lexer` is the Go struct, with `pos`, `nextPos` and `ch` updated in place and its loops proved against `Lex`. |
| `lexer_properties.dfy` | `LexerProperties` | what `NextToken` promises: two-byte operators, maximal runs, EOF for ever, one token per punctuation byte, and the stream the parser walks |
| `ast.dfy` | `Ast` | the ast package: expressions and statements as datatypes, each with `TokenLiteral` and `String` |
| `ast_properties.dfy` | `AstProperties` | how renderings are built, and the two rendering tests |
| `precedence.dfy` | `Precedence` | parser/precedence.go: the levels and the operator table |
| `parser_spec.dfy` | `ParserSpec` | parser/parser.go as reference functions. Each takes the index of the current token in the lexer's token sequence and returns what the Go method builds, the index it leaves the current token at, and the errors it appends. |
| `parser.dfy` | `Parser` | parser/parser.go. The class `Parser` keeps a live `Lexer`, the `currToken`/`peekToken` window, the prefix handler table and the error list, all updated in place. Every method is proved to agree with its reference function. |
| `parser_examples.dfy` | `ParserExamples` | the parser_test cases the code as written can meet, as lemmas |

Modelling choices:
- Bytes are `Byte`, a `char` below 256, so literals are plain strings. The byte 0 is the end-of-input marker `NUL`, as in the Go cursor.
- `Stream(input, origin)` gives `Pos(k)` and `At(k)`: the cursor before, and the token returned by, the (k+1)-th `NextToken` call. `Tokens(st)` is the first `|input|` of these tokens. Reading past its end gives EOF, which is what the lexer returns from then on (`TokensAgree`).
- The parser keeps a ghost index `idx` of `currToken` in that sequence. Its invariant `Pulling` ties the lexer's cursor to `Pos(idx + 2)` and both window tokens to the sequence.
- The handler table is a map from kind to a handler tag (`ParseIdentifierFn`, `ParseIntegerFn`, `ParsePrefixFn`), not a map of closures.
- Errors are values (`PeekError(expected, got)`, `NoPrefix(kind)`, `BadInt(literal)`). Their order and count are modelled; their message text is not.
- `strconv.ParseInt(literal, 0, 64)` on an Int literal becomes `ParseInt64`:
  - a leading `0` makes the rest octal;
  - any other literal is decimal;
  - a value above 2^63-1 fails.
- The let and return parsers skip to the next `;` and loop for ever when none remains, because the lexer then returns EOF for ever (`SkipLoopNeedsSemicolon`). Their methods therefore require that a `;` remains (`SemicolonFrom`). `ParseProgram` requires `ProgramHalts`, which holds exactly when every round of its loop returns.

Where the code and its tests disagree, the model follows the code:
- token/token.go declares only fourteen kinds. The lexer and parser also use EQ, NEQ, Minus, Bang, Asterisk, Slash, LT, GT and Return; the model declares them too.
- The keyword table holds only `let` and `fn`. So `true`, `false`, `if`, `else` and `return` lex as identifiers, as `UnlistedWordsAreIdentifiers` states. The lexer test that expects them as keywords, and the parser tests for `return 12 + 5;` and `true;false;`, describe behaviour the code does not have. `ReturnWordFixture` and `BooleanWordFixture` state what the code does with those inputs.
- `parseExpression` applies the current token's prefix handler and nothing else. No infix handler is ever registered and the precedence argument is unused. So the infix and operator-precedence tests of parser/parser_test.go:156-285 cannot be met, and no InfixExpression or BooleanLiteral is ever built (`Parsed`, `ExpressionOutcome`).
- `InfixExpression.String` writes the operator with no spaces around it, and the model does the same.

`CurrTokenIs`, `PeekTokenIs` and `Errors` read a field and nothing else, so they carry no contract. `IsLetter`, `IsDigit`, `SingleByteKind` and `NewToken` are the byte classes and the token constructor that `Lex` is built from.

## Model

| member | source | states |
|---|---|---|
| Token.LookupIdentifier | token/token.go:29-39 | the lookup gives Let exactly for "let", Func exactly for "fn", and Identifier for every other literal |
| Token.LookupIdentifierKinds | token/token.go:34-39 | the lookup never yields Illegal, EOF, Int, Return or an operator or punctuation kind |
| Token.UnlistedWordsAreIdentifiers | token/token.go:29-32 | "true", "false", "if", "else" and "return" are not keywords: they are Identifier |
| Lexer.SkipWhitespaceFrom | lexer/lexer.go:104-110 | whitespace skipping stops at the first byte at or after the cursor that is not space, tab, LF or CR, never past the end of input |
| Lexer.IdentifierEnd | lexer/lexer.go:131-138 | the identifier scan stops at the first byte that is not a letter or underscore, within the input |
| Lexer.DigitEnd | lexer/lexer.go:140-146 | the digit scan stops at the first byte that is not a digit, within the input |
| Lexer.WhitespaceRun | lexer/lexer.go:104-110 | every byte the whitespace skip passes over is whitespace |
| Lexer.LetterRun | lexer/lexer.go:131-138 | every byte the identifier scan passes over is a letter or underscore |
| Lexer.DigitRun | lexer/lexer.go:140-146 | every byte the digit scan passes over is a digit |
| Lexer.Lex | lexer/lexer.go:27-95 | every NextToken call moves the cursor forward, and a token other than EOF ends within the input |
| Lexer.LexLiteral | lexer/lexer.go:27-95 | a non-EOF token's literal is exactly the bytes the call consumed after the whitespace; EOF, with literal "", comes exactly when the cursor sees byte 0; an Int literal is a digit string |
| Lexer.Stream.Pos | lexer/lexer.go:27-95 | after k calls the cursor has moved at least k bytes |
| Lexer.PosStep | lexer/lexer.go:27-95 | each NextToken call starts where the previous one stopped |
| Lexer.Lexer.constructor | lexer/lexer.go:21-25 | NewLexer leaves the cursor at position 0 with the cursor invariant: `nextPos == pos + 1` and `ch` is the byte at `pos`, or 0 past the end |
| Lexer.Lexer.ReadChar | lexer/lexer.go:112-121 | readChar moves the cursor to the old `nextPos`, reads the byte there or 0 past the end, and re-establishes the cursor invariant |
| Lexer.Lexer.PeekChar | lexer/lexer.go:123-129 | peekChar returns the byte at `nextPos`, or 0 past the end, without moving the cursor |
| Lexer.Lexer.SkipWhitespace | lexer/lexer.go:104-110 | the loop stops where SkipWhitespaceFrom says, keeping the cursor invariant |
| Lexer.Lexer.ReadIdentifier | lexer/lexer.go:131-138 | the loop stops at IdentifierEnd and returns exactly the bytes it passed |
| Lexer.Lexer.ReadDigit | lexer/lexer.go:140-146 | the loop stops at DigitEnd and returns exactly the bytes it passed |
| Lexer.Lexer.NextToken | lexer/lexer.go:27-95 | the token returned and the new cursor are those of Lex from the old cursor; the error result is always absent |
| LexerProperties.TwoByteOperators | lexer/lexer.go:35-54 | `==` and `!=` are single EQ/NEQ tokens consuming two bytes; `=` and `!` followed by anything else are Assign/Bang consuming one |
| LexerProperties.NoWhitespaceInLiterals | lexer/lexer.go:27-95 | no token literal contains whitespace |
| LexerProperties.IdentifierIsMaximalRun | lexer/lexer.go:79-82 | an identifier or keyword token is a non-empty run of letters, the byte after it is no letter, and its kind is the keyword lookup of its literal |
| LexerProperties.IntIsMaximalRun | lexer/lexer.go:83-86 | an Int token is a maximal run of digits, exactly the bytes consumed |
| LexerProperties.IllegalIsOneByte | lexer/lexer.go:87-89 | a byte that starts no token becomes an Illegal token of just that byte, and the cursor moves past it |
| LexerProperties.EOFAtEnd | lexer/lexer.go:75-77 | at or past the end of input a call yields EOF with literal "" |
| LexerProperties.EOFForever | lexer/lexer.go:112-121 | once the cursor has passed the end of input, every later call yields EOF |
| LexerProperties.NonEOFBeforeEnd | lexer/lexer.go:75-77 | a token other than EOF starts and ends within the input, so a lexer yields EOF after at most one token per byte |
| LexerProperties.LexOneByte | lexer/lexer.go:34-74 | at any position of any input, a byte that forms a token on its own (punctuation, or `=`/`!` not followed by `=`) yields that one-byte token and consumes one byte, whatever the other bytes are |
| LexerProperties.PunctuationTokens | lexer/lexer_test.go:11-39 | input made of such bytes yields exactly one token per byte, in order, each holding its byte, and then EOF |
| LexerProperties.SpecialCharactersFixture | lexer/lexer_test.go:11-39 | `=+(){},;` is such input, with the kinds Assign, Plus, LParen, RParen, LBrace, RBrace, Comma and Semicolon |
| LexerProperties.TokensAgree | parser/parser.go:139-143 | the token sequence the parser is specified over is, at every index, the token the lexer's matching call yields |
| LexerProperties.PullStep | parser/parser.go:141 | a NextToken call from the k-th cursor yields the k-th token and leaves the (k+1)-th cursor |
| Ast.Identifier.TokenLiteral | ast/node_identifier.go:20-22 | definition: an identifier's token literal is its own token's literal |
| Ast.Identifier.String | ast/node_identifier.go:16-18 | definition: an identifier renders as its name (`Value`), not its token; the parser sets both from the same token (`ParsedIdentifierRendering`) |
| Ast.Expression.TokenLiteral | ast/node_infix_expression.go:15-17 | definition: every expression node reports its own token's literal; an identifier node reports its identifier's (node_bool_expression.go:10-12 likewise) |
| Ast.Expression.String | ast/node_infix_expression.go:19-27 | a prefix or infix node renders inside one pair "(" … ")"; an integer or boolean literal renders as its token literal, whatever its value (node_bool_expression.go:14-16); an identifier renders as its name |
| Ast.Statement.TokenLiteral | ast/node_let_stmt.go:26-28 | definition: a let, return or expression statement reports its own token's literal (node_return_stmt.go:10-12, node_expression_stmt.go:17-19), a program its first statement's (`ProgramTokenLiteralAppend`) |
| Ast.Statement.String | ast/node_let_stmt.go:14-24 | definition: a let statement renders as token literal, name, " = ", the value if any and ";"; an expression statement as its expression or "" (node_expression_stmt.go:10-15); a return statement has no rendering. Stated as properties by `LetValueOptional` and `ExpressionStatementRendering` |
| Ast.Program.TokenLiteral | ast/node_program.go:27-33 | definition: the first statement's token literal, or "" for an empty program (`ProgramTokenLiteralAppend`) |
| Ast.Program.String | ast/node_program.go:17-25 | definition: the statements' renderings concatenated in order, built as the Go buffer is, one statement per round (`RenderFirst`); `ProgramStringAppend` and `SingleStatementProgram` are its properties |
| Ast.NewProgram | ast/node_program.go:9-13 | a new program has no statements, renders as "" and has token literal "" |
| AstProperties.ProgramStringAppend | ast/node_program.go:17-25 | a program renders as its statements' renderings in order with no separator: appending statements appends their renderings |
| AstProperties.SingleStatementProgram | ast/node_program.go:17-33 | a one-statement program renders, and has the token literal, of its statement |
| AstProperties.ProgramTokenLiteralAppend | ast/node_program.go:27-33 | a program's token literal is its first statement's, or "" when it has none |
| AstProperties.LetValueOptional | ast/node_let_stmt.go:14-24 | a let statement without a value still renders " = ;" at the end, and a value is inserted only before the ";" |
| AstProperties.BooleanRendering | ast/node_bool_expression.go:10-16 | a boolean literal renders as, and has the token literal of, its token text, whatever its value |
| AstProperties.ExpressionStatementRendering | ast/node_expression_stmt.go:10-19 | an expression statement renders as its expression, or "" without one, and has its own token's literal |
| AstProperties.RenderingParentheses | ast/node_infix_expression.go:19-27 | a compound expression renders inside "(" … ")"; when the leaves hold no parentheses, there is exactly one pair per prefix or infix node |
| AstProperties.PrefixRenderingFixture | ast/node_prefix_expression_test.go:9-19 | `!abc` renders as "(!abc)" |
| AstProperties.ProgramRenderingFixture | ast/node_program_test.go:9-34 | the program of `let myVar = anotherVar;` renders as exactly that |
| Precedence.PrecedenceOf | parser/parser.go:226-238 | the lookup gives a level in [lowest, prefix), and gives lowest exactly for kinds the table does not list |
| Precedence.LevelsIncrease | parser/precedence.go:7-16 | the levels strictly increase from lowest = 1 to call |
| Precedence.OperatorLevels | parser/precedence.go:20-29 | EQ and NEQ are equals, LT and GT lessgreater, Plus and Minus sum, Slash and Asterisk product, and nothing else is listed |
| ParserSpec.PrefixParseFns | parser/parser.go:36-39 | definition: the prefix handler table the constructor registers, as a lookup: Identifier, Int, Bang and Minus have handlers, every other kind has none; `HandlerLookup` ties it to the registered map |
| ParserSpec.HandlerLookup | parser/parser.go:36-39 | the lookup agrees with the registered map (`PrefixHandlers`) on every kind: exactly Identifier, Int, Bang and Minus have a handler, each the one the constructor registers for it |
| ParserSpec.ParseInt64 | parser/parser.go:152-165 | a literal that parses gives a value between 0 and 2^63-1 |
| ParserSpec.DecimalRoundTrip | parser/parser.go:155 | the decimal digits of every int64 value from 0 up parse back to that value |
| ParserSpec.FormatDecimalDigits | parser/parser.go:155 | decimal formatting yields a digit string with no leading zero whose decimal value is the number |
| ParserSpec.ParseInt64Fixtures | parser/parser.go:155 | "5", "15", "9" and "0" parse as themselves, "010" parses as octal 8, and "09" fails |
| ParserSpec.ParseExpressionAt | parser/parser.go:127-137 | parsing an expression never moves the current token back |
| ParserSpec.ExpressionOutcome | parser/parser.go:127-179 | parseExpression appends at most one error, and none exactly when it returns a complete expression. What it returns has a registered handler's shape and begins at the current token. It returns nothing exactly for an unregistered kind or a bad integer, and it advances only over `!` and `-`. |
| ParserSpec.ParsedIdentifierRendering | parser/parser.go:145-150 | a parsed identifier renders as its token literal |
| ParserSpec.SkipToSemicolon | parser/parser.go:92-94 | the skip loop stops on a Semicolon at or after where it starts |
| ParserSpec.SkipFindsFirstSemicolon | parser/parser.go:92-94 | the skip loop stops on the first Semicolon |
| ParserSpec.SkipLoopNeedsSemicolon | parser/parser.go:106-108 | with no Semicolon left, no later token is one, so the loop never stops |
| ParserSpec.ParseStatementAt | parser/parser.go:60-69 | parsing a statement never moves the current token back |
| ParserSpec.ParseLetAt | parser/parser.go:71-97 | the let parser never moves the current token back; the definition follows both expectPeek exits and the skip loop, and `LetOutcome` states the outcome |
| ParserSpec.ParseReturnAt | parser/parser.go:99-111 | the return parser never moves the current token back; the definition is the skip loop, and `ReturnOutcome` states the outcome |
| ParserSpec.ParseExpressionStatementAt | parser/parser.go:113-124 | the expression statement parser never moves the current token back; the statement's token is read before the expression is parsed (see "## Left out"), and `ExpressionStatementOutcome` states the outcome |
| ParserSpec.ExpressionStatementTokenOrder | parser/parser.go:114-117 | reading the current token before or after parseExpression gives the same token unless the statement starts with `!` or `-`, the only case in which parseExpression advances |
| ParserSpec.LetOutcome | parser/parser.go:71-97 | the let parser returns a statement exactly for `let IDENT =`. The statement holds the let token and the name and has no value, there is no error, and the current token is left on the first `;`. Otherwise it returns nothing, with exactly one peek error. |
| ParserSpec.ReturnOutcome | parser/parser.go:99-111 | the return parser returns a statement with the return token and no value, leaves the current token on the first `;`, and appends no error |
| ParserSpec.ExpressionStatementOutcome | parser/parser.go:113-124 | an expression statement holds its first token (read before the expression is parsed; see "## Left out") and the parsed expression, keeps that parse's errors, and consumes a `;` exactly when the peek token is one |
| ParserSpec.StatementOutcome | parser/parser.go:60-69 | every statement appends at most one error, exactly one when it returns nothing, and a returned statement has the current token's literal |
| ParserSpec.ParseProgramFrom | parser/parser.go:46-58 | the loop ends at an index no earlier than where it starts |
| ParserSpec.RoundStep | parser/parser.go:49-55 | one round of ParseProgram's loop preserves "statements so far + the rest = the whole program", and the same for the errors |
| ParserSpec.ProgramStopsAtEOF | parser/parser.go:49-55 | the loop stops on an EOF, and every round starts before that on a token that is not EOF |
| ParserSpec.ProgramCounts | parser/parser.go:46-58 | over the whole loop, there are no more statements than rounds and no more errors than rounds, and statements and errors together are at least as many as rounds; the per-round facts are `StatementOutcome`'s |
| ParserSpec.ProgramEntriesFrom | parser/parser.go:46-58 | the loop as written (see Findings): one entry per round, appended whatever the statement parser returned, a nil let statement included |
| ParserSpec.EntriesAndStatements | parser/parser.go:50-53 | the program as written has one entry per round, and the corrected program is exactly its non-nil entries. A nil entry is there exactly when a round kept no statement, and then there are errors. |
| Parser.Parser.constructor | parser/parser.go:28-44 | NewParser registers the four prefix handlers; the window holds the lexer's first two tokens and there are no errors |
| Parser.Parser.RegisterPrefixParseFn | parser/parser.go:218-220 | registering sets the kind's handler and changes nothing else |
| Parser.Parser.NextToken | parser/parser.go:139-143 | peek moves into curr, exactly one token is pulled from the lexer, and the errors are unchanged |
| Parser.Parser.PeekPrecedence | parser/parser.go:226-231 | the peek token's level is in [lowest, prefix), and it is lowest exactly for kinds the table does not list |
| Parser.Parser.CurrPrecedence | parser/parser.go:233-238 | the same for the current token |
| Parser.Parser.PeekError | parser/parser.go:196-199 | appends exactly one error naming the expected kind and the peek kind |
| Parser.Parser.NoPrefixParseFnError | parser/parser.go:201-204 | appends exactly one error naming the kind |
| Parser.Parser.ExpectPeek | parser/parser.go:186-194 | on a match it advances once, returns true and leaves the errors alone; otherwise it appends one error, returns false and leaves the window unchanged |
| Parser.Parser.ParseIdentifier | parser/parser.go:145-150 | an identifier of the current token, named by its literal, which renders as that literal |
| Parser.Parser.ParseIntLiteral | parser/parser.go:152-165 | the literal's int64 value, or nothing with exactly one error when it does not parse |
| Parser.Parser.ParseExpression | parser/parser.go:127-137 | the expression, the final position and the errors are those of ParseExpressionAt |
| Parser.Parser.ParsePrefixExpression | parser/parser.go:167-179 | a prefix node whose operator is the `!` or `-` token's literal, around exactly one parsed operand |
| Parser.Parser.ParseLetStatement | parser/parser.go:71-97 | the result, the final position and the errors are those of ParseLetAt |
| Parser.Parser.ParseReturnStatement | parser/parser.go:99-111 | the result, the final position and the errors are those of ParseReturnAt |
| Parser.Parser.ParseExpressionStatement | parser/parser.go:113-124 | the result, the final position and the errors are those of ParseExpressionStatementAt |
| Parser.Parser.ParseStatement | parser/parser.go:60-69 | the result, the final position and the errors are those of ParseStatementAt |
| Parser.Parser.ParseProgram | parser/parser.go:46-58 | corrected loop (see Findings): the statements kept are those of ParseProgramFrom, which are exactly the non-nil entries of the loop as written (`ProgramEntriesFrom`); the errors only grow, by its errors; the loop stops at its EOF |
| ParserExamples.LetMissingAssignCalls | lexer/lexer.go:27-95 | the lexer's calls over `let x 5;` yield let, x, 5 and `;`, and then the cursor is at the end |
| ParserExamples.LetMissingAssignLexes | parser/parser_test.go:14-22 | the lexer's token sequence for `let x 5;` is let, x, 5, `;` and then EOF |
| ParserExamples.MissingAssignAt | parser/parser.go:87-89 | `let IDENT INT` fails on the missing `=` with exactly one error and leaves the current token on the identifier |
| ParserExamples.LetMissingAssignFixture | parser/parser_test.go:14-22 | `let x 5;` yields exactly one error, the missing `=`, and the `5;` after it is kept as a statement |
| ParserExamples.TypedNilFixture | parser/parser.go:50-53 | as written, the program of `let x 5;` holds a nil entry before the `5;` statement |
| ParserExamples.ProgramEnds | parser/parser.go:49 | with EOF as the current token the loop runs no round |
| ParserExamples.ProgramRound | parser/parser.go:49-55 | a round keeps the statement it parsed, if any, and adds its errors in front of the rest |
| ParserExamples.EntriesRound | parser/parser.go:50-53 | as written, a round appends its result whatever it is |
| ParserExamples.FiveStatementAt | parser/parser_test.go:82-98 | `5;` is an expression statement of the integer literal 5, with token literal "5" and no error |
| ParserExamples.LetFixture | parser/parser_test.go:24-47 | `let NAME = INT;` is a let statement with token literal "let", named NAME, with no error, and leaves the current token on the `;` |
| ParserExamples.IdentifierStatementAt | parser/parser.go:113-124 | an identifier token is an expression statement of that identifier, consuming a `;` only if one follows |
| ParserExamples.IdentifierFixture | parser/parser_test.go:64-80 | `foobar;` is an expression statement of the identifier foobar, with no error |
| ParserExamples.PrefixFixtures | parser/parser_test.go:122-154 | `-15;` and `!9;` are prefix nodes with operator `-` or `!` around the integer literal, with no error |
| ParserExamples.BooleanWordFixture | parser/parser_test.go:100-120 | as the code stands, `true;` and `false;` parse as identifiers, not boolean literals |
| ParserExamples.NoPrefixStatementAt | parser/parser.go:127-132 | a token with no prefix handler gives an expression statement without an expression and one NoPrefix error |
| ParserExamples.ReturnWordFixture | parser/parser_test.go:49-62 | as the code stands, `return 12 + 5;` begins with an expression statement of the identifier `return`, and the round at the `+` reports a missing prefix handler |

## Left out

- Message texts of the errors (parser/parser.go:157, 197, 202): errors are values holding the kinds or the literal. Their count and order are modelled; the text is not.
- registerInfixParseFn and the infix handler table (parser/parser.go:222-224): nothing registers an infix handler and parseExpression never consults the table, so the table is always empty. It is not modelled.
- The precedence argument of parseExpression is accepted and ignored, as in the code.
- Parser.Parser.ParseLetStatement: requires that a `;` remains after `let IDENT =` (`LetHalts`). Without one the Go skip loop never ends (`SkipLoopNeedsSemicolon`), and a run that never ends is not described.
- Parser.Parser.ParseReturnStatement: requires that a `;` remains (`SemicolonFrom`), for the same reason.
- Parser.Parser.ParseProgram: requires `ProgramHalts`, that every round of its loop returns, for the same reason.
- ParserSpec.ParseExpressionStatementAt: the statement's token is the current token read BEFORE parseExpression runs. parser/parser.go:114-117 reads `p.currToken` and calls `p.parseExpression` in one composite literal, and the Go specification leaves the order of the two unspecified. A call made first would give a statement starting with `!` or `-` the token at the end of its operand instead (`ExpressionStatementTokenOrder`: this is the only case where the orders differ). The statement's rendering, expression and errors do not depend on the order. The token and its literal, as stated by ExpressionStatementOutcome, StatementOutcome and ParserExamples.PrefixFixtures, assume the read comes first.
- Parser.Parser.ParseExpressionStatement: reads `currToken` before calling ParseExpression, under the same assumption as ParserSpec.ParseExpressionStatementAt.
- ReturnStatement.String: ast/node_return_stmt.go defines none, so a program holding a return statement has no rendering in the model (`Renderable`). Rendering a prefix node with no operand, or an infix node with a missing side, dereferences nil in Go and has no rendering either (`Complete`).
- The IntegerLiteral and PrefixExpression node files are not part of this model. Their fields follow the parser's use of them. A prefix node renders as "(" + operator + operand + ")", after ast/node_prefix_expression_test.go, and an integer literal renders as its token text.
- Lexer.Lexer.NextToken: a byte above 127 becomes a one-character literal. Go's string conversion would encode it as two UTF-8 bytes; the model keeps the code point.
- strconv.ParseInt is modelled only on the literals an Int token can hold (digit strings), with base prefixes reduced to the leading-0 octal case. Digit strings cannot carry the `0x`, `0b` and `0o` prefixes or underscores.
- The lexer tests of keywords beyond `let` and `fn`, the parser tests of boolean literals, of return statements holding an expression, of infix expressions and of operator precedence: the code does not implement them (see above), so they are not stated. The return and boolean inputs are stated as the code parses them.
- repl/repl.go: an input/output loop, not modelled.

## Findings

| source | as written | input that shows it | evidently intended | confidence | as-written member | corrected member |
|---|---|---|---|---|---|---|
| parser/parser.go:51 | parseStatement returns parseLetStatement's nil `*ast.LetStatement` through the `ast.Statement` interface. That interface value is not nil, so `stmt != nil` holds and ParseProgram appends a nil entry. `prog.String()` would then dereference it. | the tokens of `let x 5;`: the program as written holds [nil, `5;`] | a failed statement is dropped, so the program holds only `5;` | high, not executed | ParserSpec.ProgramEntriesFrom, ParserExamples.TypedNilFixture | ParserSpec.ParseProgramFrom, ParserSpec.EntriesAndStatements, Parser.Parser.ParseProgram, ParserExamples.LetMissingAssignFixture |
