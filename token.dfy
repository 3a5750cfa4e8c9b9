/**
 * Token kinds, the token value and the keyword table (token/token.go).
 */
module Token {

  /**
   * The closed set of token kinds. The first fourteen are the ones token.go declares;
   * the rest are the kinds lexer.go and parser.go use on top of them.
   */
  datatype TokenType =
    | Illegal | EOF | Identifier | Int
    | Assign | Plus | Comma | Semicolon | LParen | RParen | LBrace | RBrace
    | Func | Let
    | EQ | NEQ | Minus | Bang | Asterisk | Slash | LT | GT | Return

  /** A token is a plain value: its kind and the literal text it was scanned from. */
  datatype Token = Token(kind: TokenType, literal: string)

  /** The keyword table: only `let` and `fn` are keywords. */
  const Keywords: map<string, TokenType> := map["let" := Let, "fn" := Func]

  /** Classifies a scanned identifier run: a keyword's kind, otherwise Identifier. */
  function LookupIdentifier(literal: string): (t: TokenType)
    ensures t == Let <==> literal == "let"
    ensures t == Func <==> literal == "fn"
    ensures t == Identifier <==> literal != "let" && literal != "fn"
  {
    if literal in Keywords then Keywords[literal] else Identifier
  }

  /** Keyword lookup never yields a kind the lexer reserves for other inputs. */
  lemma LookupIdentifierKinds(literal: string)
    ensures LookupIdentifier(literal) !in
      {Illegal, EOF, Int, Assign, Plus, Comma, Semicolon, LParen, RParen, LBrace, RBrace,
       EQ, NEQ, Minus, Bang, Asterisk, Slash, LT, GT, Return}
  {
  }

  /** The words the tests treat as keywords but the table does not list are identifiers. */
  lemma UnlistedWordsAreIdentifiers()
    ensures LookupIdentifier("true") == Identifier
    ensures LookupIdentifier("false") == Identifier
    ensures LookupIdentifier("if") == Identifier
    ensures LookupIdentifier("else") == Identifier
    ensures LookupIdentifier("return") == Identifier
  {
  }
}
