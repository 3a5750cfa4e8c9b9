/**
 * Properties of one NextToken call (`Lex`) and of the token stream a lexer yields
 * (lexer/lexer.go), together with the lexer fixtures of lexer/lexer_test.go that the
 * code as written satisfies.
 */
module LexerProperties {
  import opened Token
  import opened Lexer

  /** `==` and `!=` are single two-byte tokens; `=` and `!` alone consume one byte. */
  lemma TwoByteOperators(input: seq<Byte>, p: nat)
    ensures var s := SkipWhitespaceFrom(input, p);
      (CharAt(input, s) == '=' && CharAt(input, s + 1) == '=' ==> Lex(input, p) == (Token(EQ, "=="), s + 2)) &&
      (CharAt(input, s) == '=' && CharAt(input, s + 1) != '=' ==> Lex(input, p) == (Token(Assign, "="), s + 1)) &&
      (CharAt(input, s) == '!' && CharAt(input, s + 1) == '=' ==> Lex(input, p) == (Token(NEQ, "!="), s + 2)) &&
      (CharAt(input, s) == '!' && CharAt(input, s + 1) != '=' ==> Lex(input, p) == (Token(Bang, "!"), s + 1))
  {
  }

  /** Whitespace is skipped before every token and never ends up inside a literal. */
  lemma NoWhitespaceInLiterals(input: seq<Byte>, p: nat)
    ensures forall j :: 0 <= j < |Lex(input, p).0.literal| ==> !IsWhitespace(Lex(input, p).0.literal[j])
  {
    var s := SkipWhitespaceFrom(input, p);
    var (t, e) := Lex(input, p);
    LexLiteral(input, p);
    LetterRun(input, s);
    DigitRun(input, s);
    if t.kind != EOF {
      forall j | 0 <= j < |t.literal|
        ensures !IsWhitespace(t.literal[j])
      {
        assert t.literal[j] == input[s + j];
        if j > 0 {
          var c := CharAt(input, s);
          if c == '=' || c == '!' {
            assert input[s + j] == '=';
          } else if IsLetter(c) {
            assert IsLetter(input[s + j]);
          } else {
            assert IsDigit(c) && IsDigit(input[s + j]);
          }
        }
      }
    }
  }

  /**
   * Identifier and keyword tokens are maximal runs of letters and underscores: the run is
   * non-empty, every byte of it is a letter, the byte after it is not, and the kind is the
   * keyword lookup of the literal.
   */
  lemma IdentifierIsMaximalRun(input: seq<Byte>, p: nat)
    requires Lex(input, p).0.kind in {Identifier, Let, Func}
    ensures var (t, e) := Lex(input, p);
      |t.literal| > 0 &&
      (forall j :: 0 <= j < |t.literal| ==> IsLetter(t.literal[j])) &&
      !IsLetter(CharAt(input, e)) &&
      t.kind == LookupIdentifier(t.literal)
  {
    LexLiteral(input, p);
    LetterRun(input, SkipWhitespaceFrom(input, p));
  }

  /** Int tokens are maximal runs of digits; the literal is exactly the bytes consumed. */
  lemma IntIsMaximalRun(input: seq<Byte>, p: nat)
    requires Lex(input, p).0.kind == Int
    ensures var (t, e) := Lex(input, p);
      IsDigitString(t.literal) && !IsDigit(CharAt(input, e)) &&
      t.literal == input[SkipWhitespaceFrom(input, p)..e]
  {
    LexLiteral(input, p);
  }

  /**
   * A byte that starts no token becomes an Illegal token holding just that byte; the cursor
   * moves past it.
   */
  lemma IllegalIsOneByte(input: seq<Byte>, p: nat)
    requires Lex(input, p).0.kind == Illegal
    ensures var s := SkipWhitespaceFrom(input, p);
      s < |input| && Lex(input, p) == (Token(Illegal, [input[s]]), s + 1) &&
      !IsLetter(input[s]) && !IsDigit(input[s]) && !IsWhitespace(input[s]) &&
      input[s] !in {'=', '!', NUL} && SingleByteKind(input[s]) == Illegal
  {
  }

  /** Past the end of input every call yields EOF with an empty literal. */
  lemma EOFAtEnd(input: seq<Byte>, p: nat)
    requires |input| <= p
    ensures Lex(input, p) == (Token(EOF, ""), p + 1)
  {
  }

  /** Once the cursor has passed the end of input, the lexer yields EOF on every later call. */
  lemma {:induction false} EOFForever(st: Stream, k: nat, j: nat)
    requires |st.input| <= st.Pos(k) && k <= j
    ensures st.At(j) == Token(EOF, "") && |st.input| <= st.Pos(j)
    decreases j - k
  {
    if j > k {
      EOFForever(st, k, j - 1);
      PosStep(st, j - 1);
    }
    EOFAtEnd(st.input, st.Pos(j));
  }

  /** A non-EOF token of the stream lies within the input, so the stream ends in EOF. */
  lemma NonEOFBeforeEnd(st: Stream, k: nat)
    requires st.At(k).kind != EOF
    ensures st.Pos(k) < |st.input| && k < |st.input| && st.Pos(k + 1) <= |st.input|
  {
    PosStep(st, k);
    if |st.input| <= st.Pos(k) {
      EOFAtEnd(st.input, st.Pos(k));
    }
  }

  /** Bytes that each form a token of their own, whatever follows. */
  predicate OneTokenPerByte(input: seq<Byte>) {
    forall i :: 0 <= i < |input| ==> OneByteToken(input, i)
  }

  /** The byte at i forms a token on its own: punctuation, or `=`/`!` not followed by `=`. */
  predicate OneByteToken(input: seq<Byte>, i: nat)
    requires i < |input|
  {
    SingleByteKind(input[i]) != Illegal ||
    ((input[i] == '=' || input[i] == '!') && CharAt(input, i + 1) != '=')
  }

  function OneByteKind(c: Byte): TokenType {
    if c == '=' then Assign else if c == '!' then Bang else SingleByteKind(c)
  }

  lemma LexOneByte(input: seq<Byte>, i: nat)
    requires i < |input| && OneByteToken(input, i)
    ensures Lex(input, i) == (Token(OneByteKind(input[i]), [input[i]]), i + 1)
  {
    assert SkipWhitespaceFrom(input, i) == i;
  }

  /**
   * Punctuation-only input yields one token per byte, in order, each holding its byte,
   * and then EOF.
   */
  lemma {:induction false} PunctuationTokens(input: seq<Byte>, k: nat)
    requires OneTokenPerByte(input) && k <= |input|
    ensures Stream(input, 0).Pos(k) == k
    ensures k < |input| ==> Stream(input, 0).At(k) == Token(OneByteKind(input[k]), [input[k]])
    ensures k == |input| ==> Stream(input, 0).At(k) == Token(EOF, "")
  {
    var st := Stream(input, 0);
    if k > 0 {
      PunctuationTokens(input, k - 1);
      PosStep(st, k - 1);
      LexOneByte(input, k - 1);
    }
    assert st.Pos(k) == k;
    if k < |input| {
      LexOneByte(input, k);
    } else {
      EOFAtEnd(input, k);
    }
  }

  /**
   * lexer_test "special characters": every byte of `=+(){},;` forms a token of its own, so
   * by PunctuationTokens the lexer yields Assign, Plus, LParen, RParen, LBrace, RBrace, Comma
   * and Semicolon, one per byte, each holding its byte, and then EOF.
   */
  lemma SpecialCharactersFixture()
    ensures OneTokenPerByte("=+(){},;")
    ensures [OneByteKind('='), OneByteKind('+'), OneByteKind('('), OneByteKind(')'),
             OneByteKind('{'), OneByteKind('}'), OneByteKind(','), OneByteKind(';')]
         == [Assign, Plus, LParen, RParen, LBrace, RBrace, Comma, Semicolon]
  {
  }

  /**
   * The token sequence the parser walks: the first |input| tokens the lexer yields; reading
   * past its end gives EOF, as every later call of NextToken does.
   */
  function TokenAt(toks: seq<Token>, k: nat): Token {
    if k < |toks| then toks[k] else Token(EOF, "")
  }

  function Tokens(st: Stream): seq<Token> {
    FirstTokens(st, |st.input|)
  }

  /** The first n tokens the lexer yields, in order. */
  function FirstTokens(st: Stream, n: nat): (r: seq<Token>)
    ensures |r| == n
    decreases n
  {
    if n == 0 then [] else [st.At(0)] + FirstTokens(st.Rest(), n - 1)
  }

  lemma {:induction false} FirstTokensAgree(st: Stream, n: nat, k: nat)
    requires k < n
    ensures FirstTokens(st, n)[k] == st.At(k)
    decreases k
  {
    if k > 0 {
      FirstTokensAgree(st.Rest(), n - 1, k - 1);
    }
  }

  /**
   * Reading the materialised sequence at any index gives the token the lexer yields there;
   * the EOF past its end is the lexer's own, since |input| calls always reach the end.
   */
  lemma TokensAgree(st: Stream, k: nat)
    ensures TokenAt(Tokens(st), k) == st.At(k)
  {
    if k < |st.input| {
      FirstTokensAgree(st, |st.input|, k);
    } else {
      EOFForever(st, |st.input|, k);
    }
  }

  /** One call of NextToken from the k-th cursor yields the k-th token and the next cursor. */
  lemma PullStep(st: Stream, k: nat, t: Token, p: nat)
    requires (t, p) == Lex(st.input, st.Pos(k))
    ensures p == st.Pos(k + 1) && t == st.At(k)
  {
    PosStep(st, k);
  }
}
