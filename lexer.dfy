/**
 * The byte-level lexer (lexer/lexer.go).
 *
 * The pure part describes one call of NextToken as a function `Lex` from a cursor position
 * to the token and the position after it, and the token sequence a lexer yields as `Stream`.
 * The class `Lexer` is the Go struct: its methods move the cursor step by step and are proved
 * to agree with `Lex`.
 */
module Lexer {
  import opened Wrappers
  import opened Token

  /** One byte of input. Literals are strings of such characters. */
  type Byte = c: char | c as int < 256 witness '\0'

  /** The byte that marks end of input in the cursor. */
  const NUL: Byte := '\0'

  predicate IsLetter(c: Byte) {
    'a' <= c <= 'z' || 'A' <= c <= 'Z' || c == '_'
  }

  predicate IsDigit(c: Byte) {
    '0' <= c <= '9'
  }

  /** The bytes skipWhitespace skips: space, tab, LF and CR. */
  predicate IsWhitespace(c: Byte) {
    c == ' ' || c == '\t' || c == '\n' || c == '\r'
  }

  /** A non-empty run of decimal digits: what an Int token carries. */
  predicate IsDigitString(s: string) {
    |s| > 0 && forall i :: 0 <= i < |s| ==> '0' <= s[i] <= '9'
  }

  /** The byte the cursor sees at position i: the input byte, or NUL past the end. */
  function CharAt(input: seq<Byte>, i: nat): Byte {
    if i < |input| then input[i] else NUL
  }

  /** The position skipWhitespace stops at when started at p. */
  function SkipWhitespaceFrom(input: seq<Byte>, p: nat): (s: nat)
    ensures p <= s
    ensures !IsWhitespace(CharAt(input, s))
    ensures p < s ==> s <= |input|
    ensures p <= |input| ==> s <= |input|
    decreases |input| - p
  {
    if p < |input| && IsWhitespace(input[p]) then SkipWhitespaceFrom(input, p + 1) else p
  }

  /** The position readIdentifier stops at when started at p: the end of the letter run. */
  function IdentifierEnd(input: seq<Byte>, p: nat): (e: nat)
    ensures p <= e
    ensures !IsLetter(CharAt(input, e))
    ensures p < e ==> e <= |input|
    ensures p <= |input| ==> e <= |input|
    decreases |input| - p
  {
    if p < |input| && IsLetter(input[p]) then IdentifierEnd(input, p + 1) else p
  }

  /** The position readDigit stops at when started at p: the end of the digit run. */
  function DigitEnd(input: seq<Byte>, p: nat): (e: nat)
    ensures p <= e
    ensures !IsDigit(CharAt(input, e))
    ensures p < e ==> e <= |input|
    ensures p <= |input| ==> e <= |input|
    decreases |input| - p
  {
    if p < |input| && IsDigit(input[p]) then DigitEnd(input, p + 1) else p
  }

  /** Every byte skipWhitespace passes over is whitespace. */
  lemma {:induction false} WhitespaceRun(input: seq<Byte>, p: nat)
    ensures var s := SkipWhitespaceFrom(input, p);
      forall j :: p <= j < s ==> IsWhitespace(input[j])
    decreases |input| - p
  {
    if p < |input| && IsWhitespace(input[p]) {
      WhitespaceRun(input, p + 1);
    }
  }

  /** Every byte readIdentifier passes over is a letter. */
  lemma {:induction false} LetterRun(input: seq<Byte>, p: nat)
    ensures var e := IdentifierEnd(input, p);
      forall j :: p <= j < e ==> IsLetter(input[j])
    decreases |input| - p
  {
    if p < |input| && IsLetter(input[p]) {
      LetterRun(input, p + 1);
    }
  }

  /** Every byte readDigit passes over is a digit. */
  lemma {:induction false} DigitRun(input: seq<Byte>, p: nat)
    ensures var e := DigitEnd(input, p);
      forall j :: p <= j < e ==> IsDigit(input[j])
    decreases |input| - p
  {
    if p < |input| && IsDigit(input[p]) {
      DigitRun(input, p + 1);
    }
  }

  /** The kind of a token made of one byte; Illegal for a byte that starts no token. */
  function SingleByteKind(c: Byte): TokenType {
    match c
    case '+' => Plus
    case '-' => Minus
    case '*' => Asterisk
    case '/' => Slash
    case '<' => LT
    case '>' => GT
    case '(' => LParen
    case ')' => RParen
    case '{' => LBrace
    case '}' => RBrace
    case ',' => Comma
    case ';' => Semicolon
    case _ => Illegal
  }

  function NewToken(kind: TokenType, literal: string): Token {
    Token(kind, literal)
  }

  /**
   * One call of NextToken with the cursor at p: the token and the cursor position after it.
   * Every call moves the cursor, and a token other than EOF ends within the input.
   * (What the token holds is stated by LexLiteral and the lemmas of LexerProperties.)
   */
  function Lex(input: seq<Byte>, p: nat): (r: (Token, nat))
    ensures p < r.1
    ensures r.0.kind != EOF ==> r.1 <= |input|
  {
    var s := SkipWhitespaceFrom(input, p);
    var c := CharAt(input, s);
    if c == '=' then
      if CharAt(input, s + 1) == '=' then (Token(EQ, "=="), s + 2) else (Token(Assign, "="), s + 1)
    else if c == '!' then
      if CharAt(input, s + 1) == '=' then (Token(NEQ, "!="), s + 2) else (Token(Bang, "!"), s + 1)
    else if c == NUL then
      (Token(EOF, ""), s + 1)
    else if IsLetter(c) then
      var e := IdentifierEnd(input, s);
      (Token(LookupIdentifier(input[s..e]), input[s..e]), e)
    else if IsDigit(c) then
      var e := DigitEnd(input, s);
      (Token(Int, input[s..e]), e)
    else
      (NewToken(SingleByteKind(c), [c]), s + 1)
  }

  /**
   * Every token but EOF is exactly the bytes the call consumed after the skipped whitespace;
   * EOF, with an empty literal, is produced exactly when the cursor then sees NUL; an Int
   * token is a run of digits.
   */
  lemma LexLiteral(input: seq<Byte>, p: nat)
    ensures var s := SkipWhitespaceFrom(input, p);
      var (t, e) := Lex(input, p);
      s < e &&
      (t.kind == EOF <==> CharAt(input, s) == NUL) &&
      (t.kind == EOF ==> t.literal == "" && e == s + 1) &&
      (t.kind != EOF ==> t.literal == input[s..e]) &&
      (t.kind == Int ==> IsDigitString(t.literal))
  {
    DigitRun(input, SkipWhitespaceFrom(input, p));
  }

  /**
   * The tokens a lexer yields when its cursor starts at `origin`: `At(k)` is the token the
   * (k+1)-th call of NextToken returns, `Pos(k)` the cursor before that call.
   */
  datatype Stream = Stream(input: seq<Byte>, origin: nat) {
    /** The stream left after the first call: the same input, from where that call stopped. */
    function Rest(): Stream {
      Stream(input, Lex(input, origin).1)
    }

    function Pos(k: nat): (p: nat)
      ensures origin + k <= p
      decreases k
    {
      if k == 0 then origin else Rest().Pos(k - 1)
    }

    function At(k: nat): Token {
      Lex(input, Pos(k)).0
    }
  }

  /** Each call starts where the previous one stopped. */
  lemma {:induction false} PosStep(st: Stream, k: nat)
    ensures st.Pos(k + 1) == Lex(st.input, st.Pos(k)).1
    decreases k
  {
    if k > 0 {
      PosStep(st.Rest(), k - 1);
    }
  }

  /** The Go struct: the input, the cursor `pos`, the read position `nextPos` and the byte `ch`. */
  class Lexer {
    const input: seq<Byte>
    var pos: nat
    var nextPos: nat
    var ch: Byte

    /** The cursor invariant every readChar re-establishes. */
    ghost predicate Valid()
      reads this
    {
      nextPos == pos + 1 && ch == CharAt(input, pos)
    }

    /** NewLexer: reads the first byte, so the cursor starts at position 0. */
    constructor (input: seq<Byte>)
      ensures this.input == input
      ensures Valid() && pos == 0 && ch == CharAt(input, 0)
    {
      this.input := input;
      pos, nextPos, ch := 0, 0, NUL;
      new;
      ReadChar();
    }

    method ReadChar()
      modifies this
      ensures pos == old(nextPos) && nextPos == pos + 1 && ch == CharAt(input, pos)
    {
      if nextPos >= |input| {
        ch := NUL;
      } else {
        ch := input[nextPos];
      }
      pos := nextPos;
      nextPos := nextPos + 1;
    }

    /** The byte after the cursor, without moving it. */
    method PeekChar() returns (c: Byte)
      ensures c == CharAt(input, nextPos)
    {
      if nextPos >= |input| {
        c := NUL;
      } else {
        c := input[nextPos];
      }
    }

    method SkipWhitespace()
      requires Valid()
      modifies this
      ensures Valid() && pos == SkipWhitespaceFrom(input, old(pos))
    {
      var c := ch;
      while c == ' ' || c == '\t' || c == '\n' || c == '\r'
        invariant Valid() && c == ch
        invariant old(pos) <= pos
        invariant SkipWhitespaceFrom(input, pos) == SkipWhitespaceFrom(input, old(pos))
        decreases |input| - pos
      {
        ReadChar();
        c := ch;
      }
    }

    /** Reads a maximal letter run; the slice needs the cursor within the input. */
    method ReadIdentifier() returns (literal: string)
      requires Valid() && pos <= |input|
      modifies this
      ensures Valid() && pos == IdentifierEnd(input, old(pos))
      ensures literal == input[old(pos)..pos]
    {
      var start := pos;
      while IsLetter(ch)
        invariant Valid() && start <= pos <= |input|
        invariant IdentifierEnd(input, pos) == IdentifierEnd(input, start)
        decreases |input| - pos
      {
        ReadChar();
      }
      literal := input[start..pos];
    }

    /** Reads a maximal digit run; the slice needs the cursor within the input. */
    method ReadDigit() returns (literal: string)
      requires Valid() && pos <= |input|
      modifies this
      ensures Valid() && pos == DigitEnd(input, old(pos))
      ensures literal == input[old(pos)..pos]
    {
      var start := pos;
      while IsDigit(ch)
        invariant Valid() && start <= pos <= |input|
        invariant DigitEnd(input, pos) == DigitEnd(input, start)
        decreases |input| - pos
      {
        ReadChar();
      }
      literal := input[start..pos];
    }

    /** Scans the next token; the error result is always absent. */
    method NextToken() returns (t: Token, err: Option<string>)
      requires Valid()
      modifies this
      ensures Valid() && (t, pos) == Lex(input, old(pos))
      ensures err == None
    {
      SkipWhitespace();
      t := Token(Illegal, [ch]);
      match ch {
        case '=' =>
          var next := PeekChar();
          if next == '=' {
            ReadChar();
            t := Token(EQ, t.literal + [ch]);
            assert t.literal == "==";
          } else {
            t := t.(kind := Assign);
          }
        case '+' => t := t.(kind := Plus);
        case '-' => t := t.(kind := Minus);
        case '!' =>
          var next := PeekChar();
          if next == '=' {
            ReadChar();
            t := Token(NEQ, t.literal + [ch]);
            assert t.literal == "!=";
          } else {
            t := t.(kind := Bang);
          }
        case '*' => t := t.(kind := Asterisk);
        case '/' => t := t.(kind := Slash);
        case '<' => t := t.(kind := LT);
        case '>' => t := t.(kind := GT);
        case '(' => t := t.(kind := LParen);
        case ')' => t := t.(kind := RParen);
        case '{' => t := t.(kind := LBrace);
        case '}' => t := t.(kind := RBrace);
        case ',' => t := t.(kind := Comma);
        case ';' => t := t.(kind := Semicolon);
        case '\0' => t := Token(EOF, "");
        case _ =>
          if IsLetter(ch) {
            var literal := ReadIdentifier();
            return Token(LookupIdentifier(literal), literal), None;
          } else if IsDigit(ch) {
            var literal := ReadDigit();
            return Token(Int, literal), None;
          } else {
            t := NewToken(Illegal, [ch]);
          }
      }
      ReadChar();
      return t, None;
    }
  }
}
