/**
 * Operator precedence levels and the operator table (parser/precedence.go). The parser
 * consults the table only through its peek/current precedence lookups.
 */
module Precedence {
  import opened Token

  /** A binding strength; higher binds tighter. */
  type Level = int

  // Slot 0 of the level enumeration is discarded, so the weakest level is 1.
  const Lowest: Level := 1
  const Equals: Level := 2
  const LessGreater: Level := 3
  const Sum: Level := 4
  const Product: Level := 5
  const Prefix: Level := 6
  const Call: Level := 7

  /** The precedence of each binary operator kind. */
  const Precedences: map<TokenType, Level> := map[
    EQ := Equals, NEQ := Equals,
    LT := LessGreater, GT := LessGreater,
    Plus := Sum, Minus := Sum,
    Slash := Product, Asterisk := Product]

  /**
   * The lookup behind peekPrecedence and currPrecedence: the table entry, or Lowest for a
   * kind the table does not list. Every result lies in [Lowest, Prefix), and it is Lowest
   * exactly for unlisted kinds.
   */
  function PrecedenceOf(kind: TokenType): (p: Level)
    ensures Lowest <= p < Prefix
    ensures p == Lowest <==> kind !in Precedences
  {
    if kind in Precedences then Precedences[kind] else Lowest
  }

  /** The levels strictly increase in declaration order. */
  lemma LevelsIncrease()
    ensures 0 < Lowest < Equals < LessGreater < Sum < Product < Prefix < Call
  {
  }

  /** Which operator kinds share which level, and that nothing else is listed. */
  lemma OperatorLevels(kind: TokenType)
    ensures PrecedenceOf(kind) == Equals <==> kind == EQ || kind == NEQ
    ensures PrecedenceOf(kind) == LessGreater <==> kind == LT || kind == GT
    ensures PrecedenceOf(kind) == Sum <==> kind == Plus || kind == Minus
    ensures PrecedenceOf(kind) == Product <==> kind == Slash || kind == Asterisk
    ensures PrecedenceOf(kind) == Lowest <==>
      kind !in {EQ, NEQ, LT, GT, Plus, Minus, Slash, Asterisk}
  {
  }
}
