/**
 * The syntax tree (package ast): expressions and statements as datatypes, each with
 * `TokenLiteral` and `String`.
 *
 * Go's nil child pointers are `Option` fields. `String` is only defined where the Go code
 * can render without dereferencing nil (`Complete`, `Renderable`): an infix or prefix node
 * needs its operands, and ReturnStatement has no String method at all.
 */
module Ast {
  import opened Wrappers
  import opened Token

  /** An identifier is an expression that names a value; it is never a statement. */
  datatype Identifier = Identifier(token: Token, value: string) {
    function TokenLiteral(): string {
      token.literal
    }

    function String(): string {
      value
    }
  }

  datatype Expression =
    | Ident(ident: Identifier)
    | IntegerLiteral(token: Token, intValue: int)
    | BooleanLiteral(token: Token, boolValue: bool)
    | PrefixExpression(token: Token, operator: string, right: Option<Expression>)
    | InfixExpression(token: Token, operator: string, left: Option<Expression>, right: Option<Expression>)
  {
    /** Every operand of every prefix and infix node is present. */
    predicate Complete() {
      match this
      case PrefixExpression(_, _, right) => right.Some? && right.value.Complete()
      case InfixExpression(_, _, left, right) =>
        left.Some? && left.value.Complete() && right.Some? && right.value.Complete()
      case _ => true
    }

    function TokenLiteral(): string {
      match this
      case Ident(ident) => ident.TokenLiteral()
      case IntegerLiteral(token, _) => token.literal
      case BooleanLiteral(token, _) => token.literal
      case PrefixExpression(token, _, _) => token.literal
      case InfixExpression(token, _, _, _) => token.literal
    }

    /**
     * The rendering: a literal as its token text (a boolean regardless of its value), a
     * compound node parenthesised, an infix operator with no spaces around it.
     */
    function String(): (r: string)
      requires Complete()
      ensures PrefixExpression? || InfixExpression? ==> |r| >= 2 && r[0] == '(' && r[|r| - 1] == ')'
      ensures IntegerLiteral? || BooleanLiteral? ==> r == TokenLiteral()
      ensures Ident? ==> r == ident.value
    {
      match this
      case Ident(ident) => ident.String()
      case IntegerLiteral(token, _) => token.literal
      case BooleanLiteral(token, _) => token.literal
      case PrefixExpression(_, operator, right) => "(" + operator + right.value.String() + ")"
      case InfixExpression(_, operator, left, right) =>
        "(" + left.value.String() + operator + right.value.String() + ")"
    }
  }

  datatype Statement =
    | LetStatement(token: Token, name: Identifier, value: Option<Expression>)
    | ReturnStatement(token: Token, returnValue: Option<Expression>)
    | ExpressionStatement(token: Token, expression: Option<Expression>)
    | ProgramStatement(program: Program)
  {
    /** The statement has a rendering: no return statement and no incomplete expression in it. */
    predicate Renderable()
      decreases this, 0
    {
      match this
      case LetStatement(_, _, value) => value.None? || value.value.Complete()
      case ReturnStatement(_, _) => false
      case ExpressionStatement(_, expression) => expression.None? || expression.value.Complete()
      case ProgramStatement(program) => program.Renderable()
    }

    function TokenLiteral(): string
      decreases this, 0
    {
      match this
      case LetStatement(token, _, _) => token.literal
      case ReturnStatement(token, _) => token.literal
      case ExpressionStatement(token, _) => token.literal
      case ProgramStatement(program) => program.TokenLiteral()
    }

    function String(): string
      requires Renderable()
      decreases this, 0
    {
      match this
      case LetStatement(_, name, value) =>
        TokenLiteral() + " " + name.String() + " = " + (if value.Some? then value.value.String() else "") + ";"
      case ExpressionStatement(_, expression) =>
        if expression.Some? then expression.value.String() else ""
      case ProgramStatement(program) => program.String()
    }
  }

  /** A program is itself a statement: the list of its top-level statements. */
  datatype Program = Program(statements: seq<Statement>) {
    predicate Renderable()
      decreases this, 1
    {
      forall i :: 0 <= i < |statements| ==> statements[i].Renderable()
    }

    function TokenLiteral(): string
      decreases this, 1
    {
      if |statements| > 0 then statements[0].TokenLiteral() else ""
    }

    /** The renderings of the statements, in order, with no separator. */
    function String(): string
      requires Renderable()
      decreases this, |statements| + 2
    {
      RenderFirst(|statements|)
    }

    /** The renderings of the first n statements, as the buffer holds them after n rounds. */
    function RenderFirst(n: nat): string
      requires n <= |statements| && Renderable()
      decreases this, n + 1
    {
      if n == 0 then "" else RenderFirst(n - 1) + statements[n - 1].String()
    }
  }

  /** NewProgram: a program with no statements. */
  function NewProgram(): (p: Program)
    ensures p.statements == [] && p.Renderable()
    ensures p.String() == "" && p.TokenLiteral() == ""
  {
    Program([])
  }
}
