/**
 * Properties of the syntax-tree renderings (package ast): how a program's rendering is built
 * from its statements, what the optional parts of a let statement contribute, that the
 * parentheses of a rendering mark exactly its compound nodes, and the rendering fixtures of
 * ast/node_program_test.go and ast/node_prefix_expression_test.go.
 */
module AstProperties {
  import opened Wrappers
  import opened Token
  import opened Ast

  /** Rendering the first n statements only looks at those statements. */
  lemma {:induction false} RenderFirstPrefix(p: Program, q: Program, n: nat)
    requires p.Renderable() && q.Renderable()
    requires n <= |p.statements| && n <= |q.statements| && p.statements[..n] == q.statements[..n]
    ensures p.RenderFirst(n) == q.RenderFirst(n)
  {
    if n > 0 {
      assert p.statements[..n - 1] == q.statements[..n - 1] by {
        assert p.statements[..n - 1] == p.statements[..n][..n - 1];
        assert q.statements[..n - 1] == q.statements[..n][..n - 1];
      }
      assert p.statements[n - 1] == p.statements[..n][n - 1];
      RenderFirstPrefix(p, q, n - 1);
    }
  }

  lemma {:induction false} RenderFirstAppend(a: seq<Statement>, b: seq<Statement>, k: nat)
    requires Program(a).Renderable() && Program(b).Renderable() && k <= |b|
    ensures Program(a + b).Renderable()
    ensures Program(a + b).RenderFirst(|a| + k) == Program(a).String() + Program(b).RenderFirst(k)
  {
    var ab := Program(a + b);
    assert ab.Renderable() by {
      forall i | 0 <= i < |a + b|
        ensures (a + b)[i].Renderable()
      {
        if i < |a| {
          assert (a + b)[i] == a[i];
        } else {
          assert (a + b)[i] == b[i - |a|];
        }
      }
    }
    if k == 0 {
      assert (a + b)[..|a|] == a[..|a|];
      RenderFirstPrefix(ab, Program(a), |a|);
    } else {
      RenderFirstAppend(a, b, k - 1);
      assert (a + b)[|a| + k - 1] == b[k - 1];
    }
  }

  /**
   * A program's rendering is the in-order concatenation of its statements' renderings:
   * appending statements appends their rendering.
   */
  lemma ProgramStringAppend(a: seq<Statement>, b: seq<Statement>)
    requires Program(a).Renderable() && Program(b).Renderable()
    ensures Program(a + b).Renderable()
    ensures Program(a + b).String() == Program(a).String() + Program(b).String()
  {
    RenderFirstAppend(a, b, |b|);
  }

  /** A one-statement program renders, and reports its token literal, as that statement does. */
  lemma SingleStatementProgram(s: Statement)
    requires s.Renderable()
    ensures Program([s]).Renderable()
    ensures Program([s]).String() == s.String()
    ensures Program([s]).TokenLiteral() == s.TokenLiteral()
  {
    assert Program([s]).RenderFirst(1) == Program([s]).RenderFirst(0) + s.String();
  }

  /** A program's token literal is its first statement's, or "" when it has none. */
  lemma ProgramTokenLiteralAppend(a: seq<Statement>, b: seq<Statement>)
    ensures Program(a + b).TokenLiteral() ==
      if |a| > 0 then Program(a).TokenLiteral() else Program(b).TokenLiteral()
  {
    if |a| > 0 {
      assert (a + b)[0] == a[0];
    } else {
      assert a + b == b;
    }
  }

  /**
   * The value of a let statement is the only optional part of its rendering: without it the
   * rendering still ends in " = ;", and with it the value's rendering goes before the ";".
   */
  lemma LetValueOptional(token: Token, name: Identifier, v: Expression)
    requires v.Complete()
    ensures var without := LetStatement(token, name, None).String();
      var with := LetStatement(token, name, Some(v)).String();
      |without| >= 4 && without[|without| - 4..] == " = ;" &&
      with == without[..|without| - 1] + v.String() + ";"
  {
    var head := token.literal + " " + name.value + " = ";
    assert LetStatement(token, name, None).String() == head + ";";
    assert (head + ";")[..|head|] == head;
  }

  /** A boolean literal renders as its token text, whatever its value. */
  lemma BooleanRendering(token: Token, b: bool)
    ensures BooleanLiteral(token, b).String() == BooleanLiteral(token, !b).String() == token.literal
    ensures BooleanLiteral(token, b).TokenLiteral() == token.literal
  {
  }

  /**
   * An expression statement renders as its expression, whatever token it began at, and as ""
   * without one.
   */
  lemma ExpressionStatementRendering(token: Token, other: Token, e: Expression)
    requires e.Complete()
    ensures ExpressionStatement(token, Some(e)).String() == ExpressionStatement(other, Some(e)).String() == e.String()
    ensures ExpressionStatement(token, None).String() == ""
    ensures ExpressionStatement(token, None).TokenLiteral() == token.literal
  {
  }

  /** The number of occurrences of c in s. */
  function Count(s: string, c: char): nat {
    if |s| == 0 then 0 else Count(s[..|s| - 1], c) + (if s[|s| - 1] == c then 1 else 0)
  }

  lemma {:induction false} CountAppend(a: string, b: string, c: char)
    ensures Count(a + b, c) == Count(a, c) + Count(b, c)
    decreases |b|
  {
    if |b| > 0 {
      assert (a + b)[..|a + b| - 1] == a + b[..|b| - 1];
      CountAppend(a, b[..|b| - 1], c);
    } else {
      assert a + b == a;
    }
  }

  predicate ParenFree(s: string) {
    Count(s, '(') == 0 && Count(s, ')') == 0
  }

  /** Identifier values, literal texts and operators carry no parentheses. */
  predicate LeavesParenFree(e: Expression) {
    match e
    case Ident(ident) => ParenFree(ident.value)
    case IntegerLiteral(token, _) => ParenFree(token.literal)
    case BooleanLiteral(token, _) => ParenFree(token.literal)
    case PrefixExpression(_, operator, right) =>
      ParenFree(operator) && (right.Some? ==> LeavesParenFree(right.value))
    case InfixExpression(_, operator, left, right) =>
      ParenFree(operator) && (left.Some? ==> LeavesParenFree(left.value)) &&
      (right.Some? ==> LeavesParenFree(right.value))
  }

  /** The number of prefix and infix nodes in e. */
  function Compounds(e: Expression): nat {
    match e
    case PrefixExpression(_, _, right) => 1 + (if right.Some? then Compounds(right.value) else 0)
    case InfixExpression(_, _, left, right) =>
      1 + (if left.Some? then Compounds(left.value) else 0) + (if right.Some? then Compounds(right.value) else 0)
    case _ => 0
  }

  /**
   * A compound node renders inside one pair of parentheses, and when the leaves carry none,
   * the rendering holds exactly one "(" and one ")" per prefix or infix node.
   */
  lemma {:induction false} RenderingParentheses(e: Expression)
    requires e.Complete()
    ensures (e.PrefixExpression? || e.InfixExpression?) ==>
      |e.String()| >= 2 && e.String()[0] == '(' && e.String()[|e.String()| - 1] == ')'
    ensures LeavesParenFree(e) ==>
      Count(e.String(), '(') == Compounds(e) && Count(e.String(), ')') == Compounds(e)
  {
    match e
    case PrefixExpression(_, operator, right) =>
      var r := right.value;
      RenderingParentheses(r);
      forall c | c == '(' || c == ')'
        ensures LeavesParenFree(e) ==> Count(e.String(), c) == Compounds(e)
      {
        CountAppend("(" + operator, r.String(), c);
        CountAppend("(", operator, c);
        CountAppend("(" + operator + r.String(), ")", c);
        assert Count("(", c) + Count(")", c) == 1 by {
          assert "("[..0] == ")"[..0] == "";
        }
      }
    case InfixExpression(_, operator, left, right) =>
      var l, r := left.value, right.value;
      RenderingParentheses(l);
      RenderingParentheses(r);
      forall c | c == '(' || c == ')'
        ensures LeavesParenFree(e) ==> Count(e.String(), c) == Compounds(e)
      {
        CountAppend("(", l.String(), c);
        CountAppend("(" + l.String(), operator, c);
        CountAppend("(" + l.String() + operator, r.String(), c);
        CountAppend("(" + l.String() + operator + r.String(), ")", c);
        assert Count("(", c) + Count(")", c) == 1 by {
          assert "("[..0] == ")"[..0] == "";
        }
      }
    case _ =>
  }

  /** node_prefix_expression_test: `!abc` renders as "(!abc)". */
  lemma PrefixRenderingFixture()
    ensures PrefixExpression(Token(Bang, "!"), "!",
      Some(Ident(Ast.Identifier(Token(TokenType.Identifier, "abc"), "abc")))).String() == "(!abc)"
  {
  }

  /** node_program_test: a program of one let statement renders as "let myVar = anotherVar;". */
  lemma ProgramRenderingFixture()
    ensures var stmt := LetStatement(Token(Let, "let"), Ast.Identifier(Token(TokenType.Identifier, "myVar"), "myVar"),
      Some(Ident(Ast.Identifier(Token(TokenType.Identifier, "anotherVar"), "anotherVar"))));
      Program([stmt]).Renderable() && Program([stmt]).String() == "let myVar = anotherVar;"
  {
    SingleStatementProgram(LetStatement(Token(Let, "let"), Ast.Identifier(Token(TokenType.Identifier, "myVar"), "myVar"),
      Some(Ident(Ast.Identifier(Token(TokenType.Identifier, "anotherVar"), "anotherVar")))));
  }
}
