/** The syntax tree the parser builds and its canonical rendering
    (ast/ast.go). Every node keeps the token it was parsed from; only the
    token's literal text is ever read, so a token is modelled by that text. */
module Ast {
  import opened Wrappers
  import opened Integers
  import opened Text

  datatype Token = Token(literal: string)

  datatype Identifier = Identifier(token: Token, value: string)
  {
    function TokenLiteral(): string { token.literal }

    function String(): string { value }
  }

  /** The expression nodes. `MapLiteral` keeps its pairs in the order they
      are listed. */
  datatype Expression =
    | Ident(ident: Identifier)
    | IntegerLiteral(token: Token, intValue: Int64)
    | PrefixExpression(token: Token, operator: string, right: Expression)
    | InfixExpression(token: Token, operator: string, left: Expression, right: Expression)
    | BooleanLiteral(token: Token, boolValue: bool)
    | NullLiteral(token: Token)
    | IfExpression(token: Token, condition: Expression, consequence: Block, alternative: Option<Block>)
    | StringLiteral(token: Token, strValue: string)
    | FunctionLiteral(token: Token, parameters: seq<Identifier>, body: Block)
    | CallExpression(token: Token, callee: Expression, arguments: seq<Expression>)
    | ArrayLiteral(token: Token, elements: seq<Expression>)
    | IndexExpression(token: Token, left: Expression, index: Expression)
    | MapLiteral(token: Token, pairs: seq<(Expression, Expression)>)
  {
    function TokenLiteral(): string
    {
      if Ident? then ident.TokenLiteral() else token.literal
    }

    function String(): string
      decreases this
    {
      match this
      case Ident(id) => id.String()
      case IntegerLiteral(tok, _) => tok.literal
      case PrefixExpression(_, op, right) => "(" + op + right.String() + ")"
      case InfixExpression(_, op, left, right) =>
        "(" + left.String() + " " + op + " " + right.String() + ")"
      case BooleanLiteral(tok, _) => tok.literal
      case NullLiteral(tok) => tok.literal
      case IfExpression(_, condition, consequence, alternative) =>
        "if" + condition.String() + " { " + consequence.String() + " }"
        + (if alternative.Some? then " else" + " { " + alternative.value.String() + " }" else "")
      case StringLiteral(_, value) => value
      case FunctionLiteral(tok, parameters, body) =>
        tok.literal + "(" + Join(IdentifierStrings(parameters), ", ") + ") { " + body.String() + " }"
      case CallExpression(_, callee, arguments) =>
        callee.String() + "("
        + Join(ExpressionStrings(arguments), ", ") + ")"
      case ArrayLiteral(_, elements) =>
        "[" + Join(ExpressionStrings(elements), ", ") + "]"
      case IndexExpression(_, left, index) => "(" + left.String() + "[" + index.String() + "])"
      case MapLiteral(_, pairs) =>
        "{" + Join(seq(|pairs|, i requires 0 <= i < |pairs| =>
                         pairs[i].0.String() + ": " + pairs[i].1.String()), ", ") + "}"
    }

    /** Every operator, identifier, keyword and literal text in this
        expression, its blocks included, is free of parentheses. */
    predicate ParenFreeLeaves()
      decreases this
    {
      match this
      case Ident(id) => ParenFree(id.value)
      case IntegerLiteral(tok, _) => ParenFree(tok.literal)
      case BooleanLiteral(tok, _) => ParenFree(tok.literal)
      case NullLiteral(tok) => ParenFree(tok.literal)
      case StringLiteral(_, value) => ParenFree(value)
      case PrefixExpression(_, op, right) => ParenFree(op) && right.ParenFreeLeaves()
      case InfixExpression(_, op, left, right) =>
        ParenFree(op) && left.ParenFreeLeaves() && right.ParenFreeLeaves()
      case CallExpression(_, callee, arguments) =>
        callee.ParenFreeLeaves() && forall i :: 0 <= i < |arguments| ==> arguments[i].ParenFreeLeaves()
      case ArrayLiteral(_, elements) =>
        forall i :: 0 <= i < |elements| ==> elements[i].ParenFreeLeaves()
      case IndexExpression(_, left, index) => left.ParenFreeLeaves() && index.ParenFreeLeaves()
      case IfExpression(_, condition, consequence, alternative) =>
        condition.ParenFreeLeaves() && consequence.ParenFreeLeaves()
        && (alternative.Some? ==> alternative.value.ParenFreeLeaves())
      case FunctionLiteral(tok, parameters, body) =>
        ParenFree(tok.literal) && (forall i :: 0 <= i < |parameters| ==> ParenFree(parameters[i].value))
        && body.ParenFreeLeaves()
      case MapLiteral(_, pairs) =>
        forall i :: 0 <= i < |pairs| ==> pairs[i].0.ParenFreeLeaves() && pairs[i].1.ParenFreeLeaves()
    }
  }

  function IdentifierStrings(ids: seq<Identifier>): (r: seq<string>)
    ensures |r| == |ids|
    ensures forall i :: 0 <= i < |ids| ==> r[i] == ids[i].value
  {
    seq(|ids|, i requires 0 <= i < |ids| => ids[i].String())
  }

  function ExpressionStrings(es: seq<Expression>): (r: seq<string>)
    ensures |r| == |es|
    ensures forall i :: 0 <= i < |es| ==> r[i] == es[i].String()
  {
    seq(|es|, i requires 0 <= i < |es| => es[i].String())
  }

  datatype Statement =
    | LetStatement(token: Token, name: Identifier, value: Option<Expression>)
    | ReturnStatement(token: Token, returnValue: Option<Expression>)
    | ExpressionStatement(token: Token, expression: Option<Expression>)
    | BlockStatement(block: Block)
  {
    function TokenLiteral(): string
    {
      if BlockStatement? then block.TokenLiteral() else token.literal
    }

    function String(): string
      decreases this
    {
      match this
      case LetStatement(tok, name, value) =>
        tok.literal + " " + name.String() + " = "
        + (if value.Some? then value.value.String() else "") + ";"
      case ReturnStatement(tok, returnValue) =>
        tok.literal + " " + (if returnValue.Some? then returnValue.value.String() else "") + ";"
      case ExpressionStatement(_, expression) =>
        if expression.Some? then expression.value.String() else ""
      case BlockStatement(block) => block.String()
    }

    predicate ParenFreeLeaves()
      decreases this
    {
      match this
      case LetStatement(tok, name, value) =>
        ParenFree(tok.literal) && ParenFree(name.value) && (value.Some? ==> value.value.ParenFreeLeaves())
      case ReturnStatement(tok, returnValue) =>
        ParenFree(tok.literal) && (returnValue.Some? ==> returnValue.value.ParenFreeLeaves())
      case ExpressionStatement(_, expression) =>
        expression.Some? ==> expression.value.ParenFreeLeaves()
      case BlockStatement(block) => block.ParenFreeLeaves()
    }
  }

  datatype Block = Block(token: Token, statements: seq<Statement>)
  {
    function TokenLiteral(): string { token.literal }

    /** The statements' renderings joined by single spaces. */
    function String(): string
      decreases this
    {
      Join(StatementStrings(statements), " ")
    }

    predicate ParenFreeLeaves()
      decreases this
    {
      forall i :: 0 <= i < |statements| ==> statements[i].ParenFreeLeaves()
    }
  }

  datatype Program = Program(statements: seq<Statement>)
  {
    /** The first statement's token literal, or "" for an empty program. */
    function TokenLiteral(): string
    {
      if |statements| > 0 then statements[0].TokenLiteral() else ""
    }

    /** The statements' renderings written one after another. */
    function String(): string
    {
      Concat(StatementStrings(statements))
    }
  }

  function StatementStrings(ss: seq<Statement>): (r: seq<string>)
    ensures |r| == |ss|
    ensures forall i :: 0 <= i < |ss| ==> r[i] == ss[i].String()
  {
    seq(|ss|, i requires 0 <= i < |ss| => ss[i].String())
  }

  // ---------------------------------------------------------------------
  // Parentheses in renderings

  function Delta(c: char): int
  {
    if c == '(' then 1 else if c == ')' then -1 else 0
  }

  /** Opening minus closing parentheses in `s`. */
  function Depth(s: string): int
  {
    if s == [] then 0 else Depth(s[..|s| - 1]) + Delta(s[|s| - 1])
  }

  predicate ParenFree(s: string)
  {
    forall i :: 0 <= i < |s| ==> s[i] != '(' && s[i] != ')'
  }

  /** Every `)` closes an earlier `(` and every `(` is closed. */
  predicate Balanced(s: string)
  {
    Depth(s) == 0 && forall k :: 0 <= k <= |s| ==> Depth(s[..k]) >= 0
  }

  /** `s` is one parenthesised group: its first `(` is closed by its last
      character and by no earlier one. */
  predicate Grouped(s: string)
  {
    |s| >= 2 && s[0] == '(' && s[|s| - 1] == ')' && Depth(s) == 0
    && forall k :: 1 <= k < |s| ==> Depth(s[..k]) >= 1
  }

  lemma {:induction false} DepthAppend(a: string, b: string)
    ensures Depth(a + b) == Depth(a) + Depth(b)
    decreases |b|
  {
    if b == [] {
      assert a + b == a;
    } else {
      var b' := b[..|b| - 1];
      assert (a + b)[..|a + b| - 1] == a + b';
      DepthAppend(a, b');
    }
  }

  lemma {:induction false} ParenFreeDepth(s: string)
    requires ParenFree(s)
    ensures Depth(s) == 0
    decreases |s|
  {
    if s != [] {
      ParenFreeDepth(s[..|s| - 1]);
    }
  }

  lemma ParenFreeBalanced(s: string)
    requires ParenFree(s)
    ensures Balanced(s)
  {
    ParenFreeDepth(s);
    forall k | 0 <= k <= |s|
      ensures Depth(s[..k]) >= 0
    {
      ParenFreeDepth(s[..k]);
    }
  }

  lemma BalancedConcat(a: string, b: string)
    requires Balanced(a) && Balanced(b)
    ensures Balanced(a + b)
  {
    DepthAppend(a, b);
    forall k | 0 <= k <= |a + b|
      ensures Depth((a + b)[..k]) >= 0
    {
      if k <= |a| {
        assert (a + b)[..k] == a[..k];
      } else {
        assert (a + b)[..k] == a + b[..k - |a|];
        DepthAppend(a, b[..k - |a|]);
      }
    }
  }

  /** Wrapping a balanced text in parentheses gives one group. */
  lemma WrapGrouped(m: string)
    requires Balanced(m)
    ensures Grouped("(" + m + ")")
  {
    var s := "(" + m + ")";
    assert s == ("(" + m) + ")";
    DepthAppend("(" + m, ")");
    DepthAppend("(", m);
    forall k | 1 <= k < |s|
      ensures Depth(s[..k]) >= 1
    {
      assert s[..k] == "(" + m[..k - 1];
      DepthAppend("(", m[..k - 1]);
    }
  }

  lemma GroupedBalanced(s: string)
    requires Grouped(s)
    ensures Balanced(s)
  {
    assert s[..|s|] == s;
    assert s[..0] == [];
  }

  lemma {:induction false} JoinBalanced(parts: seq<string>, sep: string)
    requires ParenFree(sep)
    requires forall i :: 0 <= i < |parts| ==> Balanced(parts[i])
    ensures Balanced(Join(parts, sep))
  {
    if |parts| == 0 {
      ParenFreeBalanced("");
    } else if |parts| > 1 {
      JoinBalanced(parts[1..], sep);
      ParenFreeBalanced(sep);
      BalancedConcat(parts[0], sep);
      BalancedConcat(parts[0] + sep, Join(parts[1..], sep));
    }
  }

  /** Renderings are fully parenthesised: as long as no identifier,
      keyword, literal or operator text itself holds a parenthesis, every
      expression, statement and block renders balanced, and a prefix, infix
      or index expression renders as a single parenthesised group. */
  lemma {:induction false} RenderingBalanced(e: Expression)
    requires e.ParenFreeLeaves()
    ensures Balanced(e.String())
    ensures e.PrefixExpression? || e.InfixExpression? || e.IndexExpression? ==> Grouped(e.String())
    decreases e
  {
    match e
    case Ident(id) => ParenFreeBalanced(id.value);
    case IntegerLiteral(tok, _) => ParenFreeBalanced(tok.literal);
    case BooleanLiteral(tok, _) => ParenFreeBalanced(tok.literal);
    case NullLiteral(tok) => ParenFreeBalanced(tok.literal);
    case StringLiteral(_, value) => ParenFreeBalanced(value);
    case PrefixExpression(_, op, right) =>
      RenderingBalanced(right);
      PrefixGrouped(e);
    case InfixExpression(_, op, left, right) =>
      RenderingBalanced(left);
      RenderingBalanced(right);
      InfixGrouped(e);
    case IndexExpression(_, left, index) =>
      RenderingBalanced(left);
      RenderingBalanced(index);
      IndexGrouped(e);
    case CallExpression(_, callee, arguments) =>
      forall i | 0 <= i < |arguments|
        ensures Balanced(arguments[i].String())
      {
        RenderingBalanced(arguments[i]);
      }
      RenderingBalanced(callee);
      CallBalanced(e);
    case ArrayLiteral(_, elements) =>
      forall i | 0 <= i < |elements|
        ensures Balanced(elements[i].String())
      {
        RenderingBalanced(elements[i]);
      }
      ArrayBalanced(e);
    case IfExpression(_, condition, consequence, alternative) =>
      RenderingBalanced(condition);
      BlockBalanced(consequence);
      if alternative.Some? {
        BlockBalanced(alternative.value);
      }
      IfBalanced(e);
    case FunctionLiteral(_, _, body) =>
      BlockBalanced(body);
      FunctionBalanced(e);
    case MapLiteral(_, pairs) =>
      forall i | 0 <= i < |pairs|
        ensures Balanced(pairs[i].0.String()) && Balanced(pairs[i].1.String())
      {
        RenderingBalanced(pairs[i].0);
        RenderingBalanced(pairs[i].1);
      }
      MapBalanced(e);
  }

  lemma {:induction false} StatementBalanced(s: Statement)
    requires s.ParenFreeLeaves()
    ensures Balanced(s.String())
    decreases s
  {
    match s
    case LetStatement(tok, name, value) =>
      if value.Some? {
        RenderingBalanced(value.value);
      }
      LetBalanced(s);
    case ReturnStatement(tok, returnValue) =>
      if returnValue.Some? {
        RenderingBalanced(returnValue.value);
      }
      ReturnBalanced(s);
    case ExpressionStatement(_, expression) =>
      if expression.Some? {
        RenderingBalanced(expression.value);
      } else {
        ParenFreeBalanced("");
      }
    case BlockStatement(block) =>
      BlockBalanced(block);
  }

  lemma {:induction false} BlockBalanced(b: Block)
    requires b.ParenFreeLeaves()
    ensures Balanced(b.String())
    decreases b
  {
    var parts := StatementStrings(b.statements);
    forall i | 0 <= i < |parts|
      ensures Balanced(parts[i])
    {
      StatementBalanced(b.statements[i]);
    }
    assert ParenFree(" ");
    JoinBalanced(parts, " ");
  }

  /** Balanced pieces and parenthesis-free glue concatenate to a balanced text. */
  lemma Glue3(a: string, glue: string, b: string)
    requires Balanced(a) && ParenFree(glue) && Balanced(b)
    ensures Balanced(a + glue + b)
  {
    ParenFreeBalanced(glue);
    BalancedConcat(a, glue);
    BalancedConcat(a + glue, b);
  }

  lemma IfBalanced(e: Expression)
    requires e.IfExpression? && Balanced(e.condition.String()) && Balanced(e.consequence.String())
    requires e.alternative.Some? ==> Balanced(e.alternative.value.String())
    ensures Balanced(e.String())
  {
    var head := "if" + e.condition.String();
    var tail := if e.alternative.Some? then " else" + " { " + e.alternative.value.String() + " }" else "";
    assert e.String() == head + " { " + e.consequence.String() + " }" + tail;
    assert ParenFree("if");
    ParenFreeBalanced("if");
    BalancedConcat("if", e.condition.String());
    BodyBalanced(head, e.consequence.String());
    if e.alternative.Some? {
      assert ParenFree(" else");
      ParenFreeBalanced(" else");
      BodyBalanced(" else", e.alternative.value.String());
    } else {
      ParenFreeBalanced("");
    }
    BalancedConcat(head + " { " + e.consequence.String() + " }", tail);
  }

  lemma FunctionBalanced(e: Expression)
    requires e.FunctionLiteral? && ParenFree(e.token.literal) && Balanced(e.body.String())
    requires forall i :: 0 <= i < |e.parameters| ==> ParenFree(e.parameters[i].value)
    ensures Balanced(e.String())
  {
    var names := IdentifierStrings(e.parameters);
    var list := "(" + Join(names, ", ") + ")";
    var body := e.body.String();
    assert e.String() == e.token.literal + list + " { " + body + " }";
    ParameterListBalanced(e.parameters);
    ParenFreeBalanced(e.token.literal);
    BalancedConcat(e.token.literal, list);
    BodyBalanced(e.token.literal + list, body);
  }

  lemma ParameterListBalanced(parameters: seq<Identifier>)
    requires forall i :: 0 <= i < |parameters| ==> ParenFree(parameters[i].value)
    ensures Balanced("(" + Join(IdentifierStrings(parameters), ", ") + ")")
  {
    var names := IdentifierStrings(parameters);
    forall i | 0 <= i < |names|
      ensures Balanced(names[i])
    {
      ParenFreeBalanced(names[i]);
    }
    JoinBalanced(names, ", ");
    WrapGrouped(Join(names, ", "));
    GroupedBalanced("(" + Join(names, ", ") + ")");
  }

  /** `<head> { <body> }` is balanced when the head and the body are. */
  lemma BodyBalanced(head: string, body: string)
    requires Balanced(head) && Balanced(body)
    ensures Balanced(head + " { " + body + " }")
  {
    assert ParenFree(" { ");
    Glue3(head, " { ", body);
    ParenFreeBalanced(" }");
    BalancedConcat(head + " { " + body, " }");
  }

  lemma MapBalanced(e: Expression)
    requires e.MapLiteral?
    requires forall i :: 0 <= i < |e.pairs| ==> Balanced(e.pairs[i].0.String()) && Balanced(e.pairs[i].1.String())
    ensures Balanced(e.String())
  {
    var pairs := e.pairs;
    var parts := seq(|pairs|, i requires 0 <= i < |pairs| => pairs[i].0.String() + ": " + pairs[i].1.String());
    forall i | 0 <= i < |parts|
      ensures Balanced(parts[i])
    {
      assert ParenFree(": ");
      Glue3(pairs[i].0.String(), ": ", pairs[i].1.String());
    }
    JoinBalanced(parts, ", ");
    ParenFreeBalanced("{");
    ParenFreeBalanced("}");
    BalancedConcat("{", Join(parts, ", "));
    BalancedConcat("{" + Join(parts, ", "), "}");
    assert e.String() == "{" + Join(parts, ", ") + "}";
  }

  lemma LetBalanced(s: Statement)
    requires s.LetStatement? && ParenFree(s.token.literal) && ParenFree(s.name.value)
    requires s.value.Some? ==> Balanced(s.value.value.String())
    ensures Balanced(s.String())
  {
    var v := if s.value.Some? then s.value.value.String() else "";
    if s.value.None? {
      ParenFreeBalanced("");
    }
    var head := s.token.literal + " " + s.name.value + " = ";
    assert ParenFree(head);
    ParenFreeBalanced(head);
    ParenFreeBalanced(";");
    BalancedConcat(head, v);
    BalancedConcat(head + v, ";");
    assert s.String() == head + v + ";";
  }

  lemma ReturnBalanced(s: Statement)
    requires s.ReturnStatement? && ParenFree(s.token.literal)
    requires s.returnValue.Some? ==> Balanced(s.returnValue.value.String())
    ensures Balanced(s.String())
  {
    var v := if s.returnValue.Some? then s.returnValue.value.String() else "";
    if s.returnValue.None? {
      ParenFreeBalanced("");
    }
    var head := s.token.literal + " ";
    assert ParenFree(head);
    ParenFreeBalanced(head);
    ParenFreeBalanced(";");
    BalancedConcat(head, v);
    BalancedConcat(head + v, ";");
    assert s.String() == head + v + ";";
  }

  lemma PrefixGrouped(e: Expression)
    requires e.PrefixExpression? && ParenFree(e.operator) && Balanced(e.right.String())
    ensures Grouped(e.String()) && Balanced(e.String())
  {
    ParenFreeBalanced(e.operator);
    BalancedConcat(e.operator, e.right.String());
    assert e.String() == "(" + (e.operator + e.right.String()) + ")";
    WrapGrouped(e.operator + e.right.String());
    GroupedBalanced(e.String());
  }

  lemma InfixGrouped(e: Expression)
    requires e.InfixExpression? && ParenFree(e.operator)
    requires Balanced(e.left.String()) && Balanced(e.right.String())
    ensures Grouped(e.String()) && Balanced(e.String())
  {
    var l, r := e.left.String(), e.right.String();
    var mid := " " + e.operator + " ";
    assert ParenFree(mid);
    ParenFreeBalanced(mid);
    BalancedConcat(l, mid);
    BalancedConcat(l + mid, r);
    assert e.String() == "(" + (l + mid + r) + ")";
    WrapGrouped(l + mid + r);
    GroupedBalanced(e.String());
  }

  lemma IndexGrouped(e: Expression)
    requires e.IndexExpression? && Balanced(e.left.String()) && Balanced(e.index.String())
    ensures Grouped(e.String()) && Balanced(e.String())
  {
    var l, x := e.left.String(), e.index.String();
    ParenFreeBalanced("[");
    ParenFreeBalanced("]");
    BalancedConcat(l, "[");
    BalancedConcat(l + "[", x);
    BalancedConcat(l + "[" + x, "]");
    assert e.String() == "(" + (l + "[" + x + "]") + ")";
    WrapGrouped(l + "[" + x + "]");
    GroupedBalanced(e.String());
  }

  lemma CallBalanced(e: Expression)
    requires e.CallExpression? && Balanced(e.callee.String())
    requires forall i :: 0 <= i < |e.arguments| ==> Balanced(e.arguments[i].String())
    ensures Balanced(e.String())
  {
    var parts := ExpressionStrings(e.arguments);
    var inner := "(" + Join(parts, ", ") + ")";
    assert e.String() == e.callee.String() + inner;
    JoinBalanced(parts, ", ");
    WrapGrouped(Join(parts, ", "));
    GroupedBalanced(inner);
    BalancedConcat(e.callee.String(), inner);
  }

  lemma ArrayBalanced(e: Expression)
    requires e.ArrayLiteral?
    requires forall i :: 0 <= i < |e.elements| ==> Balanced(e.elements[i].String())
    ensures Balanced(e.String())
  {
    var parts := ExpressionStrings(e.elements);
    JoinBalanced(parts, ", ");
    ParenFreeBalanced("[");
    ParenFreeBalanced("]");
    BalancedConcat("[", Join(parts, ", "));
    BalancedConcat("[" + Join(parts, ", "), "]");
  }

  // ---------------------------------------------------------------------
  // Statements

  /** A let statement renders `<token> <name> = <value>;`; without a value
      it still ends in ` = ;`, and adding the value inserts its rendering
      just before the `;`. */
  lemma LetRendering(tok: Token, name: Identifier, value: Expression)
    ensures var bare := LetStatement(tok, name, None).String();
      bare == tok.literal + " " + name.value + " = ;"
      && LetStatement(tok, name, Some(value)).String() == bare[..|bare| - 1] + value.String() + ";"
  {
    var bare := LetStatement(tok, name, None).String();
    assert bare[..|bare| - 1] == tok.literal + " " + name.value + " = ";
  }

  /** A return statement renders its token literal, a space, the optional
      value and `;`. */
  lemma ReturnRendering(tok: Token, value: Expression)
    ensures ReturnStatement(tok, None).String() == tok.literal + " ;"
    ensures ReturnStatement(tok, Some(value)).String() == tok.literal + " " + value.String() + ";"
  {
  }

  /** A let or return statement never renders empty (it always ends in
      `;`); an expression statement renders empty exactly when it has no
      expression or its expression renders empty. */
  lemma StatementRenderingEmpty(s: Statement)
    requires !s.BlockStatement?
    ensures s.String() == "" <==>
      s.ExpressionStatement? && (s.expression.None? || s.expression.value.String() == "")
    ensures s.LetStatement? || s.ReturnStatement? ==> s.String()[|s.String()| - 1] == ';'
  {
  }

  /** The `else` part appears exactly when there is an alternative: the
      rendering with one is the rendering without it followed by
      ` else { <alternative> }`. */
  lemma IfRendering(tok: Token, condition: Expression, consequence: Block, alternative: Block)
    ensures var without := IfExpression(tok, condition, consequence, None).String();
      without == "if" + condition.String() + " { " + consequence.String() + " }"
      && IfExpression(tok, condition, consequence, Some(alternative)).String()
         == without + " else { " + alternative.String() + " }"
  {
  }

  /** Adding one more element to a non-empty array literal adds `, ` and
      its rendering before the closing bracket: elements are joined by
      `, ` in order. */
  lemma ArrayElementAppended(tok: Token, elements: seq<Expression>, e: Expression)
    requires |elements| > 0
    ensures var before := ArrayLiteral(tok, elements).String();
      ArrayLiteral(tok, elements + [e]).String() == before[..|before| - 1] + ", " + e.String() + "]"
  {
    var parts := ExpressionStrings(elements);
    var before := ArrayLiteral(tok, elements).String();
    assert before == "[" + Join(parts, ", ") + "]";
    assert before[..|before| - 1] == "[" + Join(parts, ", ");
    JoinedAppend(elements, e);
  }

  /** The same for the arguments of a call: `callee(a, b)` gains `, c`. */
  lemma CallArgumentAppended(tok: Token, callee: Expression, arguments: seq<Expression>, a: Expression)
    requires |arguments| > 0
    ensures var before := CallExpression(tok, callee, arguments).String();
      CallExpression(tok, callee, arguments + [a]).String() == before[..|before| - 1] + ", " + a.String() + ")"
  {
    var parts := ExpressionStrings(arguments);
    var before := CallExpression(tok, callee, arguments).String();
    assert before == callee.String() + "(" + Join(parts, ", ") + ")";
    assert before[..|before| - 1] == callee.String() + "(" + Join(parts, ", ");
    JoinedAppend(arguments, a);
  }

  /** Expressions joined by `, `, one more at the end. */
  lemma JoinedAppend(es: seq<Expression>, e: Expression)
    requires |es| > 0
    ensures Join(ExpressionStrings(es + [e]), ", ") == Join(ExpressionStrings(es), ", ") + ", " + e.String()
  {
    assert ExpressionStrings(es + [e]) == ExpressionStrings(es) + [e.String()];
    JoinSnoc(ExpressionStrings(es), e.String(), ", ");
  }

  /** A function literal renders `<token>(<parameters joined by ", ">) { <body> }`,
      so adding a parameter adds `, <name>` to the parameter list. */
  lemma ParameterAppended(tok: Token, parameters: seq<Identifier>, p: Identifier, body: Block)
    requires |parameters| > 0
    ensures FunctionLiteral(tok, parameters + [p], body).String()
         == tok.literal + "(" + Join(IdentifierStrings(parameters), ", ") + ", " + p.value
            + ") { " + body.String() + " }"
  {
    assert IdentifierStrings(parameters + [p]) == IdentifierStrings(parameters) + [p.value];
    JoinSnoc(IdentifierStrings(parameters), p.value, ", ");
  }

  /** The rendering of an index expression is `(<left>[<index>])`. */
  lemma IndexRendering(tok: Token, left: Expression, index: Expression)
    ensures var s := IndexExpression(tok, left, index).String();
      |s| == |left.String()| + |index.String()| + 4
      && s[..|s| - 2] == "(" + left.String() + "[" + index.String()
      && s[|s| - 2..] == "])"
  {
  }

  // ---------------------------------------------------------------------
  // Programs and blocks

  /** Rendering a program distributes over splitting its statements: there
      is no separator between statements. */
  lemma ProgramRenderingAppend(a: seq<Statement>, b: seq<Statement>)
    ensures Program(a + b).String() == Program(a).String() + Program(b).String()
  {
    assert StatementStrings(a + b) == StatementStrings(a) + StatementStrings(b);
    ConcatAppend(StatementStrings(a), StatementStrings(b));
  }

  /** A block renders the same statements as a program, with exactly one
      extra space between each two neighbours. */
  lemma BlockRenderingLength(tok: Token, statements: seq<Statement>)
    requires |statements| > 0
    ensures |Block(tok, statements).String()| == |Program(statements).String()| + |statements| - 1
  {
    var parts := StatementStrings(statements);
    JoinLength(parts, " ");
  }

  /** A block renders its statements joined by exactly one space: one more
      statement adds a space and its rendering, and one statement renders
      alone. */
  lemma BlockRenderingAppend(tok: Token, statements: seq<Statement>, s: Statement)
    ensures Block(tok, [s]).String() == s.String()
    ensures |statements| > 0 ==>
      Block(tok, statements + [s]).String() == Block(tok, statements).String() + " " + s.String()
  {
    assert StatementStrings([s]) == [s.String()];
    if |statements| > 0 {
      assert StatementStrings(statements + [s]) == StatementStrings(statements) + [s.String()];
      JoinSnoc(StatementStrings(statements), s.String(), " ");
    }
  }

  /** The token literal of a program is that of its first statement, so
      statements added at the end do not change it. */
  lemma ProgramTokenLiteral(a: seq<Statement>, b: seq<Statement>)
    ensures Program([]).TokenLiteral() == ""
    ensures |a| > 0 ==> Program(a + b).TokenLiteral() == a[0].TokenLiteral()
  {
  }
}
