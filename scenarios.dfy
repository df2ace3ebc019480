/**
 * Worked inputs under the default grammar with the variables `X`, `Y` and
 * `Z` registered, and the stages they take through the lexer and parser.
 */
module Scenarios {
  import opened Tokens
  import opened Operators
  import opened Functions
  import opened VarNum
  import opened Registry
  import opened Lexer
  import opened Shunter

  const X: Token := Token.Variable(Var("X"))
  const Y: Token := Token.Variable(Var("Y"))
  const Z: Token := Token.Variable(Var("Z"))
  const Negate: Token := Operator(Unary(UnaryOp("-", 10, false, [NoToken, LeftParen])))
  const Minus: Token := Operator(Binary(BinaryOp("-", 3, false)))
  const Plus: Token := Operator(Binary(BinaryOp("+", 3, false)))
  const Times: Token := Operator(Binary(BinaryOp("*", 5, false)))
  const Sin: Token := Function(Func("sin", 1))

  /** A recogniser that finds no numbers. */
  function NoNumber(s: string): Option<string> {
    None
  }

  /** The default registry after registering `X`, `Y` and `Z`, in that order. */
  predicate DefaultWithXYZ(ctx: Context)
    reads ctx
  {
    && ctx.unaryOperators == DefaultUnaryOperators()
    && ctx.binaryOperators == DefaultBinaryOperators()
    && ctx.functions == DefaultFunctions()
    && ctx.variables == [Var("X"), Var("Y"), Var("Z")]
  }

  lemma DefaultWithXYZValid(ctx: Context)
    requires DefaultWithXYZ(ctx)
    ensures ctx.Valid()
  {
    assert forall v :: v in ctx.variables ==> v.token != [];
  }

  /** Text starting with one of the letters `X`, `Y`, `Z` or `s` matches no default operator. */
  lemma NoDefaultOperatorAt(expr: string, tokens: seq<Token>)
    requires |tokens| > 0 && |expr| > 0 && expr[0] in {'X', 'Y', 'Z', 's'}
    ensures BeginsWithUnaryOperator(expr, tokens, DefaultUnaryOperators()) == None
    ensures BeginsWithBinaryOperator(expr, DefaultBinaryOperators()) == None
  {
    var bops := DefaultBinaryOperators();
    assert !("-" <= expr);
    forall i | 0 <= i < |bops| ensures !(bops[i].token <= expr) {
      assert |bops[i].token| == 1 && bops[i].token[0] != expr[0];
    }
  }

  /** Text starting with one of the letters `X`, `Y`, `Z` or `s` matches no operator. */
  lemma NoOperatorAt(expr: string, tokens: seq<Token>, ctx: Context)
    requires DefaultWithXYZ(ctx) && |tokens| > 0
    requires |expr| > 0 && expr[0] in {'X', 'Y', 'Z', 's'}
    ensures !IsStructural(expr[0])
    ensures BeginsWithUnaryOperator(expr, tokens, ctx.unaryOperators) == None
    ensures BeginsWithBinaryOperator(expr, ctx.binaryOperators) == None
  {
    NoDefaultOperatorAt(expr, tokens);
  }

  /** Of `X`, `Y` and `Z`, the one that starts the text is the variable recognised. */
  lemma VariableAt(expr: string)
    requires |expr| > 0 && expr[0] in {'X', 'Y', 'Z'}
    ensures BeginsWithVariable(expr, [Var("X"), Var("Y"), Var("Z")]) == Some(Var([expr[0]]))
  {
    var vs := [Var("X"), Var("Y"), Var("Z")];
    assert vs[1..] == [Var("Y"), Var("Z")] && vs[1..][1..] == [Var("Z")];
    if expr[0] == 'X' {
      assert "X" <= expr;
    } else if expr[0] == 'Y' {
      assert !("X" <= expr) && "Y" <= expr;
    } else {
      assert !("X" <= expr) && !("Y" <= expr) && "Z" <= expr;
    }
  }

  /**
   * A variable name of one letter at the head of the text: no operator or
   * function matches it, so the variable recogniser takes it.
   */
  lemma VariableStep(expr: string, tokens: seq<Token>, ctx: Context)
    requires DefaultWithXYZ(ctx) && |tokens| > 0
    requires |expr| > 0 && expr[0] in {'X', 'Y', 'Z'}
    ensures LexTokenSafe(expr, tokens, ctx, NoNumber)
    ensures LexToken(expr, tokens, ctx, NoNumber) == (Token.Variable(Var([expr[0]])), expr[1..])
  {
    NoOperatorAt(expr, tokens, ctx);
    NamedVariableStep(expr, ctx);
  }

  /** Past the operator stages, a one-letter variable name is taken by the variable recogniser. */
  lemma NamedVariableStep(expr: string, ctx: Context)
    requires DefaultWithXYZ(ctx)
    requires |expr| > 0 && expr[0] in {'X', 'Y', 'Z'}
    ensures NamedOrNumberSafe(expr, ctx, NoNumber)
    ensures LexNamedOrNumber(expr, ctx, NoNumber) == (Token.Variable(Var([expr[0]])), expr[1..])
  {
    assert FirstFunction(expr, DefaultFunctions()) == None by {
      assert !("sin" <= expr);
    }
    VariableAt(expr);
    assert |[expr[0]]| == 1;
  }

  /** A `(`, `)` or `,` at the head of the text is taken first, one character long. */
  lemma StructuralStep(expr: string, tokens: seq<Token>, ctx: Context, number: NumberRecognizer)
    requires |tokens| > 0 && |expr| > 0 && IsStructural(expr[0])
    ensures LexTokenSafe(expr, tokens, ctx, number)
    ensures LexToken(expr, tokens, ctx, number)
      == (if expr[0] == '(' then LeftParen else if expr[0] == ')' then RightParen else Comma, expr[1..])
  {
  }

  /** A `-` is negation at the start or after `(`, and subtraction anywhere else. */
  lemma MinusStep(expr: string, tokens: seq<Token>, ctx: Context)
    requires DefaultWithXYZ(ctx) && |tokens| > 0
    requires |expr| > 0 && expr[0] == '-'
    ensures LexTokenSafe(expr, tokens, ctx, NoNumber)
    ensures LexToken(expr, tokens, ctx, NoNumber)
      == (if tokens[|tokens| - 1] in {NoToken, LeftParen} then Negate else Minus, expr[1..])
  {
    DefaultMinusDisambiguation(expr, tokens);
    var uops := DefaultUnaryOperators();
    if tokens[|tokens| - 1] in {NoToken, LeftParen} {
      assert UnaryApplies(uops[0], expr, tokens[|tokens| - 1]);
    }
  }

  /** A scan whose next token `t` leaves nothing behind ends with `t`. */
  lemma LexLast(rest: string, tokens: seq<Token>, ctx: Context, t: Token)
    requires ctx.Valid() && |tokens| > 0 && LexTokenSafe(rest, tokens, ctx, NoNumber)
    requires LexToken(rest, tokens, ctx, NoNumber) == (t, []) && t != NoToken
    ensures LexSafe(rest, tokens, ctx, NoNumber)
    ensures LexFrom(rest, tokens, ctx, NoNumber) == Ok(tokens + [t])
  {
  }

  /** A scan whose next token `t` leaves text `r` behind goes on from `r` with `t` recorded. */
  lemma LexThen(rest: string, tokens: seq<Token>, ctx: Context, t: Token, r: string, res: Result<seq<Token>, Error>)
    requires ctx.Valid() && |tokens| > 0 && LexTokenSafe(rest, tokens, ctx, NoNumber)
    requires LexToken(rest, tokens, ctx, NoNumber) == (t, r) && t != NoToken && r != []
    requires LexSafe(r, tokens + [t], ctx, NoNumber) && LexFrom(r, tokens + [t], ctx, NoNumber) == res
    ensures LexSafe(rest, tokens, ctx, NoNumber)
    ensures LexFrom(rest, tokens, ctx, NoNumber) == res
  {
  }

  /** A one-letter variable name that ends the text ends the scan. */
  lemma VariableLast(c: char, tokens: seq<Token>, ctx: Context)
    requires DefaultWithXYZ(ctx) && |tokens| > 0 && c in {'X', 'Y', 'Z'}
    ensures LexSafe([c], tokens, ctx, NoNumber)
    ensures LexFrom([c], tokens, ctx, NoNumber) == Ok(tokens + [Token.Variable(Var([c]))])
  {
    DefaultWithXYZValid(ctx);
    VariableStep([c], tokens, ctx);
    assert [c][1..] == [];
    LexLast([c], tokens, ctx, Token.Variable(Var([c])));
  }

  /** A one-letter variable name followed by more text is recorded, and the scan goes on. */
  lemma VariableThen(c: char, rest: string, tokens: seq<Token>, ctx: Context, res: Result<seq<Token>, Error>)
    requires DefaultWithXYZ(ctx) && |tokens| > 0 && c in {'X', 'Y', 'Z'} && rest != []
    requires var t := Token.Variable(Var([c]));
      LexSafe(rest, tokens + [t], ctx, NoNumber) && LexFrom(rest, tokens + [t], ctx, NoNumber) == res
    ensures LexSafe([c] + rest, tokens, ctx, NoNumber)
    ensures LexFrom([c] + rest, tokens, ctx, NoNumber) == res
  {
    var expr := [c] + rest;
    var t := Token.Variable(Var([c]));
    assert LexTokenSafe(expr, tokens, ctx, NoNumber) && LexToken(expr, tokens, ctx, NoNumber) == (t, rest) by {
      VariableStep(expr, tokens, ctx);
      assert expr[0] == c && expr[1..] == rest;
    }
    DefaultWithXYZValid(ctx);
    LexThen(expr, tokens, ctx, t, rest, res);
  }

  /** A `-` followed by more text is recorded as negation or subtraction, and the scan goes on. */
  lemma MinusThen(rest: string, tokens: seq<Token>, ctx: Context, res: Result<seq<Token>, Error>)
    requires DefaultWithXYZ(ctx) && |tokens| > 0 && rest != []
    requires var t := if tokens[|tokens| - 1] in {NoToken, LeftParen} then Negate else Minus;
      LexSafe(rest, tokens + [t], ctx, NoNumber) && LexFrom(rest, tokens + [t], ctx, NoNumber) == res
    ensures LexSafe("-" + rest, tokens, ctx, NoNumber)
    ensures LexFrom("-" + rest, tokens, ctx, NoNumber) == res
  {
    var expr := "-" + rest;
    var t := if tokens[|tokens| - 1] in {NoToken, LeftParen} then Negate else Minus;
    assert LexTokenSafe(expr, tokens, ctx, NoNumber) && LexToken(expr, tokens, ctx, NoNumber) == (t, rest) by {
      MinusStep(expr, tokens, ctx);
      assert expr[1..] == rest;
    }
    DefaultWithXYZValid(ctx);
    LexThen(expr, tokens, ctx, t, rest, res);
  }

  /** A `-` at the start of the text is negation. */
  lemma LexLeadingMinus(ctx: Context)
    requires DefaultWithXYZ(ctx)
    ensures LexSafe("-X", [NoToken], ctx, NoNumber)
    ensures LexFrom("-X", [NoToken], ctx, NoNumber) == Ok([NoToken, Negate, X])
  {
    VariableLast('X', [NoToken, Negate], ctx);
    assert [NoToken] + [Negate] == [NoToken, Negate];
    assert [NoToken, Negate] + [X] == [NoToken, Negate, X];
    assert "-" + "X" == "-X";
    MinusThen("X", [NoToken], ctx, Ok([NoToken, Negate, X]));
  }

  /** A `-` after an operand or an operator, then a one-letter variable name that ends the text. */
  lemma MinusVariableLast(c: char, tokens: seq<Token>, ctx: Context)
    requires DefaultWithXYZ(ctx) && |tokens| > 0 && tokens[|tokens| - 1] !in {NoToken, LeftParen}
    requires c in {'X', 'Y', 'Z'}
    ensures LexSafe("-" + [c], tokens, ctx, NoNumber)
    ensures LexFrom("-" + [c], tokens, ctx, NoNumber) == Ok(tokens + [Minus, Token.Variable(Var([c]))])
  {
    var v := Token.Variable(Var([c]));
    assert LexSafe([c], tokens + [Minus], ctx, NoNumber)
      && LexFrom([c], tokens + [Minus], ctx, NoNumber) == Ok(tokens + [Minus, v]) by {
      VariableLast(c, tokens + [Minus], ctx);
      assert (tokens + [Minus]) + [v] == tokens + [Minus, v];
    }
    MinusThen([c], tokens, ctx, Ok(tokens + [Minus, v]));
  }

  /** A `-` after a variable is subtraction. */
  lemma LexInfixMinus(ctx: Context)
    requires DefaultWithXYZ(ctx)
    ensures LexSafe("X-Y", [NoToken], ctx, NoNumber)
    ensures LexFrom("X-Y", [NoToken], ctx, NoNumber) == Ok([NoToken, X, Minus, Y])
  {
    var r := Ok([NoToken, X, Minus, Y]);
    assert ['X'] + "-Y" == "X-Y";
    assert LexSafe("-Y", [NoToken] + [X], ctx, NoNumber) && LexFrom("-Y", [NoToken] + [X], ctx, NoNumber) == r by {
      assert "-" + ['Y'] == "-Y";
      assert [NoToken] + [X] == [NoToken, X];
      assert [NoToken, X] + [Minus, Y] == [NoToken, X, Minus, Y];
      MinusVariableLast('Y', [NoToken, X], ctx);
    }
    VariableThen('X', "-Y", [NoToken], ctx, r);
  }

  /** Two `-` and a variable after a history that does not end in `NoToken` or `(`: both `-` subtract. */
  lemma MinusMinusVariable(b: char, h: seq<Token>, ctx: Context)
    requires DefaultWithXYZ(ctx) && |h| > 0 && h[|h| - 1] !in {NoToken, LeftParen} && b in {'X', 'Y', 'Z'}
    ensures LexSafe("-" + ("-" + [b]), h, ctx, NoNumber)
    ensures LexFrom("-" + ("-" + [b]), h, ctx, NoNumber) == Ok(h + [Minus, Minus, Token.Variable(Var([b]))])
  {
    var tb := Token.Variable(Var([b]));
    var res := Ok(h + [Minus, Minus, tb]);
    var h2 := h + [Minus];
    assert LexSafe("-" + [b], h2, ctx, NoNumber) && LexFrom("-" + [b], h2, ctx, NoNumber) == res by {
      assert h2[|h2| - 1] == Minus && h2[|h2| - 1] !in {NoToken, LeftParen};
      MinusVariableLast(b, h2, ctx);
      assert h2 + [Minus, tb] == h + [Minus, Minus, tb];
    }
    MinusThen("-" + [b], h, ctx, res);
  }

  /** A variable, two `-` and a variable, after any history. */
  lemma VariableMinusMinusVariable(a: char, b: char, tokens: seq<Token>, ctx: Context)
    requires DefaultWithXYZ(ctx) && |tokens| > 0 && a in {'X', 'Y', 'Z'} && b in {'X', 'Y', 'Z'}
    ensures LexSafe([a] + ("-" + ("-" + [b])), tokens, ctx, NoNumber)
    ensures LexFrom([a] + ("-" + ("-" + [b])), tokens, ctx, NoNumber)
      == Ok(tokens + [Token.Variable(Var([a])), Minus, Minus, Token.Variable(Var([b]))])
  {
    var ta := Token.Variable(Var([a]));
    var tb := Token.Variable(Var([b]));
    var res := Ok(tokens + [ta, Minus, Minus, tb]);
    var h := tokens + [ta];
    assert LexSafe("-" + ("-" + [b]), h, ctx, NoNumber) && LexFrom("-" + ("-" + [b]), h, ctx, NoNumber) == res by {
      assert h[|h| - 1] == ta && h[|h| - 1] !in {NoToken, LeftParen};
      MinusMinusVariable(b, h, ctx);
      assert h + [Minus, Minus, tb] == tokens + [ta, Minus, Minus, tb];
    }
    VariableThen(a, "-" + ("-" + [b]), tokens, ctx, res);
  }

  /**
   * A `-` after another operator is subtraction as well: negation is allowed
   * only at the start or after `(`, so `X--Y` scans as two subtractions.
   */
  lemma LexDoubleMinus(ctx: Context)
    requires DefaultWithXYZ(ctx)
    ensures LexSafe("X--Y", [NoToken], ctx, NoNumber)
    ensures LexFrom("X--Y", [NoToken], ctx, NoNumber) == Ok([NoToken, X, Minus, Minus, Y])
  {
    assert "X--Y" == ['X'] + ("-" + ("-" + ['Y']));
    VariableMinusMinusVariable('X', 'Y', [NoToken], ctx);
    assert [NoToken] + [X, Minus, Minus, Y] == [NoToken, X, Minus, Minus, Y];
  }

  /** After the name in `sin(X,Y)`: `(` first, `)` at 4, one comma between them. */
  lemma SinParentheses()
    ensures var rest := "sin(X,Y)"[3..];
      && IndexOf(rest, '(') == Some(0) && IndexOf(rest, ')') == Some(4)
      && CountOf(rest[0..4], ',') == 1
  {
    var rest := "sin(X,Y)"[3..];
    assert rest == "(X,Y)";
    assert IndexOf(rest, '(') == Some(0);
    CloseAtFour();
    assert rest[0..4] == "(X,Y";
    OneComma();
  }

  /** The first `)` of `(X,Y)` is at position 4. */
  lemma CloseAtFour()
    ensures IndexOf("(X,Y)", ')') == Some(4)
  {
    assert "(X,Y)"[1..] == "X,Y)" && "X,Y)"[1..] == ",Y)" && ",Y)"[1..] == "Y)" && "Y)"[1..] == ")";
  }

  /** `(X,Y` holds one comma. */
  lemma OneComma()
    ensures CountOf("(X,Y", ',') == 1
  {
    assert "(X,Y"[1..] == "X,Y" && "X,Y"[1..] == ",Y" && ",Y"[1..] == "Y" && "Y"[1..] == "";
  }

  /** `sin(X,Y)` has one comma between its parentheses, where `sin` wants none. */
  lemma SinArityMismatch()
    ensures !FunctionPanics("sin(X,Y)", DefaultFunctions())
    ensures BeginsWithFunction("sin(X,Y)", DefaultFunctions()) == Err(CommaCountMismatch)
  {
    assert FirstFunction("sin(X,Y)", DefaultFunctions()) == Some(Func("sin", 1)) by {
      assert "sin" <= "sin(X,Y)";
    }
    SinParentheses();
  }

  /**
   * `sin` declares one input, so `sin(X,Y)` fails the call check; the failure
   * is not reported but passed over, and as no variable or number starts
   * the text either, the scan stops with an error.
   */
  lemma LexWrongArity(ctx: Context)
    requires DefaultWithXYZ(ctx)
    ensures LexSafe("sin(X,Y)", [NoToken], ctx, NoNumber)
    ensures !FunctionPanics("sin(X,Y)", ctx.functions)
    ensures BeginsWithFunction("sin(X,Y)", ctx.functions) == Err(CommaCountMismatch)
    ensures LexFrom("sin(X,Y)", [NoToken], ctx, NoNumber) == Err(BadExpression)
  {
    DefaultWithXYZValid(ctx);
    SinArityMismatch();
    NothingStartsSinCall(ctx);
  }

  /** No registered variable name prefixes `sin(X,Y)`. */
  lemma NoVariableAtSin(ctx: Context)
    requires DefaultWithXYZ(ctx)
    ensures BeginsWithVariable("sin(X,Y)", ctx.variables) == None
  {
    var vs := ctx.variables;
    forall j | 0 <= j < |vs| ensures !(vs[j].token <= "sin(X,Y)") {
      assert vs[j].token[0] != 's';
    }
  }

  /** No recogniser takes `sin(X,Y)`: the function check fails and no variable or number follows. */
  lemma NothingStartsSinCall(ctx: Context)
    requires DefaultWithXYZ(ctx)
    ensures LexTokenSafe("sin(X,Y)", [NoToken], ctx, NoNumber)
    ensures LexToken("sin(X,Y)", [NoToken], ctx, NoNumber) == (NoToken, "sin(X,Y)")
  {
    SinArityMismatch();
    NoOperatorAt("sin(X,Y)", [NoToken], ctx);
    NoVariableAtSin(ctx);
  }

  /** An incoming operator that pops nothing leaves stack and output as they are. */
  lemma NoPop(stack: seq<Token>, output: seq<Token>, op: Operator)
    requires stack == [] || stack[|stack| - 1].LeftParen?
      || (stack[|stack| - 1].Operator? && !Pops(stack[|stack| - 1].operator, op))
    ensures HandleOperatorResult(stack, output, op) == (Ok(()), stack, output)
  {
    assert stack[..|stack|] == stack && stack[|stack|..] == [];
    assert output + [] == output;
  }

  /** Without a `(` on the stack the input ends by moving the whole stack. */
  lemma FinishAll(stack: seq<Token>, output: seq<Token>)
    requires LeftParen !in stack
    ensures ShuntFinish(stack, output) == Ok(output + Reversed(stack))
  {
  }

  /** One token, then the rest from the state it leaves. */
  lemma Then(tokens: seq<Token>, stack: seq<Token>, output: seq<Token>)
    requires tokens != []
    ensures var step := ShuntStep(tokens[0], stack, output);
      ShuntFrom(tokens, stack, output)
        == if step.Err? then Err(step.error) else ShuntFrom(tokens[1..], step.value.0, step.value.1)
  {
  }

  /** From the `*` of `X+Y*Z` to the end. */
  lemma ShuntPrecedenceTail()
    ensures ShuntFrom([Times, Z], [Plus], [X, Y]) == Ok([X, Y, Z, Times, Plus])
  {
    var r := Ok([X, Y, Z, Times, Plus]);
    assert ShuntFrom([], [Plus, Times], [X, Y, Z]) == r by {
      FinishAll([Plus, Times], [X, Y, Z]);
      assert Reversed([Plus, Times]) == [Times, Plus];
      assert [X, Y, Z] + [Times, Plus] == [X, Y, Z, Times, Plus];
    }
    assert ShuntFrom([Z], [Plus, Times], [X, Y]) == r by {
      Then([Z], [Plus, Times], [X, Y]);
      assert [X, Y] + [Z] == [X, Y, Z] && [Z][1..] == [];
    }
    assert ShuntFrom([Times, Z], [Plus], [X, Y]) == r by {
      NoPop([Plus], [X, Y], Times.operator);
      Then([Times, Z], [Plus], [X, Y]);
      assert [Plus] + [Times] == [Plus, Times] && [Times, Z][1..] == [Z];
    }
  }

  /** Multiplication binds tighter than addition. */
  lemma ShuntPrecedence()
    ensures ShuntTokens([NoToken, X, Plus, Y, Times, Z]) == Ok([X, Y, Z, Times, Plus])
  {
    var r := Ok([X, Y, Z, Times, Plus]);
    ShuntPrecedenceTail();
    assert ShuntFrom([Y, Times, Z], [Plus], [X]) == r by {
      Then([Y, Times, Z], [Plus], [X]);
      assert [X] + [Y] == [X, Y] && [Y, Times, Z][1..] == [Times, Z];
    }
    assert ShuntFrom([Plus, Y, Times, Z], [], [X]) == r by {
      NoPop([], [X], Plus.operator);
      Then([Plus, Y, Times, Z], [], [X]);
      assert [] + [Plus] == [Plus] && [Plus, Y, Times, Z][1..] == [Y, Times, Z];
    }
    assert ShuntFrom([X, Plus, Y, Times, Z], [], []) == r by {
      Then([X, Plus, Y, Times, Z], [], []);
      assert [] + [X] == [X] && [X, Plus, Y, Times, Z][1..] == [Plus, Y, Times, Z];
    }
    Then([NoToken, X, Plus, Y, Times, Z], [], []);
    assert [NoToken, X, Plus, Y, Times, Z][1..] == [X, Plus, Y, Times, Z];
  }

  /** From the `*` of `(X+Y)*Z` to the end. */
  lemma ShuntParenthesesAfter()
    ensures ShuntFrom([Times, Z], [], [X, Y, Plus]) == Ok([X, Y, Plus, Z, Times])
  {
    var r := Ok([X, Y, Plus, Z, Times]);
    assert ShuntFrom([], [Times], [X, Y, Plus, Z]) == r by {
      FinishAll([Times], [X, Y, Plus, Z]);
      assert Reversed([Times]) == [Times];
      assert [X, Y, Plus, Z] + [Times] == [X, Y, Plus, Z, Times];
    }
    assert ShuntFrom([Z], [Times], [X, Y, Plus]) == r by {
      Then([Z], [Times], [X, Y, Plus]);
      assert [X, Y, Plus] + [Z] == [X, Y, Plus, Z] && [Z][1..] == [];
    }
    assert ShuntFrom([Times, Z], [], [X, Y, Plus]) == r by {
      NoPop([], [X, Y, Plus], Times.operator);
      Then([Times, Z], [], [X, Y, Plus]);
      assert [] + [Times] == [Times] && [Times, Z][1..] == [Z];
    }
  }

  /** From the `Y` of `(X+Y)*Z` to the end. */
  lemma ShuntParenthesesClose()
    ensures ShuntFrom([Y, RightParen, Times, Z], [LeftParen, Plus], [X]) == Ok([X, Y, Plus, Z, Times])
  {
    var r := Ok([X, Y, Plus, Z, Times]);
    ShuntParenthesesAfter();
    assert HandleRParenResult([LeftParen, Plus], [X, Y]) == (Ok(()), [], [X, Y, Plus]) by {
      assert LastIndexOf([LeftParen, Plus], LeftParen) == Some(0);
      assert [LeftParen, Plus][..0] == [] && [LeftParen, Plus][1..] == [Plus];
      assert Reversed([Plus]) == [Plus] && [X, Y] + [Plus] == [X, Y, Plus];
    }
    assert ShuntFrom([RightParen, Times, Z], [LeftParen, Plus], [X, Y]) == r by {
      Then([RightParen, Times, Z], [LeftParen, Plus], [X, Y]);
      assert [RightParen, Times, Z][1..] == [Times, Z];
    }
    Then([Y, RightParen, Times, Z], [LeftParen, Plus], [X]);
    assert [X] + [Y] == [X, Y] && [Y, RightParen, Times, Z][1..] == [RightParen, Times, Z];
  }

  /** From the `(` of `(X+Y)*Z` to the end. */
  lemma ShuntParenthesesOpen()
    ensures ShuntFrom([LeftParen, X, Plus, Y, RightParen, Times, Z], [], []) == Ok([X, Y, Plus, Z, Times])
  {
    var r := Ok([X, Y, Plus, Z, Times]);
    ShuntParenthesesClose();
    assert ShuntFrom([Plus, Y, RightParen, Times, Z], [LeftParen], [X]) == r by {
      NoPop([LeftParen], [X], Plus.operator);
      Then([Plus, Y, RightParen, Times, Z], [LeftParen], [X]);
      assert [LeftParen] + [Plus] == [LeftParen, Plus] && [Plus, Y, RightParen, Times, Z][1..] == [Y, RightParen, Times, Z];
    }
    assert ShuntFrom([X, Plus, Y, RightParen, Times, Z], [LeftParen], []) == r by {
      Then([X, Plus, Y, RightParen, Times, Z], [LeftParen], []);
      assert [] + [X] == [X] && [X, Plus, Y, RightParen, Times, Z][1..] == [Plus, Y, RightParen, Times, Z];
    }
    Then([LeftParen, X, Plus, Y, RightParen, Times, Z], [], []);
    assert [] + [LeftParen] == [LeftParen] && [LeftParen, X, Plus, Y, RightParen, Times, Z][1..] == [X, Plus, Y, RightParen, Times, Z];
  }

  /** Parentheses override precedence. */
  lemma ShuntParentheses()
    ensures ShuntTokens([NoToken, LeftParen, X, Plus, Y, RightParen, Times, Z]) == Ok([X, Y, Plus, Z, Times])
  {
    ShuntParenthesesOpen();
    Then([NoToken, LeftParen, X, Plus, Y, RightParen, Times, Z], [], []);
    assert [NoToken, LeftParen, X, Plus, Y, RightParen, Times, Z][1..] == [LeftParen, X, Plus, Y, RightParen, Times, Z];
  }

  /** From the second `-` of `X-Y-Z` to the end. */
  lemma ShuntRightGroupingTail()
    ensures ShuntFrom([Minus, Z], [Minus], [X, Y]) == Ok([X, Y, Z, Minus, Minus])
  {
    var r := Ok([X, Y, Z, Minus, Minus]);
    assert ShuntFrom([], [Minus, Minus], [X, Y, Z]) == r by {
      FinishAll([Minus, Minus], [X, Y, Z]);
      assert Reversed([Minus, Minus]) == [Minus, Minus];
      assert [X, Y, Z] + [Minus, Minus] == [X, Y, Z, Minus, Minus];
    }
    assert ShuntFrom([Z], [Minus, Minus], [X, Y]) == r by {
      Then([Z], [Minus, Minus], [X, Y]);
      assert [X, Y] + [Z] == [X, Y, Z] && [Z][1..] == [];
    }
    assert ShuntFrom([Minus, Z], [Minus], [X, Y]) == r by {
      NoPop([Minus], [X, Y], Minus.operator);
      Then([Minus, Z], [Minus], [X, Y]);
      assert [Minus] + [Minus] == [Minus, Minus] && [Minus, Z][1..] == [Z];
    }
  }

  /**
   * Equal precedence with a non-left-associative incoming operator pops
   * nothing, so under the default grammar `X-Y-Z` groups as `X-(Y-Z)`.
   */
  lemma ShuntRightGrouping()
    ensures ShuntTokens([NoToken, X, Minus, Y, Minus, Z]) == Ok([X, Y, Z, Minus, Minus])
  {
    var r := Ok([X, Y, Z, Minus, Minus]);
    ShuntRightGroupingTail();
    assert ShuntFrom([Y, Minus, Z], [Minus], [X]) == r by {
      Then([Y, Minus, Z], [Minus], [X]);
      assert [X] + [Y] == [X, Y] && [Y, Minus, Z][1..] == [Minus, Z];
    }
    assert ShuntFrom([Minus, Y, Minus, Z], [], [X]) == r by {
      NoPop([], [X], Minus.operator);
      Then([Minus, Y, Minus, Z], [], [X]);
      assert [] + [Minus] == [Minus] && [Minus, Y, Minus, Z][1..] == [Y, Minus, Z];
    }
    assert ShuntFrom([X, Minus, Y, Minus, Z], [], []) == r by {
      Then([X, Minus, Y, Minus, Z], [], []);
      assert [] + [X] == [X] && [X, Minus, Y, Minus, Z][1..] == [Minus, Y, Minus, Z];
    }
    Then([NoToken, X, Minus, Y, Minus, Z], [], []);
    assert [NoToken, X, Minus, Y, Minus, Z][1..] == [X, Minus, Y, Minus, Z];
  }

  /** A function call: the function follows its argument. */
  lemma ShuntFunctionCall()
    ensures ShuntTokens([NoToken, Sin, LeftParen, X, RightParen]) == Ok([X, Sin])
  {
    var r := Ok([X, Sin]);
    assert ShuntFrom([], [], [X, Sin]) == r by {
      FinishAll([], [X, Sin]);
      assert Reversed([]) == [] && [X, Sin] + [] == [X, Sin];
    }
    assert ShuntFrom([RightParen], [Sin, LeftParen], [X]) == r by {
      assert LastIndexOf([Sin, LeftParen], LeftParen) == Some(1);
      assert [Sin, LeftParen][..1] == [Sin] && [Sin, LeftParen][2..] == [];
      assert [X] + [] == [X] && [Sin][..0] == [] && [X] + [Sin] == [X, Sin];
      assert HandleRParenResult([Sin, LeftParen], [X]) == (Ok(()), [], [X, Sin]);
      Then([RightParen], [Sin, LeftParen], [X]);
      assert [RightParen][1..] == [];
    }
    assert ShuntFrom([X, RightParen], [Sin, LeftParen], []) == r by {
      Then([X, RightParen], [Sin, LeftParen], []);
      assert [] + [X] == [X] && [X, RightParen][1..] == [RightParen];
    }
    assert ShuntFrom([LeftParen, X, RightParen], [Sin], []) == r by {
      Then([LeftParen, X, RightParen], [Sin], []);
      assert [Sin] + [LeftParen] == [Sin, LeftParen] && [LeftParen, X, RightParen][1..] == [X, RightParen];
    }
    assert ShuntFrom([Sin, LeftParen, X, RightParen], [], []) == r by {
      Then([Sin, LeftParen, X, RightParen], [], []);
      assert [] + [Sin] == [Sin] && [Sin, LeftParen, X, RightParen][1..] == [LeftParen, X, RightParen];
    }
    Then([NoToken, Sin, LeftParen, X, RightParen], [], []);
    assert [NoToken, Sin, LeftParen, X, RightParen][1..] == [Sin, LeftParen, X, RightParen];
  }

  /** An operator meeting a function on top of the stack is an error naming the operator. */
  lemma ShuntFunctionThenOperator()
    ensures ShuntTokens([NoToken, Sin, Plus, X]) == Err(IllegalOnStack("+"))
  {
    assert ShuntFrom([Plus, X], [Sin], []) == Err(IllegalOnStack("+")) by {
      assert PopCount([Sin], Plus.operator) == 0;
      assert [Sin][..1] == [Sin];
      assert HandleOperatorResult([Sin], [], Plus.operator).0 == Err(IllegalOnStack("+"));
      Then([Plus, X], [Sin], []);
    }
    assert ShuntFrom([Sin, Plus, X], [], []) == Err(IllegalOnStack("+")) by {
      Then([Sin, Plus, X], [], []);
      assert [] + [Sin] == [Sin] && [Sin, Plus, X][1..] == [Plus, X];
    }
    Then([NoToken, Sin, Plus, X], [], []);
    assert [NoToken, Sin, Plus, X][1..] == [Sin, Plus, X];
  }

  /** A `)` without a `(`, and a `(` never closed, are both errors. */
  lemma ShuntUnbalanced()
    ensures ShuntTokens([NoToken, X, RightParen]) == Err(MismatchedParenthesis)
    ensures ShuntTokens([NoToken, LeftParen, X]) == Err(MismatchedParenthesis)
  {
    assert ShuntFrom([RightParen], [], [X]) == Err(MismatchedParenthesis) by {
      assert LastIndexOf([], LeftParen) == None;
      Then([RightParen], [], [X]);
    }
    assert ShuntFrom([X, RightParen], [], []) == Err(MismatchedParenthesis) by {
      Then([X, RightParen], [], []);
      assert [] + [X] == [X] && [X, RightParen][1..] == [RightParen];
    }
    Then([NoToken, X, RightParen], [], []);
    assert [NoToken, X, RightParen][1..] == [X, RightParen];

    assert ShuntFrom([], [LeftParen], [X]) == Err(MismatchedParenthesis) by {
      assert LastIndexOf([LeftParen], LeftParen) == Some(0);
    }
    assert ShuntFrom([X], [LeftParen], []) == Err(MismatchedParenthesis) by {
      Then([X], [LeftParen], []);
      assert [] + [X] == [X] && [X][1..] == [];
    }
    assert ShuntFrom([LeftParen, X], [], []) == Err(MismatchedParenthesis) by {
      Then([LeftParen, X], [], []);
      assert [] + [LeftParen] == [LeftParen] && [LeftParen, X][1..] == [X];
    }
    Then([NoToken, LeftParen, X], [], []);
    assert [NoToken, LeftParen, X][1..] == [LeftParen, X];
  }

  /** The rendering of the last three tokens of `X Y Z * +`. */
  lemma RenderPostfixTail()
    ensures Rpn([Z, Times, Plus]) == "Z,*,+,"
  {
    assert Rpn([Plus]) == "+," by {
      assert [Plus][1..] == [];
    }
    assert Rpn([Times, Plus]) == "*,+," by {
      assert [Times, Plus][1..] == [Plus];
    }
    assert [Z, Times, Plus][1..] == [Times, Plus];
  }

  /** The rendering of `X+Y*Z` in postfix. */
  lemma RenderPostfix()
    ensures Rpn([X, Y, Z, Times, Plus]) == "X,Y,Z,*,+,"
  {
    RenderPostfixTail();
    assert Rpn([X, Y]) == "X,Y," by {
      assert [X, Y][1..] == [Y] && [Y][1..] == [];
    }
    assert [X, Y, Z, Times, Plus] == [X, Y] + [Z, Times, Plus];
    RpnAppend([X, Y], [Z, Times, Plus]);
    assert "X,Y," + "Z,*,+," == "X,Y,Z,*,+,";
  }
}
