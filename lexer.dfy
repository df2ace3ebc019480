/**
 * The lexer: splits an expression into tokens, left to right, by a fixed
 * cascade of recognisers, starting from a `NoToken` sentinel that serves as
 * the history of the first step.
 */
module Lexer {
  import opened Tokens
  import opened Operators
  import opened Functions
  import opened VarNum
  import opened Registry

  predicate IsStructural(c: char) {
    c == '(' || c == ')' || c == ','
  }

  /**
   * The function and variable stages: a function name whose call checks out
   * (a failed check falls through), then a variable; nothing when neither
   * takes the text.
   */
  function LexNamed(expr: string, ctx: Context): (r: Option<(Token, string)>)
    reads ctx
    requires !FunctionPanics(expr, ctx.functions)
    ensures r.Some? ==> r.value.0 != NoToken && expr == r.value.0.Stringify() + r.value.1
    ensures r.Some? && ctx.Valid() ==> |r.value.1| < |expr|
  {
    var call := BeginsWithFunction(expr, ctx.functions);
    if call.Ok? && call.value.Some? then
      var f := call.value.value;
      PrefixSplit(f.token, expr);
      Some((Function(f), expr[|f.token|..]))
    else
      var v := BeginsWithVariable(expr, ctx.variables);
      if v.Some? then
        PrefixSplit(v.value.token, expr);
        Some((Variable(v.value), expr[|v.value.token|..]))
      else None
  }

  /**
   * The stages after the operators run safely: the function check does not
   * abort, and when neither a function nor a variable takes the text, the
   * number recogniser returns a match it may return.
   */
  predicate NamedOrNumberSafe(expr: string, ctx: Context, number: NumberRecognizer)
    reads ctx
  {
    !FunctionPanics(expr, ctx.functions) && (LexNamed(expr, ctx).None? ==> NumberMatch(expr, number(expr)))
  }

  /**
   * The cascade reaches the function recogniser only when the later stages
   * are safe: the text starts with a structural character, an operator
   * matches, or the stages after the operators run safely.
   */
  predicate LexTokenSafe(expr: string, tokens: seq<Token>, ctx: Context, number: NumberRecognizer)
    reads ctx
    requires |tokens| > 0
  {
    || (|expr| > 0 && IsStructural(expr[0]))
    || BeginsWithUnaryOperator(expr, tokens, ctx.unaryOperators).Some?
    || BeginsWithBinaryOperator(expr, ctx.binaryOperators).Some?
    || NamedOrNumberSafe(expr, ctx, number)
  }

  lemma PrefixSplit(p: string, s: string)
    requires p <= s
    ensures s == p + s[|p|..]
  {
  }

  /**
   * One step: the first of `(`, `)`, `,`, a unary operator, a binary operator,
   * a function name, a variable and a number that matches, with the text after
   * it; `NoToken` and the unchanged text when none does.
   */
  function LexToken(expr: string, tokens: seq<Token>, ctx: Context, number: NumberRecognizer): (res: (Token, string))
    reads ctx
    requires |tokens| > 0 && LexTokenSafe(expr, tokens, ctx, number)
    ensures expr == res.0.Stringify() + res.1
    ensures res.0 != NoToken && ctx.Valid() ==> |res.1| < |expr|
  {
    if |expr| > 0 && IsStructural(expr[0]) then
      assert expr == [expr[0]] + expr[1..];
      (if expr[0] == '(' then LeftParen else if expr[0] == ')' then RightParen else Comma, expr[1..])
    else
      var uop := BeginsWithUnaryOperator(expr, tokens, ctx.unaryOperators);
      if uop.Some? then
        PrefixSplit(uop.value.token, expr);
        (Operator(Unary(uop.value)), expr[|uop.value.token|..])
      else
        var bop := BeginsWithBinaryOperator(expr, ctx.binaryOperators);
        if bop.Some? then
          PrefixSplit(bop.value.token, expr);
          (Operator(Binary(bop.value)), expr[|bop.value.token|..])
        else LexNamedOrNumber(expr, ctx, number)
  }

  /** Lexing the text of `(`, `)` or `,` gives that token back, whatever text follows. */
  lemma StructuralRoundTrip(t: Token, rest: string, tokens: seq<Token>, ctx: Context, number: NumberRecognizer)
    requires t.LeftParen? || t.RightParen? || t.Comma?
    requires |tokens| > 0
    ensures LexTokenSafe(t.Stringify() + rest, tokens, ctx, number)
    ensures LexToken(t.Stringify() + rest, tokens, ctx, number) == (t, rest)
  {
    var expr := t.Stringify() + rest;
    assert expr[0] == t.Stringify()[0] && expr[1..] == rest;
  }

  /** The stages after the operators: a function or variable, then a number. */
  function LexNamedOrNumber(expr: string, ctx: Context, number: NumberRecognizer): (res: (Token, string))
    reads ctx
    requires NamedOrNumberSafe(expr, ctx, number)
    ensures expr == res.0.Stringify() + res.1
    ensures res.0 != NoToken && ctx.Valid() ==> |res.1| < |expr|
  {
    match LexNamed(expr, ctx)
    case Some(named) => named
    case None =>
      var num := BeginsWithNumber(expr, number);
      if num.Some? then
        PrefixSplit(num.value.token, expr);
        (Number(num.value), expr[|num.value.token|..])
      else (DefaultToken(), expr)
  }

  /**
   * The lexer can run from `rest` with history `tokens` without aborting: the
   * registry is valid and no step it takes reaches an unsafe function check.
   */
  predicate LexSafe(rest: string, tokens: seq<Token>, ctx: Context, number: NumberRecognizer)
    reads ctx
    decreases |rest|
  {
    && |tokens| > 0
    && ctx.Valid()
    && LexTokenSafe(rest, tokens, ctx, number)
    && var (t, r) := LexToken(rest, tokens, ctx, number);
       (t != NoToken && r != [] ==> LexSafe(r, tokens + [t], ctx, number))
  }

  /** A sequence that extends `tokens + [t]` extends `tokens`, and its new part starts with `t`. */
  lemma HistoryStep(v: seq<Token>, tokens: seq<Token>, t: Token)
    requires |v| > |tokens| + 1 && v[..|tokens| + 1] == tokens + [t]
    ensures v[..|tokens|] == tokens
    ensures Concat(v[|tokens|..]) == t.Stringify() + Concat(v[|tokens| + 1..])
  {
    assert v[|tokens|..][1..] == v[|tokens| + 1..];
    assert v[|tokens|] == (tokens + [t])[|tokens|];
  }

  /**
   * The tokens of `rest` appended to the history `tokens`. On success the new
   * tokens spell `rest` exactly and none of them is `NoToken`; the only error
   * is a position where nothing matches.
   */
  function LexFrom(rest: string, tokens: seq<Token>, ctx: Context, number: NumberRecognizer): (r: Result<seq<Token>, Error>)
    reads ctx
    requires LexSafe(rest, tokens, ctx, number)
    decreases |rest|
    ensures r.Err? ==> r.error == BadExpression
    ensures r.Ok? ==> (|r.value| > |tokens| && r.value[..|tokens|] == tokens
      && Concat(r.value[|tokens|..]) == rest
      && forall i :: |tokens| <= i < |r.value| ==> r.value[i] != NoToken)
  {
    var (t, r) := LexToken(rest, tokens, ctx, number);
    if t == NoToken then Err(BadExpression)
    else if r == [] then
      assert (tokens + [t])[|tokens|..] == [t];
      Ok(tokens + [t])
    else
      var res := LexFrom(r, tokens + [t], ctx, number);
      if res.Ok? then
        HistoryStep(res.value, tokens, t);
        res
      else res
  }

  /** One step of `LexFrom`, unfolded. */
  lemma LexFromStep(rest: string, tokens: seq<Token>, ctx: Context, number: NumberRecognizer, t: Token, r: string)
    requires LexSafe(rest, tokens, ctx, number)
    requires (t, r) == LexToken(rest, tokens, ctx, number)
    ensures t != NoToken && r != [] ==> LexSafe(r, tokens + [t], ctx, number)
    ensures LexFrom(rest, tokens, ctx, number) ==
      if t == NoToken then Err(BadExpression)
      else if r == [] then Ok(tokens + [t])
      else LexFrom(r, tokens + [t], ctx, number)
  {
  }

  /** Started from the sentinel alone, a successful scan spells out `expr` after it. */
  lemma LexFromSentinel(expr: string, ctx: Context, number: NumberRecognizer)
    requires LexSafe(expr, [NoToken], ctx, number)
    ensures var r := LexFrom(expr, [NoToken], ctx, number);
      r.Ok? ==> (|r.value| >= 2 && r.value[0] == NoToken && Concat(r.value[1..]) == expr
        && forall i :: 1 <= i < |r.value| ==> r.value[i] != NoToken)
  {
    var r := LexFrom(expr, [NoToken], ctx, number);
    if r.Ok? {
      var v := r.value;
      assert |v| > 1 && v[..1] == [NoToken] && Concat(v[1..]) == expr;
      assert v[0] == v[..1][0];
    }
  }

  /** `lex`: the token sequence of `expr`, behind a leading `NoToken`. */
  method Lex(expr: string, ctx: Context, number: NumberRecognizer) returns (r: Result<seq<Token>, Error>)
    requires LexSafe(expr, [NoToken], ctx, number)
    ensures r == LexFrom(expr, [NoToken], ctx, number)
    ensures r.Ok? ==> (|r.value| >= 2 && r.value[0] == NoToken && Concat(r.value[1..]) == expr
      && forall i :: 1 <= i < |r.value| ==> r.value[i] != NoToken)
    ensures r.Err? ==> r.error == BadExpression
  {
    var tokens := [NoToken];
    var rest := expr;
    while true
      invariant LexSafe(rest, tokens, ctx, number)
      invariant LexFrom(rest, tokens, ctx, number) == LexFrom(expr, [NoToken], ctx, number)
      decreases |rest|
    {
      var (next, remaining) := LexToken(rest, tokens, ctx, number);
      LexFromStep(rest, tokens, ctx, number, next, remaining);
      if next == NoToken {
        r := Err(BadExpression);
        break;
      }
      tokens := tokens + [next];
      rest := remaining;
      if |rest| == 0 {
        r := Ok(tokens);
        break;
      }
    }
    LexFromSentinel(expr, ctx, number);
  }
}
