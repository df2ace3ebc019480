/**
 * Operator recognition and the default operator grammar.
 *
 * A unary operator is recognised only when the token emitted last is one of
 * its allowed left neighbours; this is what separates unary from binary `-`.
 */
module Operators {
  import opened Tokens

  /** `op` may start `expr` when the last emitted token is `last`. */
  predicate UnaryApplies(op: UnaryOperator, expr: string, last: Token) {
    op.token <= expr && last in op.allowedLeftTokens
  }

  /**
   * The first registered unary operator whose token prefixes `expr` and that
   * may follow the last token of the history `tokens`.
   */
  function BeginsWithUnaryOperator(expr: string, tokens: seq<Token>, ops: seq<UnaryOperator>): (r: Option<UnaryOperator>)
    requires |tokens| > 0
    ensures r.Some? ==> r.value in ops && UnaryApplies(r.value, expr, tokens[|tokens| - 1])
    ensures r.None? <==> forall i :: 0 <= i < |ops| ==> !UnaryApplies(ops[i], expr, tokens[|tokens| - 1])
    ensures r.Some? ==> exists i :: (0 <= i < |ops| && ops[i] == r.value
      && UnaryApplies(ops[i], expr, tokens[|tokens| - 1])
      && forall j :: 0 <= j < i ==> !UnaryApplies(ops[j], expr, tokens[|tokens| - 1]))
  {
    if ops == [] then None
    else if UnaryApplies(ops[0], expr, tokens[|tokens| - 1]) then Some(ops[0])
    else BeginsWithUnaryOperator(expr, tokens, ops[1..])
  }

  /**
   * The first registered binary operator whose token prefixes `expr`; the
   * token history plays no part.
   */
  function BeginsWithBinaryOperator(expr: string, ops: seq<BinaryOperator>): (r: Option<BinaryOperator>)
    ensures r.Some? ==> r.value in ops && r.value.token <= expr
    ensures r.None? <==> forall i :: 0 <= i < |ops| ==> !(ops[i].token <= expr)
    ensures r.Some? ==> exists i :: (0 <= i < |ops| && ops[i] == r.value && ops[i].token <= expr
      && forall j :: 0 <= j < i ==> !(ops[j].token <= expr))
  {
    if ops == [] then None
    else if ops[0].token <= expr then Some(ops[0])
    else BeginsWithBinaryOperator(expr, ops[1..])
  }

  /** The operators of the default grammar. */
  datatype DefaultOperator = Neg | Pow | Mul | Div | Add | Sub

  /** Negation and power bind tightest, then multiplication and division, then addition and subtraction. */
  function DefaultPrecedence(op: DefaultOperator): (p: u8)
    ensures op == Neg || op == Pow <==> p == 10
    ensures op == Mul || op == Div <==> p == 5
    ensures op == Add || op == Sub <==> p == 3
  {
    match op
    case Neg => 10
    case Pow => 10
    case Mul => 5
    case Div => 5
    case Add => 3
    case Sub => 3
  }

  /** Negation `-`: not left-associative, allowed only at the start or after `(`. */
  function DefaultUnaryOperators(): (ops: seq<UnaryOperator>)
    ensures |ops| == 1
    ensures ops[0].token == "-" && ops[0].precedence == 10 && !ops[0].isLeftAssociative
    ensures forall t :: t in ops[0].allowedLeftTokens <==> t == NoToken || t == LeftParen
  {
    [UnaryOp("-", DefaultPrecedence(Neg), false, [NoToken, LeftParen])]
  }

  /** `^ * / + -` at precedences 10, 5, 5, 3, 3, none of them left-associative. */
  function DefaultBinaryOperators(): (ops: seq<BinaryOperator>)
    ensures |ops| == 5
    ensures forall i :: 0 <= i < |ops| ==> !ops[i].isLeftAssociative
    ensures ops[0].token == "^" && ops[0].precedence == 10
    ensures ops[1].token == "*" && ops[1].precedence == 5
    ensures ops[2].token == "/" && ops[2].precedence == 5
    ensures ops[3].token == "+" && ops[3].precedence == 3
    ensures ops[4].token == "-" && ops[4].precedence == 3
  {
    [ BinaryOp("^", DefaultPrecedence(Pow), false),
      BinaryOp("*", DefaultPrecedence(Mul), false),
      BinaryOp("/", DefaultPrecedence(Div), false),
      BinaryOp("+", DefaultPrecedence(Add), false),
      BinaryOp("-", DefaultPrecedence(Sub), false) ]
  }

  /**
   * Under the default grammar a `-` is negation exactly when it starts the
   * text or follows `(`; everywhere else it is subtraction.
   */
  lemma DefaultMinusDisambiguation(expr: string, tokens: seq<Token>)
    requires |tokens| > 0 && |expr| > 0 && expr[0] == '-'
    ensures BeginsWithUnaryOperator(expr, tokens, DefaultUnaryOperators()).Some?
      <==> tokens[|tokens| - 1] == NoToken || tokens[|tokens| - 1] == LeftParen
    ensures BeginsWithBinaryOperator(expr, DefaultBinaryOperators()) == Some(BinaryOp("-", 3, false))
  {
    var bops := DefaultBinaryOperators();
    assert "-" <= expr;
    assert forall i :: 0 <= i < 4 ==> !(bops[i].token <= expr) by {
      forall i | 0 <= i < 4 ensures !(bops[i].token <= expr) {
        assert |bops[i].token| == 1 && bops[i].token[0] != expr[0];
      }
    }
  }
}
