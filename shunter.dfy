/**
 * The shunting-yard parser: turns the lexed infix tokens into postfix order
 * with an operator stack, and renders a postfix sequence as text.
 *
 * Stacks are sequences whose last element is the top.
 */
module Shunter {
  import opened Tokens
  import opened VarNum
  import opened Registry
  import opened Lexer

  /** The position of the topmost `t` in `s`, if any. */
  function LastIndexOf(s: seq<Token>, t: Token): (r: Option<nat>)
    ensures r.None? <==> t !in s
    ensures r.Some? ==> r.value < |s| && s[r.value] == t && t !in s[r.value + 1..]
  {
    if s == [] then None
    else if s[|s| - 1] == t then Some(|s| - 1)
    else
      var r := LastIndexOf(s[..|s| - 1], t);
      assert s == s[..|s| - 1] + [s[|s| - 1]];
      if r.Some? then
        assert s[r.value + 1..] == s[..|s| - 1][r.value + 1..] + [s[|s| - 1]];
        r
      else r
  }

  /** The topmost occurrence is the one with no other occurrence above it. */
  lemma {:induction false} LastIndexOfAt(s: seq<Token>, t: Token, j: nat)
    requires j < |s| && s[j] == t && t !in s[j + 1..]
    ensures LastIndexOf(s, t) == Some(j)
    decreases |s|
  {
    if j < |s| - 1 {
      assert s[|s| - 1] == s[j + 1..][|s| - 2 - j];
      assert s[..|s| - 1][j + 1..] == s[j + 1..|s| - 1];
      LastIndexOfAt(s[..|s| - 1], t, j);
    }
  }

  /**
   * What `shift_until` leaves behind: with `stop` on the stack, everything
   * above its topmost occurrence moved to the output in pop order and `stop`
   * itself discarded; without it, the whole stack moved and `false`.
   */
  function ShiftUntilResult(stack: seq<Token>, output: seq<Token>, stop: Token): (bool, seq<Token>, seq<Token>) {
    match LastIndexOf(stack, stop)
    case Some(i) => (true, stack[..i], output + Reversed(stack[i + 1..]))
    case None => (false, [], output + Reversed(stack))
  }

  /** Popping entry `n - 1` extends the pop order of the entries above it. */
  lemma PopOne(stack: seq<Token>, n: nat)
    requires 0 < n <= |stack|
    ensures stack[n - 1..] == [stack[n - 1]] + stack[n..]
    ensures Reversed(stack[n - 1..]) == Reversed(stack[n..]) + [stack[n - 1]]
  {
    assert stack[n - 1..][1..] == stack[n..];
  }

  /** `shift_until`: pops into the output until `stop` is popped. */
  method ShiftUntil(stack: seq<Token>, output: seq<Token>, stop: Token) returns (found: bool, newStack: seq<Token>, newOutput: seq<Token>)
    ensures (found, newStack, newOutput) == ShiftUntilResult(stack, output, stop)
  {
    newStack, newOutput := stack, output;
    while newStack != []
      invariant |newStack| <= |stack| && newStack == stack[..|newStack|]
      invariant stop !in stack[|newStack|..]
      invariant newOutput == output + Reversed(stack[|newStack|..])
    {
      var n := |newStack|;
      var token := newStack[n - 1];
      newStack := newStack[..n - 1];
      PopOne(stack, n);
      if token == stop {
        assert stack[n - 1] == stop;
        LastIndexOfAt(stack, stop, n - 1);
        assert newStack == stack[..n - 1];
        return true, newStack, newOutput;
      }
      newOutput := newOutput + [token];
    }
    assert stack[0..] == stack;
    return false, newStack, newOutput;
  }

  /**
   * Whether the operator `top` on the stack is popped before `incoming` is
   * pushed: it binds tighter, or equally tight and `incoming` is
   * left-associative.
   */
  predicate Pops(top: Operator, incoming: Operator) {
    top.Precedence() > incoming.Precedence()
    || (top.Precedence() == incoming.Precedence() && incoming.IsLeftAssociative())
  }

  predicate PoppedBy(t: Token, incoming: Operator) {
    t.Operator? && Pops(t.operator, incoming)
  }

  /** The number of stack entries, from the top, that `incoming` pops. */
  function PopCount(stack: seq<Token>, incoming: Operator): (k: nat)
    ensures k <= |stack|
    ensures forall i :: |stack| - k <= i < |stack| ==> PoppedBy(stack[i], incoming)
    ensures k < |stack| ==> !PoppedBy(stack[|stack| - k - 1], incoming)
  {
    if stack == [] || !PoppedBy(stack[|stack| - 1], incoming) then 0
    else 1 + PopCount(stack[..|stack| - 1], incoming)
  }

  /** `PopCount` is the length of the popped run above the first entry not popped. */
  lemma {:induction false} PopCountAt(stack: seq<Token>, incoming: Operator, n: nat)
    requires n <= |stack|
    requires forall i :: n <= i < |stack| ==> PoppedBy(stack[i], incoming)
    requires n > 0 ==> !PoppedBy(stack[n - 1], incoming)
    ensures PopCount(stack, incoming) == |stack| - n
    decreases |stack|
  {
    if n < |stack| {
      PopCountAt(stack[..|stack| - 1], incoming, n);
    }
  }

  /**
   * What `handle_operator` leaves behind: the popped operators moved to the
   * output in pop order; an error naming `incoming` when the first entry not
   * popped is neither `(` nor an operator.
   */
  function HandleOperatorResult(stack: seq<Token>, output: seq<Token>, incoming: Operator): (Result<(), Error>, seq<Token>, seq<Token>) {
    var n := |stack| - PopCount(stack, incoming);
    var kept := stack[..n];
    var out := output + Reversed(stack[n..]);
    if n > 0 && !kept[n - 1].LeftParen? && !kept[n - 1].Operator? then
      (Err(IllegalOnStack(incoming.Token())), kept, out)
    else
      (Ok(()), kept, out)
  }

  /** `handle_operator`: pops what `incoming` pops, stopping at `(` or an operator it does not pop. */
  method HandleOperator(stack: seq<Token>, output: seq<Token>, incoming: Operator)
    returns (r: Result<(), Error>, newStack: seq<Token>, newOutput: seq<Token>)
    ensures (r, newStack, newOutput) == HandleOperatorResult(stack, output, incoming)
  {
    newStack, newOutput := stack, output;
    while newStack != []
      invariant |newStack| <= |stack| && newStack == stack[..|newStack|]
      invariant forall i :: |newStack| <= i < |stack| ==> PoppedBy(stack[i], incoming)
      invariant newOutput == output + Reversed(stack[|newStack|..])
    {
      var n := |newStack|;
      var top := newStack[n - 1];
      if top.LeftParen? {
        break;
      } else if top.Operator? {
        if Pops(top.operator, incoming) {
          newStack := newStack[..n - 1];
          PopOne(stack, n);
          newOutput := newOutput + [top];
        } else {
          break;
        }
      } else {
        PopCountAt(stack, incoming, n);
        r := Err(IllegalOnStack(incoming.Token()));
        return;
      }
    }
    PopCountAt(stack, incoming, |newStack|);
    r := Ok(());
  }

  /**
   * What `handle_rparen` leaves behind: an error without a `(` on the stack;
   * otherwise the entries above the topmost `(` moved to the output, the `(`
   * dropped, and a function then on top moved after them.
   */
  function HandleRParenResult(stack: seq<Token>, output: seq<Token>): (Result<(), Error>, seq<Token>, seq<Token>) {
    var (found, s, o) := ShiftUntilResult(stack, output, LeftParen);
    if !found then (Err(MismatchedParenthesis), s, o)
    else if s != [] && s[|s| - 1].Function? then (Ok(()), s[..|s| - 1], o + [s[|s| - 1]])
    else (Ok(()), s, o)
  }

  /** `handle_rparen`: closes the innermost open parenthesis. */
  method HandleRParen(stack: seq<Token>, output: seq<Token>)
    returns (r: Result<(), Error>, newStack: seq<Token>, newOutput: seq<Token>)
    ensures (r, newStack, newOutput) == HandleRParenResult(stack, output)
  {
    var found;
    found, newStack, newOutput := ShiftUntil(stack, output, LeftParen);
    if !found {
      return Err(MismatchedParenthesis), newStack, newOutput;
    }
    if newStack != [] && newStack[|newStack| - 1].Function? {
      newOutput := newOutput + [newStack[|newStack| - 1]];
      newStack := newStack[..|newStack| - 1];
    }
    r := Ok(());
  }

  /** The stack and output after one token. */
  function ShuntStep(t: Token, stack: seq<Token>, output: seq<Token>): Result<(seq<Token>, seq<Token>), Error> {
    match t
    case NoToken => Ok((stack, output))
    case Number(_) => Ok((stack, output + [t]))
    case Zero => Ok((stack, output + [t]))
    case Unity => Ok((stack, output + [t]))
    case Variable(_) => Ok((stack, output + [t]))
    case Function(_) => Ok((stack + [t], output))
    case Operator(op) =>
      var (res, s, o) := HandleOperatorResult(stack, output, op);
      if res.Err? then Err(res.error) else Ok((s + [t], o))
    case LeftParen => Ok((stack + [t], output))
    case RightParen =>
      var (res, s, o) := HandleRParenResult(stack, output);
      if res.Err? then Err(res.error) else Ok((s, o))
    case Comma => Ok((stack, output))
  }

  /** The end of the input: an open parenthesis left on the stack is an error. */
  function ShuntFinish(stack: seq<Token>, output: seq<Token>): Result<seq<Token>, Error> {
    var (found, s, o) := ShiftUntilResult(stack, output, LeftParen);
    if found then Err(MismatchedParenthesis) else Ok(o)
  }

  /** The postfix sequence after `tokens`, from the given stack and output. */
  function ShuntFrom(tokens: seq<Token>, stack: seq<Token>, output: seq<Token>): Result<seq<Token>, Error>
    decreases |tokens|
  {
    if tokens == [] then ShuntFinish(stack, output)
    else match ShuntStep(tokens[0], stack, output)
      case Err(e) => Err(e)
      case Ok((s, o)) => ShuntFrom(tokens[1..], s, o)
  }

  /** The postfix form of a lexed token sequence. */
  function ShuntTokens(tokens: seq<Token>): Result<seq<Token>, Error> {
    ShuntFrom(tokens, [], [])
  }

  /** The postfix form of `expr`: a lexer error is passed on unchanged. */
  function ShuntExpr(expr: string, ctx: Context, number: NumberRecognizer): (r: Result<seq<Token>, Error>)
    reads ctx
    requires LexSafe(expr, [NoToken], ctx, number)
    ensures LexFrom(expr, [NoToken], ctx, number).Err? ==> r == Err(BadExpression)
  {
    match LexFrom(expr, [NoToken], ctx, number)
    case Err(e) => Err(e)
    case Ok(tokens) => ShuntTokens(tokens)
  }

  /** `shunt`: lexes `expr` and converts the tokens to postfix order. */
  method Shunt(expr: string, ctx: Context, number: NumberRecognizer) returns (r: Result<seq<Token>, Error>)
    requires LexSafe(expr, [NoToken], ctx, number)
    ensures r == ShuntExpr(expr, ctx, number)
  {
    var lexed := Lex(expr, ctx, number);
    if lexed.Err? {
      return Err(lexed.error);
    }
    var tokens := lexed.value;
    var stack: seq<Token> := [];
    var output: seq<Token> := [];
    for i := 0 to |tokens|
      invariant ShuntFrom(tokens[i..], stack, output) == ShuntTokens(tokens)
    {
      var token := tokens[i];
      assert tokens[i..][1..] == tokens[i + 1..];
      match token {
        case NoToken =>
        case Number(_) => output := output + [token];
        case Zero => output := output + [token];
        case Unity => output := output + [token];
        case Variable(_) => output := output + [token];
        case Function(_) => stack := stack + [token];
        case Operator(op) =>
          var res;
          res, stack, output := HandleOperator(stack, output, op);
          if res.Err? {
            return Err(res.error);
          }
          stack := stack + [token];
        case LeftParen => stack := stack + [token];
        case RightParen =>
          var res;
          res, stack, output := HandleRParen(stack, output);
          if res.Err? {
            return Err(res.error);
          }
        case Comma =>
      }
    }
    var unmatched;
    unmatched, stack, output := ShiftUntil(stack, output, LeftParen);
    if unmatched {
      return Err(MismatchedParenthesis);
    }
    assert stack == [];
    return Ok(output);
  }

  /** The text of a postfix sequence: every token followed by a comma. */
  function Rpn(postfix: seq<Token>): (r: string)
    ensures r == [] <==> postfix == []
    ensures postfix != [] ==> r[|r| - 1] == ','
  {
    if postfix == [] then "" else postfix[0].Stringify() + "," + Rpn(postfix[1..])
  }

  /** The text of a concatenation is the concatenation of the texts. */
  lemma {:induction false} RpnAppend(a: seq<Token>, b: seq<Token>)
    ensures Rpn(a + b) == Rpn(a) + Rpn(b)
  {
    if a == [] {
      assert a + b == b;
    } else {
      assert (a + b)[1..] == a[1..] + b;
      RpnAppend(a[1..], b);
    }
  }

  /** Appending a token appends its text and a comma. */
  lemma RpnSnoc(p: seq<Token>, t: Token)
    ensures Rpn(p + [t]) == Rpn(p) + t.Stringify() + ","
  {
    RpnAppend(p, [t]);
    assert [t][1..] == [];
  }

  /** `stringify_rpn`: appends each token's text and a comma. */
  method StringifyRpn(postfix: seq<Token>) returns (ret: string)
    ensures ret == Rpn(postfix)
  {
    ret := "";
    for i := 0 to |postfix|
      invariant ret == Rpn(postfix[..i])
    {
      assert postfix[..i + 1] == postfix[..i] + [postfix[i]];
      RpnSnoc(postfix[..i], postfix[i]);
      ret := ret + postfix[i].Stringify() + ",";
    }
    assert postfix[..|postfix|] == postfix;
  }
}
