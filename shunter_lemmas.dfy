/**
 * What a successful shunt preserves: no punctuation reaches the postfix
 * output, the operands keep their input order, every operator and function
 * comes out exactly once, and the parentheses were balanced.
 */
module ShunterLemmas {
  import opened Tokens
  import opened VarNum
  import opened Registry
  import opened Lexer
  import opened Shunter

  /** What the parser may push: functions, operators and `(`. */
  predicate OnStack(t: Token) {
    t.Function? || t.Operator? || t.LeftParen?
  }

  /** What may reach the output: every token that is not punctuation. */
  predicate Emitted(t: Token) {
    !t.IsPunctuation()
  }

  predicate NotLeftParen(t: Token) {
    !t.LeftParen?
  }

  predicate IsOperandToken(t: Token) {
    t.IsOperand()
  }

  /** The parser state shapes that every step keeps. */
  predicate WellFormed(stack: seq<Token>, output: seq<Token>) {
    (forall t :: t in stack ==> OnStack(t)) && (forall t :: t in output ==> Emitted(t))
  }

  /** Functions and operators moved from the stack: none is `(`, an operand or punctuation. */
  lemma MovedPart(moved: seq<Token>)
    requires forall t :: t in moved ==> t.Function? || t.Operator?
    ensures Filter(moved, NotLeftParen) == moved
    ensures Filter(Reversed(moved), IsOperandToken) == []
    ensures forall t :: t in Reversed(moved) ==> Emitted(t)
    ensures multiset(Reversed(moved)) == multiset(moved)
  {
    ReversedMultiset(moved);
    forall t | t in Reversed(moved)
      ensures t in moved
    {
      assert t in multiset(Reversed(moved));
    }
    FilterAll(moved, NotLeftParen);
    FilterNone(Reversed(moved), IsOperandToken);
  }

  /** Both parts of a stack keep its shapes; above the last `(` there are only functions and operators. */
  lemma SplitStack(kept: seq<Token>, moved: seq<Token>)
    requires forall t :: t in kept + moved ==> OnStack(t)
    requires LeftParen !in moved
    ensures forall t :: t in kept ==> OnStack(t)
    ensures forall t :: t in moved ==> t.Function? || t.Operator?
  {
    forall t | t in moved ensures t.Function? || t.Operator? {
      assert t in kept + moved;
    }
    forall t | t in kept ensures OnStack(t) {
      assert t in kept + moved;
    }
  }

  /**
   * Moving the top part `moved` of the stack, which holds no `(`, onto the
   * output in pop order.
   */
  lemma MoveToOutput(kept: seq<Token>, moved: seq<Token>, output: seq<Token>)
    requires WellFormed(kept + moved, output)
    requires LeftParen !in moved
    ensures WellFormed(kept, output + Reversed(moved))
    ensures multiset(output + Reversed(moved)) + multiset(Filter(kept, NotLeftParen))
      == multiset(output) + multiset(Filter(kept + moved, NotLeftParen))
    ensures Filter(output + Reversed(moved), IsOperandToken) == Filter(output, IsOperandToken)
    ensures multiset(kept)[LeftParen] == multiset(kept + moved)[LeftParen]
  {
    SplitStack(kept, moved);
    MovedPart(moved);
    FilterAppend(kept, moved, NotLeftParen);
    FilterAppend(output, Reversed(moved), IsOperandToken);
  }

  /**
   * Shifting to the topmost `(` moves what was above it to the output and
   * drops that `(`; without one, the whole stack moves.
   */
  lemma ShiftToParen(stack: seq<Token>, output: seq<Token>)
    requires WellFormed(stack, output)
    ensures var (found, s, o) := ShiftUntilResult(stack, output, LeftParen);
      && WellFormed(s, o)
      && multiset(o) + multiset(Filter(s, NotLeftParen)) == multiset(output) + multiset(Filter(stack, NotLeftParen))
      && Filter(o, IsOperandToken) == Filter(output, IsOperandToken)
      && multiset(s)[LeftParen] + (if found then 1 else 0) == multiset(stack)[LeftParen]
  {
    var r := LastIndexOf(stack, LeftParen);
    if r.Some? {
      var i := r.value;
      assert ShiftUntilResult(stack, output, LeftParen) == (true, stack[..i], output + Reversed(stack[i + 1..]));
      ShiftToFoundParen(stack, output, i);
    } else {
      assert ShiftUntilResult(stack, output, LeftParen) == (false, [], output + Reversed(stack));
      assert [] + stack == stack;
      MoveToOutput([], stack, output);
    }
  }

  lemma ShiftToFoundParen(stack: seq<Token>, output: seq<Token>, i: nat)
    requires WellFormed(stack, output)
    requires i < |stack| && stack[i] == LeftParen && LeftParen !in stack[i + 1..]
    ensures var s, o := stack[..i], output + Reversed(stack[i + 1..]);
      && WellFormed(s, o)
      && multiset(o) + multiset(Filter(s, NotLeftParen)) == multiset(output) + multiset(Filter(stack, NotLeftParen))
      && Filter(o, IsOperandToken) == Filter(output, IsOperandToken)
      && multiset(s)[LeftParen] + 1 == multiset(stack)[LeftParen]
  {
    var below, above := stack[..i], stack[i + 1..];
    assert stack == (below + [LeftParen]) + above;
    MoveToOutput(below + [LeftParen], above, output);
    FilterAppend(below, [LeftParen], NotLeftParen);
    assert forall t :: t in below ==> t in below + [LeftParen];
  }

  /** `handle_operator` moves only operators, and only when it succeeds does the parser push. */
  lemma HandleOperatorAccounting(stack: seq<Token>, output: seq<Token>, op: Operator)
    requires WellFormed(stack, output)
    ensures var (res, s, o) := HandleOperatorResult(stack, output, op);
      && WellFormed(s, o)
      && multiset(o) + multiset(Filter(s, NotLeftParen)) == multiset(output) + multiset(Filter(stack, NotLeftParen))
      && Filter(o, IsOperandToken) == Filter(output, IsOperandToken)
      && multiset(s)[LeftParen] == multiset(stack)[LeftParen]
  {
    var n := |stack| - PopCount(stack, op);
    var kept, popped := stack[..n], stack[n..];
    assert stack == kept + popped;
    forall j | 0 <= j < |popped|
      ensures popped[j] != LeftParen
    {
      assert PoppedBy(stack[n + j], op);
    }
    MoveToOutput(kept, popped, output);
  }

  /**
   * How one token `t` takes the parser from (`stack`, `output`) to (`s`, `o`):
   * the shapes are kept, what `t` adds to the output or the stack is `t`
   * itself unless it is punctuation, operands go straight to the output, and
   * a `)` consumes one `(`.
   */
  predicate StepAccounts(t: Token, stack: seq<Token>, output: seq<Token>, s: seq<Token>, o: seq<Token>) {
    && WellFormed(s, o)
    && multiset(o) + multiset(Filter(s, NotLeftParen))
         == multiset(output) + multiset(Filter(stack, NotLeftParen)) + multiset(Filter([t], Emitted))
    && Filter(o, IsOperandToken) == Filter(output, IsOperandToken) + Filter([t], IsOperandToken)
    && multiset(s)[LeftParen] + multiset([t])[RightParen] == multiset(stack)[LeftParen] + multiset([t])[LeftParen]
  }

  lemma OperandStep(t: Token, stack: seq<Token>, output: seq<Token>)
    requires WellFormed(stack, output) && t.IsOperand()
    ensures StepAccounts(t, stack, output, stack, output + [t])
  {
    FilterAppend(output, [t], IsOperandToken);
  }

  lemma DroppedStep(t: Token, stack: seq<Token>, output: seq<Token>)
    requires WellFormed(stack, output) && (t.NoToken? || t.Comma?)
    ensures StepAccounts(t, stack, output, stack, output)
  {
  }

  lemma PushStep(t: Token, stack: seq<Token>, output: seq<Token>)
    requires WellFormed(stack, output) && (t.Function? || t.LeftParen?)
    ensures StepAccounts(t, stack, output, stack + [t], output)
  {
    FilterAppend(stack, [t], NotLeftParen);
  }

  lemma OperatorStep(t: Token, stack: seq<Token>, output: seq<Token>)
    requires WellFormed(stack, output) && t.Operator?
    ensures var (_, s, o) := HandleOperatorResult(stack, output, t.operator);
      StepAccounts(t, stack, output, s + [t], o)
  {
    HandleOperatorAccounting(stack, output, t.operator);
    var (_, s, o) := HandleOperatorResult(stack, output, t.operator);
    FilterAppend(s, [t], NotLeftParen);
  }

  /** A function found on top once its `(` is gone moves to the output. */
  lemma FunctionToOutput(s: seq<Token>, o: seq<Token>)
    requires WellFormed(s, o) && s != [] && s[|s| - 1].Function?
    ensures var f := s[|s| - 1];
      && WellFormed(s[..|s| - 1], o + [f])
      && multiset(o + [f]) + multiset(Filter(s[..|s| - 1], NotLeftParen)) == multiset(o) + multiset(Filter(s, NotLeftParen))
      && Filter(o + [f], IsOperandToken) == Filter(o, IsOperandToken)
      && multiset(s[..|s| - 1])[LeftParen] == multiset(s)[LeftParen]
  {
    var f := s[|s| - 1];
    assert s == s[..|s| - 1] + [f];
    FilterAppend(s[..|s| - 1], [f], NotLeftParen);
    FilterAppend(o, [f], IsOperandToken);
    assert forall u :: u in s[..|s| - 1] ==> u in s;
  }

  /** A `)` that moved tokens without losing any and consumed one `(` accounts as a step. */
  lemma CloseAccounts(stack: seq<Token>, output: seq<Token>, s: seq<Token>, o: seq<Token>)
    requires WellFormed(s, o)
    requires multiset(o) + multiset(Filter(s, NotLeftParen)) == multiset(output) + multiset(Filter(stack, NotLeftParen))
    requires Filter(o, IsOperandToken) == Filter(output, IsOperandToken)
    requires multiset(s)[LeftParen] + 1 == multiset(stack)[LeftParen]
    ensures StepAccounts(RightParen, stack, output, s, o)
  {
    assert multiset([RightParen])[RightParen] == 1 && multiset([RightParen])[LeftParen] == 0;
    assert Filter([RightParen], Emitted) == [] && Filter([RightParen], IsOperandToken) == [];
  }

  lemma RightParenStep(stack: seq<Token>, output: seq<Token>)
    requires WellFormed(stack, output)
    ensures var (res, s, o) := HandleRParenResult(stack, output);
      res.Ok? ==> StepAccounts(RightParen, stack, output, s, o)
  {
    ShiftToParen(stack, output);
    var (found, s, o) := ShiftUntilResult(stack, output, LeftParen);
    if found {
      if s != [] && s[|s| - 1].Function? {
        FunctionToOutput(s, o);
        CloseAccounts(stack, output, s[..|s| - 1], o + [s[|s| - 1]]);
      } else {
        CloseAccounts(stack, output, s, o);
      }
    }
  }

  /** One token: what it adds to the output or stack is exactly what it is. */
  lemma StepAccounting(t: Token, stack: seq<Token>, output: seq<Token>)
    requires WellFormed(stack, output)
    requires ShuntStep(t, stack, output).Ok?
    ensures StepAccounts(t, stack, output, ShuntStep(t, stack, output).value.0, ShuntStep(t, stack, output).value.1)
  {
    if t.IsOperand() {
      OperandStep(t, stack, output);
    } else if t.NoToken? || t.Comma? {
      DroppedStep(t, stack, output);
    } else if t.Function? || t.LeftParen? {
      PushStep(t, stack, output);
    } else if t.Operator? {
      OperatorStep(t, stack, output);
    } else {
      RightParenStep(stack, output);
    }
  }

  /**
   * From (`stack`, `output`), the rest `tokens` of the input produced `r`: the
   * shapes are clean, `r` holds the output, the non-`(` stack entries and the
   * non-punctuation tokens, the operands in order, and the parentheses of the
   * stack and `tokens` balanced.
   */
  predicate RunAccounts(tokens: seq<Token>, stack: seq<Token>, output: seq<Token>, r: seq<Token>) {
    && (forall t :: t in r ==> Emitted(t))
    && multiset(r) == multiset(output) + multiset(Filter(stack, NotLeftParen)) + multiset(Filter(tokens, Emitted))
    && Filter(r, IsOperandToken) == Filter(output, IsOperandToken) + Filter(tokens, IsOperandToken)
    && multiset(stack)[LeftParen] + multiset(tokens)[LeftParen] == multiset(tokens)[RightParen]
  }

  lemma FinishAccounting(stack: seq<Token>, output: seq<Token>)
    requires WellFormed(stack, output)
    requires ShuntFinish(stack, output).Ok?
    ensures RunAccounts([], stack, output, ShuntFinish(stack, output).value)
  {
    ShiftToParen(stack, output);
  }

  /** A step followed by the run after it accounts for the run from the step. */
  lemma ComposeAccounts(t: Token, rest: seq<Token>, stack: seq<Token>, output: seq<Token>, s: seq<Token>, o: seq<Token>, r: seq<Token>)
    requires StepAccounts(t, stack, output, s, o)
    requires RunAccounts(rest, s, o, r)
    ensures RunAccounts([t] + rest, stack, output, r)
  {
    ComposeContents(t, rest, multiset(output) + multiset(Filter(stack, NotLeftParen)),
      multiset(o) + multiset(Filter(s, NotLeftParen)), multiset(r));
    ComposeOrder(t, rest, Filter(output, IsOperandToken), Filter(o, IsOperandToken), Filter(r, IsOperandToken));
    assert multiset([t] + rest) == multiset([t]) + multiset(rest);
  }

  lemma ComposeContents(t: Token, rest: seq<Token>, before: multiset<Token>, after: multiset<Token>, result: multiset<Token>)
    requires after == before + multiset(Filter([t], Emitted))
    requires result == after + multiset(Filter(rest, Emitted))
    ensures result == before + multiset(Filter([t] + rest, Emitted))
  {
    FilterAppend([t], rest, Emitted);
  }

  lemma ComposeOrder(t: Token, rest: seq<Token>, before: seq<Token>, after: seq<Token>, result: seq<Token>)
    requires after == before + Filter([t], IsOperandToken)
    requires result == after + Filter(rest, IsOperandToken)
    ensures result == before + Filter([t] + rest, IsOperandToken)
  {
    FilterAppend([t], rest, IsOperandToken);
  }

  /** The accounting of `StepAccounting`, summed over the rest of the input. */
  lemma {:induction false} ShuntFromAccounting(tokens: seq<Token>, stack: seq<Token>, output: seq<Token>)
    requires WellFormed(stack, output)
    requires ShuntFrom(tokens, stack, output).Ok?
    decreases |tokens|
    ensures RunAccounts(tokens, stack, output, ShuntFrom(tokens, stack, output).value)
  {
    if tokens == [] {
      FinishAccounting(stack, output);
    } else {
      var t := tokens[0];
      StepAccounting(t, stack, output);
      var (s, o) := ShuntStep(t, stack, output).value;
      assert ShuntFrom(tokens, stack, output) == ShuntFrom(tokens[1..], s, o);
      ShuntFromAccounting(tokens[1..], s, o);
      assert tokens == [t] + tokens[1..];
      ComposeAccounts(t, tokens[1..], stack, output, s, o, ShuntFrom(tokens, stack, output).value);
    }
  }

  /**
   * A successful shunt of a token sequence: its postfix holds no punctuation,
   * lists the operands in their input order, holds every operand, function
   * and operator of the input exactly once, and the input had as many `(`
   * as `)`.
   */
  lemma ShuntTokensSound(tokens: seq<Token>)
    requires ShuntTokens(tokens).Ok?
    ensures var r := ShuntTokens(tokens).value;
      && (forall t :: t in r ==> !t.IsPunctuation())
      && Filter(r, IsOperandToken) == Filter(tokens, IsOperandToken)
      && multiset(r) == multiset(Filter(tokens, Emitted))
      && multiset(tokens)[LeftParen] == multiset(tokens)[RightParen]
  {
    ShuntFromAccounting(tokens, [], []);
  }

  /**
   * A successful shunt of `expr`: the scan succeeded and spelled out `expr`,
   * and the postfix relates to the scanned tokens as `ShuntTokensSound` says.
   */
  lemma ShuntExprSound(expr: string, ctx: Context, number: NumberRecognizer)
    requires LexSafe(expr, [NoToken], ctx, number)
    requires ShuntExpr(expr, ctx, number).Ok?
    ensures LexFrom(expr, [NoToken], ctx, number).Ok?
    ensures var tokens := LexFrom(expr, [NoToken], ctx, number).value;
      var r := ShuntExpr(expr, ctx, number).value;
      && Concat(tokens[1..]) == expr
      && (forall t :: t in r ==> !t.IsPunctuation())
      && Filter(r, IsOperandToken) == Filter(tokens, IsOperandToken)
      && multiset(r) == multiset(Filter(tokens, Emitted))
  {
    LexFromSentinel(expr, ctx, number);
    ShuntTokensSound(LexFrom(expr, [NoToken], ctx, number).value);
  }
}
