/**
 * The token model of the expression front end: the `Token` sum type, the
 * operator, function, variable and number descriptors it carries, the error
 * kinds the stages report, and the textual form of a token.
 */
module Tokens {

  datatype Option<+T> = None | Some(value: T)

  datatype Result<+R, +E> = Ok(value: R) | Err(error: E)

  /** An unsigned 8-bit integer, the type of precedences and arities. */
  type u8 = x: int | 0 <= x < 256

  /** A unary operator; it may only follow one of `allowedLeftTokens`. */
  datatype UnaryOperator = UnaryOp(
    token: string,
    precedence: u8,
    isLeftAssociative: bool,
    allowedLeftTokens: seq<Token>)

  datatype BinaryOperator = BinaryOp(token: string, precedence: u8, isLeftAssociative: bool)

  /** Either kind of operator, with the accessors every operator offers. */
  datatype Operator = Unary(unary: UnaryOperator) | Binary(binary: BinaryOperator)
  {
    function Token(): string {
      match this
      case Unary(op) => op.token
      case Binary(op) => op.token
    }

    function Precedence(): u8 {
      match this
      case Unary(op) => op.precedence
      case Binary(op) => op.precedence
    }

    function IsLeftAssociative(): bool {
      match this
      case Unary(op) => op.isLeftAssociative
      case Binary(op) => op.isLeftAssociative
    }
  }

  /** A function name with its declared number of inputs. */
  datatype Function = Func(token: string, nInputs: u8)

  datatype Variable = Var(token: string)

  datatype Number = Num(token: string)

  /** Equality on tokens is structural, payloads included. */
  datatype Token =
    | NoToken
    | Number(number: Number)
    | Zero
    | Unity
    | Variable(variable: Variable)
    | Function(func: Function)
    | Operator(operator: Operator)
    | LeftParen
    | RightParen
    | Comma
  {
    /** The text of a token: its stored token string, or a fixed spelling. */
    function Stringify(): string {
      match this
      case NoToken => ""
      case Number(num) => num.token
      case Zero => "Zero"
      case Unity => "Unity"
      case Variable(v) => v.token
      case Function(f) => f.token
      case Operator(op) => op.Token()
      case LeftParen => "("
      case RightParen => ")"
      case Comma => ","
    }

    /** The character count of a token, computed without building its text. */
    function Len(): (n: nat)
      ensures n == |Stringify()|
    {
      match this
      case NoToken => 0
      case Number(num) => |num.token|
      case Zero => 4
      case Unity => 5
      case Variable(v) => |v.token|
      case Function(f) => |f.token|
      case Operator(op) => |op.Token()|
      case LeftParen => 1
      case RightParen => 1
      case Comma => 1
    }

    /** Literals, identity constants and variables: the operands of an expression. */
    predicate IsOperand() {
      Number? || Zero? || Unity? || Variable?
    }

    /** Tokens that only shape the text and never reach a postfix sequence. */
    predicate IsPunctuation() {
      NoToken? || LeftParen? || RightParen? || Comma?
    }
  }

  /**
   * The spelling of the punctuation tokens: the sentinel has no text, each of
   * `(`, `)` and `,` is its one character, and no two of them are spelt alike.
   */
  lemma PunctuationText(t: Token, u: Token)
    requires t.IsPunctuation() && u.IsPunctuation()
    ensures t.NoToken? <==> t.Stringify() == []
    ensures !t.NoToken? ==> |t.Stringify()| == 1
    ensures t.Stringify() == u.Stringify() <==> t == u
  {
  }

  /** The default token: punctuation without text, which `PunctuationText` shows is the sentinel alone. */
  function DefaultToken(): (t: Token)
    ensures t.IsPunctuation() && t.Stringify() == [] && t.Len() == 0
  {
    NoToken
  }

  /** The accessors of an operator read back every field its descriptor holds besides its neighbours. */
  lemma OperatorAccessors(op: Operator)
    ensures op.Binary? ==> op == Binary(BinaryOp(op.Token(), op.Precedence(), op.IsLeftAssociative()))
    ensures op.Unary? ==>
      op == Unary(UnaryOp(op.Token(), op.Precedence(), op.IsLeftAssociative(), op.unary.allowedLeftTokens))
  {
  }

  /** The error kinds the stages report; message texts are not modelled. */
  datatype Error =
    | BadExpression
    | CommaCountMismatch
    | ParenthesesMissing
    | MismatchedParenthesis
    | IllegalOnStack(operatorToken: string)
    | NotConvertible(text: string)

  /** The elements of `s` that satisfy `keep`, in their order. */
  function Filter(s: seq<Token>, keep: Token -> bool): (r: seq<Token>)
    ensures |r| <= |s|
  {
    if s == [] then []
    else if keep(s[0]) then [s[0]] + Filter(s[1..], keep)
    else Filter(s[1..], keep)
  }

  lemma {:induction false} FilterAppend(a: seq<Token>, b: seq<Token>, keep: Token -> bool)
    ensures Filter(a + b, keep) == Filter(a, keep) + Filter(b, keep)
  {
    if a == [] {
      assert a + b == b;
    } else {
      assert (a + b)[1..] == a[1..] + b;
      FilterAppend(a[1..], b, keep);
    }
  }

  lemma {:induction false} FilterAll(s: seq<Token>, keep: Token -> bool)
    requires forall t :: t in s ==> keep(t)
    ensures Filter(s, keep) == s
  {
    if s != [] {
      assert s[0] in s;
      assert forall t :: t in s[1..] ==> t in s;
      FilterAll(s[1..], keep);
    }
  }

  lemma {:induction false} FilterNone(s: seq<Token>, keep: Token -> bool)
    requires forall t :: t in s ==> !keep(t)
    ensures Filter(s, keep) == []
  {
    if s != [] {
      assert s[0] in s;
      assert forall t :: t in s[1..] ==> t in s;
      FilterNone(s[1..], keep);
    }
  }

  /** An element survives the filter exactly when it is in `s` and kept. */
  lemma {:induction false} FilterMember(s: seq<Token>, keep: Token -> bool, t: Token)
    ensures t in Filter(s, keep) <==> t in s && keep(t)
  {
    if s != [] {
      assert s == [s[0]] + s[1..];
      FilterMember(s[1..], keep, t);
    }
  }

  /** `s` backwards: the order in which a stack hands out its entries. */
  function Reversed(s: seq<Token>): (r: seq<Token>)
    ensures |r| == |s|
    ensures forall i :: 0 <= i < |s| ==> r[i] == s[|s| - 1 - i]
  {
    if s == [] then [] else Reversed(s[1..]) + [s[0]]
  }

  lemma ReversedMultiset(s: seq<Token>)
    ensures multiset(Reversed(s)) == multiset(s)
  {
    if s != [] {
      ReversedMultiset(s[1..]);
      assert s == [s[0]] + s[1..];
    }
  }

  /** The concatenated text of a token sequence. */
  function Concat(ts: seq<Token>): string {
    if ts == [] then "" else ts[0].Stringify() + Concat(ts[1..])
  }
}
