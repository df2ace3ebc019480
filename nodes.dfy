/**
 * Leaf construction for the expression graph: turning one postfix token into
 * a node. Numbers, variables and the two constants become leaves here;
 * functions and operators are handed to caller-supplied factories.
 *
 * Parent links (`Rc`/`Weak` in the original) are not modelled: a node holds
 * its children by value.
 */
module Nodes {
  import opened Tokens

  /**
   * How leaf values of type `T` are made: from a number's text, and the
   * values standing for zero and for unity.
   */
  datatype ValueKit<T> = ValueKit(fromStr: string -> T, fromZero: T, fromUnity: T)

  datatype LeafNode<T> = Leaf(token: Token, value: T, unity: bool, zero: bool, children: seq<Node<T>>)

  datatype OperatorNode<T> =
    | UnaryOperatorNode(child: Node<T>)
    | BinaryOperatorNode(lhchild: Node<T>, rhchild: Node<T>)

  datatype Node<T> =
    | LeafNode(leaf: LeafNode<T>)
    | OperatorNode(operatorNode: OperatorNode<T>)
    | FunctionNode(children: seq<Node<T>>)

  /** The variable bindings of an expression (by name) and its nodes. */
  datatype Expression<T> = Expression(variables: seq<(string, T)>, nodes: seq<Node<T>>, leafs: seq<Node<T>>)

  /** The value of the first binding named `name`, if any. */
  function GetVariable<T>(bindings: seq<(string, T)>, name: string): (r: Option<T>)
    ensures r.None? <==> forall i :: 0 <= i < |bindings| ==> bindings[i].0 != name
    ensures r.Some? ==> exists i :: (0 <= i < |bindings| && bindings[i] == (name, r.value)
      && forall j :: 0 <= j < i ==> bindings[j].0 != name)
  {
    if bindings == [] then None
    else if bindings[0].0 == name then Some(bindings[0].1)
    else
      var r := GetVariable(bindings[1..], name);
      assert forall i :: 1 <= i < |bindings| ==> bindings[i] == bindings[1..][i - 1];
      r
  }

  /** A number leaf: its value is made from the number's text; neither constant, no children. */
  function FromNumber<T>(kit: ValueKit<T>, num: Number): (n: LeafNode<T>)
    ensures n.token == Token.Number(num) && n.token.Stringify() == num.token
    ensures n.value == kit.fromStr(num.token)
    ensures !n.zero && !n.unity && n.children == []
  {
    Leaf(Token.Number(num), kit.fromStr(num.token), false, false, [])
  }

  /**
   * A variable leaf: its value is the one of the first binding of the
   * variable's name in `expr`. A name without a binding aborts, so the
   * binding is required.
   */
  function FromVariable<T>(v: Variable, expr: Expression<T>): (n: LeafNode<T>)
    requires GetVariable(expr.variables, v.token).Some?
    ensures n.token == Token.Variable(v) && n.token.Stringify() == v.token
    ensures exists i :: (0 <= i < |expr.variables| && expr.variables[i] == (v.token, n.value)
      && forall j :: 0 <= j < i ==> expr.variables[j].0 != v.token)
    ensures !n.zero && !n.unity && n.children == []
  {
    Leaf(Token.Variable(v), GetVariable(expr.variables, v.token).value, false, false, [])
  }

  /** The zero leaf: flagged zero and not unity. */
  function FromZero<T>(kit: ValueKit<T>): (n: LeafNode<T>)
    ensures n.token == Zero && n.value == kit.fromZero
    ensures n.zero && !n.unity && n.children == []
  {
    Leaf(Zero, kit.fromZero, false, true, [])
  }

  /** The unity leaf: flagged unity and not zero. */
  function FromUnity<T>(kit: ValueKit<T>): (n: LeafNode<T>)
    ensures n.token == Unity && n.value == kit.fromUnity
    ensures n.unity && !n.zero && n.children == []
  {
    Leaf(Unity, kit.fromUnity, true, false, [])
  }

  /** A variable token whose name has no binding in `expr`. */
  predicate Unbound<T>(t: Token, expr: Expression<T>) {
    t.Variable? && GetVariable(expr.variables, t.variable.token).None?
  }

  /**
   * The node for one token: operands become leaves carrying the token,
   * functions and operators go to their factories unchanged, and the
   * punctuation tokens cannot be converted.
   */
  function TokToNode<T>(token: Token, expr: Expression<T>, kit: ValueKit<T>,
                        funcFactory: Function -> Result<Node<T>, Error>,
                        opFactory: Operator -> Result<Node<T>, Error>): (r: Result<Node<T>, Error>)
    requires !Unbound(token, expr)
    ensures token.IsOperand() ==> (r.Ok? && r.value.LeafNode? && r.value.leaf.token == token
      && r.value.leaf.children == []
      && (r.value.leaf.zero <==> token.Zero?) && (r.value.leaf.unity <==> token.Unity?))
    ensures token.Function? ==> r == funcFactory(token.func)
    ensures token.Operator? ==> r == opFactory(token.operator)
    ensures token.IsPunctuation() ==> r == Err(NotConvertible(token.Stringify()))
  {
    match token
    case Number(num) => Ok(LeafNode(FromNumber(kit, num)))
    case Variable(v) => Ok(LeafNode(FromVariable(v, expr)))
    case Zero => Ok(LeafNode(FromZero(kit)))
    case Unity => Ok(LeafNode(FromUnity(kit)))
    case Function(f) => funcFactory(f)
    case Operator(op) => opFactory(op)
    case _ => Err(NotConvertible(token.Stringify()))
  }
}
