/**
 * The grammar registry: ordered lists of unary operators, binary operators,
 * functions and variables, filled in before parsing and only read after.
 */
module Registry {
  import opened Tokens
  import Operators
  import Functions

  class Context {
    var unaryOperators: seq<UnaryOperator>
    var binaryOperators: seq<BinaryOperator>
    var functions: seq<Function>
    var variables: seq<Variable>

    /**
     * Every registered token string is non-empty. The lexer consumes one
     * matched token string per step, so an empty one would make it loop.
     */
    predicate Valid()
      reads this
    {
      && (forall op :: op in unaryOperators ==> op.token != [])
      && (forall op :: op in binaryOperators ==> op.token != [])
      && (forall f :: f in functions ==> f.token != [])
      && (forall v :: v in variables ==> v.token != [])
    }

    /** The default grammar: default operators and functions, no variables. */
    constructor Default()
      ensures unaryOperators == Operators.DefaultUnaryOperators()
      ensures binaryOperators == Operators.DefaultBinaryOperators()
      ensures functions == Functions.DefaultFunctions()
      ensures variables == []
      ensures Valid()
    {
      unaryOperators := Operators.DefaultUnaryOperators();
      binaryOperators := Operators.DefaultBinaryOperators();
      functions := Functions.DefaultFunctions();
      variables := [];
    }

    /** Registers `v` after every variable already known; nothing else changes. */
    method AddVariable(v: Variable)
      modifies this
      ensures variables == old(variables) + [v]
      ensures unaryOperators == old(unaryOperators)
      ensures binaryOperators == old(binaryOperators)
      ensures functions == old(functions)
      ensures Valid() <==> old(Valid()) && v.token != []
    {
      variables := variables + [v];
      assert variables[|variables| - 1] == v;
    }
  }
}
