/**
 * The stages joined up: the postfix sequence that the parser produces is
 * what the node builder walks, one token at a time.
 */
module Pipeline {
  import opened Tokens
  import opened Shunter
  import opened ShunterLemmas
  import opened Nodes

  /** Every variable token of `tokens` has a binding in `expr`. */
  predicate AllBound<T>(tokens: seq<Token>, expr: Expression<T>) {
    forall t :: t in tokens ==> !Unbound(t, expr)
  }

  /**
   * When every variable of the input is bound, each token of a successful
   * postfix sequence converts: operands to leaves, and functions and
   * operators through their factories, which are the only way the
   * conversion can still fail.
   */
  lemma ShuntedTokensConvert<T>(tokens: seq<Token>, expr: Expression<T>, kit: ValueKit<T>,
                                funcFactory: Function -> Result<Node<T>, Error>,
                                opFactory: Operator -> Result<Node<T>, Error>)
    requires ShuntTokens(tokens).Ok? && AllBound(tokens, expr)
    ensures var r := ShuntTokens(tokens).value;
      forall t :: t in r ==>
        (!Unbound(t, expr) && (TokToNode(t, expr, kit, funcFactory, opFactory).Err? ==> t.Function? || t.Operator?))
  {
    var r := ShuntTokens(tokens).value;
    ShuntTokensSound(tokens);
    forall t | t in r
      ensures !Unbound(t, expr)
      ensures TokToNode(t, expr, kit, funcFactory, opFactory).Err? ==> t.Function? || t.Operator?
    {
      assert multiset(r)[t] > 0;
      assert t in Filter(tokens, Emitted);
      FilterMember(tokens, Emitted, t);
    }
  }
}
