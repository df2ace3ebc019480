/**
 * Variable and number recognition.
 *
 * The number recogniser of the source is a compiled regular expression; here
 * it is a parameter, assumed wherever it is applied to do what that expression
 * guarantees (an anchored match whose first character is a sign, a digit, a
 * point or an imaginary-unit letter) and one thing more: never to return an
 * empty match.
 */
module VarNum {
  import opened Tokens

  /** The first registered variable whose name prefixes `expr`: registration order wins over length. */
  function BeginsWithVariable(expr: string, vars: seq<Variable>): (r: Option<Variable>)
    ensures r.Some? ==> r.value in vars && r.value.token <= expr
    ensures r.None? <==> forall i :: 0 <= i < |vars| ==> !(vars[i].token <= expr)
    ensures r.Some? ==> exists i :: (0 <= i < |vars| && vars[i] == r.value && vars[i].token <= expr
      && forall j :: 0 <= j < i ==> !(vars[j].token <= expr))
  {
    if vars == [] then None
    else if vars[0].token <= expr then Some(vars[0])
    else BeginsWithVariable(expr, vars[1..])
  }

  /** The characters a number may start with. */
  const NumberLead: set<char> := {'i', 'I', '.', '0', '1', '2', '3', '4', '5', '6', '7', '8', '9', '+', '-'}

  /** What a match of the number recogniser on `s` may be. */
  predicate NumberMatch(s: string, m: Option<string>) {
    m.Some? ==> 0 < |m.value| && m.value <= s && s[0] in NumberLead
  }

  /**
   * The number recogniser of the source, as a function from the remaining
   * text to its match. Each use requires `NumberMatch` of the text it is
   * applied to.
   */
  type NumberRecognizer = string -> Option<string>

  /**
   * The number recogniser: a non-empty prefix of `expr` starting with a
   * number-lead character, or nothing; history and registry play no part.
   */
  function BeginsWithNumber(expr: string, number: NumberRecognizer): (r: Option<Number>)
    requires NumberMatch(expr, number(expr))
    ensures r.Some? ==> 0 < |r.value.token| && r.value.token <= expr && expr[0] in NumberLead
    ensures |expr| == 0 || expr[0] !in NumberLead ==> r.None?
  {
    match number(expr)
    case None => None
    case Some(m) => Some(Num(m))
  }
}
