/**
 * Function recognition: a registered name at the start of the text, checked
 * against the parentheses that follow it and its declared number of inputs.
 */
module Functions {
  import opened Tokens

  /** The position of the first `c` in `s`, if any. */
  function IndexOf(s: string, c: char): (r: Option<nat>)
    ensures r.None? <==> c !in s
    ensures r.Some? ==> r.value < |s| && s[r.value] == c && c !in s[..r.value]
  {
    if s == [] then None
    else if s[0] == c then Some(0)
    else
      var r := IndexOf(s[1..], c);
      assert s == [s[0]] + s[1..];
      if r.None? then None
      else
        assert s[..r.value + 1] == [s[0]] + s[1..][..r.value];
        Some(r.value + 1)
  }

  /** The number of occurrences of `c` in `s`. */
  function CountOf(s: string, c: char): (n: nat)
    ensures n == multiset(s)[c]
  {
    if s == [] then 0
    else
      assert s == [s[0]] + s[1..];
      (if s[0] == c then 1 else 0) + CountOf(s[1..], c)
  }

  /** The first registered function whose name prefixes `expr`. */
  function FirstFunction(expr: string, fs: seq<Function>): (r: Option<Function>)
    ensures r.Some? ==> r.value in fs && r.value.token <= expr
    ensures r.None? <==> forall i :: 0 <= i < |fs| ==> !(fs[i].token <= expr)
    ensures r.Some? ==> exists i :: (0 <= i < |fs| && fs[i] == r.value && fs[i].token <= expr
      && forall j :: 0 <= j < i ==> !(fs[j].token <= expr))
  {
    if fs == [] then None
    else if fs[0].token <= expr then Some(fs[0])
    else FirstFunction(expr, fs[1..])
  }

  /**
   * Whether the arity check of the first matching function would abort: both
   * parentheses follow the name but `)` comes first (an invalid slice), or the
   * function declares no inputs (an unsigned underflow).
   */
  predicate FunctionPanics(expr: string, fs: seq<Function>) {
    var m := FirstFunction(expr, fs);
    m.Some? &&
    var rest := expr[|m.value.token|..];
    var lpar := IndexOf(rest, '(');
    var rpar := IndexOf(rest, ')');
    lpar.Some? && rpar.Some? && (rpar.value < lpar.value || m.value.nInputs == 0)
  }

  /**
   * The outcome for the first function `f` whose name prefixes `expr`: an
   * error unless both parentheses follow the name and the commas between the
   * first `(` and the first `)` number one fewer than the inputs of `f`.
   */
  function CheckCall(f: Function, expr: string): (r: Result<Option<Function>, Error>)
    requires f.token <= expr
    requires var rest := expr[|f.token|..];
      '(' in rest && ')' in rest ==> IndexOf(rest, '(').value <= IndexOf(rest, ')').value && f.nInputs >= 1
    ensures r.Ok? ==> r.value == Some(f)
    ensures var rest := expr[|f.token|..];
      ('(' !in rest || ')' !in rest ==> r == Err(ParenthesesMissing))
      && ('(' in rest && ')' in rest ==>
            (r.Ok? <==> CountOf(rest[IndexOf(rest, '(').value..IndexOf(rest, ')').value], ',') == f.nInputs - 1)
            && (r.Err? ==> r.error == CommaCountMismatch))
  {
    var rest := expr[|f.token|..];
    var lpar := IndexOf(rest, '(');
    var rpar := IndexOf(rest, ')');
    if lpar.Some? && rpar.Some? then
      var commas := CountOf(rest[lpar.value..rpar.value], ',');
      if commas == f.nInputs - 1 then Ok(Some(f)) else Err(CommaCountMismatch)
    else
      Err(ParenthesesMissing)
  }

  /**
   * The function recogniser: `Ok(None)` when no registered name prefixes
   * `expr`; otherwise the first such function alone decides the outcome.
   */
  function BeginsWithFunction(expr: string, fs: seq<Function>): (r: Result<Option<Function>, Error>)
    requires !FunctionPanics(expr, fs)
    ensures r == Ok(None) <==> forall i :: 0 <= i < |fs| ==> !(fs[i].token <= expr)
    ensures r != Ok(None) ==> FirstFunction(expr, fs).Some? && r == CheckCall(FirstFunction(expr, fs).value, expr)
  {
    match FirstFunction(expr, fs)
    case None => Ok(None)
    case Some(f) => CheckCall(f, expr)
  }

  /** The default function registry: `sin`, of one input. */
  function DefaultFunctions(): (fs: seq<Function>)
    ensures fs == [Func("sin", 1)]
    ensures forall f :: f in fs ==> f.token != [] && f.nInputs >= 1
  {
    [Func("sin", 1)]
  }
}
