# Infix-to-postfix front end of torch_compute-rs

This project models the front end of the expression compiler in
torch_compute-rs. The compiler turns a textual arithmetic expression such as
`sin(X)*Y+2` into a postfix (reverse Polish) token sequence, and then into
tree nodes. The model covers:

- **Tokens** (`tokens.dfy`): the token type, the operator, function, variable
  and number descriptors, the error kinds, and the text and length of a token.
- **Recognisers** (`operators.dfy`, `functions.dfy`, `varnum.dfy`): one per
  token kind.
  - Unary operators are recognised only after one of their allowed left
    neighbours.
  - Binary operators, functions and variables are matched by first
    registered prefix.
  - A function match is checked against the parentheses and commas that
    follow it.
  - The number recogniser is a parameter.
- **Registry** (`registry.dfy`): the `Context` class, holding the four
  ordered tables, its default grammar, and variable registration.
- **Lexer** (`lexer.dfy`): the cascade `(`/`)`/`,`, unary operator, binary
  operator, function, variable, number, run from a `NoToken` sentinel. It
  ends in success when the text is used up and in an error when nothing
  matches.
- **Parser** (`shunter.dfy`, `shunter_lemmas.dfy`): the shunting-yard
  algorithm with its three helpers, and the comma-terminated rendering of a
  postfix sequence.
- **Node builder** (`nodes.dfy`, `pipeline.dfy`): the leaf constructors, the
  token-to-node conversion, and variable lookup.
- **Worked examples** (`scenarios.dfy`): concrete inputs run through the
  default grammar.

The code that updates state step by step is modelled as methods with loops:
`lex`, `shunt`, `handle_operator`, `handle_rparen`, `shift_until` and
`stringify_rpn`. Each method is proved equal to a specification function,
and the properties are proved about those functions. The registry is a
class whose `AddVariable` changes only its variable list. The recognisers
and the node builder are pure functions.

An abort in the source (`unwrap`, an invalid slice, an unsigned underflow, a
missing variable binding) becomes a precondition. Conditions that the source
reports become `Result` errors.

Text is a sequence of characters. The source slices by bytes, but every cut
it makes lies on a character boundary: after a one-byte `(`, `)` or `,`,
after a matched registered prefix, or at the offset of an ASCII `(` or `)`.
Byte and character offsets therefore give the same cuts.

The model follows the code in three places where the code departs from the
usual conventions of arithmetic notation:

- **Left associativity.** No default operator is left-associative. Equal
  precedence therefore never pops, and the tokens of `X-Y-Z` give `X Y Z - -`, which
  groups as `X-(Y-Z)` (`Scenarios.ShuntRightGrouping`).
- **Unary minus.** The default unary `-` may follow only the start sentinel
  or `(`. So `X--Y` scans as two subtractions, not a subtraction followed by
  a negation (`Scenarios.LexDoubleMinus`).
- **Failed function checks.** A function name whose call check fails does
  not stop the lexer. The failure is passed over and the variable and number
  recognisers are tried next (`Scenarios.LexWrongArity`).

## Model

| member | source | states |
|---|---|---|
| Tokens.Token.Len | src/expression/token.rs:45-58 | The length of a token computed without its text equals the length of its text. |
| Tokens.PunctuationText | src/expression/token.rs:30-43 | Of the four punctuation tokens, the sentinel alone has empty text, each of `(`, `)` and `,` is one character, and no two are spelt alike. |
| Tokens.DefaultToken | src/expression/mod.rs:32-36 | The default token is punctuation with empty text and length 0, which makes it the sentinel. |
| Tokens.OperatorAccessors | src/expression/operators.rs:84-107 | The token, precedence and associativity accessors read back the descriptor of either operator kind. |
| Operators.BeginsWithUnaryOperator | src/expression/operators.rs:110-121 | Returns the first registered unary operator whose token prefixes the text and whose allowed left tokens contain the last token of the history. Returns none exactly when no operator qualifies. |
| Operators.BeginsWithBinaryOperator | src/expression/operators.rs:123-130 | Returns the first registered binary operator whose token prefixes the text. Returns none exactly when none does. The history plays no part. |
| Operators.DefaultPrecedence | src/expression/operators.rs:182-192 | Negation and power get 10, multiplication and division 5, addition and subtraction 3; each level holds exactly those operators. |
| Operators.DefaultUnaryOperators | src/expression/operators.rs:141-150 | One operator, `-`: precedence 10, not left-associative, allowed exactly after `NoToken` or `(`. |
| Operators.DefaultBinaryOperators | src/expression/operators.rs:152-180 | `^ * / + -` in that order, at precedences 10, 5, 5, 3, 3, none left-associative. |
| Operators.DefaultMinusDisambiguation | src/expression/operators.rs:110-150 | Under the default grammar, a leading `-` is negation if and only if the last token is `NoToken` or `(`. The binary recogniser always offers subtraction. |
| Functions.IndexOf | src/expression/functions.rs:33-34 | The first position of a character: absent exactly when the character is absent, and no earlier occurrence before it. |
| Functions.CountOf | src/expression/functions.rs:39 | The number of commas is the multiplicity of the character in the text. |
| Functions.FirstFunction | src/expression/functions.rs:30-31 | Returns the first registered function whose name prefixes the text. Returns none exactly when none does. |
| Functions.CheckCall | src/expression/functions.rs:32-45 | Without both parentheses after the name, the result is a missing-parentheses error. Otherwise the call succeeds if and only if the commas between the first `(` and the first `)` number one fewer than the declared inputs; if not, it is a comma-count error. |
| Functions.BeginsWithFunction | src/expression/functions.rs:29-49 | Returns `Ok(None)` exactly when no name prefixes the text. Otherwise the first matching function alone decides the outcome. |
| Functions.DefaultFunctions | src/expression/functions.rs:52-55 | The default functions are `sin` alone, of one input; every default function has a non-empty name and at least one input. |
| VarNum.BeginsWithVariable | src/expression/varnum.rs:41-48 | Returns the first registered variable whose name prefixes the text, so registration order beats length. Returns none exactly when none does. |
| VarNum.BeginsWithNumber | src/expression/varnum.rs:61-71 | A match is a non-empty prefix that starts with a sign, digit, point or `i`/`I`. Any other first character yields none. |
| Registry.Context.Default | src/expression/mod.rs:54-65 | The default tables and no variables. The registry is valid: no empty token strings. |
| Registry.Context.AddVariable | src/expression/mod.rs:48-50 | Appends the variable after the existing ones and leaves the other tables unchanged. Validity is kept if and only if the new name is non-empty. |
| Lexer.LexToken | src/expression/lexer.rs:40-94 | The token text followed by the rest is exactly the input. In a valid registry, a real token strictly shortens the text. |
| Lexer.StructuralRoundTrip | src/expression/lexer.rs:45-51 | Lexing the text of `(`, `)` or `,` gives that token back, with the text after it as the rest, whatever follows. |
| Lexer.LexNamed | src/expression/lexer.rs:68-83 | A function whose call checks out, else a variable: the token's text followed by the rest is the input, the token is never `NoToken`, and in a valid registry the rest is shorter. |
| Lexer.LexNamedOrNumber | src/expression/lexer.rs:68-93 | The same split property once the number stage is added. |
| Lexer.LexFrom | src/expression/lexer.rs:18-38 | On success, the history is kept as a prefix, the new tokens spell the remaining text exactly, and none of them is `NoToken`. The only error is a bad-expression error. |
| Lexer.LexFromStep | src/expression/lexer.rs:22-36 | One loop iteration: stop with an error on `NoToken`, stop with success when the text is used up, otherwise continue with the token recorded. |
| Lexer.LexFromSentinel | src/expression/lexer.rs:18-19 | Started from the sentinel, a successful scan is the sentinel followed by tokens spelling the whole input. |
| Lexer.Lex | src/expression/lexer.rs:18-38 | The loop returns exactly the specified scan: the sentinel, then tokens that spell the input and are never `NoToken`, or a bad-expression error. |
| Shunter.LastIndexOf | src/expression/shunter.rs:111-119 | The topmost position of a token on the stack: absent exactly when the token is absent, and no occurrence above it. |
| Shunter.LastIndexOfAt | src/expression/shunter.rs:111-119 | A position holding the token with no occurrence above it is the topmost position. |
| Shunter.ShiftUntil | src/expression/shunter.rs:111-119 | The pop loop reports whether the stop token was found. Everything above it goes to the output in pop order, and the stop token itself is dropped. Without it, the whole stack goes to the output. |
| Shunter.PopCount | src/expression/shunter.rs:77-91 | The number of top stack entries that the incoming operator pops: each is an operator of higher precedence, or of equal precedence when the incoming operator is left-associative. The next entry down is not. |
| Shunter.PopCountAt | src/expression/shunter.rs:77-91 | A boundary below which popping stops determines that count. |
| Shunter.HandleOperator | src/expression/shunter.rs:74-93 | The loop pops exactly those entries onto the output in pop order. It fails, naming the incoming operator, when it reaches something other than `(` or an operator. |
| Shunter.HandleRParen | src/expression/shunter.rs:95-109 | Shifts to the topmost `(`. Without one, the result is a mismatched-parenthesis error. A function then on top moves to the output. |
| Shunter.ShuntExpr | src/expression/shunter.rs:18-24 | A lexing failure is reported as the bad-expression error. |
| Shunter.Shunt | src/expression/shunter.rs:18-59 | The token loop and the final shift compute exactly the specified parse of the lexed tokens. |
| Shunter.Rpn | src/expression/shunter.rs:61-72 | The rendering is empty if and only if the sequence is, and otherwise ends in a comma. |
| Shunter.RpnAppend | src/expression/shunter.rs:61-72 | Rendering distributes over concatenation. |
| Shunter.RpnSnoc | src/expression/shunter.rs:67-70 | Appending one token appends its text and a comma. |
| Shunter.StringifyRpn | src/expression/shunter.rs:61-72 | The loop builds exactly the comma-terminated rendering. |
| ShunterLemmas.MoveToOutput | src/expression/shunter.rs:112-117 | Moving a `(`-free top part of the stack to the output keeps the state shapes, operand order, tokens and `(` count. |
| ShunterLemmas.ShiftToParen | src/expression/shunter.rs:111-119 | Shifting to `(` keeps the shapes, operand order and non-`(` tokens. It consumes exactly one `(` when it finds one. |
| ShunterLemmas.HandleOperatorAccounting | src/expression/shunter.rs:74-93 | Handling an operator moves only operators. It loses no token and reorders no operand. |
| ShunterLemmas.OperandStep | src/expression/shunter.rs:33-34 | Numbers, constants and variables go straight to the output. |
| ShunterLemmas.DroppedStep | src/expression/shunter.rs:32-48 | `NoToken` and `,` change nothing. |
| ShunterLemmas.PushStep | src/expression/shunter.rs:35-42 | Functions and `(` are pushed. |
| ShunterLemmas.OperatorStep | src/expression/shunter.rs:36-41 | A successfully handled operator is pushed after the pops. |
| ShunterLemmas.FunctionToOutput | src/expression/shunter.rs:101-106 | A function on top after the `(` is gone moves to the output. |
| ShunterLemmas.RightParenStep | src/expression/shunter.rs:95-109 | A successful `)` consumes one `(` and moves only functions and operators. |
| ShunterLemmas.StepAccounting | src/expression/shunter.rs:30-50 | Each successful token step keeps the shapes, adds the token itself unless it is punctuation, keeps operand order, and matches `)` with `(`. |
| ShunterLemmas.FinishAccounting | src/expression/shunter.rs:52-58 | A successful final shift leaves no `(` and empties the stack onto the output. |
| ShunterLemmas.ShuntFromAccounting | src/expression/shunter.rs:30-58 | Summed over the rest of the input, the result holds exactly the output, the stack entries other than `(`, and the non-punctuation tokens. It keeps operands in order, and parentheses balance. |
| ShunterLemmas.ShuntTokensSound | src/expression/shunter.rs:18-59 | A successful parse has no punctuation. It lists the operands in input order, holds every operand, function and operator of the input exactly once, and comes from input with as many `(` as `)`. |
| ShunterLemmas.ShuntExprSound | src/expression/shunter.rs:18-59 | A successful shunt of a text comes from a scan that spells the text, with the postfix related to the scanned tokens as above. |
| Nodes.GetVariable | src/expression/nodes.rs:170-177 | Returns the value of the first binding with that name. Returns none exactly when no binding has the name. |
| Nodes.FromNumber | src/expression/nodes.rs:33-44 | A number leaf carries the number token and the parsed value, is neither zero nor unity, and has no children. |
| Nodes.FromVariable | src/expression/nodes.rs:46-60 | A variable leaf carries the token and the value of the first binding of its name, is neither zero nor unity, and has no children. |
| Nodes.FromZero | src/expression/nodes.rs:62-72 | The zero leaf carries `Zero` and the zero value, is flagged zero only, and has no children. |
| Nodes.FromUnity | src/expression/nodes.rs:74-84 | The unity leaf carries `Unity` and the unit value, is flagged unity only, and has no children. |
| Nodes.TokToNode | src/expression/nodes.rs:121-145 | An operand becomes a childless leaf carrying the token, flagged zero or unity exactly for `Zero` or `Unity`. Functions and operators go unchanged to their factories. Punctuation is an error carrying the token text. |
| Pipeline.ShuntedTokensConvert | src/expression/nodes.rs:158-167 | When every variable of the input is bound, every token of a successful postfix can be converted. Conversion can then fail only inside the function or operator factory. |
| Scenarios.LexLeadingMinus | src/expression/operators.rs:110-121 | `-X` scans as negation followed by `X`. |
| Scenarios.LexInfixMinus | src/expression/lexer.rs:54-66 | `X-Y` scans as `X`, subtraction, `Y`. |
| Scenarios.LexDoubleMinus | src/expression/operators.rs:141-150 | `X--Y` scans as `X`, two subtractions, `Y`. |
| Scenarios.SinArityMismatch | src/expression/functions.rs:35-43 | `sin(X,Y)` fails the call check of the one-input `sin` with a comma-count error. |
| Scenarios.LexWrongArity | src/expression/lexer.rs:68-93 | That failure is passed over, and the scan of `sin(X,Y)` ends in a bad-expression error. |
| Scenarios.ShuntPrecedence | src/expression/shunter.rs:74-93 | The tokens of `X+Y*Z` give the postfix `X Y Z * +`. |
| Scenarios.ShuntParentheses | src/expression/shunter.rs:95-109 | The tokens of `(X+Y)*Z` give the postfix `X Y + Z *`. |
| Scenarios.ShuntRightGrouping | src/expression/shunter.rs:83 | The tokens of `X-Y-Z` give the postfix `X Y Z - -`. |
| Scenarios.ShuntFunctionCall | src/expression/shunter.rs:101-106 | The tokens of `sin(X)` give the postfix `X sin`. |
| Scenarios.ShuntFunctionThenOperator | src/expression/shunter.rs:89 | An operator meeting a function on the stack is an error naming the operator, `+`. |
| Scenarios.ShuntUnbalanced | src/expression/shunter.rs:52-54 | `X)` and `(X` both give the mismatched-parenthesis error. |
| Scenarios.RenderPostfix | src/expression/shunter.rs:61-72 | `X Y Z * +` renders as `X,Y,Z,*,+,`. |

## Left out

- `src/main.rs` and `pyth/expr.py`: the demonstration driver and the sympy helper module that it loads and calls. Neither is part of this model.
- `Expression::new` and `init_expr` (nodes.rs:149-168): both are unfinished and do not compile. Only the property that `init_expr` would rely on is stated (`Pipeline.ShuntedTokensConvert`).
- The parent links of nodes (`Rc`/`Weak`) and the operator and function node payloads: values built by the factories are opaque results here.
- The number regular expression: an abstract recogniser. Wherever the number stage runs (no operator, function or variable took the text), it is assumed to return nothing or a non-empty prefix that starts with a number-lead character. Both groups of the source's pattern are optional, so it can return an empty match there, which can make `lex` loop forever. Regex engine errors (the `assert!` in `begins_with_number`) are not modelled.
- VarNum.NumberLead: holds the ASCII digits only. The `\d` of the source's pattern also matches other Unicode decimal digits, so a text starting with one of them can be a number in the source; the model does not admit such matches.
- Termination: the registry is assumed valid (no empty token strings). An empty registered token can make the source's lexer loop forever. `Valid()` also excludes such registries on runs that do terminate, for instance an empty unary token that matches once and then no longer applies.
- Functions.BeginsWithFunction: an abort of the source becomes a precondition. The source aborts when `)` precedes `(` after a function name (an invalid slice). When a function declares zero inputs, `get_n_inputs() - 1` underflows: a build with overflow checks aborts, and the model takes that behaviour; a release build wraps to 255 and then wants 255 commas, giving the comma-count error otherwise. Callers must exclude both cases.
- Nodes.FromVariable: the source panics on a missing binding. It is modelled as a precondition.
- Error message texts: only the error kind, and the operator or token text it names, is modelled.
- Shunter.StringifyRpn: the capacity pre-computation only sizes the buffer. Its result is modelled by `Tokens.Token.Len`, not as a separate loop.
- The `Op` accessors and `new` constructors: they are datatype fields and constructors here.
- `token.rs` duplicates the `Token` and `Context` types of `mod.rs`. The model has one `Token` type with the text and length functions of `token.rs`.
- The precedence and arity fields are 8-bit unsigned values (`u8`). No arithmetic on them wraps, except the arity underflow noted above.
