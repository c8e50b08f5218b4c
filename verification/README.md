# ProCalc calculator core in Dafny

A model of the two pieces of the ProCalc Android calculator that do the work:

- `CalculatorEngine` turns the display text into a number. It cleans the text
  (drops spaces, maps `×` to `*` and `÷` to `/`), splits it into tokens (runs
  of digits and dots, `√`, `+ - * / ^ ( )`, everything else ignored), and runs a
  two-stack operator-precedence loop over the tokens: the main loop, the `)`
  loop, the loop that pops tighter-binding operators before a binary operator
  is pushed, and the final loop that drains the operator stack. The result is
  the top of the value stack.
- `CalculatorViewModel` is the screen's state machine: the display, the live
  result preview and the history. Each button action changes them, and
  Calculate records a finished calculation in front of the history.

The model follows the engine's code as written, including these behaviours:

- only the ASCII space is removed before tokenizing;
- a run of digits and dots that does not read as a number (`1.2.3`) is
  skipped without an error;
- a `(` still open at the end goes through `applyOp`, which gives 0 for it;
- a `√` popped by `)` is applied as a two-operand operator, so it also gives 0;
- values left below the top of the value stack are ignored (`2(3)` is 3);
- there is no unary sign, so `+5` fails on an empty value stack.

Modules, in dependency order:

| module | file | contents |
|---|---|---|
| `Wrappers` | `wrappers.dfy` | `Option` and `Result` |
| `Decimal` | `decimal.dfy` | `toDoubleOrNull` on a run of digits and dots |
| `Tokenizer` | `tokenizer.dfy` | `tokenize` and its inverse on token lists |
| `Engine` | `engine.dfy` | `parseExpression`, `applyOp`, `evaluate` |
| `EngineProperties` | `engine_properties.dfy` | success conditions of each loop; precedence, associativity and the root |
| `ExprCorrectness` | `expr_correctness.dfy` | every fully parenthesised expression evaluates to its value |
| `Examples` | `examples.dfy` | worked evaluations of concrete displays |
| `ViewModel` | `view_model.dfy` | `onAction`, `calculatePreview`, `performFinalCalculation`, history invariants |
| `Session` | `session.dfy` | the view model driven by the engine itself |

The engine's faults are the two ways a `java.util.Stack` underflows:

- `EmptyOperatorStack`: `peek` on an empty operator stack in the `)` loop;
- `EmptyValueStack`: `pop` on an empty value stack.

`MathLib` carries the square root and power functions. The view model takes
its evaluator and formatter as `Services`: an evaluation that may fail, which
is the engine's exception, and a formatter.

## Model

| member | source | states |
|---|---|---|
| Decimal.ParseDecimal | app/src/main/java/com/procalc/app/logic/CalculatorEngine.kt:51 | a run of digits and dots reads as a number exactly when it has at most one dot and at least one digit; the number is never negative |
| Decimal.ParsePointed | app/src/main/java/com/procalc/app/logic/CalculatorEngine.kt:51 | `i.f` reads as the digits of `i` and `f` taken as an integer, divided by ten once per digit after the point |
| Decimal.NatToDigitsRoundTrip | app/src/main/java/com/procalc/app/logic/CalculatorEngine.kt:51 | the decimal digits of any natural number read back as that number |
| Tokenizer.CleanRemovesGlyphs | app/src/main/java/com/procalc/app/logic/CalculatorEngine.kt:20 | after cleaning, no space, `×` or `÷` is left |
| Tokenizer.SpaceIgnored | app/src/main/java/com/procalc/app/logic/CalculatorEngine.kt:20 | a space anywhere in the text does not change the tokens, so digits either side of it join into one run |
| Tokenizer.MulGlyphIsStar | app/src/main/java/com/procalc/app/logic/CalculatorEngine.kt:20 | `×` anywhere tokenizes exactly as `*` |
| Tokenizer.DivGlyphIsSlash | app/src/main/java/com/procalc/app/logic/CalculatorEngine.kt:20 | `÷` anywhere tokenizes exactly as `/` |
| Tokenizer.RunLength | app/src/main/java/com/procalc/app/logic/CalculatorEngine.kt:27-29 | the inner loop takes the longest prefix of digits and dots |
| Tokenizer.CharTokens | app/src/main/java/com/procalc/app/logic/CalculatorEngine.kt:33-34 | any other character yields one token when it is `√` or one of `+-*/^()`, and none otherwise |
| Tokenizer.ScanKeepsText | app/src/main/java/com/procalc/app/logic/CalculatorEngine.kt:22-37 | the tokens, written back out, are the text with every ignored character removed |
| Tokenizer.ScanFindsRuns | app/src/main/java/com/procalc/app/logic/CalculatorEngine.kt:25-31 | the number tokens are exactly the maximal runs of digits and dots, in order, defined independently of the scanner |
| Tokenizer.TokenizeEmptyIff | app/src/main/java/com/procalc/app/logic/CalculatorEngine.kt:17-38 | no tokens exactly when the cleaned text keeps no character |
| Tokenizer.TokenizeRender | app/src/main/java/com/procalc/app/logic/CalculatorEngine.kt:17-38 | tokenizing the text of a token list gives the list back, when no two number tokens are adjacent |
| Engine.ApplyBinary | app/src/main/java/com/procalc/app/logic/CalculatorEngine.kt:79 | applying a popped entry with `applyOp` fails on the value stack exactly when fewer than two values are on it, and otherwise leaves one value fewer; `EngineProperties.ApplyBinaryTop` gives the value |
| EngineProperties.ApplyBinaryTop | app/src/main/java/com/procalc/app/logic/CalculatorEngine.kt:79 | on `values + [a, b]` the entry replaces `a, b` with `applyOp(op, b, a)`, the top `b` popped first and passed as the right operand, and keeps `values` unchanged |
| Engine.ApplyRoot | app/src/main/java/com/procalc/app/logic/CalculatorEngine.kt:77 | applying a popped root fails on the value stack exactly when it is empty, and otherwise keeps the count; `EngineProperties.ApplyRootTop` gives the value |
| EngineProperties.ApplyRootTop | app/src/main/java/com/procalc/app/logic/CalculatorEngine.kt:77 | on `values + [a]` a root replaces `a` with `sqrt(a)` and keeps `values` unchanged |
| Engine.Evaluate | app/src/main/java/com/procalc/app/logic/CalculatorEngine.kt:11-15 | text without tokens evaluates to 0 |
| EngineProperties.RunAppend | app/src/main/java/com/procalc/app/logic/CalculatorEngine.kt:47-48 | the token queue is consumed left to right: running `a + b` is running `b` from where `a` left the stacks |
| EngineProperties.UnparsableRunSkipped | app/src/main/java/com/procalc/app/logic/CalculatorEngine.kt:50-52 | a number token that does not read changes nothing |
| EngineProperties.ReduceDrainsYielding | app/src/main/java/com/procalc/app/logic/CalculatorEngine.kt:61-68 | before a binary operator is pushed, exactly the longest run of tops that are not `(` and bind at least as tightly is popped, top first, and applied as the final loop would |
| EngineProperties.ReduceSucceedsIff | app/src/main/java/com/procalc/app/logic/CalculatorEngine.kt:61-68 | that popping succeeds exactly when the values suffice for the entries it pops |
| EngineProperties.ReduceRoot | app/src/main/java/com/procalc/app/logic/CalculatorEngine.kt:63-64 | a pending root on top is applied to the top value alone before any binary operator is pushed |
| EngineProperties.CloseParenSucceedsIff | app/src/main/java/com/procalc/app/logic/CalculatorEngine.kt:53-58 | `)` succeeds exactly when a `(` is on the operator stack and either nothing is above it or there are more values than entries above it |
| EngineProperties.CloseParenShape | app/src/main/java/com/procalc/app/logic/CalculatorEngine.kt:53-58 | after a successful `)`, everything from the topmost `(` up is gone from the operator stack, and each entry above it took one value net |
| EngineProperties.CloseParenDrains | app/src/main/java/com/procalc/app/logic/CalculatorEngine.kt:53-58 | on an operator stack `below + [(] + seg` with no `(` in `seg`, `)` applies the entries of `seg` top first exactly as the final loop applies two-operand entries (a square root is sent through `applyOp` too), removes the `(` and keeps `below`; it fails, on the value stack, exactly when that drain does |
| EngineProperties.OpenDepthAbove | app/src/main/java/com/procalc/app/logic/CalculatorEngine.kt:54 | on `below + [(] + seg` with no `(` in `seg`, the `(` that `)` stops at is the one just below `seg`, with as many entries above it as `seg` holds |
| EngineProperties.CloseOverOpen | app/src/main/java/com/procalc/app/logic/CalculatorEngine.kt:53-58 | with no square root above the bottom `(`, `)` computes exactly what the final loop computes over those entries |
| EngineProperties.UnmatchedCloseParen | app/src/main/java/com/procalc/app/logic/CalculatorEngine.kt:54 | with no `(`, `)` fails peeking the empty operator stack: at once when the operator stack is empty, and after draining it when there are enough values |
| EngineProperties.RootClosedByParen | app/src/main/java/com/procalc/app/logic/CalculatorEngine.kt:55 | a root popped by `)` goes through `applyOp`, which takes two values and gives 0 |
| EngineProperties.FinishSucceedsIff | app/src/main/java/com/procalc/app/logic/CalculatorEngine.kt:74-81 | the final loop succeeds exactly when the values cover what every remaining entry pops; then it leaves one value fewer per two-operand entry, and otherwise it fails on the value stack |
| EngineProperties.LeftoverOpenGivesZero | app/src/main/java/com/procalc/app/logic/CalculatorEngine.kt:74-81 | a `(` left at the end takes two values and gives 0 |
| EngineProperties.RootDrained | app/src/main/java/com/procalc/app/logic/CalculatorEngine.kt:76-77 | a root left at the end replaces the top value with its square root |
| EngineProperties.FinishRoot | app/src/main/java/com/procalc/app/logic/CalculatorEngine.kt:76-77 | the same holds with any entries below the root, which are drained afterwards |
| EngineProperties.FinishBinary | app/src/main/java/com/procalc/app/logic/CalculatorEngine.kt:79 | a two-operand entry left at the end replaces the top two values `a, b` with `applyOp(op, b, a)` |
| EngineProperties.ParseExpressionSucceedsIff | app/src/main/java/com/procalc/app/logic/CalculatorEngine.kt:41-83 | parsing fails exactly when the main loop fails or it leaves no more values than two-operand entries |
| EngineProperties.ChainLeft | app/src/main/java/com/procalc/app/logic/CalculatorEngine.kt:61-69 | in `x o1 y o2 z`, when `o1` binds at least as tightly as `o2`, the result is `(x o1 y) o2 z` |
| EngineProperties.ChainRight | app/src/main/java/com/procalc/app/logic/CalculatorEngine.kt:61-69 | when `o1` binds less tightly, the result is `x o1 (y o2 z)` |
| EngineProperties.ChainOfTwo | app/src/main/java/com/procalc/app/logic/CalculatorEngine.kt:61-69 | any chain of two operators groups by precedence, then to the left |
| ExprCorrectness.TokenizePrint | app/src/main/java/com/procalc/app/logic/CalculatorEngine.kt:17-38 | a fully parenthesised expression tokenizes to its parenthesised token list |
| ExprCorrectness.EvaluatePrinted | app/src/main/java/com/procalc/app/logic/CalculatorEngine.kt:11-15 | every fully parenthesised expression over whole numbers evaluates to the value of its tree |
| ExprCorrectness.EvaluateRootPrinted | app/src/main/java/com/procalc/app/logic/CalculatorEngine.kt:59 | `√` before such an expression gives the square root of its value |
| Examples.PrecedenceExample | app/src/main/java/com/procalc/app/logic/CalculatorEngine.kt:45 | `2+3*4` is 14 |
| Examples.LeftAssociativeExample | app/src/main/java/com/procalc/app/logic/CalculatorEngine.kt:61 | `8-3-2` is 3 |
| Examples.PowerGroupsLeftExample | app/src/main/java/com/procalc/app/logic/CalculatorEngine.kt:61 | `2^3^2` is `(2^3)^2`, because the test is `>=` |
| Examples.GroupExample | app/src/main/java/com/procalc/app/logic/CalculatorEngine.kt:52-58 | `(2+3)*4` is 20 |
| Examples.GroupedChain | app/src/main/java/com/procalc/app/logic/CalculatorEngine.kt:53-58 | for all whole x, y, z and operators o1 binding less tightly than o2, `(x o1 y o2 z)` is `x o1 (y o2 z)`: the `)` loop applies the upper operator first |
| Examples.GroupedChainExample | app/src/main/java/com/procalc/app/logic/CalculatorEngine.kt:53-58 | `(1+2*3)` is 7 |
| Examples.DivisionByZeroExample | app/src/main/java/com/procalc/app/logic/CalculatorEngine.kt:90 | `5/0` is 0, not an error |
| Examples.DecimalExample | app/src/main/java/com/procalc/app/logic/CalculatorEngine.kt:25-31 | `2.5*2` is 5 |
| Examples.RootExample | app/src/main/java/com/procalc/app/logic/CalculatorEngine.kt:33 | `√9` is the square root of 9 |
| Examples.SumOfRootExample | app/src/main/java/com/procalc/app/logic/CalculatorEngine.kt:76-77 | `2+√9` is 2 plus the square root of 9: the root is applied first by the final loop |
| Examples.RootThenSumExample | app/src/main/java/com/procalc/app/logic/CalculatorEngine.kt:63-64 | `√9+1` is the square root of 9 plus 1: `+` pops the root before it is pushed |
| Examples.OpThenRoot | app/src/main/java/com/procalc/app/logic/CalculatorEngine.kt:74-81 | for any whole numbers, `x o √y` applies `o` to `x` and the root of `y` |
| Examples.RootThenOp | app/src/main/java/com/procalc/app/logic/CalculatorEngine.kt:61-69 | for any whole numbers, `√x o y` applies `o` to the root of `x` and `y` |
| Examples.SpacedDigitsExample | app/src/main/java/com/procalc/app/logic/CalculatorEngine.kt:20 | `1 2` is twelve |
| Examples.GlyphExample | app/src/main/java/com/procalc/app/logic/CalculatorEngine.kt:20 | `2 × 3`, as the keypad writes it, is 6 |
| Examples.BlankExample | app/src/main/java/com/procalc/app/logic/CalculatorEngine.kt:13 | blank text and text of letters both evaluate to 0 |
| Examples.LeadingSignExample | app/src/main/java/com/procalc/app/logic/CalculatorEngine.kt:79 | `+5` and `-5` fail on the value stack: there is no unary sign |
| Examples.UnmatchedCloseExample | app/src/main/java/com/procalc/app/logic/CalculatorEngine.kt:54 | `1+2)` fails on the operator stack |
| Examples.UnclosedOpenExample | app/src/main/java/com/procalc/app/logic/CalculatorEngine.kt:74-81 | `(1+2` fails: the leftover `(` needs a second value |
| Examples.NumberThenGroupExample | app/src/main/java/com/procalc/app/logic/CalculatorEngine.kt:82 | `2(3)` is 3: no multiplication is implied and the value below is ignored |
| Examples.NumberThenRootExample | app/src/main/java/com/procalc/app/logic/CalculatorEngine.kt:82 | `2√9` is the root alone |
| Examples.RootInGroupExample | app/src/main/java/com/procalc/app/logic/CalculatorEngine.kt:55 | `(√9)` fails: `)` applies the root to two values |
| Examples.NumberRootInGroupExample | app/src/main/java/com/procalc/app/logic/CalculatorEngine.kt:55 | `(2√9)` is 0 |
| Examples.MalformedExample | app/src/main/java/com/procalc/app/logic/CalculatorEngine.kt:50-52 | `1.2.3` is one token that does not read, so nothing is left to return |
| ViewModel.OnAction | app/src/main/java/com/procalc/app/viewmodel/CalculatorViewModel.kt:21-47 | one action leaves the history as it was, or, on Calculate only, puts exactly one entry in front of it |
| ViewModel.NumberPreviews | app/src/main/java/com/procalc/app/viewmodel/CalculatorViewModel.kt:23-26 | a number extends the display; the preview is the formatted value of the new display, or empty when it does not evaluate |
| ViewModel.OperatorAppends | app/src/main/java/com/procalc/app/viewmodel/CalculatorViewModel.kt:27-29 | an operator is appended with a space either side; preview and history stay |
| ViewModel.ClearResets | app/src/main/java/com/procalc/app/viewmodel/CalculatorViewModel.kt:30-33 | Clear empties display and preview and keeps the history |
| ViewModel.DeleteShrinks | app/src/main/java/com/procalc/app/viewmodel/CalculatorViewModel.kt:34-39 | Delete on an empty display does nothing; otherwise the display strictly shrinks to the trimmed text without its last character, and the preview is refreshed |
| ViewModel.DeleteTrims | app/src/main/java/com/procalc/app/viewmodel/CalculatorViewModel.kt:36 | after Delete the display neither starts nor ends with whitespace, and an emptied display has no preview |
| ViewModel.DropLast | app/src/main/java/com/procalc/app/viewmodel/CalculatorViewModel.kt:36 | `dropLast(1)` followed by the removed character is the original text |
| ViewModel.TrimIsSlice | app/src/main/java/com/procalc/app/viewmodel/CalculatorViewModel.kt:36 | the trimmed text is a contiguous slice of the original |
| ViewModel.TrimDropsOnly | app/src/main/java/com/procalc/app/viewmodel/CalculatorViewModel.kt:36 | everything trimmed away, before and after the slice, is whitespace |
| ViewModel.TrimEnds | app/src/main/java/com/procalc/app/viewmodel/CalculatorViewModel.kt:36 | the trimmed text is empty, or it neither starts nor ends with whitespace |
| ViewModel.SpecialAppends | app/src/main/java/com/procalc/app/viewmodel/CalculatorViewModel.kt:43-45 | a special symbol is appended as is; preview and history stay |
| ViewModel.CalculateEmptyIsNoOp | app/src/main/java/com/procalc/app/viewmodel/CalculatorViewModel.kt:63 | Calculate on an empty display changes nothing |
| ViewModel.CalculateSuccess | app/src/main/java/com/procalc/app/viewmodel/CalculatorViewModel.kt:64-69 | a successful calculation puts the old display and its formatted value in front of the history, shows the value and clears the preview |
| ViewModel.CalculateFailure | app/src/main/java/com/procalc/app/viewmodel/CalculatorViewModel.kt:70-72 | a failed calculation shows "Error" and changes nothing else; pressing Calculate again changes nothing more |
| ViewModel.OnActionKeepsHistoryFaithful | app/src/main/java/com/procalc/app/viewmodel/CalculatorViewModel.kt:67 | one action keeps every history entry a non-empty expression that evaluates, stored with the formatting of its value |
| ViewModel.ReplayKeepsHistoryFaithful | app/src/main/java/com/procalc/app/viewmodel/CalculatorViewModel.kt:21-47 | so does any sequence of actions |
| ViewModel.ReplayHistoryLength | app/src/main/java/com/procalc/app/viewmodel/CalculatorViewModel.kt:67 | any sequence of actions never shortens the history, and adds at most one entry per Calculate |
| ViewModel.ReplayHistorySuffix | app/src/main/java/com/procalc/app/viewmodel/CalculatorViewModel.kt:67 | after any sequence of actions the old history is still at the back, unchanged |
| Session.EngineHistoryEvaluates | app/src/main/java/com/procalc/app/viewmodel/CalculatorViewModel.kt:62-73 | from a fresh screen, every history entry is a display the engine evaluates, recorded with the formatting of its value, with at most one entry per Calculate |
| Session.SumSession | app/src/main/java/com/procalc/app/viewmodel/CalculatorViewModel.kt:21-47 | pressing 2, +, 3, = on a fresh screen shows the formatted 5 and records `2 + 3` with it |
| Session.SignSession | app/src/main/java/com/procalc/app/viewmodel/CalculatorViewModel.kt:70-72 | pressing +, 5, = shows "Error" and records nothing |

## Left out

- Numbers are modelled as mathematical reals, not IEEE 754 doubles. The model
  has no rounding (`0.1` is exactly one tenth), no overflow to infinity, no
  `-0.0` and no NaN. Dafny's `real` has no finite-precision type to stand in
  for `Double`.
- `sqrt` and `pow` (CalculatorEngine.kt:64, 77 and 91) are the fields of a
  `MathLib` parameter: arbitrary total functions on reals. So the square root
  of a negative number is some real, where Kotlin gives NaN. Every result about
  them holds for any choice of the two functions.
- A digit is an ASCII digit `0`-`9`. Kotlin's `isDigit` (CalculatorEngine.kt:25
  and 27) also accepts every other Unicode decimal digit, such as the
  Arabic-Indic `٢`, and the model does not agree with the code on text that
  holds one. The code puts such a digit inside the run, so `1٢3` is one token.
  `toDoubleOrNull` (line 51) rejects it, because Java's number parser accepts
  only ASCII digits; the token is skipped, and the final `pop` (line 82) fails
  on the empty value stack. The model instead ignores the `٢`, reads `1` and
  `3` as two numbers and answers 3. Modelling the code would need the Unicode
  table of decimal digits. The keypad only produces ASCII digits.
- `formatResult` (CalculatorViewModel.kt:75-77) is the `format` parameter of
  `Services`, an arbitrary function from values to text. It uses `%.4f` and
  `Long` conversion of a double, which would need a model of floating point.
- The engine throws a single `EmptyStackException`. The model splits it into
  two faults, `EmptyOperatorStack` and `EmptyValueStack`, to say which stack
  ran out. The view model only sees that evaluation failed.
- `try`/`catch` becomes a `Result` in the engine and an `Option` in the view
  model's `evaluate`. The view model catches every `Exception`; the only ones
  the engine can throw are the stack underflows, and the model has only those.
- `dropLast(1)` drops one Dafny `char`. Kotlin drops one UTF-16 code unit,
  which splits a surrogate pair for characters outside the Basic Multilingual
  Plane; the keypad never produces them.
- `trim()` removes the characters for which Kotlin's `isWhitespace` holds, as
  a fixed list. The higher-order trim functions take that test as a parameter.
- The Compose state holders (`mutableStateOf`) and the `ViewModel` base
  class are left out. The screen is an immutable value that each action
  replaces.
- `Tokenizer.ScanKeepsText`: it states that no kept character is lost or
  added, not how they are grouped into tokens; `Tokenizer.ScanFindsRuns`
  states the grouping of number runs.
- `Engine.Evaluate`: its own contract covers only the text without tokens;
  what it computes otherwise is stated by `ExprCorrectness.EvaluatePrinted`,
  `EngineProperties.ParseExpressionSucceedsIff` and the examples.
- `ExprCorrectness.EvaluatePrinted`: it covers fully parenthesised expressions
  over whole numbers. Decimal literals and unparenthesised chains are covered
  by `Decimal.ParsePointed` and `EngineProperties.ChainOfTwo` separately.
