# Calculator engine

A model of the browser calculator in `codesoft2/codesoft2/task3/script.js`.
The engine is four module-level variables:

- `display`, the string shown;
- `previousValue`, the pending first operand, or null;
- `operation`, the pending operator token, or null;
- `waitingForNewValue`, set after an operator or equals so that the next key starts a fresh operand.

Five handlers change these variables. They are `handleNumber`, `handleDecimal`, `handleOperator`, `handleEquals` and `handleClear`.
Two pure functions do the arithmetic and the printing: `calculate` and `formatResult`.

Files and modules:

- `arithmetic.dfy`
  - `Wrappers`: `Option`, which stands for null or a value.
  - `Arithmetic`: the operator tokens, `calculate` and `formatResult`. Numbers are `real`. The host's `parseFloat` and `String(number)` are supplied as a `Numerics` value, so their behaviour is a parameter of every result.
- `engine.dfy`, module `Engine`: the four variables as a `State` value and each handler as a transition function. It also defines `Run`, which applies one input after another, and holds the invariants every run keeps.
- `entry.dfy`, module `Entry`: an independent definition of what a run of digit and decimal-point keys shows. It drops every point after the first, suppresses leading zeros and puts "0" before a bare fraction. A lemma proves that the handlers produce exactly that display.
- `chain.dfy`, module `Chain`: operands and operators entered alternately are evaluated strictly left to right, with no precedence.
- `session.dfy`, module `Session`: the class `Calculator`. Its fields are the four variables, updated in place by one method per handler. Each method is proved against its transition function in `Engine`; the constructor and `HandleClear` are proved against `Engine.Initial`.

The quirks of the code are kept as written:

- Division by zero yields 0.
- An unrecognised operator token yields the second operand.
- A chained result is printed with plain `String(result)`, not `formatResult`.
- `handleOperator` has no guard on `waitingForNewValue`, so pressing an operator twice resolves the pending operation again.
- The multiply token is the two-character string U+00C3 U+2014, exactly as the script spells it.
- An empty operator token is falsy in JavaScript. `Engine.Truthy` models this.

## Model

| member | source | states |
|---|---|---|
| Arithmetic.OpOfToken | codesoft2/codesoft2/task3/script.js:55-69 | a token reaches the `default` branch exactly when it is none of `+`, `-`, the multiply token and `/` |
| Arithmetic.TokenOf | codesoft2/codesoft2/task3/script.js:55-69 | an unrecognised operator keeps its own token |
| Arithmetic.TokenRoundTrip | codesoft2/codesoft2/task3/script.js:55-69 | classifying a token loses nothing: the token is recovered from its operator |
| Arithmetic.OpRoundTrip | codesoft2/codesoft2/task3/script.js:55-69 | every recognised operator, and every unrecognised token, survives a round trip through its token |
| Arithmetic.Calculate | codesoft2/codesoft2/task3/script.js:54-71 | `+` gives the sum, `-` the difference, the multiply token the product and `/` the quotient; `/` with a zero divisor gives 0; an unrecognised operator gives the second operand |
| Arithmetic.DivisionByZeroYieldsZero | codesoft2/codesoft2/task3/script.js:62-66 | dividing any number by 0 yields 0, never an infinity or NaN |
| Arithmetic.Units | codesoft2/codesoft2/task3/script.js:108 | `toFixed(8)` keeps the integer count of 10^-8 units within half a unit of the value; a tie goes away from zero |
| Arithmetic.RoundTo8 | codesoft2/codesoft2/task3/script.js:108 | the rounded value lies on the 10^-8 grid, at the unit count `Units` chooses |
| Arithmetic.RoundTo8OnGrid | codesoft2/codesoft2/task3/script.js:108 | a value already on the 10^-8 grid is unchanged by rounding |
| Arithmetic.RoundTo8Idempotent | codesoft2/codesoft2/task3/script.js:108 | rounding to eight places twice is the same as rounding once |
| Arithmetic.WholeOnGrid | codesoft2/codesoft2/task3/script.js:104 | a whole number lies on the 10^-8 grid |
| Arithmetic.Displayed | codesoft2/codesoft2/task3/script.js:102-109 | the printed number equals the value when it is whole, lies on the 10^-8 grid, and is within half a unit of the value |
| Arithmetic.FormatResult | codesoft2/codesoft2/task3/script.js:102-109 | a whole value is printed unrounded; any value is printed as its eight-place rounding |
| Arithmetic.FormatRoundTrip | codesoft2/codesoft2/task3/script.js:102-109 | formatting is stable: if the host reads back what it printed, formatting the value read back prints the same string |
| Arithmetic.FormatWholeQuotient | codesoft2/codesoft2/task3/script.js:104-105 | `4 / 2` is printed as the host prints 2, with no fractional part |
| Arithmetic.FormatOneThird | codesoft2/codesoft2/task3/script.js:107-108 | `1 / 3` is printed as 0.33333333 |
| Engine.Number | codesoft2/codesoft2/task3/script.js:18-24 | a digit never touches the pending operand or operator, always clears the waiting flag, and keeps a well-formed display well-formed |
| Engine.Decimal | codesoft2/codesoft2/task3/script.js:112-118 | when waiting, the display becomes "0."; a point already shown leaves the state unchanged; otherwise one point is appended; afterwards a well-formed display holds exactly one point |
| Engine.Operator | codesoft2/codesoft2/task3/script.js:29-49 | afterwards an operand is pending, the new operator is pending, and the engine waits; the display is unchanged or shows the new pending operand |
| Engine.Equals | codesoft2/codesoft2/task3/script.js:74-81 | the state is unchanged, or nothing is pending and the engine waits |
| Engine.EqualsNoOpIff | codesoft2/codesoft2/task3/script.js:75 | `handleEquals` changes nothing if and only if the operator is falsy, the operand is null, or the engine is waiting |
| Engine.EqualsResolves | codesoft2/codesoft2/task3/script.js:75-81 | when the guard holds, the pending operand and operator become null, the engine waits, and the display shows the formatted result of the pending operation on the displayed operand |
| Engine.OperatorChains | codesoft2/codesoft2/task3/script.js:32-49 | with an operation pending, an operator resolves it against the displayed operand, shows the unformatted result, keeps it as the operand and records the new operator, even when the engine is already waiting |
| Engine.OperatorRecordsOperand | codesoft2/codesoft2/task3/script.js:30-34 | with no operation to resolve, an operator keeps the display and either reads the first operand from it or keeps the pending operand |
| Engine.StepKeepsPaired | codesoft2/codesoft2/task3/script.js:29-97 | every handler keeps `previousValue` null exactly when `operation` is null |
| Engine.RunKeepsPaired | codesoft2/codesoft2/task3/script.js:29-97 | from a paired state, every sequence of inputs ends paired |
| Engine.RunKeepsDisplayOk | codesoft2/codesoft2/task3/script.js:18-118 | if the host prints well-formed numbers and only digits reach `handleNumber`, the display stays non-empty with at most one point over any sequence of inputs |
| Engine.ClearRestoresInitial | codesoft2/codesoft2/task3/script.js:93-97 | after any inputs, clear gives exactly the initial state |
| Engine.LeadingZeroSuppressed | codesoft2/codesoft2/task3/script.js:18-24 | from the initial state `0`,`5` shows "5" and `5`,`0` shows "50" |
| Entry.ReferenceWellFormed | codesoft2/codesoft2/task3/script.js:112-118 | the display a key run should produce is non-empty, has at most one point, and has a point exactly when one was typed |
| Entry.RepeatedPointIgnored | codesoft2/codesoft2/task3/script.js:116 | a point typed after an earlier point leaves the reference display unchanged |
| Entry.DigitExtends | codesoft2/codesoft2/task3/script.js:23 | a digit replaces a reference display of "0" and is appended to any other |
| Entry.FirstPointExtends | codesoft2/codesoft2/task3/script.js:116-117 | the first point typed is appended to the reference display |
| Entry.ReferenceSnoc | codesoft2/codesoft2/task3/script.js:18-118 | one more key extends the reference display as the handlers do: a digit replaces a lone "0" or is appended; a point is appended only when none is shown |
| Entry.TypingMatchesReference | codesoft2/codesoft2/task3/script.js:18-118 | typing digits and points on a fresh display yields the reference display, clears the waiting flag, and leaves the pending operand and operator alone |
| Entry.SecondPointIgnored | codesoft2/codesoft2/task3/script.js:112-118 | from "0", `1 . 2 . 3` shows "1.23" |
| Chain.ChainEvaluatesLeftToRight | codesoft2/codesoft2/task3/script.js:29-49 | after alternating operands and operators, the pending operand is the left-to-right value of the chain and the pending operator is the last one pressed; the display shows the first operand or the unformatted chain value |
| Chain.ChainThenEquals | codesoft2/codesoft2/task3/script.js:29-81 | a chain followed by a final operand and equals shows the formatted left-to-right value and leaves nothing pending |
| Chain.TwoPlusThreeTimesFour | codesoft2/codesoft2/task3/script.js:32-81 | `2 + 3 × 4 =` shows 20, not 14 |
| Chain.RepeatedOperatorResolvesAgain | codesoft2/codesoft2/task3/script.js:34-38 | `5 + +` leaves 10 pending: the second operator resolves the first against the display |
| Chain.DivideByZeroShowsZero | codesoft2/codesoft2/task3/script.js:62-66 | `5 / 0 =` shows the printed 0 and leaves nothing pending |
| Session.Calculator.constructor | codesoft2/codesoft2/task3/script.js:2-5 | the engine starts with display "0", nothing pending and not waiting |
| Session.Calculator.HandleNumber | codesoft2/codesoft2/task3/script.js:18-26 | the new state is `Engine.Number` of the old one; pairing is kept, and a digit keeps the display well-formed |
| Session.Calculator.HandleDecimal | codesoft2/codesoft2/task3/script.js:112-120 | the new state is `Engine.Decimal` of the old one; a point already shown changes nothing; afterwards the display holds exactly one point |
| Session.Calculator.HandleOperator | codesoft2/codesoft2/task3/script.js:29-51 | the new state is `Engine.Operator` of the old one; the new operator is pending and the engine waits |
| Session.Calculator.HandleEquals | codesoft2/codesoft2/task3/script.js:74-90 | the new state is `Engine.Equals` of the old one; the state is unchanged if and only if the guard fails |
| Session.Calculator.HandleClear | codesoft2/codesoft2/task3/script.js:93-99 | from any state, the engine returns exactly to the initial state |

## Left out

- DOM updates (`updateDisplay`, the element lookups) and the result pulse with its 300 ms timer. These are presentation only and never change the four variables.
- The `alert` on division by zero. Only its observable effect on the engine is kept: the result 0.
- Event wiring: button click listeners, the keydown listener and `preventDefault`. Handler inputs are the `Engine.Event` cases. `Entry.KeyEvent` encodes the point-or-digit dispatch of the button and key listeners for single digit and point keys only, and `Entry.Typed` applies it to a run of such keys; the dispatch of operator, equals and clear buttons and of the `+ - * / Enter = Escape c C` keys is not modelled beyond the `Engine.Event` cases.
- Floating point. Numbers are exact reals, so NaN, infinities, signed zero and double rounding do not arise. `parseFloat` and `String(number)` are uninterpreted parameters. `Arithmetic.RoundTo8` rounds the exact real, not its nearest double.
- `toFixed` switches to exponent notation at 10^21 and above. The model does not, because every double of that size is whole and never reaches the rounding branch.
- Engine.Number: `handleNumber` accepts any string. The display invariant is proved only for single digits. The digit keys deliver single characters `0` to `9`; the buttons' `data-value`s live in page markup that is not part of this model and are assumed to be single digits.
