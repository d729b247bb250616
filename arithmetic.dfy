/** Optional values, standing for JavaScript's `null` or a value. */
module Wrappers {
  datatype Option<+T> = None | Some(value: T)
}

/**
 * The pure part of the calculator: the operators, `calculate` and
 * `formatResult`. Numbers are modelled as `real`; the host's
 * `parseFloat` and `String(number)` are supplied as a `Numerics` value,
 * since their floating-point behaviour is not part of this model.
 */
module Arithmetic {

  /** The host's number parsing and printing, taken as given. */
  datatype Numerics = Numerics(parseFloat: string -> real, toString: real -> string)

  /**
   * The operator an operator token selects. The multiply token is the
   * two-character string U+00C3 U+2014 (a mis-decoded multiplication sign),
   * exactly as the engine and its keyboard mapping spell it; any other
   * token selects the `default` branch of `calculate`.
   */
  datatype Op = Plus | Minus | Times | Divide | Other(token: string)

  const PlusToken: string := "+"
  const MinusToken: string := "-"
  const TimesToken: string := "\U{00C3}\U{2014}"
  const DivideToken: string := "/"

  predicate Recognised(token: string) {
    token == PlusToken || token == MinusToken || token == TimesToken || token == DivideToken
  }

  /** Which case of the `switch` in `calculate` a token reaches. */
  function OpOfToken(token: string): (op: Op)
    ensures op.Other? <==> !Recognised(token)
  {
    if token == PlusToken then Plus
    else if token == MinusToken then Minus
    else if token == TimesToken then Times
    else if token == DivideToken then Divide
    else Other(token)
  }

  /** The token an operator is stored and compared as. */
  function TokenOf(op: Op): (token: string)
    ensures op.Other? ==> token == op.token
  {
    match op
    case Plus => PlusToken
    case Minus => MinusToken
    case Times => TimesToken
    case Divide => DivideToken
    case Other(t) => t
  }

  /** Classifying a token loses nothing: the token can be recovered. */
  lemma TokenRoundTrip(token: string)
    ensures TokenOf(OpOfToken(token)) == token
  {
  }

  /** An operator that is not a mis-labelled recognised token survives a round trip. */
  lemma OpRoundTrip(op: Op)
    requires op.Other? ==> !Recognised(op.token)
    ensures OpOfToken(TokenOf(op)) == op
  {
  }

  /**
   * `calculate(firstValue, secondValue, operator)`: the four arithmetic
   * cases, 0 for a zero divisor, and the second operand for an
   * unrecognised operator.
   */
  function Calculate(first: real, second: real, op: Op): (r: real)
    ensures op == Plus ==> r == first + second
    ensures op == Minus ==> r == first - second
    ensures op == Times ==> r == first * second
    ensures op == Divide && second != 0.0 ==> r == first / second
    ensures op == Divide && second == 0.0 ==> r == 0.0
    ensures op.Other? ==> r == second
  {
    match op
    case Plus => first + second
    case Minus => first - second
    case Times => first * second
    case Divide => if second == 0.0 then 0.0 else first / second
    case Other(_) => second
  }

  /** `value % 1 === 0`: the value has no fractional part. */
  predicate IsWhole(v: real) {
    v.Floor as real == v
  }

  /** Eight fractional digits, as `toFixed(8)` keeps. */
  const Scale: real := 100000000.0

  /**
   * The number of 10^-8 units `toFixed(8)` keeps: the integer nearest to
   * `v * 10^8`, a tie going away from zero (toFixed rounds the magnitude
   * and picks the larger candidate).
   */
  function Units(v: real): (n: int)
    ensures -0.5 <= n as real - v * Scale <= 0.5
    ensures n as real - v * Scale == 0.5 ==> v > 0.0
    ensures n as real - v * Scale == -0.5 ==> v < 0.0
  {
    if v >= 0.0 then (v * Scale + 0.5).Floor else -((-v * Scale + 0.5).Floor)
  }

  /** `parseFloat(value.toFixed(8))` on exact reals. */
  function RoundTo8(v: real): (r: real)
    ensures r * Scale == Units(v) as real
    ensures IsWhole(r * Scale)
  {
    Units(v) as real / Scale
  }

  /** A value already on the 10^-8 grid is left alone by the rounding. */
  lemma RoundTo8OnGrid(v: real)
    requires IsWhole(v * Scale)
    ensures RoundTo8(v) == v
  {
    var n := (v * Scale).Floor;
    if v >= 0.0 {
      assert (v * Scale + 0.5).Floor == n;
    } else {
      assert (-v * Scale + 0.5).Floor == -n;
    }
  }

  /** Rounding to eight places twice is rounding once. */
  lemma RoundTo8Idempotent(v: real)
    ensures RoundTo8(RoundTo8(v)) == RoundTo8(v)
  {
    RoundTo8OnGrid(RoundTo8(v));
  }

  /** A whole number lies on the 10^-8 grid. */
  lemma WholeOnGrid(v: real)
    requires IsWhole(v)
    ensures IsWhole(v * Scale)
  {
    var k := v.Floor;
    assert v * Scale == (k * 100000000) as real;
  }

  /** The number `formatResult` prints: whole values as they are, others rounded. */
  function Displayed(v: real): (r: real)
    ensures IsWhole(v) ==> r == v
    ensures IsWhole(r * Scale)
    ensures -0.5 <= r * Scale - v * Scale <= 0.5
  {
    if IsWhole(v) then WholeOnGrid(v); v else RoundTo8(v)
  }

  /** `formatResult(value)`. */
  function FormatResult(num: Numerics, v: real): (s: string)
    ensures IsWhole(v) ==> s == num.toString(v)
    ensures s == num.toString(Displayed(v))
  {
    if IsWhole(v) then num.toString(v) else num.toString(RoundTo8(v))
  }

  /**
   * Formatting is stable under re-reading: if the host reads back what it
   * printed, formatting the value read back prints the same string.
   */
  lemma FormatRoundTrip(num: Numerics, v: real)
    requires num.parseFloat(num.toString(Displayed(v))) == Displayed(v)
    ensures FormatResult(num, num.parseFloat(FormatResult(num, v))) == FormatResult(num, v)
  {
    var d := Displayed(v);
    if !IsWhole(d) {
      RoundTo8OnGrid(d);
    }
  }

  /** `4 / 2` is whole, so it is printed without rounding. */
  lemma FormatWholeQuotient(num: Numerics)
    ensures FormatResult(num, Calculate(4.0, 2.0, Divide)) == num.toString(2.0)
  {
    assert Calculate(4.0, 2.0, Divide) == 2.0;
  }

  /** `1 / 3` is printed as its eight-place rounding 0.33333333. */
  lemma FormatOneThird(num: Numerics)
    ensures FormatResult(num, Calculate(1.0, 3.0, Divide)) == num.toString(0.33333333)
  {
    var third := Calculate(1.0, 3.0, Divide);
    assert third == 1.0 / 3.0;
    assert third.Floor == 0;
    assert (third * Scale + 0.5).Floor == 33333333;
  }

  /** Division by zero yields 0 rather than an infinity or NaN. */
  lemma DivisionByZeroYieldsZero(first: real)
    ensures Calculate(first, 0.0, Divide) == 0.0
  {
  }
}
