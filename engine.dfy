/**
 * The calculator's state machine on values: the four module-level
 * variables as a `State`, each handler as a transition function, and the
 * properties the handlers keep over any sequence of inputs.
 */
module Engine {
  import opened Wrappers
  import opened Arithmetic

  /**
   * `display`, `previousValue`, `operation` and `waitingForNewValue`. The
   * operation is kept as the `Op` its token selects; `TokenOf` recovers the
   * token.
   */
  datatype State = State(display: string, previousValue: Option<real>, operation: Option<Op>, waiting: bool)

  /** The state the page starts in and `handleClear` restores. */
  const Initial: State := State("0", None, None, false)

  /** JavaScript truthiness of `operation`: null and the empty token are false. */
  predicate Truthy(op: Option<Op>) {
    op.Some? && op.value != Other("")
  }

  /** A single decimal digit, as the digit buttons and keys deliver. */
  predicate IsDigit(value: string) {
    |value| == 1 && '0' <= value[0] <= '9'
  }

  /** The display is never empty and holds at most one decimal point. */
  predicate DisplayOk(d: string) {
    |d| > 0 && multiset(d)['.'] <= 1
  }

  /** A pending operand always comes with a pending operator, and conversely. */
  predicate Paired(s: State) {
    s.previousValue.None? <==> s.operation.None?
  }

  /** Every string the host prints is a well-formed display. */
  ghost predicate PrintsDisplays(num: Numerics) {
    forall x: real :: DisplayOk(num.toString(x))
  }

  /**
   * `handleNumber(value)`. The display a run of digits and points produces
   * is stated by `Entry.FirstKeyShowsReference`, `Entry.KeyExtendsReference`
   * and `Entry.TypingMatchesReference`.
   */
  function Number(s: State, value: string): (r: State)
    ensures r.previousValue == s.previousValue && r.operation == s.operation && !r.waiting
    ensures IsDigit(value) && DisplayOk(s.display) ==> DisplayOk(r.display)
  {
    if s.waiting then s.(display := value, waiting := false)
    else s.(display := if s.display == "0" then value else s.display + value)
  }

  /** `handleDecimal()`. */
  function Decimal(s: State): (r: State)
    ensures r.previousValue == s.previousValue && r.operation == s.operation && !r.waiting
    ensures s.waiting ==> r.display == "0."
    ensures !s.waiting && '.' in s.display ==> r == s
    ensures !s.waiting && '.' !in s.display ==> r.display == s.display + "."
    ensures s.waiting || DisplayOk(s.display) ==> DisplayOk(r.display) && multiset(r.display)['.'] == 1
  {
    if s.waiting then s.(display := "0.", waiting := false)
    else if '.' !in s.display then s.(display := s.display + ".")
    else s
  }

  /** `handleOperator(op)`. */
  function Operator(num: Numerics, s: State, token: string): (r: State)
    ensures r.operation == Some(OpOfToken(token)) && r.previousValue.Some? && r.waiting
    ensures r.display == s.display || r.display == num.toString(r.previousValue.value)
  {
    var current := num.parseFloat(s.display);
    if s.previousValue.None? then
      s.(previousValue := Some(current), operation := Some(OpOfToken(token)), waiting := true)
    else if Truthy(s.operation) then
      var result := Calculate(s.previousValue.value, current, s.operation.value);
      State(num.toString(result), Some(result), Some(OpOfToken(token)), true)
    else
      s.(operation := Some(OpOfToken(token)), waiting := true)
  }

  /** The guard of `handleEquals`: an operator, an operand and a fresh second operand. */
  predicate Armed(s: State) {
    Truthy(s.operation) && s.previousValue.Some? && !s.waiting
  }

  /** `handleEquals()`. */
  function Equals(num: Numerics, s: State): (r: State)
    ensures r == s || (r.previousValue.None? && r.operation.None? && r.waiting)
  {
    if Armed(s) then
      var result := Calculate(s.previousValue.value, num.parseFloat(s.display), s.operation.value);
      State(FormatResult(num, result), None, None, true)
    else
      s
  }

  /** One input as the page delivers it to a handler. */
  datatype Event = NumberKey(value: string) | DecimalKey | OperatorKey(token: string) | EqualsKey | ClearKey

  /** The handler an input runs; `handleClear` restores the initial state. */
  function Step(num: Numerics, s: State, e: Event): State {
    match e
    case NumberKey(value) => Number(s, value)
    case DecimalKey => Decimal(s)
    case OperatorKey(token) => Operator(num, s, token)
    case EqualsKey => Equals(num, s)
    case ClearKey => Initial
  }

  /** The state after a sequence of inputs, one handler after another. */
  function Run(num: Numerics, s: State, es: seq<Event>): State
    decreases |es|
  {
    if es == [] then s else Step(num, Run(num, s, es[..|es| - 1]), es[|es| - 1])
  }

  /** One more input runs its handler on the state the earlier inputs reached. */
  lemma RunSnoc(num: Numerics, s: State, es: seq<Event>, e: Event)
    ensures Run(num, s, es + [e]) == Step(num, Run(num, s, es), e)
  {
    assert (es + [e])[..|es|] == es;
  }

  /** Running two input sequences one after the other is running their concatenation. */
  lemma {:induction false} RunAppend(num: Numerics, s: State, a: seq<Event>, b: seq<Event>)
    ensures Run(num, s, a + b) == Run(num, Run(num, s, a), b)
    decreases |b|
  {
    if b == [] {
      assert a + b == a;
    } else {
      var b' := b[..|b| - 1];
      assert (a + b)[..|a + b| - 1] == a + b';
      RunAppend(num, s, a, b');
    }
  }

  /** `handleEquals` changes nothing exactly when its guard fails. */
  lemma EqualsNoOpIff(num: Numerics, s: State)
    ensures Equals(num, s) == s <==> !Armed(s)
  {
  }

  /**
   * When `handleEquals` fires it clears the pending operand and operator,
   * waits for a fresh entry, and shows the formatted result of the pending
   * operation on the displayed operand.
   */
  lemma EqualsResolves(num: Numerics, s: State)
    requires Armed(s)
    ensures var r := Equals(num, s);
      r.previousValue == None && r.operation == None && r.waiting &&
      r.display == FormatResult(num, Calculate(s.previousValue.value, num.parseFloat(s.display), s.operation.value))
  {
  }

  /**
   * With an operation pending, `handleOperator` first resolves it against
   * the displayed operand (left to right, no precedence), shows the
   * unformatted result, then records the new operator. There is no guard on
   * `waitingForNewValue`.
   */
  lemma OperatorChains(num: Numerics, s: State, token: string)
    requires s.previousValue.Some? && Truthy(s.operation)
    ensures var result := Calculate(s.previousValue.value, num.parseFloat(s.display), s.operation.value);
      Operator(num, s, token) == State(num.toString(result), Some(result), Some(OpOfToken(token)), true)
  {
  }

  /**
   * Without an operation to resolve, `handleOperator` keeps the display: the
   * first operand is read from it, or the pending operand is kept when the
   * pending operator is falsy.
   */
  lemma OperatorRecordsOperand(num: Numerics, s: State, token: string)
    requires s.previousValue.None? || !Truthy(s.operation)
    ensures var r := Operator(num, s, token);
      r.display == s.display &&
      r.previousValue == (if s.previousValue.None? then Some(num.parseFloat(s.display)) else s.previousValue)
  {
  }

  /** Each handler keeps the pairing of operand and operator. */
  lemma StepKeepsPaired(num: Numerics, s: State, e: Event)
    requires Paired(s)
    ensures Paired(Step(num, s, e))
  {
  }

  /** Starting paired, every sequence of inputs ends paired. */
  lemma {:induction false} RunKeepsPaired(num: Numerics, s: State, es: seq<Event>)
    requires Paired(s)
    ensures Paired(Run(num, s, es))
    decreases |es|
  {
    if es != [] {
      RunKeepsPaired(num, s, es[..|es| - 1]);
      StepKeepsPaired(num, Run(num, s, es[..|es| - 1]), es[|es| - 1]);
    }
  }

  /** Only digits reach `handleNumber`, as the buttons and keys deliver. */
  predicate DigitsOnly(es: seq<Event>) {
    forall i :: 0 <= i < |es| && es[i].NumberKey? ==> IsDigit(es[i].value)
  }

  /**
   * The display stays non-empty with at most one decimal point over any
   * sequence of inputs, provided the host prints well-formed numbers.
   */
  lemma {:induction false} RunKeepsDisplayOk(num: Numerics, s: State, es: seq<Event>)
    requires PrintsDisplays(num) && DisplayOk(s.display) && DigitsOnly(es)
    ensures DisplayOk(Run(num, s, es).display)
    decreases |es|
  {
    if es != [] {
      var es' := es[..|es| - 1];
      assert DigitsOnly(es') by {
        forall i | 0 <= i < |es'| && es'[i].NumberKey? ensures IsDigit(es'[i].value) {
          assert es'[i] == es[i];
        }
      }
      RunKeepsDisplayOk(num, s, es');
      var m := Run(num, s, es');
      var e := es[|es| - 1];
      match e
      case NumberKey(value) =>
        assert IsDigit(value);
      case DecimalKey =>
      case OperatorKey(token) =>
        assert Operator(num, m, token).display == m.display
          || Operator(num, m, token).display == num.toString(Operator(num, m, token).previousValue.value);
      case EqualsKey =>
        if Armed(m) {
          var result := Calculate(m.previousValue.value, num.parseFloat(m.display), m.operation.value);
          assert DisplayOk(num.toString(Displayed(result)));
        }
      case ClearKey =>
        assert multiset(Initial.display)['.'] == 0;
    }
  }

  /** `handleClear` restores the initial state whatever came before. */
  lemma ClearRestoresInitial(num: Numerics, s: State, es: seq<Event>)
    ensures Run(num, s, es + [ClearKey]) == Initial
  {
    assert (es + [ClearKey])[..|es|] == es;
  }

  /** Digits typed on a fresh display: `0`,`5` shows "5" and `5`,`0` shows "50". */
  lemma LeadingZeroSuppressed(num: Numerics)
    ensures Run(num, Initial, [NumberKey("0"), NumberKey("5")]).display == "5"
    ensures Run(num, Initial, [NumberKey("5"), NumberKey("0")]).display == "50"
  {
    assert [NumberKey("0"), NumberKey("5")][..1] == [NumberKey("0")];
    assert [NumberKey("5"), NumberKey("0")][..1] == [NumberKey("5")];
    assert [NumberKey("0")][..0] == [];
    assert [NumberKey("5")][..0] == [];
  }
}
