/**
 * The page's calculator: the four module-level variables as the fields of
 * one object, and the five handlers as methods that update them in place.
 * Each handler is proved against its transition function in `Engine`.
 */
module Session {
  import opened Wrappers
  import opened Arithmetic
  import opened Engine

  class Calculator {
    var display: string
    var previousValue: Option<real>
    var operation: Option<Op>
    var waitingForNewValue: bool

    /** The host's `parseFloat` and `String(number)`. */
    const num: Numerics

    /** The four variables as one value. */
    function Snapshot(): State
      reads this
    {
      State(display, previousValue, operation, waitingForNewValue)
    }

    /** A pending operand always comes with a pending operator, and conversely. */
    ghost predicate Valid()
      reads this
    {
      Paired(Snapshot())
    }

    /** The declarations at the top of the script. */
    constructor (num: Numerics)
      ensures Valid()
      ensures Snapshot() == Initial
    {
      this.num := num;
      display := "0";
      previousValue := None;
      operation := None;
      waitingForNewValue := false;
    }

    /** `handleNumber(value)`: start a fresh operand, replace a lone "0", or append. */
    method HandleNumber(value: string)
      requires Valid()
      modifies this
      ensures Valid()
      ensures Snapshot() == Number(old(Snapshot()), value)
      ensures IsDigit(value) && DisplayOk(old(display)) ==> DisplayOk(display)
    {
      if waitingForNewValue {
        display := value;
        waitingForNewValue := false;
      } else {
        display := if display == "0" then value else display + value;
      }
    }

    /** `handleDecimal()`: start "0.", or append a point when none is shown. */
    method HandleDecimal()
      requires Valid()
      modifies this
      ensures Valid()
      ensures Snapshot() == Decimal(old(Snapshot()))
      ensures !old(waitingForNewValue) && '.' in old(display) ==> Snapshot() == old(Snapshot())
      ensures old(waitingForNewValue) || DisplayOk(old(display)) ==> DisplayOk(display) && multiset(display)['.'] == 1
    {
      if waitingForNewValue {
        display := "0.";
        waitingForNewValue := false;
      } else if '.' !in display {
        display := display + ".";
      }
    }

    /**
     * `handleOperator(op)`: take the displayed operand, resolve a pending
     * operation against it, then record the new operator.
     */
    method HandleOperator(token: string)
      modifies this
      ensures Valid()
      ensures Snapshot() == Operator(num, old(Snapshot()), token)
      ensures operation == Some(OpOfToken(token)) && waitingForNewValue
    {
      var currentValue := num.parseFloat(display);
      if previousValue == None {
        previousValue := Some(currentValue);
      } else if Truthy(operation) {
        var result := Calculate(previousValue.value, currentValue, operation.value);
        display := num.toString(result);
        previousValue := Some(result);
        waitingForNewValue := true;
      }
      operation := Some(OpOfToken(token));
      waitingForNewValue := true;
    }

    /** `handleEquals()`: resolve the pending operation when one is armed. */
    method HandleEquals()
      requires Valid()
      modifies this
      ensures Valid()
      ensures Snapshot() == Equals(num, old(Snapshot()))
      ensures Snapshot() == old(Snapshot()) <==> !Armed(old(Snapshot()))
    {
      if Truthy(operation) && previousValue != None && !waitingForNewValue {
        var currentValue := num.parseFloat(display);
        var result := Calculate(previousValue.value, currentValue, operation.value);
        display := FormatResult(num, result);
        previousValue := None;
        operation := None;
        waitingForNewValue := true;
      }
    }

    /** `handleClear()`: back to the initial state, whatever came before. */
    method HandleClear()
      modifies this
      ensures Valid()
      ensures Snapshot() == Initial
    {
      display := "0";
      previousValue := None;
      operation := None;
      waitingForNewValue := false;
    }
  }
}
