/**
 * Chained operations: operands and operators entered alternately are
 * evaluated strictly left to right, each operator resolving the one before
 * it, with no precedence between them.
 */
module Chain {
  import opened Wrappers
  import opened Arithmetic
  import opened Engine
  import opened Entry

  /** An operand typed as keys, followed by an operator token. */
  datatype Term = Term(operand: string, token: string)

  /** The inputs that type each operand and then press its operator. */
  function TermEvents(ts: seq<Term>): seq<Event>
    decreases |ts|
  {
    if ts == [] then []
    else TermEvents(ts[..|ts| - 1]) + Typed(ts[|ts| - 1].operand) + [OperatorKey(ts[|ts| - 1].token)]
  }

  /** The number the host reads from a typed operand. */
  function OperandValue(num: Numerics, t: Term): real {
    num.parseFloat(Reference(t.operand))
  }

  /** Left-to-right evaluation: each operator combines everything before it with the next operand. */
  function ChainValue(num: Numerics, ts: seq<Term>): real
    requires |ts| > 0
    decreases |ts|
  {
    if |ts| == 1 then OperandValue(num, ts[0])
    else Calculate(ChainValue(num, ts[..|ts| - 1]), OperandValue(num, ts[|ts| - 1]), OpOfToken(ts[|ts| - 2].token))
  }

  /** Every operand is a non-empty run of digits and points, every token non-empty. */
  predicate WellTyped(ts: seq<Term>) {
    forall i :: 0 <= i < |ts| ==> ts[i].operand != [] && EntryKeys(ts[i].operand) && ts[i].token != ""
  }

  /** Nothing pending, and the next key starts a fresh operand. */
  predicate Fresh(s: State) {
    s.previousValue == None && s.operation == None && (!s.waiting ==> s.display == "0")
  }

  /**
   * After `a op1 b op2 ... z opN` the pending operand is the left-to-right
   * value of the chain, the pending operator is the last one pressed, and
   * the display shows the first operand (one term) or the printed chain
   * value (more terms, which are not formatted).
   */
  lemma {:induction false} ChainEvaluatesLeftToRight(num: Numerics, s: State, ts: seq<Term>)
    requires |ts| > 0 && WellTyped(ts) && Fresh(s)
    ensures var r := Run(num, s, TermEvents(ts));
      r.previousValue == Some(ChainValue(num, ts)) &&
      r.operation == Some(OpOfToken(ts[|ts| - 1].token)) &&
      r.waiting &&
      r.display == if |ts| == 1 then Reference(ts[0].operand) else num.toString(ChainValue(num, ts))
    decreases |ts|
  {
    var n := |ts| - 1;
    var ts', t := ts[..n], ts[n];
    var typed := TermEvents(ts') + Typed(t.operand);
    assert TermEvents(ts) == typed + [OperatorKey(t.token)];
    RunSnoc(num, s, typed, OperatorKey(t.token));
    RunAppend(num, s, TermEvents(ts'), Typed(t.operand));
    var m := Run(num, s, TermEvents(ts'));
    var a := Run(num, m, Typed(t.operand));
    assert Run(num, s, TermEvents(ts)) == Operator(num, a, t.token);
    if n == 0 {
      assert ts' == [];
      TypingMatchesReference(num, s, t.operand);
      OperatorRecordsOperand(num, a, t.token);
    } else {
      assert WellTyped(ts') by {
        forall i | 0 <= i < |ts'| ensures ts'[i].operand != [] && EntryKeys(ts'[i].operand) && ts'[i].token != "" {
          assert ts'[i] == ts[i];
        }
      }
      ChainEvaluatesLeftToRight(num, s, ts');
      assert ts'[|ts'| - 1] == ts[n - 1];
      TypingMatchesReference(num, m, t.operand);
      assert a.previousValue == Some(ChainValue(num, ts')) && Truthy(a.operation);
      OperatorChains(num, a, t.token);
    }
  }

  /**
   * Typing a final operand and pressing equals after a chain shows the
   * formatted left-to-right value and leaves nothing pending.
   */
  lemma ChainThenEquals(num: Numerics, s: State, ts: seq<Term>, last: string)
    requires |ts| > 0 && WellTyped(ts) && Fresh(s)
    requires last != [] && EntryKeys(last)
    ensures var whole := ts + [Term(last, "=")];
      var r := Run(num, s, TermEvents(ts) + Typed(last) + [EqualsKey]);
      r == State(FormatResult(num, ChainValue(num, whole)), None, None, true)
  {
    var whole := ts + [Term(last, "=")];
    var es := TermEvents(ts) + Typed(last);
    var m := Run(num, s, TermEvents(ts));
    var a := m.(display := Reference(last), waiting := false);
    EndsArmed(num, s, ts, last);
    RunSnoc(num, s, es, EqualsKey);
    EqualsResolves(num, a);
    ChainValueSnoc(num, ts, Term(last, "="));
  }

  /** Typing a final operand after a chain arms `handleEquals`. */
  lemma EndsArmed(num: Numerics, s: State, ts: seq<Term>, last: string)
    requires |ts| > 0 && WellTyped(ts) && Fresh(s)
    requires last != [] && EntryKeys(last)
    ensures var m := Run(num, s, TermEvents(ts));
      var a := Run(num, s, TermEvents(ts) + Typed(last));
      a == m.(display := Reference(last), waiting := false) &&
      a.previousValue == Some(ChainValue(num, ts)) &&
      a.operation == Some(OpOfToken(ts[|ts| - 1].token)) &&
      Armed(a)
  {
    ChainEvaluatesLeftToRight(num, s, ts);
    RunAppend(num, s, TermEvents(ts), Typed(last));
    var m := Run(num, s, TermEvents(ts));
    TypingMatchesReference(num, m, last);
    assert OpOfToken(ts[|ts| - 1].token) != Other("");
  }

  /** One more term combines the chain so far with its operand, using the previous operator. */
  lemma ChainValueSnoc(num: Numerics, ts: seq<Term>, t: Term)
    requires |ts| > 0
    ensures ChainValue(num, ts + [t]) == Calculate(ChainValue(num, ts), OperandValue(num, t), OpOfToken(ts[|ts| - 1].token))
  {
    var whole := ts + [t];
    assert whole[..|whole| - 1] == ts;
    assert whole[|whole| - 2] == ts[|ts| - 1];
  }

  /** The left-to-right value of `2 + 3 × 4` is 20. */
  lemma TwoPlusThreeTimesFourValue(num: Numerics, t0: Term, t1: Term, t2: Term)
    requires t0 == Term("2", PlusToken) && t1 == Term("3", TimesToken) && t2.operand == "4"
    requires num.parseFloat("2") == 2.0 && num.parseFloat("3") == 3.0 && num.parseFloat("4") == 4.0
    ensures ChainValue(num, [t0, t1, t2]) == 20.0
  {
    DigitReference('2');
    DigitReference('3');
    DigitReference('4');
    assert OperandValue(num, t0) == 2.0 && OperandValue(num, t1) == 3.0 && OperandValue(num, t2) == 4.0;
    ChainValueSnoc(num, [t0], t1);
    assert [t0] + [t1] == [t0, t1];
    ChainValueSnoc(num, [t0, t1], t2);
    assert [t0, t1] + [t2] == [t0, t1, t2];
  }

  /** `2 + 3 × 4 =` shows 20, not 14. */
  lemma TwoPlusThreeTimesFour(num: Numerics, ts: seq<Term>, last: string)
    requires ts == [Term("2", PlusToken), Term("3", TimesToken)] && last == "4"
    requires num.parseFloat("2") == 2.0 && num.parseFloat("3") == 3.0 && num.parseFloat("4") == 4.0
    ensures Run(num, Initial, TermEvents(ts) + Typed(last) + [EqualsKey]).display == num.toString(20.0)
  {
    var t0, t1, t2 := ts[0], ts[1], Term(last, "=");
    assert ts == [t0, t1];
    assert WellTyped(ts) by {
      assert EntryKeys(t0.operand) && EntryKeys(t1.operand);
    }
    ChainThenEquals(num, Initial, ts, last);
    assert ts + [t2] == [t0, t1, t2];
    TwoPlusThreeTimesFourValue(num, t0, t1, t2);
    assert IsWhole(20.0);
  }

  /**
   * Pressing an operator twice resolves the pending operation again against
   * the display: `5 + +` leaves 10 pending.
   */
  lemma RepeatedOperatorResolvesAgain(num: Numerics)
    requires num.parseFloat("5") == 5.0
    ensures Run(num, Initial, Typed("5") + [OperatorKey(PlusToken), OperatorKey(PlusToken)]).previousValue == Some(10.0)
  {
    var five, plus := NumberKey("5"), OperatorKey(PlusToken);
    assert Typed("5") == [five];
    assert [five] + [plus, plus] == ([five] + [plus]) + [plus];
    RunSnoc(num, Initial, [], five);
    RunSnoc(num, Initial, [five], plus);
    RunSnoc(num, Initial, [five] + [plus], plus);
    var typed := Run(num, Initial, [five]);
    assert typed == State("5", None, None, false);
    var once := Run(num, Initial, [five] + [plus]);
    assert once == State("5", Some(5.0), Some(Plus), true);
  }

  /** `5 / 0 =` shows the printed 0 and leaves nothing pending. */
  lemma DivideByZeroShowsZero(num: Numerics)
    requires num.parseFloat("5") == 5.0 && num.parseFloat("0") == 0.0
    ensures Run(num, Initial, TermEvents([Term("5", DivideToken)]) + Typed("0") + [EqualsKey])
      == State(num.toString(0.0), None, None, true)
  {
    var t0, t1 := Term("5", DivideToken), Term("0", "=");
    var ts := [t0];
    assert WellTyped(ts) by {
      assert EntryKeys(t0.operand);
    }
    ChainThenEquals(num, Initial, ts, "0");
    DigitReference('5');
    DigitReference('0');
    assert OperandValue(num, t0) == 5.0 && OperandValue(num, t1) == 0.0;
    ChainValueSnoc(num, ts, t1);
    assert IsWhole(0.0);
  }
}
