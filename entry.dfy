/**
 * What the display shows after a run of digit and decimal-point keys,
 * defined independently of the handlers: every decimal point after the
 * first is dropped, leading zeros are suppressed, and a bare fraction
 * gets a leading "0".
 */
module Entry {
  import opened Wrappers
  import opened Arithmetic
  import opened Engine

  /** The handler a digit or decimal-point key runs. */
  function KeyEvent(c: char): Event {
    if c == '.' then DecimalKey else NumberKey([c])
  }

  /** The inputs a string of typed keys delivers, one per key. */
  function Typed(keys: string): seq<Event> {
    seq(|keys|, i requires 0 <= i < |keys| => KeyEvent(keys[i]))
  }

  /** Only digits and decimal points. */
  predicate EntryKeys(keys: string) {
    forall i :: 0 <= i < |keys| ==> keys[i] == '.' || '0' <= keys[i] <= '9'
  }

  /** The keys with every decimal point removed. */
  function WithoutDots(t: string): string {
    if t == [] then [] else (if t[0] == '.' then [] else [t[0]]) + WithoutDots(t[1..])
  }

  /** The keys with every decimal point after the first removed. */
  function KeepFirstDot(t: string): string {
    if t == [] then []
    else if t[0] == '.' then ['.'] + WithoutDots(t[1..])
    else [t[0]] + KeepFirstDot(t[1..])
  }

  /** The keys without their leading zeros. */
  function StripLeadingZeros(t: string): string {
    if t != [] && t[0] == '0' then StripLeadingZeros(t[1..]) else t
  }

  /** An empty entry shows "0"; a bare fraction gets a leading "0". */
  function Canon(t: string): string {
    if t == [] then "0" else if t[0] == '.' then "0" + t else t
  }

  /** The display a run of digit and decimal-point keys should produce. */
  function Reference(keys: string): string {
    Canon(StripLeadingZeros(KeepFirstDot(keys)))
  }

  lemma {:induction false} WithoutDotsSnoc(t: string, c: char)
    ensures WithoutDots(t + [c]) == WithoutDots(t) + (if c == '.' then [] else [c])
    decreases |t|
  {
    if t == [] {
      assert [c][1..] == [];
    } else {
      assert (t + [c])[1..] == t[1..] + [c];
      WithoutDotsSnoc(t[1..], c);
    }
  }

  lemma {:induction false} WithoutDotsHasNone(t: string)
    ensures '.' !in WithoutDots(t)
    decreases |t|
  {
    if t != [] {
      WithoutDotsHasNone(t[1..]);
    }
  }

  lemma {:induction false} KeepFirstDotSnoc(t: string, c: char)
    ensures KeepFirstDot(t + [c]) == KeepFirstDot(t) + (if c == '.' && '.' in t then [] else [c])
    decreases |t|
  {
    if t == [] {
      assert [c][1..] == [];
    } else {
      assert (t + [c])[1..] == t[1..] + [c];
      if t[0] == '.' {
        WithoutDotsSnoc(t[1..], c);
      } else {
        KeepFirstDotSnoc(t[1..], c);
        assert t == [t[0]] + t[1..];
      }
    }
  }

  lemma {:induction false} KeepFirstDotKeepsOne(t: string)
    ensures multiset(KeepFirstDot(t))['.'] <= 1
    ensures '.' in KeepFirstDot(t) <==> '.' in t
    decreases |t|
  {
    if t != [] {
      if t[0] == '.' {
        WithoutDotsHasNone(t[1..]);
        assert multiset(KeepFirstDot(t)) == multiset(['.']) + multiset(WithoutDots(t[1..]));
      } else {
        KeepFirstDotKeepsOne(t[1..]);
        assert t == [t[0]] + t[1..];
        assert multiset(KeepFirstDot(t)) == multiset([t[0]]) + multiset(KeepFirstDot(t[1..]));
      }
    }
  }

  lemma {:induction false} StripLeadingZerosSnoc(t: string, c: char)
    ensures StripLeadingZeros(t + [c]) ==
      if StripLeadingZeros(t) == [] && c == '0' then [] else StripLeadingZeros(t) + [c]
    decreases |t|
  {
    if t == [] {
      assert [c][1..] == [];
    } else if t[0] == '0' {
      assert (t + [c])[1..] == t[1..] + [c];
      StripLeadingZerosSnoc(t[1..], c);
    }
  }

  lemma {:induction false} StripLeadingZerosKeepsDots(t: string)
    ensures multiset(StripLeadingZeros(t))['.'] == multiset(t)['.']
    ensures StripLeadingZeros(t) == [] || StripLeadingZeros(t)[0] != '0'
    decreases |t|
  {
    if t != [] && t[0] == '0' {
      StripLeadingZerosKeepsDots(t[1..]);
      assert t == [t[0]] + t[1..];
      assert multiset(t) == multiset([t[0]]) + multiset(t[1..]);
    }
  }

  /** The reference display is well formed, and has a point exactly when one was typed. */
  lemma ReferenceWellFormed(keys: string)
    ensures DisplayOk(Reference(keys))
    ensures '.' in Reference(keys) <==> '.' in keys
  {
    var k := KeepFirstDot(keys);
    KeepFirstDotKeepsOne(keys);
    StripLeadingZerosKeepsDots(k);
    var u := StripLeadingZeros(k);
    assert '.' in u <==> '.' in k;
    if u != [] && u[0] == '.' {
      assert "0" + u == ['0'] + u;
      assert multiset("0" + u)['.'] == multiset(u)['.'];
    }
  }

  /** A point typed after an earlier one leaves the reference display unchanged. */
  lemma RepeatedPointIgnored(keys: string)
    requires '.' in keys
    ensures Reference(keys + ['.']) == Reference(keys)
  {
    KeepFirstDotSnoc(keys, '.');
    assert KeepFirstDot(keys + ['.']) == KeepFirstDot(keys) + [];
    assert KeepFirstDot(keys) + [] == KeepFirstDot(keys);
  }

  /** Appending a key that is not stripped to non-empty stripped keys appends it to the display. */
  lemma CanonSnoc(u: string, c: char)
    requires u != []
    ensures Canon(u + [c]) == Canon(u) + [c]
  {
    if u[0] == '.' {
      assert ("0" + u) + [c] == "0" + (u + [c]);
    }
  }

  /** The stripped keys once a key that is kept is added. */
  lemma StrippedSnoc(keys: string, c: char)
    requires c == '.' ==> '.' !in keys
    ensures var u := StripLeadingZeros(KeepFirstDot(keys));
      StripLeadingZeros(KeepFirstDot(keys + [c])) == if u == [] && c == '0' then [] else u + [c]
  {
    KeepFirstDotSnoc(keys, c);
    assert KeepFirstDot(keys + [c]) == KeepFirstDot(keys) + [c];
    StripLeadingZerosSnoc(KeepFirstDot(keys), c);
  }

  /** A digit replaces a reference display of "0" and is appended to any other. */
  lemma DigitExtends(keys: string, c: char)
    requires '0' <= c <= '9'
    ensures var d := Reference(keys);
      Reference(keys + [c]) == if d == "0" then [c] else d + [c]
  {
    var u := StripLeadingZeros(KeepFirstDot(keys));
    StrippedSnoc(keys, c);
    StripLeadingZerosKeepsDots(KeepFirstDot(keys));
    if u == [] {
      assert Reference(keys) == "0";
    } else {
      CanonSnoc(u, c);
      assert u[0] != '0';
      assert Reference(keys) != "0";
    }
  }

  /** The first point typed is appended to the reference display. */
  lemma FirstPointExtends(keys: string)
    requires '.' !in keys
    ensures Reference(keys + ['.']) == Reference(keys) + "."
  {
    var u := StripLeadingZeros(KeepFirstDot(keys));
    StrippedSnoc(keys, '.');
    if u == [] {
      assert Reference(keys) == "0";
      assert u + ['.'] == ".";
    } else {
      CanonSnoc(u, '.');
    }
  }

  /**
   * One more key extends the reference display exactly as the handlers
   * extend the display: a digit replaces a lone "0" or is appended, and a
   * point is appended only when none is shown.
   */
  lemma ReferenceSnoc(keys: string, c: char)
    requires c == '.' || '0' <= c <= '9'
    ensures var d := Reference(keys);
      Reference(keys + [c]) ==
        if c == '.' then (if '.' in d then d else d + ".")
        else (if d == "0" then [c] else d + [c])
  {
    ReferenceWellFormed(keys);
    if c != '.' {
      DigitExtends(keys, c);
    } else if '.' in keys {
      RepeatedPointIgnored(keys);
    } else {
      FirstPointExtends(keys);
    }
  }

  /** On a display showing the reference for `keys`, one more key shows the reference for `keys + [c]`. */
  lemma KeyExtendsReference(num: Numerics, m: State, keys: string, c: char)
    requires c == '.' || '0' <= c <= '9'
    requires !m.waiting && m.display == Reference(keys)
    ensures Step(num, m, KeyEvent(c)) == m.(display := Reference(keys + [c]))
  {
    ReferenceSnoc(keys, c);
  }

  /** The first key on a fresh display shows the reference for that key alone. */
  lemma FirstKeyShowsReference(num: Numerics, s: State, c: char)
    requires c == '.' || '0' <= c <= '9'
    requires !s.waiting ==> s.display == "0"
    ensures Step(num, s, KeyEvent(c)) == s.(display := Reference([c]), waiting := false)
  {
    ReferenceSnoc([], c);
    assert [] + [c] == [c];
    assert Reference([]) == "0";
  }

  /**
   * Typing digits and decimal points on a fresh display (after an operator
   * or equals, or on a display showing "0") produces the reference display,
   * and leaves the pending operand and operator alone.
   */
  lemma {:induction false} TypingMatchesReference(num: Numerics, s: State, keys: string)
    requires EntryKeys(keys)
    requires s.waiting ==> keys != []
    requires !s.waiting ==> s.display == "0"
    ensures Run(num, s, Typed(keys)) == s.(display := Reference(keys), waiting := false)
    decreases |keys|
  {
    if keys == [] {
      assert Typed(keys) == [];
    } else {
      var n := |keys| - 1;
      var keys', c := keys[..n], keys[n];
      assert keys == keys' + [c];
      assert Typed(keys)[..n] == Typed(keys');
      var m := Run(num, s, Typed(keys'));
      assert Run(num, s, Typed(keys)) == Step(num, m, KeyEvent(c));
      if keys' == [] {
        assert Typed(keys') == [];
        FirstKeyShowsReference(num, s, c);
      } else {
        TypingMatchesReference(num, s, keys');
        KeyExtendsReference(num, m, keys', c);
      }
    }
  }

  /** A single digit shows as itself. */
  lemma DigitReference(c: char)
    requires '0' <= c <= '9'
    ensures Reference([c]) == [c]
  {
    assert Reference([]) == "0";
    ReferenceSnoc([], c);
    assert [] + [c] == [c];
  }

  /** The reference display for `1 . 2 . 3`. */
  lemma ReferenceOfOnePointTwoPointThree()
    ensures Reference("1.2.3") == "1.23"
  {
  }

  /** Starting from "0", `1 . 2 . 3` shows "1.23": the second point is ignored. */
  lemma SecondPointIgnored(num: Numerics)
    ensures Run(num, Initial, Typed("1.2.3")).display == "1.23"
  {
    TypingMatchesReference(num, Initial, "1.2.3");
    ReferenceOfOnePointTwoPointThree();
  }
}
