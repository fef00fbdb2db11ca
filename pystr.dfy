/** The parts of Python's `str` and `int` behaviour that the calendar relies on. */
module PyStr {

  /** Python's `a < b` on strings: the first differing code point decides; a proper prefix is smaller. */
  predicate Lt(a: string, b: string)
    decreases |a|
  {
    if a == [] then b != []
    else if b == [] then false
    else if a[0] != b[0] then a[0] < b[0]
    else Lt(a[1..], b[1..])
  }

  /** Python's `a <= b` on strings. */
  predicate Le(a: string, b: string)
  {
    a == b || Lt(a, b)
  }

  lemma {:induction false} LtIrreflexive(a: string)
    ensures !Lt(a, a)
  {
    if a != [] {
      LtIrreflexive(a[1..]);
    }
  }

  lemma {:induction false} LtTransitive(a: string, b: string, c: string)
    requires Lt(a, b) && Lt(b, c)
    ensures Lt(a, c)
  {
    if a != [] && a[0] == b[0] && b[0] == c[0] {
      LtTransitive(a[1..], b[1..], c[1..]);
    }
  }

  lemma {:induction false} LtAsymmetric(a: string, b: string)
    requires Lt(a, b)
    ensures !Lt(b, a)
  {
    if a != [] && a[0] == b[0] {
      LtAsymmetric(a[1..], b[1..]);
    }
  }

  /** Any two strings are equal or ordered one way. */
  lemma {:induction false} LtTotal(a: string, b: string)
    ensures a == b || Lt(a, b) || Lt(b, a)
  {
    if a != [] && b != [] && a[0] == b[0] {
      LtTotal(a[1..], b[1..]);
      if a[1..] == b[1..] {
        assert a == [a[0]] + a[1..] && b == [b[0]] + b[1..];
      }
    }
  }

  lemma LeTransitive(a: string, b: string, c: string)
    requires Le(a, b) && Le(b, c)
    ensures Le(a, c)
  {
    if a != b && b != c {
      LtTransitive(a, b, c);
    }
  }

  /** Strings whose heads have equal length compare by head first, then by tail. */
  lemma {:induction false} LtConcat(x: string, y: string, x': string, y': string)
    requires |x| == |x'|
    ensures Lt(x + y, x' + y') <==> Lt(x, x') || (x == x' && Lt(y, y'))
  {
    if x == [] {
      assert x + y == y && x' + y' == y';
    } else {
      assert (x + y)[0] == x[0] && (x' + y')[0] == x'[0];
      assert (x + y)[1..] == x[1..] + y && (x' + y')[1..] == x'[1..] + y';
      LtConcat(x[1..], y, x'[1..], y');
      if x[0] == x'[0] {
        assert x == x' <==> x[1..] == x'[1..] by {
          assert x == [x[0]] + x[1..] && x' == [x'[0]] + x'[1..];
        }
      }
    }
  }

  predicate IsDigit(c: char)
  {
    '0' <= c <= '9'
  }

  predicate AllDigits(s: string)
  {
    forall i :: 0 <= i < |s| ==> IsDigit(s[i])
  }

  /** The character for decimal digit `d`. */
  function Digit(d: int): (c: char)
    requires 0 <= d < 10
    ensures IsDigit(c)
  {
    ('0' as int + d) as char
  }

  function DigitValue(c: char): int
    requires IsDigit(c)
  {
    c as int - '0' as int
  }

  /** Python's `str(n)` for a non-negative integer. */
  function DecimalString(n: nat): (r: string)
    ensures r != [] && AllDigits(r)
    ensures n < 10 <==> |r| == 1
    decreases n
  {
    if n < 10 then [Digit(n)] else DecimalString(n / 10) + [Digit(n % 10)]
  }

  /** Python's `int(s)` for a non-empty string of decimal digits (leading zeros allowed). */
  function DigitsValue(s: string): nat
    requires s != [] && AllDigits(s)
    decreases |s|
  {
    if |s| == 1 then DigitValue(s[0]) else DigitsValue(s[..|s| - 1]) * 10 + DigitValue(s[|s| - 1])
  }

  /** `int(str(n)) == n`: a number written to a file as text reads back unchanged. */
  lemma {:induction false} DigitsValueOfDecimal(n: nat)
    ensures DigitsValue(DecimalString(n)) == n
  {
    if n >= 10 {
      var s := DecimalString(n);
      assert s[..|s| - 1] == DecimalString(n / 10);
      DigitsValueOfDecimal(n / 10);
    }
  }

  /** Python's `f"{n:02d}"` for a non-negative integer. */
  function Pad2(n: nat): (r: string)
    ensures |r| >= 2 && AllDigits(r)
    ensures n < 100 ==> |r| == 2
  {
    if n < 10 then "0" + DecimalString(n) else DecimalString(n)
  }

  /** Below 100, `:02d` writes exactly the tens digit and the units digit. */
  lemma Pad2Digits(n: nat)
    requires n < 100
    ensures Pad2(n) == [Digit(n / 10), Digit(n % 10)]
  {
    if n >= 10 {
      assert DecimalString(n / 10) == [Digit(n / 10)];
    }
  }

  /** `int(f"{n:02d}") == n` below 100. */
  lemma Pad2Value(n: nat)
    requires n < 100
    ensures AllDigits(Pad2(n)) && DigitsValue(Pad2(n)) == n
  {
    Pad2Digits(n);
  }

  /** Below 100, zero-padded numbers compare as strings the way they compare as numbers. */
  lemma Pad2Order(a: nat, b: nat)
    requires a < 100 && b < 100
    ensures Lt(Pad2(a), Pad2(b)) <==> a < b
  {
    Pad2Digits(a);
    Pad2Digits(b);
    var ta, ua, tb, ub := a / 10, a % 10, b / 10, b % 10;
    assert Lt([Digit(ua)], [Digit(ub)]) <==> ua < ub by {
      assert [Digit(ua)][1..] == [] && [Digit(ub)][1..] == [];
    }
    assert Lt(Pad2(a), Pad2(b)) <==> ta < tb || (ta == tb && ua < ub) by {
      assert Pad2(a)[1..] == [Digit(ua)] && Pad2(b)[1..] == [Digit(ub)];
    }
    assert a == ta * 10 + ua && b == tb * 10 + ub;
  }
}
