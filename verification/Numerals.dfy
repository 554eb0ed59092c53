/** Decimal numerals as strings: digits, the value of a string of digits, and the
    numeral of a value, which is the only string of digits with that value that has
    no leading zero. The value of a concatenation is the value of its first part,
    moved up by the length of the second, plus the value of the second; the length
    of a numeral is the number of digits of its value. Printed mantissas, exponents
    and integer literals are all read and written by these functions, and everything
    said about them elsewhere comes down to the three facts just named: value,
    concatenation and length. */
module Numerals {
  import opened Powers

  predicate IsDigit(c: char) {
    '0' <= c <= '9'
  }

  function DigitChar(n: nat): (c: char)
    requires n < 10
    ensures IsDigit(c) && DigitValue(c) == n
  {
    '0' + n as char
  }

  function DigitValue(c: char): (n: nat)
    requires IsDigit(c)
    ensures n < 10
  {
    c as int - '0' as int
  }

  predicate AllDigits(s: string) {
    forall i | 0 <= i < |s| :: IsDigit(s[i])
  }

  /** The number a digit string denotes, leading zeros allowed. */
  function ValueOf(s: string): nat
    requires AllDigits(s)
  {
    if s == [] then 0 else 10 * ValueOf(s[..|s| - 1]) + DigitValue(s[|s| - 1])
  }

  /** The digits of v without leading zeros; nothing for zero. */
  function Numeral(v: nat): (s: string)
    ensures AllDigits(s)
  {
    if v == 0 then [] else Numeral(v / 10) + [DigitChar(v % 10)]
  }

  lemma {:induction false} NumeralValue(v: nat)
    ensures ValueOf(Numeral(v)) == v
    ensures v > 0 ==> Numeral(v) != [] && Numeral(v)[0] != '0'
  {
    if v > 0 {
      NumeralValue(v / 10);
      assert Numeral(v)[..|Numeral(v)| - 1] == Numeral(v / 10);
    }
  }

  lemma {:induction false} NumeralLength(v: nat)
    requires v > 0
    ensures Pow(10, |Numeral(v)| - 1) <= v < Pow(10, |Numeral(v)|)
  {
    if v >= 10 {
      NumeralLength(v / 10);
    } else {
      assert Numeral(v / 10) == [];
      assert Pow(10, 0) == 1 && Pow(10, 1) == 10;
    }
  }

  lemma LengthUnique(v: nat, j: nat, k: nat)
    requires j > 0 && k > 0
    requires Pow(10, j - 1) <= v < Pow(10, j) && Pow(10, k - 1) <= v < Pow(10, k)
    ensures j == k
  {
    if j < k {
      PowMonotone(10, j, k - 1);
    } else if k < j {
      PowMonotone(10, k, j - 1);
    }
  }

  lemma {:induction false} ValueBound(s: string)
    requires AllDigits(s)
    ensures ValueOf(s) < Pow(10, |s|)
    ensures s != [] && s[0] != '0' ==> Pow(10, |s| - 1) <= ValueOf(s)
  {
    if |s| == 1 {
      assert s[..0] == [];
      assert Pow(10, 0) == 1 && Pow(10, 1) == 10;
    } else if |s| > 1 {
      ValueBound(s[..|s| - 1]);
    }
  }

  lemma ValueAppend(s: string, c: char)
    requires AllDigits(s) && IsDigit(c)
    ensures AllDigits(s + [c])
    ensures ValueOf(s + [c]) == 10 * ValueOf(s) + DigitValue(c)
  {
    assert (s + [c])[..|s|] == s;
  }

  lemma {:induction false} ValueConcat(s: string, t: string)
    requires AllDigits(s) && AllDigits(t)
    ensures AllDigits(s + t)
    ensures ValueOf(s + t) == ValueOf(s) * Pow(10, |t|) + ValueOf(t)
  {
    if t == [] {
      assert s + t == s;
    } else {
      var r, c := t[..|t| - 1], t[|t| - 1];
      assert s + t == (s + r) + [c];
      ValueConcat(s, r);
      ValueAppend(s + r, c);
      assert Pow(10, |t|) == 10 * Pow(10, |r|);
      TimesTen(ValueOf(s), Pow(10, |r|));
    }
  }

  lemma TimesTen(x: nat, y: nat)
    ensures x * (10 * y) == 10 * (x * y)
  {
  }

  function Zeros(n: nat): (s: string)
    ensures |s| == n && AllDigits(s)
    ensures forall i | 0 <= i < n :: s[i] == '0'
  {
    seq(n, i => '0')
  }

  lemma {:induction false} ValueOfZeros(n: nat)
    ensures ValueOf(Zeros(n)) == 0
  {
    if n > 0 {
      ValueOfZeros(n - 1);
      assert Zeros(n)[..n - 1] == Zeros(n - 1);
    }
  }

  /** Distinct numerals denote distinct numbers. */
  lemma {:induction false} NumeralOfValue(s: string)
    requires AllDigits(s) && s != [] && s[0] != '0'
    ensures Numeral(ValueOf(s)) == s
  {
    var r, c := s[..|s| - 1], s[|s| - 1];
    if |s| > 1 {
      NumeralOfValue(r);
      ValueBound(s);
      ValueBound(r);
    } else {
      assert r == [];
      assert Numeral(0) == [];
    }
    assert ValueOf(s) / 10 == ValueOf(r) && ValueOf(s) % 10 == DigitValue(c);
    assert ValueOf(s) > 0;
    assert DigitChar(DigitValue(c)) == c;
  }
}
