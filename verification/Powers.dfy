/** Integer powers of two and ten, for the exact values of binary and decimal
    floating-point numbers. Exponents go in both directions, so the powers are real
    numbers, tied to the integer powers where the exponent is not negative. They are
    added, compared and shifted by lemmas of their own: arithmetic with a product of
    two unknowns is kept inside this file, and what depends on it elsewhere, the
    spacing of doubles, the spacing of decimals of a given number of digits, and the
    comparison of the two, is reasoned about by calling these lemmas one step at a
    time. */
module Powers {

  function Pow(b: nat, n: nat): (r: nat)
    ensures b > 0 ==> r > 0
  {
    if n == 0 then 1 else b * Pow(b, n - 1)
  }

  lemma {:induction false} PowAdd(b: nat, m: nat, n: nat)
    ensures Pow(b, m + n) == Pow(b, m) * Pow(b, n)
  {
    if m > 0 {
      PowAdd(b, m - 1, n);
      var x, y := Pow(b, m - 1), Pow(b, n);
      assert b * (x * y) == (b * x) * y;
    }
  }

  lemma {:induction false} PowMonotone(b: nat, m: nat, n: nat)
    requires b > 0 && m <= n
    ensures Pow(b, m) <= Pow(b, n)
    decreases n - m
  {
    if m < n {
      PowMonotone(b, m, n - 1);
      var x := Pow(b, n - 1);
      assert b * x >= x;
    }
  }

  lemma ScaleUp(c: real, x: real, y: real, cy: real, z: real)
    requires cy == c * y && z == c * (x * y)
    ensures z == x * cy
  {
  }

  lemma ScaleDown(c: real, x: real, cy: real, y: real, z: real)
    requires c > 0.0 && cy == c * y && c * z == x * cy
    ensures z == x * y
  {
    assert c * (z - x * y) == 0.0;
  }

  /** The power 2^n for any integer n, negative ones included. */
  ghost function Two(n: int): (r: real)
    ensures r > 0.0
    decreases if n < 0 then -n else n
  {
    if n == 0 then 1.0
    else if n > 0 then 2.0 * Two(n - 1)
    else Two(n + 1) / 2.0
  }

  lemma TwoZero()
    ensures Two(0) == 1.0
  {
  }

  lemma TwoStep(n: int)
    ensures Two(n + 1) == 2.0 * Two(n)
  {
  }

  lemma {:induction false} TwoAdd(m: int, n: int)
    ensures Two(m + n) == Two(m) * Two(n)
    decreases if n < 0 then -n else n
  {
    hide Two;
    TwoZero();
    if n > 0 {
      TwoAdd(m, n - 1);
      TwoAddUp(m, n - 1);
    } else if n < 0 {
      TwoAdd(m, n + 1);
      TwoAddDown(m, n);
    }
  }

  lemma TwoAddUp(m: int, n: int)
    requires Two(m + n) == Two(m) * Two(n)
    ensures Two(m + n + 1) == Two(m) * Two(n + 1)
  {
    hide Two;
    TwoStep(m + n);
    TwoStep(n);
    ScaleUp(2.0, Two(m), Two(n), Two(n + 1), Two(m + n + 1));
  }

  lemma TwoAddDown(m: int, n: int)
    requires Two(m + n + 1) == Two(m) * Two(n + 1)
    ensures Two(m + n) == Two(m) * Two(n)
  {
    hide Two;
    TwoStep(m + n);
    TwoStep(n);
    ScaleDown(2.0, Two(m), Two(n + 1), Two(n), Two(m + n));
  }

  lemma {:induction false} TwoMonotone(m: int, n: int)
    requires m <= n
    ensures Two(m) <= Two(n)
    decreases n - m
  {
    if m < n {
      TwoMonotone(m, n - 1);
      TwoStep(n - 1);
    }
  }

  /** For a natural exponent the real power is the integer one. */
  lemma {:induction false} TwoIsPow(n: nat)
    ensures Two(n) == Pow(2, n) as real
  {
    if n > 0 {
      TwoIsPow(n - 1);
    }
  }

  /** The power 10^n for any integer n, negative ones included. */
  ghost function Ten(n: int): (r: real)
    ensures r > 0.0
    decreases if n < 0 then -n else n
  {
    if n == 0 then 1.0
    else if n > 0 then 10.0 * Ten(n - 1)
    else Ten(n + 1) / 10.0
  }

  lemma TenZero()
    ensures Ten(0) == 1.0
  {
  }

  lemma TenStep(n: int)
    ensures Ten(n + 1) == 10.0 * Ten(n)
  {
  }

  lemma {:induction false} TenAdd(m: int, n: int)
    ensures Ten(m + n) == Ten(m) * Ten(n)
    decreases if n < 0 then -n else n
  {
    hide Ten;
    TenZero();
    if n > 0 {
      TenAdd(m, n - 1);
      TenAddUp(m, n - 1);
    } else if n < 0 {
      TenAdd(m, n + 1);
      TenAddDown(m, n);
    }
  }

  lemma TenAddUp(m: int, n: int)
    requires Ten(m + n) == Ten(m) * Ten(n)
    ensures Ten(m + n + 1) == Ten(m) * Ten(n + 1)
  {
    hide Ten;
    TenStep(m + n);
    TenStep(n);
    ScaleUp(10.0, Ten(m), Ten(n), Ten(n + 1), Ten(m + n + 1));
  }

  lemma TenAddDown(m: int, n: int)
    requires Ten(m + n + 1) == Ten(m) * Ten(n + 1)
    ensures Ten(m + n) == Ten(m) * Ten(n)
  {
    hide Ten;
    TenStep(m + n);
    TenStep(n);
    ScaleDown(10.0, Ten(m), Ten(n + 1), Ten(n), Ten(m + n));
  }

  lemma {:induction false} TenMonotone(m: int, n: int)
    requires m <= n
    ensures Ten(m) <= Ten(n)
    decreases n - m
  {
    if m < n {
      TenMonotone(m, n - 1);
      TenStep(n - 1);
    }
  }

  /** For a natural exponent the real power is the integer one. */
  lemma {:induction false} TenIsPow(n: nat)
    ensures Ten(n) == Pow(10, n) as real
  {
    if n > 0 {
      TenIsPow(n - 1);
    }
  }
}
