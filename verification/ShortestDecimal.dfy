/** Of the p-digit decimals only two need trying, and seventeen digits always
    suffice for a double. */
module ShortestDecimal {
  import opened Powers
  import opened Binary64

  /** The decimal mant * 10^q. */
  ghost function Dec(mant: nat, q: int): (r: real)
    ensures r >= 0.0
  {
    mant as real * Ten(q)
  }

  /** mant is written with exactly p digits, the first not zero. */
  predicate HasDigits(p: nat, mant: nat)
    requires p > 0
  {
    Pow(10, p - 1) <= mant < Pow(10, p)
  }

  /** No p-digit decimal is nearer to a: what a correctly rounded conversion to
      p significant digits delivers, however it settles a tie. */
  ghost predicate NearestDecimal(p: nat, mant: nat, q: int, a: real)
    requires p > 0
  {
    && HasDigits(p, mant)
    && forall m: nat, r: int | HasDigits(p, m) :: Distance(a, Dec(mant, q)) <= Distance(a, Dec(m, r))
  }

  // ----- arithmetic of decimals -----

  lemma DecNext(m: nat, q: int)
    ensures Dec(m + 1, q) == Dec(m, q) + Ten(q)
  {
    hide Ten;
  }

  lemma DecMonotone(m: nat, k: nat, q: int)
    requires m <= k
    ensures Dec(m, q) <= Dec(k, q)
  {
    hide Ten;
    Scaled(m as real, k as real, Ten(q));
  }

  lemma DecShift(m: nat, k: nat, q: int)
    ensures Dec(m * Pow(10, k), q) == Dec(m, q + k)
  {
    hide Ten, Pow;
    TenAdd(q, k);
    TenIsPow(k);
    Regroup(m, Pow(10, k), Ten(q));
  }

  lemma Regroup(m: nat, k: nat, u: real)
    ensures (m * k) as real * u == m as real * (u * (k as real))
  {
    assert (m * k) as real == m as real * k as real;
  }

  lemma DecInExponent(m: nat, q: int, r: int)
    requires q <= r
    ensures Dec(m, q) <= Dec(m, r)
  {
    hide Ten;
    TenMonotone(q, r);
    var x, y, k := Ten(q), Ten(r), m as real;
    assert k * (y - x) >= 0.0;
  }

  lemma DecadeEnd(p: nat, q: int)
    requires p > 0
    ensures Dec(Pow(10, p), q) == Dec(Pow(10, p - 1), q + 1)
  {
    hide Dec;
    DecShift(Pow(10, p - 1), 1, q);
    assert Pow(10, 1) == 10;
  }

  /** No p-digit decimal lies strictly between mant * 10^q and the next one up. */
  lemma NextDecimal(p: nat, mant: nat, q: int, m: nat, r: int)
    requires p > 0 && HasDigits(p, mant) && HasDigits(p, m)
    ensures Dec(m, r) <= Dec(mant, q) || Dec(m, r) >= Dec(mant + 1, q)
  {
    hide Dec, Ten;
    if r >= q {
      var n := m * Pow(10, r - q);
      DecShift(m, r - q, q);
      if n <= mant {
        DecMonotone(n, mant, q);
      } else {
        DecMonotone(mant + 1, n, q);
      }
    } else {
      DecMonotone(m, Pow(10, p), r);
      DecadeEnd(p, r);
      DecInExponent(Pow(10, p - 1), r + 1, q);
      DecMonotone(Pow(10, p - 1), mant, q);
    }
  }

  /** The next one up is itself a p-digit decimal, possibly at the next power. */
  lemma NextIsDecimal(p: nat, mant: nat, q: int) returns (m: nat, r: int)
    requires p > 0 && HasDigits(p, mant)
    ensures HasDigits(p, m) && Dec(m, r) == Dec(mant + 1, q)
  {
    hide Dec;
    if mant + 1 < Pow(10, p) {
      m, r := mant + 1, q;
    } else {
      DecadeEnd(p, q);
      m, r := Pow(10, p - 1), q + 1;
      assert Pow(10, p) == 10 * Pow(10, p - 1);
    }
  }

  // ----- the neighbour claim -----

  /** If any p-digit decimal reads back as d, then the nearest one does or the
      next one up does. */
  lemma NeighbourSuffices(p: nat, mant: nat, q: int, d: Magnitude, m: nat, r: int)
    requires p > 0 && Canonical(d) && NearestDecimal(p, mant, q, Value(d))
    requires HasDigits(p, m) && ReadsAs(Dec(m, r), d)
    ensures ReadsAs(Dec(mant, q), d) || ReadsAs(Dec(mant + 1, q), d)
  {
    hide Dec, Value, Two;
    TwoHalves(d.e);
    var a := Value(d);
    DecNext(mant, q);
    NextDecimal(p, mant, q, m, r);
    var um, ur := NextIsDecimal(p, mant, q);
    assert Distance(a, Dec(mant, q)) <= Distance(a, Dec(um, ur));
    assert Distance(a, Dec(mant, q)) <= Distance(a, Dec(m, r));
  }

  /** When the nearest decimal fails, the next one up is the closest of those
      that read back. */
  lemma NextUpIsClosest(p: nat, mant: nat, q: int, d: Magnitude, m: nat, r: int)
    requires p > 0 && Canonical(d) && NearestDecimal(p, mant, q, Value(d))
    requires !ReadsAs(Dec(mant, q), d)
    requires HasDigits(p, m) && ReadsAs(Dec(m, r), d)
    ensures Distance(Value(d), Dec(mant + 1, q)) <= Distance(Value(d), Dec(m, r))
  {
    hide Dec, Value, Two;
    TwoHalves(d.e);
    var a := Value(d);
    DecNext(mant, q);
    NextDecimal(p, mant, q, m, r);
    var um, ur := NextIsDecimal(p, mant, q);
    assert Distance(a, Dec(mant, q)) <= Distance(a, Dec(um, ur));
    assert Distance(a, Dec(mant, q)) <= Distance(a, Dec(m, r));
  }

  // ----- seventeen digits suffice -----

  lemma {:induction false} TenGrows(n: nat)
    ensures Ten(n) >= n as real + 1.0
  {
    if n > 0 {
      TenGrows(n - 1);
    }
  }

  lemma {:induction false} ExponentBelow(a: real, p: nat, q: int, low: int) returns (r: int)
    requires p > 0 && low <= q
    requires Dec(Pow(10, p - 1), low) <= a < Dec(Pow(10, p), q)
    ensures low <= r <= q && Dec(Pow(10, p - 1), r) <= a < Dec(Pow(10, p), r)
    decreases q - low
  {
    hide Dec;
    if Dec(Pow(10, p - 1), q) <= a {
      r := q;
    } else {
      DecadeEnd(p, q - 1);
      r := ExponentBelow(a, p, q - 1, low);
    }
  }

  lemma Reciprocal(a: real, t: real, b: real)
    requires a > 0.0 && t > 0.0 && t * b == 1.0 && b >= 1.0 / a
    ensures t <= a
  {
    assert a * b >= 1.0 by {
      assert a * (1.0 / a) == 1.0;
      assert a * (b - 1.0 / a) >= 0.0;
    }
    assert (a - t) * b >= 0.0;
  }

  /** Every positive real has a decimal exponent for p digits. */
  lemma ExponentExists(a: real, p: nat) returns (q: int)
    requires a > 0.0 && p > 0
    ensures Dec(Pow(10, p - 1), q) <= a < Dec(Pow(10, p), q)
  {
    hide Ten, Dec;
    var big: nat := a.Floor + 1;
    TenGrows(big);
    DecShift(1, p, big - p);
    DecOne(big);
    var inv := 1.0 / a;
    var small: nat := inv.Floor + 1;
    TenGrows(small);
    TenAdd(-(small as int), small);
    TenZero();
    Reciprocal(a, Ten(-(small as int)), Ten(small));
    DecShift(1, p - 1, -(small as int) - (p - 1));
    DecOne(-(small as int));
    TenMonotone(-(small as int), big);
    q := ExponentBelow(a, p, big - p, -(small as int) - (p - 1));
  }

  lemma DecOne(q: int)
    ensures Dec(1, q) == Ten(q)
  {
  }

  /** The p-digit decimals around a positive real: one of the two is within half
      a unit in the last place. */
  lemma Bracket(a: real, p: nat) returns (m: nat, q: int)
    requires a > 0.0 && p > 0
    ensures HasDigits(p, m) && Dec(m, q) <= a < Dec(m + 1, q)
    ensures Dec(Pow(10, p - 1), q) <= a
  {
    hide Dec, Pow;
    q := ExponentExists(a, p);
    m := DecFloor(a, q);
    if m < Pow(10, p - 1) {
      DecMonotone(m + 1, Pow(10, p - 1), q);
    }
    if m >= Pow(10, p) {
      DecMonotone(Pow(10, p), m, q);
    }
  }

  lemma DecFloor(a: real, q: int) returns (m: nat)
    requires a >= 0.0
    ensures Dec(m, q) <= a < Dec(m + 1, q)
  {
    hide Ten;
    m := FloorScale(a, Ten(q));
  }

  /** A correctly rounded conversion always has a nearest decimal to deliver. */
  lemma NearestExists(a: real, p: nat) returns (mant: nat, q: int)
    requires a > 0.0 && p > 0
    ensures NearestDecimal(p, mant, q, a)
  {
    hide Dec, Pow, Ten;
    var m, r := Bracket(a, p);
    var um, ur := NextIsDecimal(p, m, r);
    mant, q := m, r;
    if Distance(a, Dec(um, ur)) < Distance(a, Dec(m, r)) {
      mant, q := um, ur;
    }
    forall k: nat, s: int | HasDigits(p, k)
      ensures Distance(a, Dec(mant, q)) <= Distance(a, Dec(k, s))
    {
      NextDecimal(p, m, r, k, s);
    }
  }

  /** The relative width of a rounding interval: at least 2^-54 on either side. */
  lemma HalfBelowIsWide(d: Magnitude)
    requires Canonical(d) && d.m > 0
    ensures Value(d) <= 18014398509481984.0 * HalfBelow(d)
    ensures HalfBelow(d) > 0.0 && HalfBelow(d) <= HalfAbove(d)
  {
    hide Two;
    TwoHalves(d.e);
    Scaled(d.m as real, 9007199254740992.0, Two(d.e));
  }

  lemma SeventeenSuffice(mant: nat, q: int, d: Magnitude)
    requires Canonical(d) && d.m > 0
    requires NearestDecimal(17, mant, q, Value(d))
    ensures ReadsAs(Dec(mant, q), d)
  {
    hide Dec, Pow, Ten, Two, Value;
    var a := Value(d);
    ValuePositive(d);
    var m, r := Bracket(a, 17);
    var um, ur := NextIsDecimal(17, m, r);
    DecNext(m, r);
    HalfBelowIsWide(d);
    UnitBound(a, r);
    assert Distance(a, Dec(mant, q)) <= Distance(a, Dec(m, r));
    assert Distance(a, Dec(mant, q)) <= Distance(a, Dec(um, ur));
  }

  lemma ValuePositive(d: Magnitude)
    requires d.m > 0
    ensures Value(d) > 0.0
  {
    hide Two;
    StrictlyScaled(0.0, d.m as real, Two(d.e));
  }

  lemma UnitBound(a: real, r: int)
    requires Dec(Pow(10, 16), r) <= a
    ensures 10000000000000000.0 * Ten(r) <= a
  {
    hide Ten;
    assert Pow(10, 8) == 100000000;
    PowAdd(10, 8, 8);
  }
}
