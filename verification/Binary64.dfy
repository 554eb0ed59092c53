/** Finite binary64 magnitudes m * 2^e, and correctly rounded conversion to them. */
module Binary64 {
  import opened Powers

  const MIN_EXPONENT: int := -1074
  const MAX_EXPONENT: int := 971
  const HIDDEN_BIT: nat := 0x10_0000_0000_0000
  const SIGNIFICAND_LIMIT: nat := 0x20_0000_0000_0000

  /** The non-negative value m * 2^e. */
  datatype Magnitude = Magnitude(m: nat, e: int)

  /** One spelling for each finite value: either the significand has its hidden
      bit, or the exponent is the least one (subnormals and zero). */
  predicate Canonical(d: Magnitude) {
    && d.m < SIGNIFICAND_LIMIT
    && MIN_EXPONENT <= d.e <= MAX_EXPONENT
    && (d.m < HIDDEN_BIT ==> d.e == MIN_EXPONENT)
  }

  /** The power of two just past the largest finite double: reading a decimal
      that rounds here yields an infinity. */
  const OVERFLOW: Magnitude := Magnitude(HIDDEN_BIT, MAX_EXPONENT + 1)

  predicate Rounded(d: Magnitude) {
    Canonical(d) || d == OVERFLOW
  }

  ghost function Value(d: Magnitude): real {
    d.m as real * Two(d.e)
  }

  /** Half the distance to the next value below; a quarter of a unit at a
      power of two, where the spacing changes. */
  ghost function HalfBelow(d: Magnitude): real {
    if d.m == HIDDEN_BIT && d.e > MIN_EXPONENT then Two(d.e - 2) else Two(d.e - 1)
  }

  ghost function HalfAbove(d: Magnitude): real {
    Two(d.e - 1)
  }

  /** The decimals that read back as d: an interval that is closed exactly when
      the significand is even. Every large real overflows. */
  ghost predicate ReadsAs(x: real, d: Magnitude) {
    if d.m % 2 == 0 then
      Value(d) - HalfBelow(d) <= x && (d == OVERFLOW || x <= Value(d) + HalfAbove(d))
    else
      Value(d) - HalfBelow(d) < x < Value(d) + HalfAbove(d)
  }

  ghost function Distance(x: real, y: real): (r: real)
    ensures r >= 0.0
  {
    if x < y then y - x else x - y
  }

  /** IEEE 754 roundTiesToEven: no rounded value is nearer, and when another is
      as near the chosen one is even. */
  ghost predicate NearestEven(x: real, d: Magnitude) {
    && Rounded(d)
    && forall o: Magnitude | Rounded(o) ::
         && Distance(x, Value(d)) <= Distance(x, Value(o))
         && (o != d && Distance(x, Value(d)) == Distance(x, Value(o)) ==> d.m % 2 == 0)
  }

  // ----- order and spacing of the rounded values -----

  predicate Before(a: Magnitude, b: Magnitude) {
    a.e < b.e || (a.e == b.e && a.m < b.m)
  }

  function Succ(d: Magnitude): (r: Magnitude)
    requires Canonical(d)
    ensures Rounded(r)
  {
    if d.m + 1 == SIGNIFICAND_LIMIT then Magnitude(HIDDEN_BIT, d.e + 1) else Magnitude(d.m + 1, d.e)
  }

  function Pred(d: Magnitude): (r: Magnitude)
    requires Rounded(d) && d.m > 0
    ensures Canonical(r)
  {
    if d.m == HIDDEN_BIT && d.e > MIN_EXPONENT then Magnitude(SIGNIFICAND_LIMIT - 1, d.e - 1)
    else Magnitude(d.m - 1, d.e)
  }

  lemma Scaled(a: real, b: real, u: real)
    requires a <= b && u >= 0.0
    ensures a * u <= b * u
  {
    assert (b - a) * u >= 0.0;
  }

  lemma StrictlyScaled(a: real, b: real, u: real)
    requires a < b && u > 0.0
    ensures a * u < b * u
  {
    assert (b - a) * u > 0.0;
  }

  lemma TwoHalves(e: int)
    ensures Two(e) == 2.0 * Two(e - 1) == 4.0 * Two(e - 2)
  {
    TwoStep(e - 1);
    TwoStep(e - 2);
  }

  lemma ValueZero(e: int)
    ensures Value(Magnitude(0, e)) == 0.0
  {
    hide Two;
  }

  lemma ValueNext(m: nat, e: int)
    ensures Value(Magnitude(m + 1, e)) == Value(Magnitude(m, e)) + Two(e)
  {
    hide Two;
  }

  lemma ValueInSignificand(m: nat, k: nat, e: int)
    requires m <= k
    ensures Value(Magnitude(m, e)) <= Value(Magnitude(k, e))
  {
    hide Two;
    Scaled(m as real, k as real, Two(e));
  }

  lemma ValueInExponent(m: nat, e: int, f: int)
    requires e <= f
    ensures Value(Magnitude(m, e)) <= Value(Magnitude(m, f))
  {
    hide Two;
    TwoMonotone(e, f);
    var x, y, r := Two(e), Two(f), m as real;
    assert r * (y - x) >= 0.0;
  }

  lemma BinadeEnd(e: int)
    ensures Value(Magnitude(SIGNIFICAND_LIMIT, e)) == Value(Magnitude(HIDDEN_BIT, e + 1))
  {
    hide Two;
    TwoStep(e);
  }

  lemma SuccValue(d: Magnitude)
    requires Canonical(d)
    ensures Value(Succ(d)) == Value(d) + 2.0 * HalfAbove(d)
  {
    hide Two, Value;
    ValueNext(d.m, d.e);
    BinadeEnd(d.e);
    TwoHalves(d.e);
  }

  lemma PredValue(d: Magnitude)
    requires Rounded(d) && d.m > 0
    ensures Value(Pred(d)) == Value(d) - 2.0 * HalfBelow(d)
  {
    hide Two, Value;
    TwoHalves(d.e);
    if d.m == HIDDEN_BIT && d.e > MIN_EXPONENT {
      BinadeEnd(d.e - 1);
      ValueNext(SIGNIFICAND_LIMIT - 1, d.e - 1);
    } else {
      ValueNext(d.m - 1, d.e);
    }
  }

  /** Nothing representable lies strictly between d and its neighbour above. */
  lemma GapAbove(d: Magnitude, o: Magnitude)
    requires Canonical(d) && Rounded(o) && Before(d, o)
    ensures Value(o) >= Value(d) + 2.0 * HalfAbove(d)
  {
    hide Two, Value;
    TwoHalves(d.e);
    ValueNext(d.m, d.e);
    if d.e == o.e {
      ValueInSignificand(d.m + 1, o.m, d.e);
    } else {
      ValueInSignificand(d.m + 1, SIGNIFICAND_LIMIT, d.e);
      BinadeEnd(d.e);
      ValueInExponent(HIDDEN_BIT, d.e + 1, o.e);
      ValueInSignificand(HIDDEN_BIT, o.m, o.e);
    }
  }

  /** ... nor between d and its neighbour below. */
  lemma GapBelow(d: Magnitude, o: Magnitude)
    requires Rounded(d) && Rounded(o) && Before(o, d)
    ensures Value(o) <= Value(d) - 2.0 * HalfBelow(d)
  {
    hide Two, Value;
    TwoHalves(d.e);
    if d.e == o.e {
      ValueNext(d.m - 1, d.e);
      ValueInSignificand(o.m, d.m - 1, d.e);
    } else {
      ValueInSignificand(o.m, SIGNIFICAND_LIMIT - 1, o.e);
      ValueInExponent(SIGNIFICAND_LIMIT - 1, o.e, d.e - 1);
      ValueNext(SIGNIFICAND_LIMIT - 1, d.e - 1);
      BinadeEnd(d.e - 1);
      if d.m > HIDDEN_BIT {
        ValueInSignificand(HIDDEN_BIT, d.m - 1, d.e);
        ValueNext(d.m - 1, d.e);
      }
    }
  }

  lemma Trichotomy(a: Magnitude, b: Magnitude)
    ensures a == b || Before(a, b) || Before(b, a)
  {
  }

  // ----- the interval is exactly round-to-nearest-even -----

  lemma ReadsAsIsNearest(x: real, d: Magnitude)
    requires x >= 0.0 && Rounded(d) && ReadsAs(x, d)
    ensures NearestEven(x, d)
  {
    hide Two, Value;
    forall o: Magnitude | Rounded(o)
      ensures Distance(x, Value(d)) <= Distance(x, Value(o))
      ensures o != d && Distance(x, Value(d)) == Distance(x, Value(o)) ==> d.m % 2 == 0
    {
      Nearer(x, d, o);
    }
  }

  lemma Nearer(x: real, d: Magnitude, o: Magnitude)
    requires x >= 0.0 && Rounded(d) && Rounded(o) && ReadsAs(x, d)
    ensures Distance(x, Value(d)) <= Distance(x, Value(o))
    ensures o != d && Distance(x, Value(d)) == Distance(x, Value(o)) ==> d.m % 2 == 0
  {
    hide Two, Value;
    Trichotomy(d, o);
    TwoHalves(d.e);
    if Before(d, o) {
      GapAbove(d, o);
    } else if Before(o, d) {
      GapBelow(d, o);
    }
  }

  lemma NearestReadsAs(x: real, d: Magnitude)
    requires x >= 0.0 && NearestEven(x, d)
    ensures ReadsAs(x, d)
  {
    hide Two, Value;
    TwoHalves(d.e);
    if d != OVERFLOW {
      var s := Succ(d);
      SuccValue(d);
      assert Distance(x, Value(d)) <= Distance(x, Value(s));
    }
    if d.m > 0 {
      var p := Pred(d);
      PredValue(d);
      assert Distance(x, Value(d)) <= Distance(x, Value(p));
    } else {
      ValueZero(d.e);
    }
  }

  /** The interval test is correct rounding: both directions, for every real. */
  lemma ReadsAsIffNearest(x: real, d: Magnitude)
    requires x >= 0.0 && Rounded(d)
    ensures ReadsAs(x, d) <==> NearestEven(x, d)
  {
    if ReadsAs(x, d) {
      ReadsAsIsNearest(x, d);
    }
    if NearestEven(x, d) {
      NearestReadsAs(x, d);
    }
  }

  /** Two different values that read one decimal would both be even and have
      nothing between them, but neighbours have opposite parity. */
  lemma Neighbours(x: real, a: Magnitude, b: Magnitude)
    requires x >= 0.0 && Rounded(a) && Rounded(b) && Before(a, b)
    ensures !(ReadsAs(x, a) && ReadsAs(x, b))
  {
    hide Two, Value;
    if ReadsAs(x, a) && ReadsAs(x, b) {
      Nearer(x, a, b);
      Nearer(x, b, a);
      var s := Succ(a);
      SuccValue(a);
      if Before(s, b) {
        Nearer(x, a, s);
        Nearer(x, b, s);
        GapAbove(s, b);
        TwoHalves(s.e);
      }
      assert false;
    }
  }

  /** Reading is a function: one rounded value for each real. */
  lemma ReadsAsUnique(x: real, a: Magnitude, b: Magnitude)
    requires x >= 0.0 && Rounded(a) && Rounded(b)
    requires ReadsAs(x, a) && ReadsAs(x, b)
    ensures a == b
  {
    Trichotomy(a, b);
    if Before(a, b) {
      Neighbours(x, a, b);
    } else if Before(b, a) {
      Neighbours(x, b, a);
    }
  }

  // ----- every real reads as something -----

  lemma Quotient(x: real, u: real) returns (r: real)
    requires x >= 0.0 && u > 0.0
    ensures r * u == x && r >= 0.0
  {
    r := x / u;
  }

  lemma QuotientBelow(x: real, u: real, r: real, k: real)
    requires r * u == x && r < k && u > 0.0
    ensures x < k * u
  {
    StrictlyScaled(r, k, u);
  }

  lemma FloorScale(x: real, u: real) returns (m: nat)
    requires x >= 0.0 && u > 0.0
    ensures m as real * u <= x < (m + 1) as real * u
  {
    var r := Quotient(x, u);
    m := r.Floor;
    Scaled(m as real, r, u);
    QuotientBelow(x, u, r, (m + 1) as real);
  }

  lemma FloorAt(x: real, e: int) returns (m: nat)
    requires x >= 0.0
    ensures Value(Magnitude(m, e)) <= x < Value(Magnitude(m + 1, e))
  {
    hide Two;
    m := FloorScale(x, Two(e));
  }

  /** The largest representable value not above x. */
  lemma {:induction false} FloorExists(x: real, e: int) returns (d: Magnitude)
    requires x >= 0.0 && MIN_EXPONENT <= e <= MAX_EXPONENT
    requires x < Value(Magnitude(SIGNIFICAND_LIMIT, e))
    ensures Canonical(d) && Value(d) <= x < Value(Succ(d))
    decreases e - MIN_EXPONENT
  {
    hide Two, Value;
    if e > MIN_EXPONENT && x < Value(Magnitude(HIDDEN_BIT, e)) {
      BinadeEnd(e - 1);
      d := FloorExists(x, e - 1);
    } else {
      var m := FloorAt(x, e);
      if m >= SIGNIFICAND_LIMIT {
        ValueInSignificand(SIGNIFICAND_LIMIT, m, e);
      }
      if e > MIN_EXPONENT && m < HIDDEN_BIT {
        ValueInSignificand(m + 1, HIDDEN_BIT, e);
      }
      d := Magnitude(m, e);
      BinadeEnd(e);
    }
  }

  lemma ReadExists(x: real) returns (d: Magnitude)
    requires x >= 0.0
    ensures Rounded(d) && ReadsAs(x, d)
  {
    hide Two, Value;
    BinadeEnd(MAX_EXPONENT);
    if x >= Value(OVERFLOW) {
      d := OVERFLOW;
      return;
    }
    d := FloorExists(x, MAX_EXPONENT);
    SuccValue(d);
    var middle := Value(d) + HalfAbove(d);
    if x > middle || (x == middle && d.m % 2 == 1) {
      d := Succ(d);
    }
  }

  /** The rounded value that a decimal reads as. */
  ghost function Read(x: real): (d: Magnitude)
    requires x >= 0.0
    ensures Rounded(d) && ReadsAs(x, d)
  {
    assert exists d :: Rounded(d) && ReadsAs(x, d) by {
      var d := ReadExists(x);
    }
    var d :| Rounded(d) && ReadsAs(x, d);
    d
  }

  /** Read is round-to-nearest-even, and the only function that is. */
  lemma ReadIsNearestEven(x: real, d: Magnitude)
    requires x >= 0.0
    ensures Read(x) == d <==> NearestEven(x, d)
  {
    if NearestEven(x, d) {
      ReadsAsIffNearest(x, d);
      ReadsAsUnique(x, d, Read(x));
    }
    ReadsAsIffNearest(x, Read(x));
  }
}
