/** Printing a double and reading it back: the placement of its shortest digits, the
    two entry points, and the round trip. */
module FloatText {
  import opened Powers
  import opened Numerals
  import opened Binary64
  import opened ShortestDecimal
  import opened FloatRenderer
  import opened NumberText

  datatype F64 = NaN | Infinite(negative: bool) | Finite(negative: bool, magnitude: Magnitude)

  predicate ValidF64(x: F64) {
    x.Finite? ==> Canonical(x.magnitude)
  }

  const BUFFER_SIZE: nat := 40

  // ----- layout -----

  /** A digit string that can be laid out: no leading zero. */
  predicate LayoutDigits(d: string) {
    AllDigits(d) && d != [] && d[0] != '0'
  }

  /** The placement of digits d and point position n as the four pieces of a
      number: plain integer, plain fraction, small fraction, exponent form. */
  function PlacedParts(negative: bool, d: string, n: int): Parts
    requires LayoutDigits(d)
  {
    var k := |d|;
    var minus := if negative then "-" else "";
    if k <= n <= 21 then Parts(minus, d + Zeros(n - k), "", "")
    else if 0 < n <= 21 then Parts(minus, d[..n], "." + d[n..], "")
    else if -6 < n <= 0 then Parts(minus, "0", "." + Zeros(-n) + d, "")
    else
      Parts(minus, d[..1], if k > 1 then "." + d[1..] else "",
            "e" + (if n - 1 < 0 then "-" else "+") + Numeral(Magnify(n - 1)))
  }

  function Placed(negative: bool, d: string, n: int): string
    requires LayoutDigits(d)
  {
    Text(PlacedParts(negative, d, n))
  }

  lemma {:induction false} PlacedIsNumber(negative: bool, d: string, n: int)
    requires LayoutDigits(d)
    ensures WellFormed(PlacedParts(negative, d, n))
  {
    hide Numeral, Zeros;
    var k := |d|;
    var p := PlacedParts(negative, d, n);
    if k <= n <= 21 {
      assert p.whole[0] == d[0];
    } else if 0 < n <= 21 {
      assert p.frac[1..] == d[n..];
    } else if -6 < n <= 0 {
      assert p.frac[1..] == Zeros(-n) + d;
    } else {
      if k > 1 {
        assert p.frac[1..] == d[1..];
      }
      NumeralValue(Magnify(n - 1));
      assert p.exp[2..] == Numeral(Magnify(n - 1));
      assert p.exp[0] == 'e' && SignWidth(p.exp) == 2;
    }
  }

  /** The digits of the laid-out text, point removed: d with zeros around it. */
  lemma PlacedCoefficient(negative: bool, d: string, n: int)
    requires LayoutDigits(d) && WellFormed(PlacedParts(negative, d, n))
    ensures var p := PlacedParts(negative, d, n);
      p.whole + FracDigits(p) ==
        if |d| <= n <= 21 then d + Zeros(n - |d|)
        else if -6 < n <= 0 then Zeros(1 - n) + d
        else d
  {
    hide Numeral, ValueOf, WellFormed, AllDigits;
    hide Zeros;
    var p := PlacedParts(negative, d, n);
    if |d| <= n <= 21 {
      assert FracDigits(p) == [];
    } else if 0 < n <= 21 {
      assert FracDigits(p) == d[n..];
      assert d[..n] + d[n..] == d;
    } else if -6 < n <= 0 {
      assert FracDigits(p) == Zeros(-n) + d;
      ZeroPrefix(-n, d);
    } else {
      assert FracDigits(p) == d[1..];
      assert d[..1] + d[1..] == d;
    }
  }

  lemma ZeroPrefix(k: nat, d: string)
    ensures "0" + (Zeros(k) + d) == Zeros(k + 1) + d
  {
    assert Zeros(k + 1) == "0" + Zeros(k);
  }

  lemma PlacedExponent(negative: bool, d: string, n: int)
    requires LayoutDigits(d) && WellFormed(PlacedParts(negative, d, n))
    ensures var p := PlacedParts(negative, d, n);
      ExpValue(p) - |FracDigits(p)| == if |d| <= n <= 21 then 0 else n - |d|
  {
    hide Numeral, ValueOf, WellFormed, Zeros;
    var p := PlacedParts(negative, d, n);
    if n > 21 || n <= -6 {
      NumeralValue(Magnify(n - 1));
      assert p.exp[2..] == Numeral(Magnify(n - 1));
      assert p.exp[0] == 'e' && SignWidth(p.exp) == 2;
    }
  }

  /** The laid-out text denotes exactly 0.d * 10^n. */
  lemma PlacedDenotes(negative: bool, d: string, n: int)
    requires LayoutDigits(d) && WellFormed(PlacedParts(negative, d, n))
    ensures var v := Denoted(PlacedParts(negative, d, n));
      v.negative == negative && Dec(v.coefficient, v.exponent) == Fraction(d, n)
  {
    hide Numeral, Zeros, Dec, Pow, ValueOf, WellFormed, ExpValue, FracDigits;
    PlacedCoefficient(negative, d, n);
    PlacedExponent(negative, d, n);
    if |d| <= n <= 21 {
      ValueConcat(d, Zeros(n - |d|));
      ValueOfZeros(n - |d|);
      DecShift(ValueOf(d), n - |d|, 0);
    } else if -6 < n <= 0 {
      ValueConcat(Zeros(1 - n), d);
      ValueOfZeros(1 - n);
    }
  }

  // ----- what the two entry points promise -----

  /** text is what the runtime prints for x. */
  ghost predicate Prints(x: F64, text: string) {
    match x
    case NaN => text == "NaN"
    case Infinite(negative) => text == if negative then "-Infinity" else "Infinity"
    case Finite(negative, d) =>
      if d.m == 0 then text == if negative then "-0" else "0"
      else exists s: string, n: int ::
             ShortestDigits(d, s, n) && text == Placed(negative, s, n)
  }

  /** The double a number denotes, correctly rounded; its sign survives zero. */
  ghost function Nearest(v: Number): F64 {
    var d := Read(Dec(v.coefficient, v.exponent));
    if d == OVERFLOW then Infinite(v.negative) else Finite(v.negative, d)
  }

  /** The correctly rounded value of a number's text. */
  ghost function Correct(text: string): F64
    requires Scan(text).Some?
  {
    ScanSound(text);
    Nearest(Denoted(Scan(text).value))
  }

  /** What reading a text gives: nothing for text outside the number grammar or
      for a number that overflows, the nearest double otherwise. */
  ghost function ReadText(text: string): Option<F64> {
    if Scan(text).Some? && Correct(text).Finite? then Some(Correct(text)) else None
  }

  /** What a number denotes once the rounded value nearest to it is known. */
  function Signed(p: Parts, d: Magnitude): F64 {
    if d == OVERFLOW then Infinite(p.minus == "-") else Finite(p.minus == "-", d)
  }

  /** Every number of the grammar, however it is spelled, reads as the double nearest
      to the real its digits denote, ties to even, with the sign it is written with,
      zero included; as nothing only when that double overflows. */
  lemma ReadsNearest(p: Parts, d: Magnitude)
    requires WellFormed(p) && NearestEven(RealOf(p), d)
    ensures ReadText(Text(p)) == if d == OVERFLOW then None else Some(Finite(p.minus == "-", d))
    ensures Scan(Text(p)).Some? && Correct(Text(p)) == Signed(p, d)
  {
    hide WellFormed, Dec, Scan, Text, RealOf, NearestEven, Read;
    ScanComplete(p);
    DenotedReal(p);
    ReadIsNearestEven(RealOf(p), d);
  }

  lemma NearestOf(text: string) returns (p: Parts, d: Magnitude)
    requires Scan(text).Some?
    ensures WellFormed(p) && Text(p) == text && NearestEven(RealOf(p), d)
  {
    hide Scan, WellFormed, RealOf, NearestEven, Read;
    ScanSound(text);
    p := Scan(text).value;
    DenotedReal(p);
    d := Read(RealOf(p));
    ReadIsNearestEven(RealOf(p), d);
  }

  /** A text that is no number of the grammar reads as nothing. */
  lemma ReadsNumbersOnly(text: string)
    requires !exists p :: WellFormed(p) && Text(p) == text
    ensures ReadText(text) == None
  {
    ScanIffNumber(text);
  }

  /** Every finite double, negative zero included, survives printing and
      reading; the printed text is a number. */
  lemma RoundTrip(x: F64, text: string)
    requires ValidF64(x) && x.Finite? && Prints(x, text)
    ensures IsNumber(text) && ReadText(text) == Some(x)
  {
    hide ReadsAs, Value, Dec, Scan, Numeral, ValueOf, Read;
    if x.magnitude.m == 0 {
      ZeroRoundTrip(x.negative, text);
    } else {
      var s, n :| ShortestDigits(x.magnitude, s, n) && text == Placed(x.negative, s, n);
      PlacedIsNumber(x.negative, s, n);
      PlacedDenotes(x.negative, s, n);
      ScanComplete(PlacedParts(x.negative, s, n));
      DecodeRead(Fraction(s, n), x.magnitude);
    }
  }

  lemma ZeroRoundTrip(negative: bool, text: string)
    requires text == if negative then "-0" else "0"
    ensures IsNumber(text) && ReadText(text) == Some(Finite(negative, Magnitude(0, MIN_EXPONENT)))
  {
    hide ReadsAs, Value, Dec, Scan, Read;
    var p := Parts(if negative then "-" else "", "0", "", "");
    assert Text(p) == text;
    ScanComplete(p);
    assert p.whole + FracDigits(p) == "0";
    assert ValueOf("0") == 0 by {
      var empty := "0"[..0];
      assert ValueOf(empty) == 0;
    }
    ZeroReads();
  }

  lemma ZeroReads()
    ensures Read(Dec(0, 0)) == Magnitude(0, MIN_EXPONENT)
  {
    var zero := Magnitude(0, MIN_EXPONENT);
    ValueZero(MIN_EXPONENT);
    DecodeRead(0.0, zero);
  }

  /** The three texts that are not numbers are rejected. */
  lemma NonFiniteRejected(x: F64, text: string)
    requires !x.Finite? && Prints(x, text)
    ensures !IsNumber(text) && ReadText(text) == None
  {
    ScanIffNumber(text);
    if text[0] == '-' {
      assert WholeEnd(text, 1) == None;
    } else {
      assert WholeEnd(text, 0) == None;
    }
  }

  /** Printing separates doubles: equal texts come from equal doubles. */
  lemma PrintsInjective(x: F64, y: F64, text: string)
    requires ValidF64(x) && ValidF64(y) && Prints(x, text) && Prints(y, text)
    ensures x == y
  {
    if x.Finite? {
      RoundTrip(x, text);
    } else {
      NonFiniteRejected(x, text);
    }
    if y.Finite? {
      RoundTrip(y, text);
    } else {
      NonFiniteRejected(y, text);
    }
  }

  // ----- the sizes that make the fixed buffer safe -----

  lemma BinaryPowers()
    ensures Pow(2, 52) == 4503599627370496
    ensures Pow(2, 93) == 9903520314283042199192993792
  {
    hide Pow;
    SmallBinaryPowers();
    PowAdd(2, 8, 8);
    PowAdd(2, 16, 16);
    PowAdd(2, 32, 16);
    PowAdd(2, 48, 4);
    PowAdd(2, 52, 32);
    PowAdd(2, 84, 8);
    PowAdd(2, 92, 1);
  }

  lemma SmallBinaryPowers()
    ensures Pow(2, 1) == 2 && Pow(2, 4) == 16 && Pow(2, 8) == 256
  {
  }

  lemma DecimalPowers()
    ensures Pow(10, 16) == 10000000000000000
    ensures Pow(10, 28) == 10000000000000000000000000000
  {
    hide Pow;
    SmallDecimalPowers();
    PowAdd(10, 8, 8);
    PowAdd(10, 16, 8);
    PowAdd(10, 24, 4);
  }

  lemma SmallDecimalPowers()
    ensures Pow(10, 4) == 10000 && Pow(10, 8) == 100000000
  {
  }

  lemma TwoBelowTen()
    ensures Two(93) <= Ten(28)
  {
    TwoIsPow(93);
    TenIsPow(28);
    BinaryPowers();
    DecimalPowers();
  }

  lemma {:induction false} TwoBelowTenPowers(k: nat)
    ensures Two(93 * k) <= Ten(28 * k)
  {
    hide Two, Ten;
    TwoZero();
    TenZero();
    if k > 0 {
      TwoBelowTenPowers(k - 1);
      TwoBelowTen();
      TwoAdd(93 * (k - 1), 93);
      TenAdd(28 * (k - 1), 28);
      ProductMonotone(Two(93 * (k - 1)), Ten(28 * (k - 1)), Two(93), Ten(28));
    }
  }

  lemma ProductMonotone(a: real, b: real, c: real, d: real)
    requires 0.0 <= a <= b && 0.0 <= c <= d
    ensures a * c <= b * d
  {
    assert (b - a) * c >= 0.0;
    assert b * (d - c) >= 0.0;
  }

  /** 2^1024 < 10^309, above every finite double. */
  lemma LargestDouble()
    ensures Two(1024) < Ten(309)
  {
    hide Two, Ten;
    TwoBelowTenPowers(11);
    TwoStep(1023);
    TenStep(308);
  }

  lemma SmallFactor()
    ensures Two(52) <= Ten(16)
  {
    TwoIsPow(52);
    TenIsPow(16);
    BinaryPowers();
    DecimalPowers();
  }

  /** 10^-324 < 2^-1075, below every positive double's interval. */
  lemma SmallestDouble()
    ensures Ten(-324) <= Two(-1075)
  {
    hide Two, Ten;
    TwoBelowTenPowers(11);
    SmallFactor();
    TwoAdd(1023, 52);
    TenAdd(308, 16);
    ProductMonotone(Two(1023), Ten(308), Two(52), Ten(16));
    TwoAdd(1075, -1075);
    TenAdd(324, -324);
    TwoZero();
    TenZero();
    InverseOrder(Two(1075), Ten(324), Two(-1075), Ten(-324));
  }

  lemma InverseOrder(a: real, b: real, x: real, y: real)
    requires 0.0 < a <= b && x > 0.0 && y > 0.0 && a * x == 1.0 && b * y == 1.0
    ensures y <= x
  {
    assert (b - a) * y >= 0.0;
    assert (1.0 - a * y) * x >= 0.0;
    assert (a * y) * x == (a * x) * y;
  }

  lemma ValueRange(d: Magnitude)
    requires Canonical(d) && d.m > 0
    ensures Value(d) + HalfAbove(d) <= Two(1024)
    ensures Two(-1075) <= Value(d) - HalfBelow(d)
  {
    hide Two, Value;
    TopValue(d);
    BottomValue(d);
  }

  lemma TopValue(d: Magnitude)
    requires Canonical(d)
    ensures Value(d) + HalfAbove(d) <= Two(1024)
  {
    hide Two, Value;
    TwoHalves(d.e);
    ValueNext(d.m, d.e);
    ValueInSignificand(d.m + 1, SIGNIFICAND_LIMIT, d.e);
    ValueInExponent(SIGNIFICAND_LIMIT, d.e, MAX_EXPONENT);
    BinadeEnd(MAX_EXPONENT);
    HiddenBitPower(MAX_EXPONENT + 1);
  }

  lemma HiddenBitPower(e: int)
    ensures Value(Magnitude(HIDDEN_BIT, e)) == Two(e + 52)
  {
    hide Two;
    TwoAdd(e, 52);
    TwoFiftyTwo();
  }

  lemma TwoFiftyTwo()
    ensures Two(52) == 4503599627370496.0
  {
    TwoIsPow(52);
    BinaryPowers();
  }

  lemma BottomValue(d: Magnitude)
    requires Canonical(d) && d.m > 0
    ensures Two(-1075) <= Value(d) - HalfBelow(d)
  {
    hide Two, Value;
    TwoHalves(d.e);
    PredValue(d);
    ValueNext(0, d.e);
    ValueZero(d.e);
    ValueInSignificand(1, d.m, d.e);
    TwoMonotone(MIN_EXPONENT, d.e);
    TwoHalves(MIN_EXPONENT);
    TwoMonotone(MIN_EXPONENT - 1, d.e - 1);
  }

  /** The digits and the point of a printed double are bounded. */
  lemma ShortestRange(d: Magnitude, s: string, n: int)
    requires Canonical(d) && d.m > 0 && ShortestDigits(d, s, n)
    ensures |s| <= MAX_PRECISION && -323 <= n <= 309
  {
    hide Two, Ten, Value, Dec, ReadsAs, Pow, ValueOf;
    if |s| > 17 {
      assert NoneReads(17, d);
      SomeSeventeen(d);
    }
    ReadsWithin(Fraction(s, n), d);
    ValueRange(d);
    LargestDouble();
    SmallestDouble();
    FractionRange(s, n);
    if n > 309 {
      TenMonotone(309, n - 1);
    }
    if n < -323 {
      TenMonotone(n, -324);
    }
  }

  lemma ReadsWithin(x: real, d: Magnitude)
    requires Canonical(d) && ReadsAs(x, d)
    ensures Value(d) - HalfBelow(d) <= x <= Value(d) + HalfAbove(d)
  {
  }

  lemma FractionRange(s: string, n: int)
    requires LayoutDigits(s)
    ensures Ten(n - 1) <= Fraction(s, n) < Ten(n)
  {
    hide Ten, Dec, Pow, ValueOf;
    ValueBound(s);
    var q := n - |s|;
    var v := ValueOf(s);
    DecMonotone(Pow(10, |s| - 1), v, q);
    DecMonotone(v + 1, Pow(10, |s|), q);
    DecNext(v, q);
    DecShift(1, |s| - 1, q);
    DecShift(1, |s|, q);
    DecOne(n - 1);
    DecOne(n);
  }

  lemma PlacedFits(negative: bool, d: string, n: int)
    requires LayoutDigits(d) && |d| <= MAX_PRECISION && -323 <= n <= 309
    ensures |Placed(negative, d, n)| <= 25
  {
    hide Numeral;
    if n > 21 || n <= -6 {
      NumeralLength(Magnify(n - 1));
      ThreeDigits(Magnify(n - 1));
    }
  }

  lemma ThreeDigits(v: nat)
    requires 0 < v < 1000
    ensures |Numeral(v)| <= 3
  {
    NumeralLength(v);
    assert Pow(10, 3) == 1000;
    if |Numeral(v)| > 3 {
      PowMonotone(10, 3, |Numeral(v)| - 1);
    }
  }

  // ----- the runtime entry points -----

  /** Copies s to out[at..]. */
  method Emit(out: array<char>, at: nat, s: string) returns (end: nat)
    requires at + |s| <= out.Length
    modifies out
    ensures end == at + |s| && out[..end] == old(out[..at]) + s
  {
    var i := 0;
    while i < |s|
      invariant 0 <= i <= |s|
      invariant out[..at + i] == old(out[..at]) + s[..i]
    {
      out[at + i] := s[i];
      i := i + 1;
      assert out[..at + i] == out[..at + i - 1] + [s[i - 1]];
    }
    end := at + |s|;
  }

  method EmitZeros(out: array<char>, at: nat, count: nat) returns (end: nat)
    requires at + count <= out.Length
    modifies out
    ensures end == at + count && out[..end] == old(out[..at]) + Zeros(count)
  {
    var i := 0;
    while i < count
      invariant 0 <= i <= count
      invariant out[..at + i] == old(out[..at]) + Zeros(i)
    {
      out[at + i] := '0';
      i := i + 1;
      assert out[..at + i] == out[..at + i - 1] + ['0'];
      assert Zeros(i) == Zeros(i - 1) + ['0'];
    }
    end := at + count;
  }

  /** Writes v's digits, or a single zero, at out[at..]. */
  method EmitNumeral(out: array<char>, at: nat, v: nat) returns (end: nat)
    requires 0 < v < 1000 && at + |Numeral(v)| <= out.Length
    modifies out
    ensures end == at + |Numeral(v)| && out[..end] == old(out[..at]) + Numeral(v)
  {
    hide Numeral;
    ThreeDigits(v);
    var reversed := new char[8];
    var length := ExtractDigits(v, reversed);
    ghost var s := Numeral(v);
    ghost var start := out[..at];
    end := at;
    while length > 0
      invariant 0 <= length <= |s| <= 8 && end == at + |s| - length
      invariant Reversed(reversed[..|s|]) == s
      invariant out[..end] == start + s[..|s| - length]
    {
      length := length - 1;
      ReversedAt(reversed[..|s|], |s| - 1 - length);
      out[end] := reversed[length];
      end := end + 1;
      assert out[..end] == out[..end - 1] + [s[|s| - 1 - length]];
    }
    assert s[..|s|] == s;
  }

  /** d[0], then a point and the other digits if any, then the exponent. */
  method PlaceExponential(out: array<char>, start: nat, d: string, e: int) returns (at: nat)
    requires LayoutDigits(d) && |d| <= MAX_PRECISION && 0 < Magnify(e) < 1000
    requires start <= 1 && out.Length == BUFFER_SIZE
    modifies out
    ensures at <= out.Length
    ensures out[..at] == old(out[..start]) + d[..1] + (if |d| > 1 then "." + d[1..] else "")
                         + ("e" + (if e < 0 then "-" else "+") + Numeral(Magnify(e)))
  {
    hide Numeral, AllDigits;
    ThreeDigits(Magnify(e));
    at := Emit(out, start, d[..1]);
    if |d| > 1 {
      at := Emit(out, at, ".");
      at := Emit(out, at, d[1..]);
    }
    ghost var mantissa := out[..at];
    assert mantissa == old(out[..start]) + d[..1] + (if |d| > 1 then "." + d[1..] else "");
    at := Emit(out, at, "e");
    at := Emit(out, at, if e < 0 then "-" else "+");
    at := EmitNumeral(out, at, Magnify(e));
    assert out[..at] == mantissa + ("e" + (if e < 0 then "-" else "+") + Numeral(Magnify(e)));
  }

  method PlaceSmall(out: array<char>, start: nat, d: string, n: int) returns (at: nat)
    requires |d| <= MAX_PRECISION && -6 < n <= 0
    requires start <= 1 && out.Length == BUFFER_SIZE
    modifies out
    ensures at <= out.Length && out[..at] == old(out[..start]) + "0" + ("." + Zeros(-n) + d)
  {
    hide Zeros;
    at := Emit(out, start, "0");
    at := Emit(out, at, ".");
    at := EmitZeros(out, at, -n);
    at := Emit(out, at, d);
    assert out[..at] == old(out[..start]) + "0" + ("." + Zeros(-n) + d);
  }

  lemma PlacedText(negative: bool, d: string, n: int)
    requires LayoutDigits(d)
    ensures var minus := if negative then "-" else "";
      Placed(negative, d, n) ==
        if |d| <= n <= 21 then minus + (d + Zeros(n - |d|))
        else if 0 < n <= 21 then minus + d[..n] + ("." + d[n..])
        else if -6 < n <= 0 then minus + "0" + ("." + Zeros(-n) + d)
        else minus + d[..1] + (if |d| > 1 then "." + d[1..] else "")
             + ("e" + (if n - 1 < 0 then "-" else "+") + Numeral(Magnify(n - 1)))
  {
    hide Numeral, Zeros, AllDigits;
  }

  /** Digit placement into a caller's buffer. */
  method Place(out: array<char>, negative: bool, d: string, n: int) returns (at: nat)
    requires LayoutDigits(d) && |d| <= MAX_PRECISION && -323 <= n <= 309
    requires out.Length == BUFFER_SIZE
    modifies out
    ensures at <= out.Length && out[..at] == Placed(negative, d, n)
  {
    hide Numeral, Zeros, AllDigits, Placed, PlacedParts, Text;
    PlacedText(negative, d, n);
    var k := |d|;
    at := 0;
    if negative {
      at := Emit(out, at, "-");
    }
    ghost var minus := if negative then "-" else "";
    assert out[..at] == minus;
    if k <= n <= 21 {
      at := Emit(out, at, d);
      at := EmitZeros(out, at, n - k);
      assert out[..at] == minus + (d + Zeros(n - k));
    } else if 0 < n <= 21 {
      at := Emit(out, at, d[..n]);
      at := Emit(out, at, ".");
      at := Emit(out, at, d[n..]);
      assert out[..at] == minus + d[..n] + ("." + d[n..]);
    } else if -6 < n <= 0 {
      at := PlaceSmall(out, at, d, n);
    } else {
      at := PlaceExponential(out, at, d, n - 1);
    }
  }

  /** Every printed double has at most 25 characters, so any text fits the buffer. */
  lemma PrintedFits(x: F64, text: string)
    requires ValidF64(x) && Prints(x, text)
    ensures |text| <= 25 < BUFFER_SIZE
  {
    hide Placed, ReadsAs, Dec, Pow, ValueOf, Value;
    if x.Finite? && x.magnitude.m > 0 {
      var s, n :| ShortestDigits(x.magnitude, s, n) && text == Placed(x.negative, s, n);
      ShortestRange(x.magnitude, s, n);
      ShortestAreLayout(x.magnitude, s, n);
      PlacedFits(x.negative, s, n);
    }
  }

  /** The printing entry point. snprintf and strtod enter as functions: the first
      prints a nearest p-digit decimal, the second rounds correctly. */
  method StrFromF64(value: F64, formatE: nat -> string, strtod: (nat, int) -> Magnitude)
    returns (rendered: bool, text: string)
    requires ValidF64(value)
    requires value.Finite? && value.magnitude.m > 0 ==>
               forall p: nat | 0 < p <= MAX_PRECISION :: PrintsNearest(formatE(p), p, value.magnitude)
    requires forall v: nat, q: int :: strtod(v, q) == Read(Dec(v, q))
    ensures rendered && Prints(value, text) && |text| <= 25
  {
    hide ShortestDigits, PrintsNearest, Read, Dec, Placed;
    match value
    case NaN =>
      return true, "NaN";
    case Infinite(negative) =>
      return true, if negative then "-Infinity" else "Infinity";
    case Finite(negative, magnitude) =>
      if magnitude.m == 0 {
        return true, if negative then "-0" else "0";
      }
      var digits := new char[24];
      var out := new char[BUFFER_SIZE];
      var found, count, point := Shortest(magnitude, formatE, strtod, digits);
      if !found {
        return false, "";
      }
      ShortestRange(magnitude, digits[..count], point);
      ShortestAreLayout(magnitude, digits[..count], point);
      var len := Place(out, negative, digits[..count], point);
      PrintedFits(value, out[..len]);
      return true, out[..len];
  }

  lemma ShortestAreLayout(d: Magnitude, s: string, n: int)
    requires ShortestDigits(d, s, n)
    ensures LayoutDigits(s)
  {
  }

  /** The reading entry point. strtod reports how much it consumed; it accepts every
      number of the grammar whole and rounds it to nearest even. */
  method F64FromStr(text: string, strtod: string -> (F64, nat)) returns (failed: bool, result: Option<F64>)
    requires forall p: Parts, d: Magnitude | WellFormed(p) && NearestEven(RealOf(p), d) ::
               strtod(Text(p)) == (Signed(p, d), |Text(p)|)
    ensures !failed && result == ReadText(text)
    ensures forall p: Parts, d: Magnitude | WellFormed(p) && Text(p) == text && NearestEven(RealOf(p), d) ::
              result == if d == OVERFLOW then None else Some(Finite(p.minus == "-", d))
    ensures (!exists p :: WellFormed(p) && Text(p) == text) ==> result == None
  {
    hide WellFormed, Text, Scan, RealOf, NearestEven, Nearest;
    forall p: Parts, d: Magnitude | WellFormed(p) && Text(p) == text && NearestEven(RealOf(p), d)
      ensures ReadText(text) == if d == OVERFLOW then None else Some(Finite(p.minus == "-", d))
    {
      ReadsNearest(p, d);
    }
    ScanIffNumber(text);
    var ok := RecogniseNumber(text);
    if !ok {
      return false, None;
    }
    ghost var p, d := NearestOf(text);
    ReadsNearest(p, d);
    var (value, end) := strtod(text);
    if end != |text| {
      return true, None;
    }
    if !value.Finite? {
      return false, None;
    }
    return false, Some(value);
  }

  /** Both library assumptions of the entry points can be met. */
  lemma NearestPrintedExists(d: Magnitude, p: nat) returns (text: string)
    requires Canonical(d) && d.m > 0 && p > 0
    ensures PrintsNearest(text, p, d)
  {
    ValuePositive(d);
    var mant, q := NearestExists(Value(d), p);
    text := ScientificText(p, mant, q + (p - 1));
  }
}
