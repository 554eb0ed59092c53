/** The digit search of nq_f64_shortest over a correctly rounded %.*e conversion and a
    correctly rounded strtod. */
module FloatRenderer {
  import opened Powers
  import opened Numerals
  import opened Binary64
  import opened ShortestDecimal

  const MAX_PRECISION: nat := 17

  // ----- what %.*e prints -----

  /** At least two exponent digits. */
  function ExponentDigits(x: nat): (s: string)
    ensures AllDigits(s) && s != []
  {
    if x < 100 then [DigitChar(x / 10), DigitChar(x % 10)] else Numeral(x)
  }

  function Magnify(x: int): nat {
    if x < 0 then -x else x
  }

  /** d.ddd e+xx: the p digits of mant with a point after the first, and the
      decimal exponent of that first digit. */
  function ScientificText(p: nat, mant: nat, exponent: int): string
    requires p > 0 && HasDigits(p, mant)
  {
    NumeralHas(p, mant);
    var s := Numeral(mant);
    s[..1] + (if p > 1 then "." + s[1..] else "")
    + "e" + (if exponent < 0 then "-" else "+") + ExponentDigits(Magnify(exponent))
  }

  lemma NumeralHas(p: nat, mant: nat)
    requires p > 0 && HasDigits(p, mant)
    ensures |Numeral(mant)| == p
  {
    NumeralLength(mant);
    LengthUnique(mant, p, |Numeral(mant)|);
  }

  /** The text is a nearest p-digit decimal of d, in scientific notation. */
  ghost predicate PrintsNearest(text: string, p: nat, d: Magnitude)
    requires p > 0
  {
    exists mant: nat, q: int ::
      && NearestDecimal(p, mant, q, Value(d))
      && text == ScientificText(p, mant, q + (p - 1))
  }

  lemma ExponentDigitsValue(x: nat)
    ensures ValueOf(ExponentDigits(x)) == x
  {
    if x < 100 {
      var tens: string, a, b := [], DigitChar(x / 10), DigitChar(x % 10);
      ValueAppend(tens, a);
      ValueAppend(tens + [a], b);
      assert ExponentDigits(x) == (tens + [a]) + [b];
    } else {
      NumeralValue(x);
    }
  }

  /** Where the pieces of the printed text are. */
  lemma ScientificLayout(p: nat, mant: nat, exponent: int)
    requires p > 0 && HasDigits(p, mant)
    ensures var t := ScientificText(p, mant, exponent);
      var s := Numeral(mant);
      var w := if p > 1 then p + 1 else 1;
      var x := ExponentDigits(Magnify(exponent));
      && |s| == p && ValueOf(s) == mant
      && |t| == w + 2 + |x|
      && t[0] == s[0] && (p > 1 ==> t[1] == '.')
      && (forall i | 1 < i < w :: t[i] == s[i - 1])
      && t[w] == 'e' && t[w + 1] == (if exponent < 0 then '-' else '+')
      && (forall i | 0 <= i < |x| :: t[w + 2 + i] == x[i])
      && (forall i | w + 2 <= i < |t| :: IsDigit(t[i]))
      && ValueOf(x) == Magnify(exponent)
  {
    hide Numeral, ExponentDigits, ValueOf, HasDigits;
    NumeralHas(p, mant);
    NumeralValue(mant);
    ExponentDigitsValue(Magnify(exponent));
  }

  lemma PrefixValue(s: string, i: nat)
    requires AllDigits(s) && i < |s|
    ensures ValueOf(s[..i + 1]) == 10 * ValueOf(s[..i]) + DigitValue(s[i])
  {
    ValueAppend(s[..i], s[i]);
    assert s[..i] + [s[i]] == s[..i + 1];
  }

  /** Reads the digits and the exponent back out of the printed text. */
  method ParseScientific(text: string, precision: nat, ghost mant0: nat, ghost exponent0: int)
    returns (ok: bool, mant: nat, exponent: int)
    requires precision > 0 && HasDigits(precision, mant0)
    requires text == ScientificText(precision, mant0, exponent0)
    ensures ok && mant == mant0 && exponent == exponent0
  {
    hide Numeral, ExponentDigits, ValueOf, HasDigits, ScientificText;
    ScientificLayout(precision, mant0, exponent0);
    ghost var s := Numeral(mant0);
    ghost var width := if precision > 1 then precision + 1 else 1;
    ghost var tail := ExponentDigits(Magnify(exponent0));
    mant, exponent := 0, 0;
    var seen, sign := 0, 1;
    var c := 0;
    EmptyValue(s);
    EmptyValue(tail);
    while c < |text| && text[c] != 'e'
      invariant 0 <= c <= width
      invariant seen == if c <= 1 then c else c - 1
      invariant mant == ValueOf(s[..seen])
    {
      if IsDigit(text[c]) {
        PrefixValue(s, seen);
        mant := mant * 10 + DigitValue(text[c]);
        seen := seen + 1;
      }
      c := c + 1;
    }
    assert s[..precision] == s;
    if c == |text| || text[c] != 'e' || seen != precision {
      return false, mant, exponent;
    }
    c := c + 1;
    if c < |text| && (text[c] == '+' || text[c] == '-') {
      if text[c] == '-' {
        sign := -1;
      }
      c := c + 1;
    }
    assert text[width + 2 + 0] == tail[0];
    if c == |text| || !IsDigit(text[c]) {
      return false, mant, exponent;
    }
    while c < |text| && IsDigit(text[c])
      invariant width + 2 <= c <= |text|
      invariant exponent == ValueOf(tail[..c - (width + 2)])
    {
      PrefixValue(tail, c - (width + 2));
      assert text[width + 2 + (c - (width + 2))] == tail[c - (width + 2)];
      exponent := exponent * 10 + DigitValue(text[c]);
      c := c + 1;
    }
    assert c == |text|;
    assert tail[..|tail|] == tail;
    assert sign == if exponent0 < 0 then -1 else 1;
    assert exponent == Magnify(exponent0);
    exponent := exponent * sign;
    ok := true;
  }

  lemma EmptyValue(s: string)
    ensures ValueOf(s[..0]) == 0
  {
  }

  // ----- the digits of a candidate -----

  function Reversed(s: string): (r: string)
    ensures |r| == |s|
    ensures forall i | 0 <= i < |s| :: r[i] == s[|s| - 1 - i]
  {
    seq(|s|, i requires 0 <= i < |s| => s[|s| - 1 - i])
  }

  /** How many characters remain once trailing zeros are dropped, keeping one. */
  function Stripped(s: string): (k: nat)
    ensures k <= |s|
  {
    if |s| > 1 && s[|s| - 1] == '0' then Stripped(s[..|s| - 1]) else |s|
  }

  lemma {:induction false} StrippedValue(s: string)
    requires AllDigits(s)
    ensures ValueOf(s) == ValueOf(s[..Stripped(s)]) * Pow(10, |s| - Stripped(s))
    ensures s != [] ==> Stripped(s) > 0
    ensures Stripped(s) > 1 ==> s[Stripped(s) - 1] != '0'
  {
    if |s| > 1 && s[|s| - 1] == '0' {
      var r := s[..|s| - 1];
      StrippedValue(r);
      assert r[..Stripped(r)] == s[..Stripped(s)];
      var v, w := ValueOf(s[..Stripped(s)]), Pow(10, |r| - Stripped(r));
      assert Pow(10, |s| - Stripped(s)) == 10 * w;
      TimesTen(v, w);
    } else {
      assert s[..|s|] == s;
      assert Pow(10, 0) == 1;
    }
  }

  lemma NumeralStep(v: nat, done: string)
    requires v > 0
    ensures Numeral(v) != []
    ensures Numeral(v) + Reversed(done) == Numeral(v / 10) + Reversed(done + [DigitChar(v % 10)])
    ensures |Numeral(v)| == |Numeral(v / 10)| + 1
  {
    var c := DigitChar(v % 10);
    ReversedAppend(done, c);
    assert Numeral(v) == Numeral(v / 10) + [c];
    Associate(Numeral(v / 10), c, Reversed(done));
  }

  lemma ReversedAppend(s: string, c: char)
    ensures Reversed(s + [c]) == [c] + Reversed(s)
  {
  }

  lemma Associate(a: string, c: char, b: string)
    ensures (a + [c]) + b == a + ([c] + b)
  {
  }

  /** Extracts the digits of value, least significant first. */
  method ExtractDigits(value: nat, reversed: array<char>) returns (length: nat)
    requires |Numeral(value)| <= reversed.Length
    modifies reversed
    ensures length == |Numeral(value)|
    ensures Reversed(reversed[..length]) == Numeral(value)
  {
    hide Numeral, Reversed;
    NumeralOfZero();
    length := 0;
    var rest := value;
    while rest != 0
      invariant 0 <= length <= reversed.Length
      invariant Numeral(value) == Numeral(rest) + Reversed(reversed[..length])
      invariant length + |Numeral(rest)| == |Numeral(value)|
      decreases rest
    {
      NumeralStep(rest, reversed[..length]);
      ghost var before := reversed[..length];
      reversed[length] := DigitChar(rest % 10);
      assert reversed[..length + 1] == before + [DigitChar(rest % 10)];
      rest := rest / 10;
      length := length + 1;
    }
  }

  lemma NumeralOfZero()
    ensures Numeral(0) == [] && Reversed([]) == []
  {
  }

  lemma ReversedAt(s: string, i: nat)
    requires i < |s|
    ensures Reversed(s)[i] == s[|s| - 1 - i]
  {
  }

  /** Writes the digits of value without trailing zeros into digits[..count]. */
  method WriteDigits(value: nat, digits: array<char>) returns (length: nat, count: nat)
    requires value > 0 && |Numeral(value)| <= digits.Length
    modifies digits
    ensures length == |Numeral(value)| && count == Stripped(Numeral(value))
    ensures digits[..count] == Numeral(value)[..count]
  {
    hide Numeral, Reversed, Stripped;
    var reversed := new char[digits.Length];
    length := ExtractDigits(value, reversed);
    var j := 0;
    while j < length
      invariant 0 <= j <= length
      invariant digits[..j] == Numeral(value)[..j]
      invariant Reversed(reversed[..length]) == Numeral(value)
    {
      ReversedAt(reversed[..length], j);
      digits[j] := reversed[length - 1 - j];
      j := j + 1;
      assert digits[..j] == digits[..j - 1] + [digits[j - 1]];
    }
    count := length;
    assert Numeral(value)[..length] == Numeral(value);
    while count > 1 && digits[count - 1] == '0'
      invariant count <= length
      invariant digits[..length] == Numeral(value)
      invariant Stripped(Numeral(value)[..count]) == Stripped(Numeral(value))
    {
      assert digits[count - 1] == digits[..length][count - 1];
      StripOne(Numeral(value), count);
      count := count - 1;
    }
    assert count > 1 ==> digits[count - 1] == digits[..length][count - 1];
    assert digits[..count] == digits[..length][..count];
    StrippedLength(Numeral(value)[..count]);
  }

  lemma StripOne(s: string, k: nat)
    requires 1 < k <= |s| && s[k - 1] == '0'
    ensures Stripped(s[..k]) == Stripped(s[..k - 1])
  {
    assert s[..k][..k - 1] == s[..k - 1];
  }

  lemma StrippedLength(s: string)
    requires |s| > 1 ==> s[|s| - 1] != '0'
    ensures Stripped(s) == |s|
  {
  }

  // ----- the search -----

  /** No p-digit decimal reads back as d. */
  ghost predicate NoneReads(p: nat, d: Magnitude)
    requires p > 0
  {
    forall m: nat, r: int | HasDigits(p, m) :: !ReadsAs(Dec(m, r), d)
  }

  /** The value 0.s * 10^n. */
  ghost function Fraction(s: string, n: int): real
    requires AllDigits(s)
  {
    Dec(ValueOf(s), n - |s|)
  }

  /** The shortest digits that read back as d and, among those, the closest;
      no leading zero and no trailing one. */
  ghost predicate ShortestDigits(d: Magnitude, s: string, n: int) {
    && AllDigits(s) && s != [] && s[0] != '0'
    && (|s| > 1 ==> s[|s| - 1] != '0')
    && ReadsAs(Fraction(s, n), d)
    && (forall p | 0 < p < |s| :: NoneReads(p, d))
    && (forall m: nat, r: int | HasDigits(|s|, m) && ReadsAs(Dec(m, r), d) ::
          Distance(Value(d), Fraction(s, n)) <= Distance(Value(d), Dec(m, r)))
  }

  /** The stripped digits of mant * 10^q denote it. */
  lemma StrippedFraction(v: nat, q: int)
    requires v > 0
    ensures var s := Numeral(v); var k := Stripped(s);
      AllDigits(s[..k]) && Fraction(s[..k], q + |s|) == Dec(v, q)
  {
    hide Dec, Pow, Numeral, Stripped;
    var s := Numeral(v);
    var k := Stripped(s);
    NumeralValue(v);
    StrippedValue(s);
    DecShift(ValueOf(s[..k]), |s| - k, q);
  }

  /** A candidate that reads back when no shorter decimal does keeps all its
      digits, except that 10^p is the single digit one. */
  lemma CandidateIsShortest(d: Magnitude, p: nat, v: nat, q: int, s: string)
    requires 0 < p && Pow(10, p - 1) <= v <= Pow(10, p)
    requires s == Numeral(v)[..Stripped(Numeral(v))]
    requires ReadsAs(Dec(v, q), d)
    requires forall j | 0 < j < p :: NoneReads(j, d)
    requires forall m: nat, r: int | HasDigits(p, m) && ReadsAs(Dec(m, r), d) ::
               Distance(Value(d), Dec(v, q)) <= Distance(Value(d), Dec(m, r))
    ensures |s| == p && ShortestDigits(d, s, q + |Numeral(v)|)
  {
    hide Dec, ReadsAs, Value, Ten, Pow, Numeral, Stripped, ValueOf, Distance;
    var t := Numeral(v);
    NumeralValue(v);
    StrippedValue(t);
    StrippedFraction(v, q);
    ValueBound(s);
    var m := ValueOf(s);
    assert HasDigits(|s|, m) && Dec(m, q + |t| - |s|) == Dec(v, q);
    NumeralLength(v);
    if v < Pow(10, p) {
      LengthUnique(v, p, |t|);
    } else {
      PowerOfTenDigits(p);
    }
    assert |s| <= p;
    assert |s| < p ==> NoneReads(|s|, d);
  }

  lemma {:induction false} PowerOfTenDigits(p: nat)
    ensures Stripped(Numeral(Pow(10, p))) == 1
  {
    var v := Pow(10, p);
    if p > 0 {
      PowerOfTenDigits(p - 1);
      var w := Pow(10, p - 1);
      assert v / 10 == w && v % 10 == 0;
      assert Numeral(v) == Numeral(w) + [DigitChar(0)];
      NumeralValue(w);
      assert Numeral(v)[..|Numeral(v)| - 1] == Numeral(w);
    } else {
      assert Numeral(0) == [];
      assert |Numeral(1)| == 1;
    }
  }

  /** The search always succeeds within seventeen digits, and what it leaves in
      the buffer is the shortest decimal that reads back. */
  method Shortest(d: Magnitude, formatE: nat -> string, strtod: (nat, int) -> Magnitude, digits: array<char>)
    returns (rendered: bool, count: nat, n: int)
    requires Canonical(d) && d.m > 0 && digits.Length == 24
    requires forall p: nat | 0 < p <= MAX_PRECISION :: PrintsNearest(formatE(p), p, d)
    requires forall v: nat, q: int :: strtod(v, q) == Read(Dec(v, q))
    modifies digits
    ensures rendered && 0 < count <= MAX_PRECISION
    ensures ShortestDigits(d, digits[..count], n)
  {
    hide ReadsAs, Value, Dec, Ten, Pow, Rounded, ShortestDigits, PrintsNearest, NoneReads, Numeral, Stripped,
      NearestDecimal, ScientificText;
    count, n := 0, 0;
    var precision := 1;
    while precision <= MAX_PRECISION
      invariant 1 <= precision <= MAX_PRECISION + 1
      invariant forall j | 0 < j < precision :: NoneReads(j, d)
    {
      ghost var mant0: nat, q0: int := NearestPrinted(formatE(precision), precision, d);
      var ok, mant, exponent := ParseScientific(formatE(precision), precision, mant0, q0 + (precision - 1));
      if !ok {
        return false, count, n;
      }
      var q := exponent - (precision - 1);
      var step := 0;
      while step < 2
        invariant 0 <= step <= 2
        invariant step > 0 ==> !ReadsAs(Dec(mant, q), d)
        invariant step > 1 ==> !ReadsAs(Dec(mant + 1, q), d)
      {
        var value := mant + step;
        DecodeRead(Dec(value, q), d);
        if strtod(value, q) == d {
          Conclude(d, precision, mant, q, step);
          FitsDigits(precision, value);
          var length;
          length, count := WriteDigits(value, digits);
          n := q + length;
          return true, count, n;
        }
        step := step + 1;
      }
      BothFail(d, precision, mant, q);
      precision := precision + 1;
    }
    SomeSeventeen(d);
    rendered := false;
  }

  lemma NearestPrinted(text: string, p: nat, d: Magnitude) returns (mant: nat, q: int)
    requires p > 0 && PrintsNearest(text, p, d)
    ensures NearestDecimal(p, mant, q, Value(d))
    ensures text == ScientificText(p, mant, q + (p - 1))
  {
    mant, q :| NearestDecimal(p, mant, q, Value(d)) && text == ScientificText(p, mant, q + (p - 1));
  }

  lemma DecodeRead(x: real, d: Magnitude)
    requires x >= 0.0 && Canonical(d)
    ensures Read(x) == d <==> ReadsAs(x, d)
  {
    if ReadsAs(x, d) {
      ReadsAsUnique(x, d, Read(x));
    }
  }

  lemma BothFail(d: Magnitude, p: nat, mant: nat, q: int)
    requires Canonical(d) && 0 < p && NearestDecimal(p, mant, q, Value(d))
    requires !ReadsAs(Dec(mant, q), d) && !ReadsAs(Dec(mant + 1, q), d)
    ensures NoneReads(p, d)
  {
    hide ReadsAs, Value, Dec;
    forall m: nat, r: int | HasDigits(p, m)
      ensures !ReadsAs(Dec(m, r), d)
    {
      if ReadsAs(Dec(m, r), d) {
        NeighbourSuffices(p, mant, q, d, m, r);
      }
    }
  }

  lemma SomeSeventeen(d: Magnitude)
    requires Canonical(d) && d.m > 0
    ensures !NoneReads(17, d)
  {
    hide ReadsAs, Value, Dec;
    ValuePositive(d);
    var mant, q := NearestExists(Value(d), 17);
    SeventeenSuffice(mant, q, d);
  }

  lemma FitsDigits(p: nat, v: nat)
    requires 0 < p <= 17 && 0 < v <= Pow(10, p)
    ensures |Numeral(v)| <= 24
  {
    hide Pow, Numeral;
    NumeralLength(v);
    if |Numeral(v)| > 24 {
      PowMonotone(10, p, 17);
      PowMonotone(10, 18, |Numeral(v)| - 1);
      PowAdd(10, 17, 1);
      PowOne();
    }
  }

  lemma PowOne()
    ensures Pow(10, 1) == 10 && Pow(10, 0) == 1
  {
  }

  lemma Conclude(d: Magnitude, p: nat, mant: nat, q: int, step: nat)
    requires Canonical(d) && 0 < p && NearestDecimal(p, mant, q, Value(d)) && step < 2
    requires step > 0 ==> !ReadsAs(Dec(mant, q), d)
    requires ReadsAs(Dec(mant + step, q), d)
    requires forall j | 0 < j < p :: NoneReads(j, d)
    ensures var v := mant + step;
      var s := Numeral(v)[..Stripped(Numeral(v))];
      0 < v <= Pow(10, p) && |s| == p && ShortestDigits(d, s, q + |Numeral(v)|)
  {
    hide ReadsAs, Value, Dec, ShortestDigits, Pow, Numeral, Stripped, NoneReads, Distance;
    var v := mant + step;
    forall m: nat, r: int | HasDigits(p, m) && ReadsAs(Dec(m, r), d)
      ensures Distance(Value(d), Dec(v, q)) <= Distance(Value(d), Dec(m, r))
    {
      if step == 1 {
        NextUpIsClosest(p, mant, q, d, m, r);
      }
    }
    CandidateIsShortest(d, p, v, q, Numeral(v)[..Stripped(Numeral(v))]);
  }
}
