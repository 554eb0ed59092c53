/** The number grammar of RFC 8259 section 6, the real a number denotes, and the
    recogniser. */
module NumberText {
  import opened Powers
  import opened Numerals
  import opened Binary64
  import opened ShortestDecimal
  import opened FloatRenderer

  datatype Option<+T> = None | Some(value: T)

  // ----- the number grammar of RFC 8259 -----

  /** The four pieces of a JSON number, in order. */
  datatype Parts = Parts(minus: string, whole: string, frac: string, exp: string)

  function Text(p: Parts): string {
    p.minus + p.whole + p.frac + p.exp
  }

  predicate Digits1(s: string) {
    s != [] && AllDigits(s)
  }

  predicate IsWhole(s: string) {
    s == "0" || (Digits1(s) && s[0] != '0')
  }

  predicate IsFrac(s: string) {
    s == [] || (s[0] == '.' && Digits1(s[1..]))
  }

  function SignWidth(s: string): nat {
    if |s| > 1 && (s[1] == '+' || s[1] == '-') then 2 else 1
  }

  predicate IsExp(s: string) {
    s == [] || ((s[0] == 'e' || s[0] == 'E') && SignWidth(s) <= |s| && Digits1(s[SignWidth(s)..]))
  }

  /** minus? int frac? exp? */
  predicate WellFormed(p: Parts) {
    (p.minus == [] || p.minus == "-") && IsWhole(p.whole) && IsFrac(p.frac) && IsExp(p.exp)
  }

  ghost predicate IsNumber(s: string) {
    exists p :: WellFormed(p) && Text(p) == s
  }

  /** The decimal (-1)^negative * coefficient * 10^exponent. */
  datatype Number = Number(negative: bool, coefficient: nat, exponent: int)

  function FracDigits(p: Parts): (s: string)
    requires WellFormed(p)
    ensures AllDigits(s)
  {
    if p.frac == [] then [] else p.frac[1..]
  }

  function ExpValue(p: Parts): int
    requires WellFormed(p)
  {
    if p.exp == [] then 0
    else
      var v: int := ValueOf(p.exp[SignWidth(p.exp)..]);
      if SignWidth(p.exp) == 2 && p.exp[1] == '-' then -v else v
  }

  function Denoted(p: Parts): Number
    requires WellFormed(p)
  {
    Number(p.minus == "-", ValueOf(p.whole + FracDigits(p)), ExpValue(p) - |FracDigits(p)|)
  }

  // ----- the real a number denotes -----

  /** Digits weighed by their places, the first one by the power given. */
  ghost function Weighed(s: string, place: int): real
    requires AllDigits(s)
  {
    if s == [] then 0.0 else DigitValue(s[0]) as real * Ten(place) + Weighed(s[1..], place - 1)
  }

  function Exponent(p: Parts): int
    requires WellFormed(p)
  {
    if p.exp == [] then 0
    else if p.exp[1] == '-' then -(ValueOf(p.exp[2..]) as int)
    else if p.exp[1] == '+' then ValueOf(p.exp[2..])
    else ValueOf(p.exp[1..])
  }

  /** The size of the number: its digits before the point from the units upwards,
      those behind it from the tenths downwards, all moved by the exponent. */
  ghost function RealOf(p: Parts): real
    requires WellFormed(p)
  {
    var e := Exponent(p);
    Weighed(p.whole, |p.whole| - 1 + e) + if p.frac == [] then 0.0 else Weighed(p.frac[1..], e - 1)
  }

  lemma {:induction false} WeighedValue(s: string, place: int)
    requires AllDigits(s)
    ensures Weighed(s, place) == Dec(ValueOf(s), place + 1 - |s|)
  {
    hide ValueOf, Pow, Ten, Dec;
    if s == [] {
      NoDigits(place);
    } else {
      var q := place + 1 - |s|;
      var high, low := ValueOf(s[..1]), ValueOf(s[1..]);
      WeighedValue(s[1..], place - 1);
      FirstDigit(s, place);
      DecShift(high, |s| - 1, q);
      DecSum(high * Pow(10, |s| - 1), low, q);
    }
  }

  lemma NoDigits(place: int)
    ensures Weighed([], place) == 0.0 && Dec(ValueOf([]), place + 1) == 0.0
  {
    assert ValueOf([]) == 0;
  }

  /** The first digit's share of the value, and of the sum. */
  lemma FirstDigit(s: string, place: int)
    requires AllDigits(s) && s != []
    ensures ValueOf(s) == ValueOf(s[..1]) * Pow(10, |s| - 1) + ValueOf(s[1..])
    ensures Weighed(s, place) == Dec(ValueOf(s[..1]), place) + Weighed(s[1..], place - 1)
  {
    hide Pow, Ten, ValueOf;
    assert s[..1] + s[1..] == s;
    ValueConcat(s[..1], s[1..]);
    OneDigit(s[..1]);
  }

  lemma OneDigit(s: string)
    requires AllDigits(s) && |s| == 1
    ensures ValueOf(s) == DigitValue(s[0])
  {
    assert s[..0] == [];
  }

  lemma DecSum(a: nat, c: nat, q: int)
    ensures Dec(a + c, q) == Dec(a, q) + Dec(c, q)
  {
    hide Ten;
  }

  /** Coefficient and exponent denote that real. */
  lemma DenotedReal(p: Parts)
    requires WellFormed(p)
    ensures RealOf(p) == Dec(Denoted(p).coefficient, Denoted(p).exponent) && RealOf(p) >= 0.0
  {
    hide Dec, Weighed, ValueOf, Pow;
    var frac, e := FracDigits(p), Exponent(p);
    assert e == ExpValue(p);
    WeighedValue(p.whole, |p.whole| - 1 + e);
    WeighedValue(frac, e - 1);
    ValueConcat(p.whole, frac);
    DecShift(ValueOf(p.whole), |frac|, e - |frac|);
    DecSum(ValueOf(p.whole) * Pow(10, |frac|), ValueOf(frac), e - |frac|);
    NoDigits(e - 1);
  }

  // ----- where each piece of a number ends -----

  function SkipDigits(s: string, i: nat): (j: nat)
    requires i <= |s|
    ensures i <= j <= |s| && AllDigits(s[i..j])
    ensures j < |s| ==> !IsDigit(s[j])
    decreases |s| - i
  {
    if i < |s| && IsDigit(s[i]) then SkipDigits(s, i + 1) else i
  }

  function MinusEnd(s: string): (j: nat)
    ensures j <= |s|
  {
    if |s| > 0 && s[0] == '-' then 1 else 0
  }

  function WholeEnd(s: string, i: nat): (j: Option<nat>)
    requires i <= |s|
    ensures j.Some? ==> i < j.value <= |s|
  {
    if i >= |s| then None
    else if s[i] == '0' then Some(i + 1)
    else if '1' <= s[i] <= '9' then Some(SkipDigits(s, i + 1))
    else None
  }

  function FracEnd(s: string, i: nat): (j: Option<nat>)
    requires i <= |s|
    ensures j.Some? ==> i <= j.value <= |s|
  {
    if i < |s| && s[i] == '.' then
      if i + 1 >= |s| || !IsDigit(s[i + 1]) then None else Some(SkipDigits(s, i + 1))
    else Some(i)
  }

  function ExpEnd(s: string, i: nat): (j: Option<nat>)
    requires i <= |s|
    ensures j.Some? ==> i <= j.value <= |s|
  {
    if i < |s| && (s[i] == 'e' || s[i] == 'E') then
      var k := if i + 1 < |s| && (s[i + 1] == '+' || s[i + 1] == '-') then i + 2 else i + 1;
      if k >= |s| || !IsDigit(s[k]) then None else Some(SkipDigits(s, k))
    else Some(i)
  }

  /** The pieces of s, when s is a number. */
  function Scan(s: string): Option<Parts> {
    var a := MinusEnd(s);
    var b := WholeEnd(s, a);
    if b.None? then None
    else
      var c := FracEnd(s, b.value);
      if c.None? then None
      else
        var d := ExpEnd(s, c.value);
        if d != Some(|s|) then None
        else Some(Parts(s[..a], s[a..b.value], s[b.value..c.value], s[c.value..]))
  }

  predicate Accepted(s: string) {
    var b := WholeEnd(s, MinusEnd(s));
    && b.Some?
    && FracEnd(s, b.value).Some?
    && ExpEnd(s, FracEnd(s, b.value).value) == Some(|s|)
  }

  lemma AcceptedIffScan(s: string)
    ensures Accepted(s) <==> Scan(s).Some?
  {
    hide WholeEnd, FracEnd, ExpEnd;
  }

  lemma SkipStep(s: string, i: nat)
    requires i < |s| && IsDigit(s[i])
    ensures AllDigits(s[i..SkipDigits(s, i + 1)])
  {
    var j := SkipDigits(s, i + 1);
    assert s[i..j] == [s[i]] + s[i + 1..j];
  }

  lemma ScanSound(s: string)
    requires Scan(s).Some?
    ensures WellFormed(Scan(s).value) && Text(Scan(s).value) == s
  {
    hide SkipDigits, IsWhole, IsFrac, IsExp;
    var a := MinusEnd(s);
    var b := WholeEnd(s, a).value;
    var c := FracEnd(s, b).value;
    WholeSound(s, a);
    FracSound(s, b);
    ExpSound(s, c);
    assert a == 1 ==> s[..a] == "-";
    assert s[c..|s|] == s[c..];
    CutThrice(s, a, b, c);
  }

  lemma CutThrice(s: string, a: nat, b: nat, c: nat)
    requires a <= b <= c <= |s|
    ensures s == s[..a] + s[a..b] + s[b..c] + s[c..]
  {
    assert s[..a] + s[a..b] == s[..b];
    assert s[..b] + s[b..c] == s[..c];
  }

  lemma WholeSound(s: string, i: nat)
    requires i <= |s| && WholeEnd(s, i).Some?
    ensures IsWhole(s[i..WholeEnd(s, i).value])
  {
    hide SkipDigits;
    if s[i] != '0' {
      SkipStep(s, i);
    }
  }

  lemma FracSound(s: string, i: nat)
    requires i <= |s| && FracEnd(s, i).Some?
    ensures IsFrac(s[i..FracEnd(s, i).value])
  {
    var j := FracEnd(s, i).value;
    if i < j {
      assert s[i..j][1..] == s[i + 1..j];
      assert SkipDigits(s, i + 1) > i + 1;
    }
  }

  lemma ExpSound(s: string, i: nat)
    requires i <= |s| && ExpEnd(s, i).Some?
    ensures IsExp(s[i..ExpEnd(s, i).value])
  {
    var j := ExpEnd(s, i).value;
    if i < j {
      var t := s[i..j];
      var k := if i + 1 < |s| && (s[i + 1] == '+' || s[i + 1] == '-') then i + 2 else i + 1;
      assert SkipDigits(s, k) > k;
      assert SignWidth(t) == k - i;
      assert t[SignWidth(t)..] == s[k..j];
    }
  }

  /** A maximal run of digits ends where SkipDigits says. */
  lemma {:induction false} SkipReaches(s: string, i: nat, j: nat)
    requires i <= j <= |s| && AllDigits(s[i..j])
    requires j < |s| ==> !IsDigit(s[j])
    ensures SkipDigits(s, i) == j
    decreases j - i
  {
    if i < j {
      assert s[i..j][0] == s[i];
      assert s[i + 1..j] == s[i..j][1..];
      SkipReaches(s, i + 1, j);
    }
  }

  lemma Pieces(u: string, v: string, w: string, x: string)
    ensures var s := u + v + w + x;
      var a := |u|; var b := a + |v|; var c := b + |w|;
      && |s| == c + |x|
      && s[..a] == u && s[a..b] == v && s[b..c] == w && s[c..] == x
  {
    var s := u + v + w + x;
    assert s[|u|..|u| + |v|] == v;
  }

  lemma ScanComplete(p: Parts)
    requires WellFormed(p)
    ensures Scan(Text(p)) == Some(p)
  {
    var s := Text(p);
    var a := |p.minus|;
    var b := a + |p.whole|;
    var c := b + |p.frac|;
    Pieces(p.minus, p.whole, p.frac, p.exp);
    assert MinusEnd(s) == a by {
      assert s[a] == p.whole[0];
    }
    assert b < |s| ==> s[b] == (if p.frac != [] then p.frac[0] else p.exp[0]);
    assert c < |s| ==> s[c] == p.exp[0];
    WholeComplete(s, a, b);
    FracComplete(s, b, c);
    ExpComplete(s, c);
  }

  lemma WholeComplete(s: string, i: nat, j: nat)
    requires i <= j <= |s| && IsWhole(s[i..j]) && (j < |s| ==> !IsDigit(s[j]))
    ensures WholeEnd(s, i) == Some(j)
  {
    var t := s[i..j];
    assert t[0] == s[i];
    if t != "0" {
      assert s[i + 1..j] == t[1..];
      SkipReaches(s, i + 1, j);
    }
  }

  lemma FracComplete(s: string, i: nat, j: nat)
    requires i <= j <= |s| && IsFrac(s[i..j])
    requires j < |s| ==> !IsDigit(s[j]) && s[j] != '.'
    ensures FracEnd(s, i) == Some(j)
  {
    var t := s[i..j];
    if t != [] {
      assert t[0] == s[i] && t[1] == s[i + 1];
      assert s[i + 1..j] == t[1..];
      SkipReaches(s, i + 1, j);
    }
  }

  lemma ExpComplete(s: string, i: nat)
    requires i <= |s| && IsExp(s[i..])
    ensures ExpEnd(s, i) == Some(|s|)
  {
    var t := s[i..];
    if t != [] {
      assert t[0] == s[i] && t[1] == s[i + 1];
      var k := i + SignWidth(t);
      assert s[k..|s|] == t[SignWidth(t)..];
      assert t[SignWidth(t)..][0] == s[k];
      SkipReaches(s, k, |s|);
    }
  }

  /** The scanner recognises exactly the grammar, and the pieces are unique. */
  lemma ScanIffNumber(s: string)
    ensures IsNumber(s) <==> Scan(s).Some?
    ensures forall p :: WellFormed(p) && Text(p) == s ==> Scan(s) == Some(p)
  {
    hide Scan, WellFormed, Text;
    forall p | WellFormed(p) && Text(p) == s
      ensures Scan(s) == Some(p)
    {
      ScanComplete(p);
    }
    if Scan(s).Some? {
      ScanSound(s);
    }
  }

  method PassDigits(data: string, start: nat) returns (i: nat)
    requires start <= |data|
    ensures i == SkipDigits(data, start)
  {
    i := start;
    while i < |data| && IsDigit(data[i])
      invariant start <= i <= |data|
      invariant SkipDigits(data, start) == SkipDigits(data, i)
    {
      i := i + 1;
    }
  }

  method PassWhole(data: string, start: nat) returns (end: Option<nat>)
    requires start <= |data|
    ensures end == WholeEnd(data, start)
  {
    if start >= |data| {
      return None;
    }
    if data[start] == '0' {
      return Some(start + 1);
    }
    if '1' <= data[start] <= '9' {
      var i := PassDigits(data, start + 1);
      return Some(i);
    }
    return None;
  }

  method PassFraction(data: string, start: nat) returns (end: Option<nat>)
    requires start <= |data|
    ensures end == FracEnd(data, start)
  {
    if start < |data| && data[start] == '.' {
      if start + 1 >= |data| || !IsDigit(data[start + 1]) {
        return None;
      }
      var i := PassDigits(data, start + 1);
      return Some(i);
    }
    return Some(start);
  }

  method PassExponent(data: string, start: nat) returns (end: Option<nat>)
    requires start <= |data|
    ensures end == ExpEnd(data, start)
  {
    var i := start;
    if i < |data| && (data[i] == 'e' || data[i] == 'E') {
      i := i + 1;
      if i < |data| && (data[i] == '+' || data[i] == '-') {
        i := i + 1;
      }
      if i >= |data| || !IsDigit(data[i]) {
        return None;
      }
      i := PassDigits(data, i);
    }
    return Some(i);
  }

  /** The recogniser: one left-to-right pass that never reads past the end. */
  method RecogniseNumber(data: string) returns (ok: bool)
    ensures ok <==> IsNumber(data)
  {
    hide IsNumber, Scan, WholeEnd, FracEnd, ExpEnd;
    ScanIffNumber(data);
    AcceptedIffScan(data);
    var start := if |data| > 0 && data[0] == '-' then 1 else 0;
    var whole := PassWhole(data, start);
    if whole.None? {
      return false;
    }
    var fraction := PassFraction(data, whole.value);
    if fraction.None? {
      return false;
    }
    var end := PassExponent(data, fraction.value);
    ok := end == Some(|data|);
  }
}
