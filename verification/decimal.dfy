/**
  Numeric literals as the calculator reads them: a run of ASCII digits and
  decimal points, converted to an exact value the way `String.toDoubleOrNull`
  accepts such a run (at least one digit, at most one point, either side of
  the point may be empty).
 */
module Decimal {
  import opened Wrappers

  predicate IsDigit(c: char) {
    '0' <= c <= '9'
  }

  /** The characters the tokenizer gathers into one numeric run. */
  predicate IsNumChar(c: char) {
    IsDigit(c) || c == '.'
  }

  /** A text made only of digits and points: the payload of a number token. */
  type Numeral = s: string | forall i :: 0 <= i < |s| ==> IsNumChar(s[i])

  predicate AllDigits(s: string) {
    forall i :: 0 <= i < |s| ==> IsDigit(s[i])
  }

  function CountDots(s: string): nat {
    if s == [] then 0 else CountDots(s[..|s| - 1]) + (if s[|s| - 1] == '.' then 1 else 0)
  }

  function CountDigits(s: string): nat {
    if s == [] then 0 else CountDigits(s[..|s| - 1]) + (if IsDigit(s[|s| - 1]) then 1 else 0)
  }

  function DigitValue(c: char): nat
    requires IsDigit(c)
  {
    (c as int - '0' as int) as nat
  }

  /** Value of a decimal digit string, most significant digit first; "" is 0. */
  function DigitsValue(s: string): nat
    requires AllDigits(s)
  {
    if s == [] then 0 else 10 * DigitsValue(s[..|s| - 1]) + DigitValue(s[|s| - 1])
  }

  function Pow10(n: nat): (p: nat)
    ensures p >= 1
  {
    if n == 0 then 1 else 10 * Pow10(n - 1)
  }

  /** Index of the first point in `s`, or |s| when there is none. */
  function DotIndex(s: string): (k: nat)
    ensures k <= |s|
    ensures forall i :: 0 <= i < k ==> s[i] != '.'
    ensures k < |s| ==> s[k] == '.'
  {
    if s == [] then 0
    else if s[0] == '.' then 0
    else 1 + DotIndex(s[1..])
  }

  lemma DotsAppend(a: string, b: string)
    ensures CountDots(a + b) == CountDots(a) + CountDots(b)
  {
    if b != [] {
      assert (a + b)[..|a + b| - 1] == a + b[..|b| - 1];
      DotsAppend(a, b[..|b| - 1]);
    } else {
      assert a + b == a;
    }
  }

  lemma DigitsAppend(a: string, b: string)
    ensures CountDigits(a + b) == CountDigits(a) + CountDigits(b)
  {
    if b != [] {
      assert (a + b)[..|a + b| - 1] == a + b[..|b| - 1];
      DigitsAppend(a, b[..|b| - 1]);
    } else {
      assert a + b == a;
    }
  }

  lemma {:induction false} NoDotsNoCount(s: string)
    requires forall i :: 0 <= i < |s| ==> s[i] != '.'
    ensures CountDots(s) == 0
  {
    if s != [] {
      NoDotsNoCount(s[..|s| - 1]);
    }
  }

  lemma {:induction false} NumeralWithoutDotsIsDigits(s: Numeral)
    requires CountDots(s) == 0
    ensures AllDigits(s)
    ensures CountDigits(s) == |s|
  {
    if s != [] {
      var p := s[..|s| - 1];
      assert s == p + [s[|s| - 1]];
      DotsAppend(p, [s[|s| - 1]]);
      NumeralWithoutDotsIsDigits(p);
    }
  }

  /** The digits of `s` with its points left out. */
  function DropDots(s: string): (r: string)
    ensures |r| + CountDots(s) == |s|
  {
    if s == [] then []
    else DropDots(s[..|s| - 1]) + (if s[|s| - 1] == '.' then [] else [s[|s| - 1]])
  }

  lemma {:induction false} DropDotsOfNumeral(s: Numeral)
    ensures AllDigits(DropDots(s))
    ensures |DropDots(s)| == CountDigits(s)
  {
    if s != [] {
      DropDotsOfNumeral(s[..|s| - 1]);
    }
  }

  /** How many digits follow the point (0 when there is none). */
  function FractionDigits(s: string): nat {
    var k := DotIndex(s);
    if k < |s| then |s| - k - 1 else 0
  }

  /** Value of the run `s`, or None exactly when `toDoubleOrNull` rejects it:
      the digits read as an integer, scaled down by ten per digit after the point. */
  function ParseDecimal(s: Numeral): (r: Option<real>)
    ensures r.Some? <==> CountDots(s) <= 1 && CountDigits(s) > 0
    ensures r.Some? ==> r.value >= 0.0
  {
    if CountDots(s) > 1 || CountDigits(s) == 0 then None
    else
      DropDotsOfNumeral(s);
      Some(DigitsValue(DropDots(s)) as real / Pow10(FractionDigits(s)) as real)
  }

  /** The decimal numeral of `n`, without leading zeros ("0" for zero). */
  function NatToDigits(n: nat): (s: Numeral)
    ensures s != []
    ensures AllDigits(s)
  {
    if n < 10 then [(('0' as int) + n) as char]
    else NatToDigits(n / 10) + [(('0' as int) + n % 10) as char]
  }

  lemma {:induction false} NatToDigitsValue(n: nat)
    ensures DigitsValue(NatToDigits(n)) == n
  {
    var s := NatToDigits(n);
    if n >= 10 {
      assert s[..|s| - 1] == NatToDigits(n / 10);
      NatToDigitsValue(n / 10);
    }
  }

  lemma {:induction false} DropDotsNoDots(s: string)
    requires forall i :: 0 <= i < |s| ==> s[i] != '.'
    ensures DropDots(s) == s
  {
    if s != [] {
      DropDotsNoDots(s[..|s| - 1]);
    }
  }

  /** Round trip: printing a natural number and reading it back gives it again. */
  lemma NatToDigitsRoundTrip(n: nat)
    ensures ParseDecimal(NatToDigits(n)) == Some(n as real)
  {
    ParseDigits(NatToDigits(n));
    NatToDigitsValue(n);
  }

  lemma {:induction false} DropDotsAppend(a: string, b: string)
    ensures DropDots(a + b) == DropDots(a) + DropDots(b)
    decreases |b|
  {
    if b == [] {
      assert a + b == a;
    } else {
      assert (a + b)[..|a + b| - 1] == a + b[..|b| - 1];
      DropDotsAppend(a, b[..|b| - 1]);
    }
  }

  /** The first point of `i.f` is the one after `i`. */
  lemma DotIndexAfterDigits(i: string, f: string)
    requires AllDigits(i)
    ensures DotIndex(i + "." + f) == |i|
  {
    var s := i + "." + f;
    assert s[|i|] == '.';
    assert forall j :: 0 <= j < |i| ==> s[j] == i[j];
  }

  lemma DigitsHaveNoDots(s: string)
    requires AllDigits(s)
    ensures CountDots(s) == 0 && CountDigits(s) == |s| && DropDots(s) == s
  {
    assert forall k :: 0 <= k < |s| ==> s[k] != '.' by {
      forall k | 0 <= k < |s| ensures s[k] != '.' {
        assert IsDigit(s[k]);
      }
    }
    NoDotsNoCount(s);
    NumeralWithoutDotsIsDigits(s);
    DropDotsNoDots(s);
  }

  lemma Point()
    ensures CountDots(".") == 1 && CountDigits(".") == 0 && DropDots(".") == []
  {
    assert "."[..0] == [];
  }

  lemma PointedDots(i: string, f: string)
    requires AllDigits(i) && AllDigits(f)
    ensures CountDots(i + "." + f) == 1
  {
    Point();
    DigitsHaveNoDots(i);
    DigitsHaveNoDots(f);
    DotsAppend(i, ".");
    DotsAppend(i + ".", f);
  }

  lemma PointedDigits(i: string, f: string)
    requires AllDigits(i) && AllDigits(f)
    ensures CountDigits(i + "." + f) == |i| + |f|
  {
    Point();
    DigitsHaveNoDots(i);
    DigitsHaveNoDots(f);
    DigitsAppend(i, ".");
    DigitsAppend(i + ".", f);
  }

  lemma PointedDropDots(i: string, f: string)
    requires AllDigits(i) && AllDigits(f)
    ensures DropDots(i + "." + f) == i + f
  {
    Point();
    DigitsHaveNoDots(i);
    DigitsHaveNoDots(f);
    DropDotsAppend(i, ".");
    DropDotsAppend(i + ".", f);
    assert i + [] == i;
  }

  /** A numeral with one point reads as its digits, taken as an integer,
      divided by ten for every digit after the point. */
  lemma ParsePointed(i: string, f: string)
    requires AllDigits(i) && AllDigits(f) && |i| + |f| > 0
    ensures var s: Numeral := i + "." + f;
      ParseDecimal(s) == Some(DigitsValue(i + f) as real / Pow10(|f|) as real)
  {
    PointedDots(i, f);
    PointedDigits(i, f);
    PointedDropDots(i, f);
    DotIndexAfterDigits(i, f);
  }

  /** A numeral without a point reads as its digits taken as an integer. */
  lemma ParseDigits(s: string)
    requires AllDigits(s) && s != []
    ensures ParseDecimal(s) == Some(DigitsValue(s) as real)
  {
    DigitsHaveNoDots(s);
    DigitsHaveNoFraction(s);
    var n := DigitsValue(s) as real;
    assert n / 1.0 == n;
  }

  lemma DigitsHaveNoFraction(s: string)
    requires AllDigits(s)
    ensures FractionDigits(s) == 0 && Pow10(FractionDigits(s)) == 1
  {
    var k := DotIndex(s);
    assert k < |s| ==> IsDigit(s[k]);
  }

}
