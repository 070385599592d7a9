/** How a finite number is printed, and why no two numbers print alike. */
module Numbers {
  import opened Decimal
  import J = Json

  predicate IsDigits(ds: seq<nat>) {
    forall i :: 0 <= i < |ds| ==> ds[i] < 10
  }

  function DigitText(ds: seq<nat>): (s: string)
    requires IsDigits(ds)
    ensures |s| == |ds| && AllDigits(s)
  {
    seq(|ds|, i requires 0 <= i < |ds| => CharOf(ds[i]))
  }

  lemma DigitTextInjective(a: seq<nat>, b: seq<nat>)
    requires IsDigits(a) && IsDigits(b) && DigitText(a) == DigitText(b)
    ensures a == b
  {
    forall i | 0 <= i < |a|
      ensures a[i] == b[i]
    {
      assert DigitText(a)[i] == DigitText(b)[i];
      assert DigitOf(CharOf(a[i])) == DigitOf(CharOf(b[i]));
    }
  }

  function Zeros(n: nat): (s: string)
    ensures |s| == n && AllDigits(s)
    ensures forall i :: 0 <= i < n ==> s[i] == '0'
  {
    seq(n, i => '0')
  }

  /** Digits with no zero at either end. */
  predicate Significant(ds: seq<nat>) {
    0 < |ds| <= 17 && IsDigits(ds) && ds[0] != 0 && ds[|ds| - 1] != 0
  }

  lemma EndsAreNotZero(ds: seq<nat>)
    requires Significant(ds)
    ensures DigitText(ds)[0] != '0' && DigitText(ds)[|ds| - 1] != '0'
  {
    assert DigitOf(DigitText(ds)[0]) == ds[0] && DigitOf(DigitText(ds)[|ds| - 1]) == ds[|ds| - 1];
  }

  // The four shapes of section 6.1.6.1.20 of ECMA-262.

  predicate Whole(ds: seq<nat>, point: int) {
    |ds| <= point <= 21
  }

  predicate Mixed(ds: seq<nat>, point: int) {
    0 < point < |ds|
  }

  predicate Small(ds: seq<nat>, point: int) {
    -6 < point <= 0
  }

  function WholeText(ds: seq<nat>, point: int): string
    requires Significant(ds) && Whole(ds, point)
  {
    DigitText(ds) + Zeros(point - |ds|)
  }

  function MixedText(ds: seq<nat>, point: int): string
    requires Significant(ds) && Mixed(ds, point)
  {
    DigitText(ds[..point]) + ['.'] + DigitText(ds[point..])
  }

  function SmallText(ds: seq<nat>, point: int): string
    requires Significant(ds) && Small(ds, point)
  {
    "0" + ['.'] + (Zeros(-point) + DigitText(ds))
  }

  function Mantissa(ds: seq<nat>): string
    requires Significant(ds)
  {
    if |ds| == 1 then DigitText(ds) else DigitText(ds[..1]) + ['.'] + DigitText(ds[1..])
  }

  function ShiftText(point: int): string {
    if point >= 1 then "+" + Print(point - 1) else "-" + Print(1 - point)
  }

  function ExponentText(ds: seq<nat>, point: int): string
    requires Significant(ds)
  {
    Mantissa(ds) + ['e'] + ShiftText(point)
  }

  function PositiveText(ds: seq<nat>, point: int): string
    requires Significant(ds)
  {
    if Whole(ds, point) then WholeText(ds, point)
    else if Mixed(ds, point) then MixedText(ds, point)
    else if Small(ds, point) then SmallText(ds, point)
    else ExponentText(ds, point)
  }

  /** `JSON.stringify` of a finite number. */
  function NumberText(n: J.Number): string
    requires J.WellFormedNumber(n)
  {
    match n
    case Zero => "0"
    case Decimal(negative, digits, point) => (if negative then "-" else "") + PositiveText(digits, point)
  }

  // ---------------------------------------------------------------- no two alike

  lemma WholeInjective(a: seq<nat>, p: int, b: seq<nat>, q: int)
    requires Significant(a) && Whole(a, p) && Significant(b) && Whole(b, q)
    requires WholeText(a, p) == WholeText(b, q)
    ensures a == b && p == q
  {
    var s := WholeText(a, p);
    EndsAreNotZero(a);
    EndsAreNotZero(b);
    assert |s| == p == q;
    assert s[|a| - 1] != '0' && s[|b| - 1] != '0';
    assert forall i :: |a| <= i < p ==> s[i] == '0';
    assert forall i :: |b| <= i < p ==> s[i] == '0';
    assert |a| == |b|;
    ConcatUnique(DigitText(a), DigitText(b), Zeros(p - |a|), Zeros(q - |b|));
    DigitTextInjective(a, b);
  }

  lemma MixedInjective(a: seq<nat>, p: int, b: seq<nat>, q: int)
    requires Significant(a) && Mixed(a, p) && Significant(b) && Mixed(b, q)
    requires MixedText(a, p) == MixedText(b, q)
    ensures a == b && p == q
  {
    NoChar(DigitText(a[..p]), '.');
    NoChar(DigitText(b[..q]), '.');
    SplitUnique(DigitText(a[..p]), DigitText(b[..q]), '.', DigitText(a[p..]), DigitText(b[q..]));
    DigitTextInjective(a[..p], b[..q]);
    DigitTextInjective(a[p..], b[q..]);
    assert a == a[..p] + a[p..] && b == b[..q] + b[q..];
  }

  lemma SmallInjective(a: seq<nat>, p: int, b: seq<nat>, q: int)
    requires Significant(a) && Small(a, p) && Significant(b) && Small(b, q)
    requires SmallText(a, p) == SmallText(b, q)
    ensures a == b && p == q
  {
    SplitUnique("0", "0", '.', Zeros(-p) + DigitText(a), Zeros(-q) + DigitText(b));
    var s := Zeros(-p) + DigitText(a);
    EndsAreNotZero(a);
    EndsAreNotZero(b);
    assert s[-p] != '0' && s[-q] != '0';
    assert forall i :: 0 <= i < -p ==> s[i] == '0';
    assert forall i :: 0 <= i < -q ==> s[i] == '0';
    assert p == q;
    ConcatUnique(Zeros(-p), Zeros(-q), DigitText(a), DigitText(b));
    DigitTextInjective(a, b);
  }

  lemma MantissaInjective(a: seq<nat>, b: seq<nat>)
    requires Significant(a) && Significant(b) && Mantissa(a) == Mantissa(b)
    ensures a == b
  {
    assert |a| == |b|;
    if |a| == 1 {
      DigitTextInjective(a, b);
    } else {
      MixedInjective(a, 1, b, 1);
    }
  }

  lemma NoExponent(ds: seq<nat>, point: int)
    requires Significant(ds) && (Whole(ds, point) || Mixed(ds, point) || Small(ds, point))
    ensures 'e' !in PositiveText(ds, point)
  {
  }

  lemma ShiftInjective(p: int, q: int)
    requires ShiftText(p) == ShiftText(q)
    ensures p == q
  {
    var x, y := ShiftText(p), ShiftText(q);
    assert x[0] == y[0] && x[1..] == y[1..];
    if p >= 1 {
      assert x[1..] == Print(p - 1) && y[1..] == Print(q - 1);
      PrintInjective(p - 1, q - 1);
    } else {
      assert x[1..] == Print(1 - p) && y[1..] == Print(1 - q);
      PrintInjective(1 - p, 1 - q);
    }
  }

  lemma ExponentInjective(a: seq<nat>, p: int, b: seq<nat>, q: int)
    requires Significant(a) && Significant(b)
    requires ExponentText(a, p) == ExponentText(b, q)
    ensures a == b && p == q
  {
    SplitUnique(Mantissa(a), Mantissa(b), 'e', ShiftText(p), ShiftText(q));
    MantissaInjective(a, b);
    ShiftInjective(p, q);
  }

  lemma PositiveInjective(a: seq<nat>, p: int, b: seq<nat>, q: int)
    requires Significant(a) && Significant(b) && PositiveText(a, p) == PositiveText(b, q)
    ensures a == b && p == q
  {
    var s := PositiveText(a, p);
    var plainA, plainB := Whole(a, p) || Mixed(a, p) || Small(a, p), Whole(b, q) || Mixed(b, q) || Small(b, q);
    ShapeOf(a, p);
    ShapeOf(b, q);
    if !plainA {
      ExponentInjective(a, p, b, q);
    } else if Whole(a, p) {
      WholeInjective(a, p, b, q);
    } else if Mixed(a, p) {
      MixedInjective(a, p, b, q);
    } else {
      SmallInjective(a, p, b, q);
    }
  }

  /** Which characters occur tells the shape of a printed number. */
  lemma ShapeOf(ds: seq<nat>, point: int)
    requires Significant(ds)
    ensures var s := PositiveText(ds, point);
            && s != "" && IsDigit(s[0])
            && ('e' in s <==> !Whole(ds, point) && !Mixed(ds, point) && !Small(ds, point))
            && ('e' !in s ==> ('.' in s <==> !Whole(ds, point)))
            && (s[0] == '0' <==> Small(ds, point))
  {
    var s := PositiveText(ds, point);
    EndsAreNotZero(ds);
    if Whole(ds, point) {
      assert s[0] == DigitText(ds)[0];
    } else if Mixed(ds, point) {
      assert s[point] == '.';
      assert s[0] == DigitText(ds[..point])[0] == DigitText(ds)[0];
      NoExponent(ds, point);
    } else if Small(ds, point) {
      assert s[1] == '.';
      NoExponent(ds, point);
    } else {
      assert s[|Mantissa(ds)|] == 'e';
      assert s[0] == Mantissa(ds)[0] == DigitText(ds)[0];
    }
  }

  lemma NumberTextInjective(a: J.Number, b: J.Number)
    requires J.WellFormedNumber(a) && J.WellFormedNumber(b)
    requires NumberText(a) == NumberText(b)
    ensures a == b
  {
    if a.Decimal? {
      ShapeOf(a.digits, a.point);
    }
    if b.Decimal? {
      ShapeOf(b.digits, b.point);
    }
    if a.Decimal? && b.Decimal? {
      var x, y := PositiveText(a.digits, a.point), PositiveText(b.digits, b.point);
      assert a.negative ==> NumberText(a)[0] == '-' && NumberText(a)[1..] == x;
      assert b.negative ==> NumberText(b)[0] == '-' && NumberText(b)[1..] == y;
      assert !a.negative ==> NumberText(a) == x;
      assert !b.negative ==> NumberText(b) == y;
      assert a.negative == b.negative && x == y;
      PositiveInjective(a.digits, a.point, b.digits, b.point);
    } else if a.Decimal? {
      OneZero(a);
    } else if b.Decimal? {
      OneZero(b);
    }
  }

  lemma OneZero(n: J.Number)
    requires J.WellFormedNumber(n) && n.Decimal?
    ensures NumberText(n) != "0"
  {
    var s := PositiveText(n.digits, n.point);
    ShapeOf(n.digits, n.point);
    if n.negative {
      assert NumberText(n)[0] == '-';
    } else if Small(n.digits, n.point) {
      assert |s| > 1;
    } else {
      assert NumberText(n) == s;
    }
  }

  /** The alphabet of printed numbers. */
  predicate IsNumberChar(c: char) {
    IsDigit(c) || c == '-' || c == '+' || c == '.' || c == 'e'
  }

  lemma NumberAlphabet(n: J.Number)
    requires J.WellFormedNumber(n)
    ensures NumberText(n) != "" && (IsDigit(NumberText(n)[0]) || NumberText(n)[0] == '-')
    ensures forall i :: 0 <= i < |NumberText(n)| ==> IsNumberChar(NumberText(n)[i])
  {
    if n.Decimal? {
      ShapeOf(n.digits, n.point);
      PositiveAlphabet(n.digits, n.point);
    }
  }

  lemma PositiveAlphabet(ds: seq<nat>, point: int)
    requires Significant(ds)
    ensures forall i :: 0 <= i < |PositiveText(ds, point)| ==> IsNumberChar(PositiveText(ds, point)[i])
  {
  }
}
