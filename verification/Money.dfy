/** Amounts in minor units, and the decimal strings they are written as. */
module Money {
  import opened Common
  import opened Decimal

  const MAX_SAFE_INTEGER := 9007199254740991

  /** A JavaScript number given as an amount: an integer, or anything else. */
  datatype Amount = Whole(n: int) | NotWhole

  datatype Given = Given(amount: Amount, currency: string)

  datatype Money = Money(minor: nat, currency: string)

  datatype MoneyError = BadCurrency | NotInteger | Negative | TooLarge | NotDecimal | TooPrecise

  /** `toUpperCase`, of which only this is used: a code already in upper case stays as it is. */
  type Upper = string -> string

  ghost predicate IsUpper(upper: Upper) {
    forall s :: IsCode(s) ==> upper(s) == s
  }

  /** Three letters. */
  predicate IsCode(s: string) {
    |s| == 3 && forall i :: 0 <= i < |s| ==> 'A' <= s[i] <= 'Z'
  }

  predicate IsMoney(m: Money) {
    m.minor <= MAX_SAFE_INTEGER && IsCode(m.currency)
  }

  function Normalise(upper: Upper, g: Given): (r: Result<Money, MoneyError>)
    ensures r.Ok? <==> IsCode(upper(g.currency)) && g.amount.Whole? && 0 <= g.amount.n <= MAX_SAFE_INTEGER
    ensures r.Ok? ==> r.value == Money(g.amount.n, upper(g.currency)) && IsMoney(r.value)
    ensures r == Err(BadCurrency) <==> !IsCode(upper(g.currency))
    ensures r == Err(NotInteger) ==> g.amount.NotWhole?
    ensures r == Err(Negative) ==> g.amount.Whole? && g.amount.n < 0
    ensures r == Err(TooLarge) ==> g.amount.Whole? && g.amount.n > MAX_SAFE_INTEGER
    ensures r.Err? ==> r.error in {BadCurrency, NotInteger, Negative, TooLarge}
  {
    var currency := upper(g.currency);
    if !IsCode(currency) then Err(BadCurrency)
    else if g.amount.NotWhole? then Err(NotInteger)
    else if g.amount.n < 0 then Err(Negative)
    else if g.amount.n > MAX_SAFE_INTEGER then Err(TooLarge)
    else Ok(Money(g.amount.n, currency))
  }

  /** Currencies that have no minor unit; every other has two places. */
  predicate IsZeroDecimal(code: string) {
    code == "HUF" || code == "JPY" || code == "TWD"
  }

  function Exponent(upper: Upper, currency: string): nat {
    if IsZeroDecimal(upper(currency)) then 0 else 2
  }

  // ---------------------------------------------------------------- writing

  function Zeros(n: nat): (s: string)
    ensures |s| == n && forall i :: 0 <= i < n ==> s[i] == '0'
  {
    if n == 0 then "" else "0" + Zeros(n - 1)
  }

  function PadStart(s: string, width: nat): string {
    if |s| >= width then s else Zeros(width - |s|) + s
  }

  function PadEnd(s: string, width: nat): string {
    if |s| >= width then s else s + Zeros(width - |s|)
  }

  function Render(minor: nat, exponent: nat): string {
    if exponent == 0 then Print(minor)
    else
      var digits := PadStart(Print(minor), exponent + 1);
      digits[..|digits| - exponent] + "." + digits[|digits| - exponent..]
  }

  function ToDecimalString(upper: Upper, g: Given): Result<string, MoneyError> {
    match Normalise(upper, g)
    case Err(e) => Err(e)
    case Ok(m) => Ok(Render(m.minor, Exponent(upper, m.currency)))
  }

  // ---------------------------------------------------------------- reading

  function Trim(s: string): string {
    if s == "" then s
    else if IsSpace(s[0]) then Trim(s[1..])
    else if IsSpace(s[|s| - 1]) then Trim(s[..|s| - 1])
    else s
  }

  predicate AllSpace(s: string) {
    forall i :: 0 <= i < |s| ==> IsSpace(s[i])
  }

  lemma Blanks(a: string, b: string)
    requires AllSpace(a) && AllSpace(b)
    ensures AllSpace(a + b)
  {
  }

  /** What is trimmed off is blank, at both ends, and all of it. */
  lemma {:induction false} TrimsBlanks(s: string) returns (a: string, b: string)
    ensures s == a + Trim(s) + b && AllSpace(a) && AllSpace(b)
    ensures Trim(s) != "" ==> !IsSpace(Trim(s)[0]) && !IsSpace(Trim(s)[|Trim(s)| - 1])
    decreases |s|
  {
    a, b := "", "";
    if s != "" && IsSpace(s[0]) {
      var t := s[1..];
      a, b := TrimsBlanks(t);
      Blanks([s[0]], a);
      assert [s[0]] + (a + Trim(t) + b) == [s[0]] + a + Trim(t) + b;
      assert s == [s[0]] + t;
      a := [s[0]] + a;
    } else if s != "" && IsSpace(s[|s| - 1]) {
      var t, c := s[..|s| - 1], [s[|s| - 1]];
      a, b := TrimsBlanks(t);
      Blanks(b, c);
      assert a + Trim(t) + b + c == a + Trim(t) + (b + c);
      assert s == t + c;
      b := b + c;
    } else {
      assert s == "" + s + "";
    }
  }

  /** Digits, and digits after a point; no point is an empty fraction. */
  datatype Parts = Parts(whole: string, fraction: string)

  predicate IsWritten(s: string, p: Parts) {
    && p.whole != "" && AllDigits(p.whole) && AllDigits(p.fraction)
    && s == if p.fraction == "" then p.whole else p.whole + "." + p.fraction
  }

  function DigitsUpTo(s: string): (k: nat)
    ensures k <= |s| && AllDigits(s[..k]) && (k < |s| ==> !IsDigit(s[k]))
  {
    if s == "" || !IsDigit(s[0]) then 0
    else
      var k := 1 + DigitsUpTo(s[1..]);
      assert s[..k] == [s[0]] + s[1..][..k - 1];
      k
  }

  function Match(s: string): (r: Option<Parts>)
    ensures r.Some? ==> IsWritten(s, r.value)
  {
    var k := DigitsUpTo(s);
    if k == 0 then None
    else if k == |s| then assert s[..k] == s; Some(Parts(s, ""))
    else if s[k] == '.' && k + 1 < |s| && AllDigits(s[k + 1..]) then
      assert s == s[..k] + "." + s[k + 1..];
      Some(Parts(s[..k], s[k + 1..]))
    else None
  }

  /** The digits and only they are read, whatever way the string is written. */
  lemma MatchFinds(s: string, p: Parts)
    requires IsWritten(s, p)
    ensures Match(s) == Some(p)
  {
    var k := DigitsUpTo(s);
    if p.fraction == "" {
      assert s == p.whole;
    } else {
      var n := |p.whole|;
      assert s[n] == '.' && s[..n] == p.whole && s[n + 1..] == p.fraction;
      assert forall i :: 0 <= i < n ==> IsDigit(s[i]) by {
        assert forall i :: 0 <= i < n ==> s[i] == p.whole[i];
      }
      assert forall i :: 0 <= i < k ==> IsDigit(s[i]) by {
        assert forall i :: 0 <= i < k ==> s[i] == s[..k][i];
      }
      assert k == n;
    }
  }

  function FromParts(p: Parts, currency: string, exponent: nat): Result<Money, MoneyError>
    requires AllDigits(p.whole) && AllDigits(p.fraction)
  {
    if |p.fraction| > exponent then Err(TooPrecise)
    else
      var minor := Parse(p.whole + PadEnd(p.fraction, exponent));
      if minor > MAX_SAFE_INTEGER then Err(TooLarge) else Ok(Money(minor, currency))
  }

  function FromDecimalString(upper: Upper, value: string, currency: string): Result<Money, MoneyError> {
    var code := upper(currency);
    if !IsCode(code) then Err(BadCurrency)
    else
      match Match(Trim(value))
      case None => Err(NotDecimal)
      case Some(p) => FromParts(p, code, Exponent(upper, code))
  }

  // ---------------------------------------------------------------- what digits denote

  /** Leading zeros change nothing. */
  lemma {:induction false} LeadingZero(s: string)
    requires AllDigits(s)
    ensures AllDigits("0" + s) && Parse("0" + s) == Parse(s)
  {
    var t := "0" + s;
    assert forall i :: 0 <= i < |t| ==> IsDigit(t[i]);
    if s == "" {
      assert t[..|t| - 1] == "";
    } else {
      LeadingZero(s[..|s| - 1]);
      assert t[..|t| - 1] == "0" + s[..|s| - 1];
    }
  }

  lemma {:induction false} LeadingZeros(n: nat, s: string)
    requires AllDigits(s)
    ensures AllDigits(Zeros(n) + s) && Parse(Zeros(n) + s) == Parse(s)
  {
    if n == 0 {
      assert Zeros(0) + s == s;
    } else {
      LeadingZeros(n - 1, s);
      LeadingZero(Zeros(n - 1) + s);
      assert Zeros(n) + s == "0" + (Zeros(n - 1) + s);
    }
  }

  /** `n` with `places` zeros behind it: ten to that power times `n`. */
  function Shift(n: nat, places: nat): nat {
    if places == 0 then n else 10 * Shift(n, places - 1)
  }

  lemma {:induction false} ShiftTwice(n: nat, a: nat, b: nat)
    ensures Shift(Shift(n, a), b) == Shift(n, a + b)
  {
    if b > 0 {
      ShiftTwice(n, a, b - 1);
    }
  }

  /** Each zero at the end is a factor of ten. */
  lemma {:induction false} TrailingZeros(s: string, n: nat)
    requires AllDigits(s)
    ensures AllDigits(s + Zeros(n)) && Parse(s + Zeros(n)) == Shift(Parse(s), n)
  {
    if n == 0 {
      assert s + Zeros(0) == s;
    } else {
      TrailingZeros(s, n - 1);
      ZerosEnd(n);
      OneZero(s + Zeros(n - 1));
      assert s + Zeros(n) == s + Zeros(n - 1) + "0";
    }
  }

  lemma OneZero(s: string)
    requires AllDigits(s)
    ensures AllDigits(s + "0") && Parse(s + "0") == 10 * Parse(s)
  {
    var t := s + "0";
    assert t[..|t| - 1] == s;
  }

  lemma {:induction false} ZerosEnd(n: nat)
    requires n > 0
    ensures Zeros(n) == Zeros(n - 1) + "0"
  {
    if n > 1 {
      ZerosEnd(n - 1);
    }
  }

  // ---------------------------------------------------------------- round trips

  /** Digits cut in two are digits, and put together again are the same digits. */
  lemma CutDigits(digits: string, places: nat) returns (p: Parts)
    requires AllDigits(digits) && places < |digits|
    ensures p == Parts(digits[..|digits| - places], digits[|digits| - places..])
    ensures AllDigits(p.whole) && AllDigits(p.fraction) && p.whole != "" && |p.fraction| == places
    ensures p.whole + p.fraction == digits
  {
    p := Parts(digits[..|digits| - places], digits[|digits| - places..]);
  }

  lemma PaddedDigits(n: nat, width: nat)
    ensures var digits := PadStart(Print(n), width); AllDigits(digits) && Parse(digits) == n && |digits| >= width
  {
    ParsePrint(n);
    if |Print(n)| < width {
      LeadingZeros(width - |Print(n)|, Print(n));
    }
  }

  /** What is written is the digits of the amount, with the point in its place. */
  lemma RenderedParts(minor: nat, exponent: nat) returns (p: Parts)
    ensures IsWritten(Render(minor, exponent), p) && |p.fraction| == exponent
    ensures AllDigits(p.whole + p.fraction) && Parse(p.whole + p.fraction) == minor
  {
    if exponent == 0 {
      ParsePrint(minor);
      p := Parts(Print(minor), "");
      assert p.whole + p.fraction == Print(minor);
    } else {
      PaddedDigits(minor, exponent + 1);
      p := CutDigits(PadStart(Print(minor), exponent + 1), exponent);
    }
  }

  lemma WrittenIsTrimmed(s: string, p: Parts)
    requires IsWritten(s, p)
    ensures Trim(s) == s
  {
    assert IsDigit(s[0]) by {
      assert s[0] == p.whole[0];
    }
    assert IsDigit(s[|s| - 1]) by {
      assert s[|s| - 1] == if p.fraction == "" then p.whole[|p.whole| - 1] else p.fraction[|p.fraction| - 1];
    }
  }

  /** Reading what was written gives back the normalised amount. */
  lemma ReadingWhatWasWritten(upper: Upper, g: Given)
    requires IsUpper(upper) && Normalise(upper, g).Ok?
    ensures FromDecimalString(upper, ToDecimalString(upper, g).value, upper(g.currency)) == Normalise(upper, g)
  {
    var m := Normalise(upper, g).value;
    var e := Exponent(upper, m.currency);
    var s := Render(m.minor, e);
    var p := RenderedParts(m.minor, e);
    WrittenIsTrimmed(s, p);
    MatchFinds(s, p);
    assert PadEnd(p.fraction, e) == p.fraction;
  }

  /** The minor units a written number comes to, at this many places. */
  function MinorUnits(p: Parts, exponent: nat): nat
    requires AllDigits(p.whole) && AllDigits(p.fraction) && |p.fraction| <= exponent
  {
    assert AllDigits(p.whole + p.fraction);
    Shift(Parse(p.whole + p.fraction), exponent - |p.fraction|)
  }

  lemma PaddedFraction(p: Parts, exponent: nat)
    requires AllDigits(p.whole) && AllDigits(p.fraction) && |p.fraction| <= exponent
    ensures AllDigits(p.whole + PadEnd(p.fraction, exponent))
    ensures Parse(p.whole + PadEnd(p.fraction, exponent)) == MinorUnits(p, exponent)
  {
    var places := exponent - |p.fraction|;
    assert AllDigits(p.whole + p.fraction);
    TrailingZeros(p.whole + p.fraction, places);
    assert p.whole + PadEnd(p.fraction, exponent) == (p.whole + p.fraction) + Zeros(places);
  }

  /** What a decimal string is read as: exactly those that fit, as the number they denote. */
  lemma ReadingIsExact(upper: Upper, value: string, currency: string, p: Parts)
    requires IsUpper(upper) && IsWritten(Trim(value), p)
    ensures var r := FromDecimalString(upper, value, currency);
            var e := Exponent(upper, upper(currency));
            && (r.Ok? <==> IsCode(upper(currency)) && |p.fraction| <= e && MinorUnits(p, e) <= MAX_SAFE_INTEGER)
            && (r.Ok? ==> r.value == Money(MinorUnits(p, e), upper(currency)))
            && (r == Err(BadCurrency) <==> !IsCode(upper(currency)))
            && (r == Err(TooPrecise) ==> |p.fraction| > e)
            && (r == Err(TooLarge) ==> |p.fraction| <= e && MinorUnits(p, e) > MAX_SAFE_INTEGER)
            && (r.Err? ==> r.error in {BadCurrency, TooPrecise, TooLarge})
  {
    MatchFinds(Trim(value), p);
    var e := Exponent(upper, upper(currency));
    if |p.fraction| <= e {
      PaddedFraction(p, e);
    }
  }

  /** A string that is not a decimal number, and only such a string, is refused as not one. */
  lemma OnlyDecimalsAreRead(upper: Upper, value: string, currency: string)
    requires IsCode(upper(currency))
    ensures FromDecimalString(upper, value, currency) != Err(NotDecimal) <==> exists p :: IsWritten(Trim(value), p)
  {
    if p :| IsWritten(Trim(value), p) {
      MatchFinds(Trim(value), p);
    }
    match Match(Trim(value))
    case None =>
    case Some(p) =>
      assert IsWritten(Trim(value), p);
      var r := FromDecimalString(upper, value, currency);
      assert r == FromParts(p, upper(currency), Exponent(upper, upper(currency)));
      assert exists q :: IsWritten(Trim(value), q);
  }

  const LETTERS := "ABCDEFGHIJKLMNOPQRSTUVWXYZ"

  /** What is written has no point for the forint, the yen and the dollar of Taiwan, else exactly two places. */
  lemma WrittenForm(upper: Upper, g: Given) returns (p: Parts)
    requires IsUpper(upper) && Normalise(upper, g).Ok?
    ensures ToDecimalString(upper, g).Ok? && IsWritten(ToDecimalString(upper, g).value, p)
    ensures |p.fraction| == if upper(g.currency) in ["HUF", "JPY", "TWD"] then 0 else 2
    ensures AllDigits(p.whole + p.fraction) && Parse(p.whole + p.fraction) == g.amount.n
  {
    var code := upper(g.currency);
    assert upper(code) == code;
    p := RenderedParts(g.amount.n, Exponent(upper, code));
  }

  /** A currency code is any three letters. */
  lemma LettersAreACode(s: string)
    ensures IsCode(s) <==> |s| == 3 && s[0] in LETTERS && s[1] in LETTERS && s[2] in LETTERS
  {
    forall i | 0 <= i < |s|
      ensures 'A' <= s[i] <= 'Z' <==> s[i] in LETTERS
    {
      assert 'A' <= s[i] <= 'Z' ==> LETTERS[s[i] as int - 'A' as int] == s[i];
    }
  }

  /** Two ways of writing one number: the digits agree once the points are lined up. */
  predicate SameNumber(p: Parts, q: Parts)
    requires AllDigits(p.whole) && AllDigits(p.fraction) && AllDigits(q.whole) && AllDigits(q.fraction)
  {
    assert AllDigits(p.whole + p.fraction) && AllDigits(q.whole + q.fraction);
    Shift(Parse(p.whole + p.fraction), |q.fraction|) == Shift(Parse(q.whole + q.fraction), |p.fraction|)
  }

  /** A string that denotes the number with these parts, however it is written. */
  ghost predicate Denotes(s: string, p: Parts)
    requires AllDigits(p.whole) && AllDigits(p.fraction)
  {
    exists q :: IsWritten(s, q) && SameNumber(p, q)
  }

  /** Parts with the same digits behind the point as the exponent line up with any shorter parts. */
  lemma LinedUp(p: Parts, q: Parts, exponent: nat)
    requires AllDigits(p.whole) && AllDigits(p.fraction) && |p.fraction| <= exponent
    requires AllDigits(q.whole) && AllDigits(q.fraction) && |q.fraction| == exponent
    requires AllDigits(q.whole + q.fraction) && Parse(q.whole + q.fraction) == MinorUnits(p, exponent)
    ensures SameNumber(p, q)
  {
    assert AllDigits(p.whole + p.fraction);
    ShiftTwice(Parse(p.whole + p.fraction), exponent - |p.fraction|, |p.fraction|);
  }

  lemma RenderedDenotes(p: Parts, minor: nat, exponent: nat)
    requires AllDigits(p.whole) && AllDigits(p.fraction) && |p.fraction| <= exponent && minor == MinorUnits(p, exponent)
    ensures Denotes(Render(minor, exponent), p)
  {
    var q := RenderedParts(minor, exponent);
    LinedUp(p, q, exponent);
  }

  /** Writing what was read denotes the number that was read, leading zeros and short fractions included. */
  lemma WritingWhatWasRead(upper: Upper, value: string, currency: string, p: Parts)
    requires IsUpper(upper) && IsWritten(Trim(value), p) && FromDecimalString(upper, value, currency).Ok?
    ensures var m := FromDecimalString(upper, value, currency).value;
            var s := ToDecimalString(upper, Given(Whole(m.minor), m.currency));
            s.Ok? && Denotes(s.value, p)
  {
    ReadingIsExact(upper, value, currency, p);
    var code := upper(currency);
    RenderedDenotes(p, MinorUnits(p, Exponent(upper, code)), Exponent(upper, code));
    assert upper(code) == code;
  }
}
