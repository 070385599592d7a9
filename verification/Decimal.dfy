/** Decimal printing and reading, and the facts about strings that unambiguous encodings rest on. */
module Decimal {

  predicate IsDigit(c: char) {
    '0' <= c <= '9'
  }

  predicate AllDigits(s: string) {
    forall i :: 0 <= i < |s| ==> IsDigit(s[i])
  }

  function DigitOf(c: char): nat
    requires IsDigit(c)
  {
    c as int - '0' as int
  }

  function CharOf(d: nat): (c: char)
    requires d < 10
    ensures IsDigit(c) && DigitOf(c) == d
  {
    (d + '0' as int) as char
  }

  /** `String(n)` for a non-negative integer. */
  function Print(n: nat): (s: string)
    ensures s != "" && AllDigits(s)
  {
    if n < 10 then [CharOf(n)] else Print(n / 10) + [CharOf(n % 10)]
  }

  function Parse(s: string): nat
    requires AllDigits(s)
  {
    if s == "" then 0 else 10 * Parse(s[..|s| - 1]) + DigitOf(s[|s| - 1])
  }

  lemma {:induction false} ParsePrint(n: nat)
    ensures Parse(Print(n)) == n
  {
    if n < 10 {
      assert [CharOf(n)][..0] == "";
      assert Parse("") == 0;
    } else {
      ParsePrint(n / 10);
      assert Print(n)[..|Print(n)| - 1] == Print(n / 10);
    }
  }

  lemma PrintInjective(a: nat, b: nat)
    requires Print(a) == Print(b)
    ensures a == b
  {
    ParsePrint(a);
    ParsePrint(b);
  }

  function PrintInt(n: int): string {
    if n < 0 then "-" + Print(-n) else Print(n)
  }

  lemma PrintIntInjective(a: int, b: int)
    requires PrintInt(a) == PrintInt(b)
    ensures a == b
  {
    assert a < 0 ==> PrintInt(a)[0] == '-' && PrintInt(a)[1..] == Print(-a);
    assert b < 0 ==> PrintInt(b)[0] == '-' && PrintInt(b)[1..] == Print(-b);
    assert a >= 0 ==> IsDigit(PrintInt(a)[0]);
    assert b >= 0 ==> IsDigit(PrintInt(b)[0]);
    if a < 0 {
      PrintInjective(-a, -b);
    } else {
      PrintInjective(a, b);
    }
  }

  function Pow10(w: nat): (p: nat)
    ensures p > 0
  {
    if w == 0 then 1 else 10 * Pow10(w - 1)
  }

  /** The last `w` digits of a number, zero-padded. */
  function Pad(n: nat, w: nat): (s: string)
    ensures |s| == w && AllDigits(s)
  {
    if w == 0 then "" else Pad(n / 10, w - 1) + [CharOf(n % 10)]
  }

  lemma {:induction false} ParsePad(n: nat, w: nat)
    requires n < Pow10(w)
    ensures Parse(Pad(n, w)) == n
  {
    if w > 0 {
      ParsePad(n / 10, w - 1);
      assert Pad(n, w)[..w - 1] == Pad(n / 10, w - 1);
    }
  }

  lemma PadInjective(a: nat, b: nat, w: nat)
    requires a < Pow10(w) && b < Pow10(w) && Pad(a, w) == Pad(b, w)
    ensures a == b
  {
    ParsePad(a, w);
    ParsePad(b, w);
  }

  // ---------------------------------------------------------------- splitting

  /** A string splits in only one way at the first occurrence of a character. */
  lemma SplitUnique(a: string, b: string, c: char, x: string, y: string)
    requires c !in a && c !in b
    requires a + [c] + x == b + [c] + y
    ensures a == b && x == y
  {
    var s := a + [c] + x;
    assert s[|a|] == c && s[|b|] == c;
    assert |a| == |b|;
    assert a == s[..|a|] == b;
    assert x == s[|a| + 1..] == y;
  }

  /** Concatenations with equally long first parts are equal part by part. */
  lemma ConcatUnique(a: string, b: string, x: string, y: string)
    requires |a| == |b| && a + x == b + y
    ensures a == b && x == y
  {
    assert a == (a + x)[..|a|];
    assert b == (b + y)[..|b|];
    assert x == (a + x)[|a|..];
    assert y == (b + y)[|b|..];
  }

  lemma Assoc(a: string, b: string, c: string)
    ensures a + b + c == a + (b + c)
  {
  }

  lemma NoChar(s: string, c: char)
    requires AllDigits(s) && !IsDigit(c)
    ensures c !in s
  {
  }
}
