/**
 * The texts an entry is hashed as, against the formats they are said to be: JSON strings and
 * numbers, UTF-16 and UTF-8, ISO years, hex digests, and one named field for each thing recorded.
 */
module AuditFormat {
  import opened Common
  import opened Json
  import opened Decimal
  import opened Numbers
  import opened JsonText
  import opened CanonicalJson
  import opened AuditEntry
  import opened AuditChain

  // ---------------------------------------------------------------- JSON strings

  function HexValue(c: char): (n: nat)
    ensures n <= 16
  {
    if '0' <= c <= '9' then c as int - '0' as int
    else if 'a' <= c <= 'f' then c as int - 'a' as int + 10
    else if 'A' <= c <= 'F' then c as int - 'A' as int + 10
    else 16
  }

  /** The characters section 7 of RFC 8259 gives an escape of two characters. */
  function ShortEscape(c: char): Option<char> {
    match c
    case '"' => Some('"')
    case '\\' => Some('\\')
    case '/' => Some('/')
    case 'b' => Some('\U{0008}')
    case 'f' => Some('\U{000C}')
    case 'n' => Some('\U{000A}')
    case 'r' => Some('\U{000D}')
    case 't' => Some('\U{0009}')
    case _ => None
  }

  /** Reads one character of a JSON string, and tells how much text it took. */
  function ReadChar(s: string): Option<(char, nat)> {
    if s == "" || s[0] == '"' || s[0] as int < 0x20 then None
    else if s[0] != '\\' then Some((s[0], 1))
    else if |s| >= 2 && ShortEscape(s[1]).Some? then Some((ShortEscape(s[1]).value, 2))
    else if |s| >= 6 && s[1] == 'u' && (forall i :: 2 <= i < 6 ==> HexValue(s[i]) < 16) then
      var n := HexValue(s[2]) * 4096 + HexValue(s[3]) * 256 + HexValue(s[4]) * 16 + HexValue(s[5]);
      if n < 0xD800 || 0xE000 <= n then Some((n as char, 6)) else None
    else None
  }

  function ReadString(s: string): Option<string> {
    if s == "" then Some("")
    else
      match ReadChar(s)
      case None => None
      case Some((c, n)) =>
        if 0 < n <= |s| && ReadString(s[n..]).Some? then Some([c] + ReadString(s[n..]).value) else None
  }

  lemma ReadEscape(c: char, rest: string)
    ensures ReadChar(EscapeChar(c) + rest) == Some((c, |EscapeChar(c)|))
  {
    var s, n := EscapeChar(c), c as int;
    assert forall i :: 0 <= i < |s| ==> (s + rest)[i] == s[i];
    if |s| == 6 {
      assert s[2] == '0' && s[3] == '0' && s[4] == HEX[n / 16] && s[5] == HEX[n % 16];
      assert HexValue(HEX[n / 16]) == n / 16 && HexValue(HEX[n % 16]) == n % 16;
    }
  }

  /** Only what has to be escaped is, and the short way where there is one. */
  predicate EscapedAsNeeded(c: char) {
    && (|EscapeChar(c)| == 1 <==> c as int >= 0x20 && c != '"' && c != '\\')
    && (|EscapeChar(c)| == 6 <==> c as int < 0x20 && !(8 <= c as int <= 10) && !(12 <= c as int <= 13))
  }

  lemma ReadStep(c: char, s: string, rest: string)
    requires ReadString(rest) == Some(s)
    ensures ReadString(EscapeChar(c) + rest) == Some([c] + s)
  {
    ReadEscape(c, rest);
    assert (EscapeChar(c) + rest)[|EscapeChar(c)|..] == rest;
  }

  lemma {:induction false} ReadsBack(s: string)
    ensures ReadString(Escape(s)) == Some(s)
  {
    if s != "" {
      ReadsBack(s[1..]);
      var text := Escape(s[1..]);
      ReadStep(s[0], s[1..], text);
      assert Escape(s) == EscapeChar(s[0]) + text && s == [s[0]] + s[1..];
    }
  }

  lemma EscapedOnlyAsNeeded(c: char)
    ensures EscapedAsNeeded(c)
  {
  }

  lemma StringReadsBack(s: string)
    ensures ReadString(Escape(s)) == Some(s)
    ensures forall c :: c in s ==> EscapedAsNeeded(c)
  {
    ReadsBack(s);
    forall c | c in s
      ensures EscapedAsNeeded(c)
    {
      EscapedOnlyAsNeeded(c);
    }
  }

  // ---------------------------------------------------------------- JSON numbers

  /** The parts of a number as section 6 of RFC 8259 spells it. */
  datatype Numeral = Numeral(negative: bool, whole: string, fraction: string, exponent: Option<int>)

  predicate WellSpelled(m: Numeral) {
    && m.whole != "" && AllDigits(m.whole) && (m.whole[0] == '0' ==> m.whole == "0")
    && AllDigits(m.fraction)
  }

  function FractionPart(m: Numeral): string {
    if m.fraction == "" then "" else ['.'] + m.fraction
  }

  function ExponentPart(m: Numeral): string {
    match m.exponent
    case None => ""
    case Some(k) => ['e'] + (if k >= 0 then "+" + Print(k) else "-" + Print(-k))
  }

  function Spelled(m: Numeral): string {
    var unsigned := m.whole + FractionPart(m) + ExponentPart(m);
    if m.negative then "-" + unsigned else unsigned
  }

  function Shift(m: Numeral): int {
    if m.exponent.Some? then m.exponent.value else 0
  }

  /** The digits with the point where the exponent puts it are `ds` with the point after `point` of them. */
  predicate Denotes(m: Numeral, ds: seq<nat>, point: int, lead: nat, trail: nat)
    requires IsDigits(ds)
  {
    && m.whole + m.fraction == Zeros(lead) + DigitText(ds) + Zeros(trail)
    && |m.whole| + Shift(m) == point + lead
  }

  /** A numeral for the number, with an exponent exactly from 10^21 up and below 10^-6, and no digit not needed. */
  predicate SpellsOut(m: Numeral, ds: seq<nat>, point: int, lead: nat, trail: nat)
    requires IsDigits(ds)
  {
    && WellSpelled(m) && Denotes(m, ds, point, lead, trail)
    && (m.exponent.Some? <==> point > 21 || point <= -6)
    && (m.exponent.Some? ==> |m.whole| == 1)
    && (m.fraction != "" ==> trail == 0)
  }

  lemma WholeIsSpelled(ds: seq<nat>, point: int) returns (m: Numeral)
    requires Significant(ds) && |ds| <= point <= 21
    ensures !m.negative && SpellsOut(m, ds, point, 0, point - |ds|)
    ensures PositiveText(ds, point) == Spelled(m)
  {
    EndsAreNotZero(ds);
    m := Numeral(false, DigitText(ds) + Zeros(point - |ds|), "", None);
    assert m.whole[0] == DigitText(ds)[0];
  }

  lemma MixedIsSpelled(ds: seq<nat>, point: int) returns (m: Numeral)
    requires Significant(ds) && 0 < point < |ds|
    ensures !m.negative && SpellsOut(m, ds, point, 0, 0)
    ensures PositiveText(ds, point) == Spelled(m)
  {
    EndsAreNotZero(ds);
    m := Numeral(false, DigitText(ds[..point]), DigitText(ds[point..]), None);
    assert m.whole[0] == DigitText(ds)[0];
    assert m.whole + m.fraction == DigitText(ds);
  }

  lemma SmallIsSpelled(ds: seq<nat>, point: int) returns (m: Numeral)
    requires Significant(ds) && -6 < point <= 0
    ensures !m.negative && SpellsOut(m, ds, point, 1 - point, 0)
    ensures PositiveText(ds, point) == Spelled(m)
  {
    m := Numeral(false, "0", Zeros(-point) + DigitText(ds), None);
    assert m.whole + m.fraction == Zeros(1 - point) + DigitText(ds);
  }

  lemma ExponentIsSpelled(ds: seq<nat>, point: int) returns (m: Numeral)
    requires Significant(ds) && (point > 21 || point <= -6)
    ensures !m.negative && SpellsOut(m, ds, point, 0, 0)
    ensures PositiveText(ds, point) == Spelled(m)
  {
    EndsAreNotZero(ds);
    m := Numeral(false, DigitText(ds[..1]), DigitText(ds[1..]), Some(point - 1));
    assert m.whole[0] == DigitText(ds)[0];
    assert m.whole + m.fraction == DigitText(ds);
    ExponentParts(ds, point, m);
  }

  lemma ExponentParts(ds: seq<nat>, point: int, m: Numeral)
    requires Significant(ds) && (point > 21 || point <= -6)
    requires m == Numeral(false, DigitText(ds[..1]), DigitText(ds[1..]), Some(point - 1))
    ensures PositiveText(ds, point) == Spelled(m)
  {
    MantissaParts(ds, m);
    assert ShiftText(point) == if point - 1 >= 0 then "+" + Print(point - 1) else "-" + Print(-(point - 1));
    Assoc(Mantissa(ds), ['e'], ShiftText(point));
  }

  lemma MantissaParts(ds: seq<nat>, m: Numeral)
    requires Significant(ds) && m.whole == DigitText(ds[..1]) && m.fraction == DigitText(ds[1..])
    ensures Mantissa(ds) == m.whole + FractionPart(m)
  {
    if |ds| == 1 {
      assert ds[..1] == ds && m.fraction == "";
    } else {
      Assoc(m.whole, ['.'], m.fraction);
    }
  }

  lemma PositiveIsSpelled(ds: seq<nat>, point: int) returns (m: Numeral, lead: nat, trail: nat)
    requires Significant(ds)
    ensures !m.negative && SpellsOut(m, ds, point, lead, trail)
    ensures PositiveText(ds, point) == Spelled(m)
  {
    lead, trail := 0, 0;
    if |ds| <= point <= 21 {
      m := WholeIsSpelled(ds, point);
      trail := point - |ds|;
    } else if 0 < point < |ds| {
      m := MixedIsSpelled(ds, point);
    } else if -6 < point <= 0 {
      m := SmallIsSpelled(ds, point);
      lead := 1 - point;
    } else {
      m := ExponentIsSpelled(ds, point);
    }
  }

  lemma SignInFront(p: Numeral, negative: bool)
    requires !p.negative
    ensures (if negative then "-" else "") + Spelled(p) == Spelled(p.(negative := negative))
  {
    var text := p.whole + FractionPart(p) + ExponentPart(p);
    assert "" + text == text;
  }

  /** Every finite number is written as JSON has numbers written, and denotes itself. */
  lemma NumberIsSpelled(n: Number) returns (m: Numeral, lead: nat, trail: nat)
    requires WellFormedNumber(n)
    ensures NumberText(n) == Spelled(m)
    ensures n.Zero? ==> m == Numeral(false, "0", "", None)
    ensures n.Decimal? ==> m.negative == n.negative && SpellsOut(m, n.digits, n.point, lead, trail)
  {
    match n
    case Zero =>
      m, lead, trail := Numeral(false, "0", "", None), 0, 0;
    case Decimal(negative, digits, point) =>
      var p;
      p, lead, trail := PositiveIsSpelled(digits, point);
      m := p.(negative := negative);
      SignInFront(p, negative);
  }

  // ---------------------------------------------------------------- UTF-16 and UTF-8

  /** The code point that one code unit, or a pair of surrogates, stands for. */
  function FromUtf16(u: seq<int>): Option<int> {
    if |u| == 1 && 0 <= u[0] < 0x10000 && !(0xD800 <= u[0] < 0xE000) then Some(u[0])
    else if |u| == 2 && 0xD800 <= u[0] < 0xDC00 && 0xDC00 <= u[1] < 0xE000 then
      Some(0x10000 + (u[0] - 0xD800) * 0x400 + (u[1] - 0xDC00))
    else None
  }

  /** Keys are compared as UTF-16, where a character outside the basic plane comes before some inside it. */
  lemma UnitsAreUtf16(c: char)
    ensures FromUtf16(UnitsOf(c)) == Some(c as int)
    ensures forall i :: 0 <= i < |UnitsOf(c)| ==> 0 <= UnitsOf(c)[i] < 0x10000
    ensures c as int >= 0x10000 ==> Lex(Units([c]), Units(['\U{E000}'])) && !Lex(Units(['\U{E000}']), Units([c]))
  {
    var n := c as int - 0x10000;
    assert c as int >= 0x10000 ==> 0 <= n < 0x100000 && n == (n / 0x400) * 0x400 + n % 0x400;
    assert Units(['\U{E000}']) == [0xE000];
  }

  /** The bytes of a character in UTF-8. */
  function Utf8(c: char): seq<int> {
    var n := c as int;
    var a := n / 64;
    var b := a / 64;
    if n < 0x80 then [n]
    else if n < 0x800 then [0xC0 + a, 0x80 + n % 64]
    else if n < 0x10000 then [0xE0 + b, 0x80 + a % 64, 0x80 + n % 64]
    else [0xF0 + b / 64, 0x80 + b % 64, 0x80 + a % 64, 0x80 + n % 64]
  }

  predicate IsTail(b: int) {
    0x80 <= b < 0xC0
  }

  /** The code point some bytes stand for, the shortest form only, as section 3 of RFC 3629 has it. */
  function FromUtf8(b: seq<int>): Option<int> {
    if |b| == 1 && 0 <= b[0] < 0x80 then Some(b[0])
    else if |b| == 2 && 0xC2 <= b[0] < 0xE0 && IsTail(b[1]) then Some((b[0] - 0xC0) * 64 + (b[1] - 0x80))
    else if |b| == 3 && 0xE0 <= b[0] < 0xF0 && IsTail(b[1]) && IsTail(b[2]) && (b[0] == 0xE0 ==> b[1] >= 0xA0) then
      Some((b[0] - 0xE0) * 4096 + (b[1] - 0x80) * 64 + (b[2] - 0x80))
    else if |b| == 4 && 0xF0 <= b[0] < 0xF5 && IsTail(b[1]) && IsTail(b[2]) && IsTail(b[3]) && (b[0] == 0xF0 ==> b[1] >= 0x90) then
      Some((b[0] - 0xF0) * 262144 + (b[1] - 0x80) * 4096 + (b[2] - 0x80) * 64 + (b[3] - 0x80))
    else None
  }

  function Utf8Of(s: string): seq<int> {
    if s == "" then [] else Utf8(s[0]) + Utf8Of(s[1..])
  }

  lemma Utf8ReadsBack(c: char)
    ensures FromUtf8(Utf8(c)) == Some(c as int)
  {
    var n := c as int;
    var a := n / 64;
    var b := a / 64;
    assert n == a * 64 + n % 64 && a == b * 64 + a % 64 && b == b / 64 * 64 + b % 64;
  }

  /** The length in front of a field is the number of bytes the value takes in UTF-8. */
  lemma {:induction false} LengthInBytes(s: string)
    ensures |Utf8Of(s)| == ByteLength(s)
    ensures forall i :: 0 <= i < |s| ==> FromUtf8(Utf8(s[i])) == Some(s[i] as int)
  {
    if s != "" {
      Utf8ReadsBack(s[0]);
      assert |Utf8(s[0])| == CharBytes(s[0]);
      LengthInBytes(s[1..]);
      assert s == [s[0]] + s[1..];
    }
  }

  // ---------------------------------------------------------------- years, digests and fields

  /** Four digits for the years 0 to 9999, a sign and six for the others, and the digits are the year's. */
  lemma YearReadsBack(year: int)
    requires -271821 <= year <= 275760
    ensures var s := YearText(year);
            && (0 <= year <= 9999 ==> |s| == 4 && AllDigits(s) && Parse(s) == year)
            && (year < 0 ==> |s| == 7 && s[0] == '-' && AllDigits(s[1..]) && Parse(s[1..]) == -year)
            && (year > 9999 ==> |s| == 7 && s[0] == '+' && AllDigits(s[1..]) && Parse(s[1..]) == year)
  {
    assert Pow10(4) == 10000 && Pow10(6) == 1000000;
    if 0 <= year <= 9999 {
      ParsePad(year, 4);
    } else {
      ParsePad(if year < 0 then -year else year, 6);
      assert YearText(year)[1..] == Pad(if year < 0 then -year else year, 6);
    }
  }

  /** Chain hashes are the 64-digit lower-case hex strings, and what the log starts from is the one that is zero. */
  lemma ChainHashIsHex(s: string)
    ensures IsChainHash(s) <==> |s| == 64 && forall i :: 0 <= i < |s| ==> s[i] in HEX
    ensures IsChainHash(GenesisHash()) && forall i :: 0 <= i < 64 ==> GenesisHash()[i] == '0'
  {
    forall i | 0 <= i < |s|
      ensures s[i] in HEX <==> '0' <= s[i] <= '9' || 'a' <= s[i] <= 'f'
    {
      var n := HexValue(s[i]);
      assert '0' <= s[i] <= '9' || 'a' <= s[i] <= 'f' ==> HEX[n] == s[i];
    }
  }

  /** The field of a name, and there is no other of that name. */
  predicate Holds(fields: seq<Field>, i: nat, name: FieldName, value: Option<string>) {
    && i < |fields| && fields[i] == Field(name, value)
    && forall j :: 0 <= j < |fields| && j != i ==> fields[j].name != name
  }

  /** Everything recorded is hashed, each under its own name and no name twice. */
  lemma EachUnderItsName(e: AuditEntry)
    requires Encodable(e)
    ensures |Fields(e)| == 11
    ensures Holds(Fields(e), 0, FVersion, Some(PREIMAGE_VERSION))
    ensures Holds(Fields(e), 1, FSeq, Some(PrintInt(e.seqNo)))
    ensures Holds(Fields(e), 2, FOccurredAt, Some(IsoText(e.occurredAt)))
    ensures Holds(Fields(e), 3, FAction, Some(e.action))
    ensures Holds(Fields(e), 4, FResourceType, Some(e.resourceType))
    ensures Holds(Fields(e), 5, FResourceId, Some(e.resourceId))
    ensures Holds(Fields(e), 6, FActorId, e.actorId)
    ensures Holds(Fields(e), 7, FActorRole, e.actorRole)
    ensures Holds(Fields(e), 8, FCorrelationId, e.correlationId)
    ensures Canonical(e.details).Ok? && Holds(Fields(e), 9, FDetails, Some(Canonical(e.details).value))
    ensures Holds(Fields(e), 10, FPrevHash, Some(e.prevHash))
  {
    CanonicalPrints(e.details);
    ListedByName(e, PrintInt(e.seqNo), IsoText(e.occurredAt), DetailsText(e));
  }

  lemma ListedByName(e: AuditEntry, number: string, at: string, details: string)
    ensures var fields := FieldList(e, number, at, details);
            && |fields| == 11
            && Holds(fields, 0, FVersion, Some(PREIMAGE_VERSION)) && Holds(fields, 1, FSeq, Some(number))
            && Holds(fields, 2, FOccurredAt, Some(at)) && Holds(fields, 3, FAction, Some(e.action))
            && Holds(fields, 4, FResourceType, Some(e.resourceType)) && Holds(fields, 5, FResourceId, Some(e.resourceId))
            && Holds(fields, 6, FActorId, e.actorId) && Holds(fields, 7, FActorRole, e.actorRole)
            && Holds(fields, 8, FCorrelationId, e.correlationId) && Holds(fields, 9, FDetails, Some(details))
            && Holds(fields, 10, FPrevHash, Some(e.prevHash))
  {
  }
}
