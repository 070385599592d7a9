/** Audit entries and the exact text each one is hashed as. */
module AuditEntry {
  import opened Common
  import opened Json
  import opened Decimal
  import opened CanonicalJson

  /** An instant as its UTC calendar fields, to the millisecond the column keeps. */
  datatype Instant = Instant(year: int, month: nat, day: nat, hour: nat, minute: nat, second: nat, milli: nat)

  predicate ValidInstant(t: Instant) {
    && -271821 <= t.year <= 275760
    && 1 <= t.month <= 12 && 1 <= t.day <= 31
    && t.hour < 24 && t.minute < 60 && t.second < 60 && t.milli < 1000
  }

  /** Four digits, or a sign and six outside the years 0 to 9999. */
  function YearText(year: int): string {
    if 0 <= year <= 9999 then Pad(year, 4)
    else if year < 0 then "-" + Pad(-year, 6)
    else "+" + Pad(year, 6)
  }

  function ClockText(t: Instant): (s: string)
    ensures |s| == 20
    ensures s[1..3] == Pad(t.month, 2) && s[4..6] == Pad(t.day, 2)
    ensures s[7..9] == Pad(t.hour, 2) && s[10..12] == Pad(t.minute, 2)
    ensures s[13..15] == Pad(t.second, 2) && s[16..19] == Pad(t.milli, 3)
  {
    "-" + Pad(t.month, 2) + "-" + Pad(t.day, 2) + "T" + Pad(t.hour, 2) + ":" + Pad(t.minute, 2) + ":"
    + Pad(t.second, 2) + "." + Pad(t.milli, 3) + "Z"
  }

  /** `toISOString()`. */
  function IsoText(t: Instant): string {
    YearText(t.year) + ClockText(t)
  }

  lemma YearInjective(a: int, b: int)
    requires -271821 <= a <= 275760 && -271821 <= b <= 275760 && YearText(a) == YearText(b)
    ensures a == b
  {
    assert Pow10(4) == 10000 && Pow10(6) == 1000000;
    var s, t := YearText(a), YearText(b);
    assert |s| == 4 <==> 0 <= a <= 9999;
    assert |t| == 4 <==> 0 <= b <= 9999;
    if |s| == 4 {
      PadInjective(a, b, 4);
    } else {
      assert s[0] == t[0] && s[1..] == t[1..];
      var x, y := if a < 0 then -a else a, if b < 0 then -b else b;
      assert s[1..] == Pad(x, 6) && t[1..] == Pad(y, 6);
      PadInjective(x, y, 6);
    }
  }

  /** No two instants are written alike. */
  lemma IsoInjective(a: Instant, b: Instant)
    requires ValidInstant(a) && ValidInstant(b) && IsoText(a) == IsoText(b)
    ensures a == b
  {
    ConcatUnique(YearText(a.year), YearText(b.year), ClockText(a), ClockText(b));
    YearInjective(a.year, b.year);
    assert Pow10(2) == 100 && Pow10(3) == 1000;
    PadInjective(a.month, b.month, 2);
    PadInjective(a.day, b.day, 2);
    PadInjective(a.hour, b.hour, 2);
    PadInjective(a.minute, b.minute, 2);
    PadInjective(a.second, b.second, 2);
    PadInjective(a.milli, b.milli, 3);
  }

  datatype AuditEntry = AuditEntry(
    seqNo: int,
    occurredAt: Instant,
    action: string,
    resourceType: string,
    resourceId: string,
    details: Value,
    actorId: Option<string>,
    actorRole: Option<string>,
    correlationId: Option<string>,
    prevHash: string,
    hash: string)

  /** What the table holds: real timestamps and JSON details. */
  predicate Encodable(e: AuditEntry) {
    ValidInstant(e.occurredAt) && WellFormedValue(e.details) && IsJson(e.details)
  }

  // ---------------------------------------------------------------- the preimage

  function CharBytes(c: char): nat {
    var n := c as int;
    if n < 0x80 then 1 else if n < 0x800 then 2 else if n < 0x10000 then 3 else 4
  }

  /** `Buffer.byteLength(s, "utf8")`. */
  function ByteLength(s: string): nat {
    if s == "" then 0 else CharBytes(s[0]) + ByteLength(s[1..])
  }

  datatype FieldName = FVersion | FSeq | FOccurredAt | FAction | FResourceType | FResourceId
                     | FActorId | FActorRole | FCorrelationId | FDetails | FPrevHash

  function NameText(n: FieldName): string {
    match n
    case FVersion => "version"
    case FSeq => "seq"
    case FOccurredAt => "occurredAt"
    case FAction => "action"
    case FResourceType => "resourceType"
    case FResourceId => "resourceId"
    case FActorId => "actorId"
    case FActorRole => "actorRole"
    case FCorrelationId => "correlationId"
    case FDetails => "details"
    case FPrevHash => "prevHash"
  }

  datatype Field = Field(name: FieldName, value: Option<string>)

  /** One field, its length in front of its value; a missing value has a marker of its own. */
  function NamedText(name: string, value: Option<string>): string {
    match value
    case None => name + ":null\n"
    case Some(v) => name + ":" + Print(ByteLength(v)) + ":" + v + "\n"
  }

  function FieldText(f: Field): string {
    NamedText(NameText(f.name), f.value)
  }

  function FieldsText(fields: seq<Field>): string {
    if fields == [] then "" else FieldText(fields[0]) + FieldsText(fields[1..])
  }

  const PREIMAGE_VERSION := "audit-chain-v1"

  /** The fields in order, given the texts of the three that need encoding. */
  function FieldList(e: AuditEntry, seqText: string, at: string, details: string): seq<Field> {
    [Field(FVersion, Some(PREIMAGE_VERSION)),
     Field(FSeq, Some(seqText)),
     Field(FOccurredAt, Some(at)),
     Field(FAction, Some(e.action)),
     Field(FResourceType, Some(e.resourceType)),
     Field(FResourceId, Some(e.resourceId)),
     Field(FActorId, e.actorId),
     Field(FActorRole, e.actorRole),
     Field(FCorrelationId, e.correlationId),
     Field(FDetails, Some(details)),
     Field(FPrevHash, Some(e.prevHash))]
  }

  function DetailsText(e: AuditEntry): string
    requires Encodable(e)
  {
    CanonicalPrints(e.details);
    Canonical(e.details).value
  }

  function Fields(e: AuditEntry): seq<Field>
    requires Encodable(e)
  {
    FieldList(e, PrintInt(e.seqNo), IsoText(e.occurredAt), DetailsText(e))
  }

  /** The text hashed for an entry. */
  function Preimage(e: AuditEntry): string
    requires Encodable(e)
  {
    FieldsText(Fields(e))
  }

  // ---------------------------------------------------------------- no two entries alike

  lemma {:induction false} ByteLengthConcat(a: string, b: string)
    ensures ByteLength(a + b) == ByteLength(a) + ByteLength(b)
  {
    if a == "" {
      assert a + b == b;
    } else {
      assert (a + b)[1..] == a[1..] + b;
      ByteLengthConcat(a[1..], b);
    }
  }

  /** Equal byte lengths make one of two overlapping prefixes exactly as long as the other. */
  lemma SameBytesSamePrefix(a: string, b: string, x: string, y: string)
    requires ByteLength(a) == ByteLength(b) && a + x == b + y
    ensures a == b && x == y
  {
    if |a| < |b| {
      PrefixIsShorter(a, b, x, y);
    } else if |b| < |a| {
      PrefixIsShorter(b, a, y, x);
    }
    ConcatUnique(a, b, x, y);
  }

  lemma PrefixIsShorter(a: string, b: string, x: string, y: string)
    requires |a| < |b| && a + x == b + y
    ensures ByteLength(a) < ByteLength(b)
  {
    var tail := b[|a|..];
    assert b == (b + y)[..|b|];
    assert a == (a + x)[..|a|];
    assert b == a + tail;
    ByteLengthConcat(a, tail);
    assert ByteLength(tail) >= CharBytes(tail[0]) >= 1;
  }

  lemma NullIsNotDigits(name: string, v: string, x: string, y: string)
    ensures NamedText(name, None) + x != NamedText(name, Some(v)) + y
  {
    var s, t := NamedText(name, None) + x, NamedText(name, Some(v)) + y;
    assert s[|name| + 1] == 'n';
    assert t[|name| + 1] == Print(ByteLength(v))[0];
  }

  /** A field's value, and where it ends, can be read off the text whatever the value contains. */
  lemma FieldInjective(name: string, v: Option<string>, w: Option<string>, x: string, y: string)
    requires NamedText(name, v) + x == NamedText(name, w) + y
    ensures v == w && x == y
  {
    if v.None? && w.None? {
      ConcatUnique(name + ":null\n", name + ":null\n", x, y);
    } else if v.None? {
      NullIsNotDigits(name, w.value, x, y);
    } else if w.None? {
      NullIsNotDigits(name, v.value, y, x);
    } else {
      ValueInjective(name, v.value, w.value, x, y);
    }
  }

  lemma ValueBefore(name: string, v: string, x: string)
    ensures NamedText(name, Some(v)) + x == (name + ":") + (Print(ByteLength(v)) + [':'] + (v + (['\n'] + x)))
  {
  }

  lemma ValueInjective(name: string, v: string, w: string, x: string, y: string)
    requires NamedText(name, Some(v)) + x == NamedText(name, Some(w)) + y
    ensures v == w && x == y
  {
    var m, n := Print(ByteLength(v)), Print(ByteLength(w));
    var s, t := v + (['\n'] + x), w + (['\n'] + y);
    ValueBefore(name, v, x);
    ValueBefore(name, w, y);
    ConcatUnique(name + ":", name + ":", m + [':'] + s, n + [':'] + t);
    NoChar(m, ':');
    NoChar(n, ':');
    SplitUnique(m, n, ':', s, t);
    PrintInjective(ByteLength(v), ByteLength(w));
    SameBytesSamePrefix(v, w, ['\n'] + x, ['\n'] + y);
    ConcatUnique(['\n'], ['\n'], x, y);
  }

  lemma {:induction false} FieldsInjective(a: seq<Field>, b: seq<Field>)
    requires |a| == |b| && forall i :: 0 <= i < |a| ==> a[i].name == b[i].name
    requires FieldsText(a) == FieldsText(b)
    ensures a == b
  {
    if a != [] {
      FieldInjective(NameText(a[0].name), a[0].value, b[0].value, FieldsText(a[1..]), FieldsText(b[1..]));
      FieldsInjective(a[1..], b[1..]);
      assert a == [a[0]] + a[1..] && b == [b[0]] + b[1..];
    }
  }

  /** The same entry, stored hash aside; details are compared as JSON values. */
  predicate SameContent(a: AuditEntry, b: AuditEntry) {
    && a.seqNo == b.seqNo && a.occurredAt == b.occurredAt
    && a.action == b.action && a.resourceType == b.resourceType && a.resourceId == b.resourceId
    && a.actorId == b.actorId && a.actorRole == b.actorRole && a.correlationId == b.correlationId
    && a.prevHash == b.prevHash
    && Same(a.details, b.details)
  }

  lemma SameFieldList(a: AuditEntry, s: string, p: string, x: string, b: AuditEntry, t: string, q: string, y: string)
    ensures FieldList(a, s, p, x) == FieldList(b, t, q, y) <==>
            && s == t && p == q && x == y
            && a.action == b.action && a.resourceType == b.resourceType && a.resourceId == b.resourceId
            && a.actorId == b.actorId && a.actorRole == b.actorRole && a.correlationId == b.correlationId
            && a.prevHash == b.prevHash
  {
    var f, g := FieldList(a, s, p, x), FieldList(b, t, q, y);
    if f == g {
      assert f[1] == g[1] && f[2] == g[2] && f[3] == g[3] && f[4] == g[4] && f[5] == g[5];
      assert f[6] == g[6] && f[7] == g[7] && f[8] == g[8] && f[9] == g[9] && f[10] == g[10];
    }
  }

  lemma SameDetails(a: AuditEntry, b: AuditEntry)
    requires Encodable(a) && Encodable(b)
    ensures DetailsText(a) == DetailsText(b) <==> Same(a.details, b.details)
  {
    CanonicalIdentifies(a.details, b.details);
  }

  lemma SameNumber(a: int, b: int)
    ensures PrintInt(a) == PrintInt(b) <==> a == b
  {
    if PrintInt(a) == PrintInt(b) {
      PrintIntInjective(a, b);
    }
  }

  lemma SameInstant(a: Instant, b: Instant)
    requires ValidInstant(a) && ValidInstant(b)
    ensures IsoText(a) == IsoText(b) <==> a == b
  {
    if IsoText(a) == IsoText(b) {
      IsoInjective(a, b);
    }
  }

  lemma NamesAgree(a: AuditEntry, s: string, p: string, x: string, b: AuditEntry, t: string, q: string, y: string)
    ensures var f, g := FieldList(a, s, p, x), FieldList(b, t, q, y);
            |f| == |g| && forall i :: 0 <= i < |f| ==> f[i].name == g[i].name
  {
  }

  lemma SamePreimageSameFields(a: AuditEntry, b: AuditEntry)
    requires Encodable(a) && Encodable(b) && Preimage(a) == Preimage(b)
    ensures Fields(a) == Fields(b)
  {
    NamesAgree(a, PrintInt(a.seqNo), IsoText(a.occurredAt), DetailsText(a), b, PrintInt(b.seqNo), IsoText(b.occurredAt), DetailsText(b));
    FieldsInjective(Fields(a), Fields(b));
  }

  /** Two entries are hashed as the same text exactly when they have the same content. */
  lemma PreimageIdentifies(a: AuditEntry, b: AuditEntry)
    requires Encodable(a) && Encodable(b)
    ensures Preimage(a) == Preimage(b) <==> SameContent(a, b)
  {
    var s, p, x := PrintInt(a.seqNo), IsoText(a.occurredAt), DetailsText(a);
    var t, q, y := PrintInt(b.seqNo), IsoText(b.occurredAt), DetailsText(b);
    SameDetails(a, b);
    SameNumber(a.seqNo, b.seqNo);
    SameInstant(a.occurredAt, b.occurredAt);
    SameFieldList(a, s, p, x, b, t, q, y);
    if Preimage(a) == Preimage(b) {
      SamePreimageSameFields(a, b);
    }
  }
}
