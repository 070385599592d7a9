/** JSON text: how values are printed, and why a printed value can be read back in only one way. */
module JsonText {
  import opened Json
  import opened Decimal
  import opened Numbers

  // ---------------------------------------------------------------- strings

  const HEX := "0123456789abcdef"

  /** One character inside a quoted string, as section 7 of RFC 8259 has it escaped. */
  function EscapeChar(c: char): (s: string)
    ensures s != "" && s[0] != '"'
    ensures |s| == 1 ==> s == [c] && c != '\\'
    ensures |s| > 1 ==> s[0] == '\\'
  {
    if c == '"' then "\\\""
    else if c == '\\' then "\\\\"
    else if c == '\U{0008}' then "\\b"
    else if c == '\U{000C}' then "\\f"
    else if c == '\n' then "\\n"
    else if c == '\r' then "\\r"
    else if c == '\t' then "\\t"
    else if c as int < 0x20 then "\\u00" + [HEX[c as int / 16], HEX[c as int % 16]]
    else [c]
  }

  function Escape(s: string): string {
    if s == "" then "" else EscapeChar(s[0]) + Escape(s[1..])
  }

  /** `JSON.stringify` of a string. */
  function Quote(s: string): string {
    "\"" + Escape(s) + "\""
  }

  /** The escaped string, its closing quote, and what follows. */
  function EscapeThen(s: string, rest: string): string {
    if s == "" then ['"'] + rest else EscapeChar(s[0]) + EscapeThen(s[1..], rest)
  }

  lemma {:induction false} EscapeBefore(s: string, rest: string)
    ensures Escape(s) + (['"'] + rest) == EscapeThen(s, rest)
  {
    if s == "" {
      assert Escape(s) + (['"'] + rest) == ['"'] + rest;
    } else {
      EscapeBefore(s[1..], rest);
      Assoc(EscapeChar(s[0]), Escape(s[1..]), ['"'] + rest);
    }
  }

  lemma QuoteBefore(s: string, rest: string)
    ensures Quote(s) + rest == ['"'] + EscapeThen(s, rest)
  {
    EscapeBefore(s, rest);
    assert Quote(s) + rest == ['"'] + (Escape(s) + (['"'] + rest));
  }

  lemma HexInjective(a: int, b: int)
    requires 0 <= a < 16 && 0 <= b < 16 && HEX[a] == HEX[b]
    ensures a == b
  {
  }

  /** The escape of one character tells it from every other, whatever follows. */
  lemma EscapeCharInjective(c: char, d: char, x: string, y: string)
    requires EscapeChar(c) + x == EscapeChar(d) + y
    ensures c == d && x == y
  {
    var s, t := EscapeChar(c), EscapeChar(d);
    assert (s + x)[0] == s[0] && (t + y)[0] == t[0];
    if |s| > 1 && |t| > 1 {
      assert (s + x)[1] == s[1] && (t + y)[1] == t[1];
      assert |s| == |t|;
      ConcatUnique(s, t, x, y);
      if |s| == 6 {
        assert s[4] == t[4] && s[5] == t[5];
        HexInjective(c as int / 16, d as int / 16);
        HexInjective(c as int % 16, d as int % 16);
      }
    } else {
      assert |s| == |t|;
      ConcatUnique(s, t, x, y);
    }
  }

  lemma EscapeThenLead(s: string, rest: string)
    ensures EscapeThen(s, rest) != "" && (EscapeThen(s, rest)[0] == '"' <==> s == "")
  {
    if s != "" {
      assert EscapeThen(s, rest)[0] == EscapeChar(s[0])[0];
    }
  }

  lemma {:induction false} EscapeThenInjective(a: string, b: string, x: string, y: string)
    requires EscapeThen(a, x) == EscapeThen(b, y)
    ensures a == b && x == y
  {
    EscapeThenLead(a, x);
    EscapeThenLead(b, y);
    if a == "" {
      ConcatUnique(['"'], ['"'], x, y);
    } else {
      EscapeCharInjective(a[0], b[0], EscapeThen(a[1..], x), EscapeThen(b[1..], y));
      EscapeThenInjective(a[1..], b[1..], x, y);
      assert a == [a[0]] + a[1..] && b == [b[0]] + b[1..];
    }
  }

  // ---------------------------------------------------------------- printing in the order given

  predicate Printable(v: Value) {
    WellFormedValue(v) && IsJson(v)
  }

  predicate PrintableItems(items: seq<Value>) {
    forall i :: 0 <= i < |items| ==> Printable(items[i])
  }

  predicate PrintableMembers(members: seq<Member<Value>>) {
    forall i :: 0 <= i < |members| ==> Printable(members[i].value)
  }

  /** A value printed in front of `rest`, members in the order they are in. */
  function PrintThen(v: Value, rest: string): string
    requires Printable(v)
  {
    match v
    case JNull => "null" + rest
    case JBool(b) => (if b then "true" else "false") + rest
    case JNumber(n) => NumberText(n) + rest
    case JString(s) => ['"'] + EscapeThen(s, rest)
    case JArray(items) => ['['] + ItemsThen(items, rest)
    case JObject(members) => ['{'] + MembersThen(members, rest)
  }

  function ItemsThen(items: seq<Value>, rest: string): string
    requires PrintableItems(items)
    decreases items, 1
  {
    if items == [] then [']'] + rest else PrintThen(items[0], AfterItem(items[1..], rest))
  }

  function AfterItem(items: seq<Value>, rest: string): string
    requires PrintableItems(items)
    decreases items, 2
  {
    if items == [] then [']'] + rest else [','] + ItemsThen(items, rest)
  }

  function MembersThen(members: seq<Member<Value>>, rest: string): string
    requires PrintableMembers(members)
    decreases members, 1
  {
    if members == [] then ['}'] + rest
    else ['"'] + EscapeThen(members[0].key, [':'] + PrintThen(members[0].value, AfterMember(members[1..], rest)))
  }

  function AfterMember(members: seq<Member<Value>>, rest: string): string
    requires PrintableMembers(members)
    decreases members, 2
  {
    if members == [] then ['}'] + rest else [','] + MembersThen(members, rest)
  }

  /** What may follow a value: the end, a separator or a closing bracket. */
  predicate Delimited(rest: string) {
    rest == "" || rest[0] == ',' || rest[0] == ']' || rest[0] == '}'
  }

  lemma NumberInjective(a: Number, b: Number, x: string, y: string)
    requires WellFormedNumber(a) && WellFormedNumber(b) && Delimited(x) && Delimited(y)
    requires NumberText(a) + x == NumberText(b) + y
    ensures a == b && x == y
  {
    NumberAlphabet(a);
    NumberAlphabet(b);
    MunchUnique(NumberText(a), NumberText(b), x, y);
    NumberTextInjective(a, b);
  }

  /** A number ends where its alphabet does. */
  lemma MunchUnique(p: string, q: string, x: string, y: string)
    requires forall i :: 0 <= i < |p| ==> IsNumberChar(p[i])
    requires forall i :: 0 <= i < |q| ==> IsNumberChar(q[i])
    requires Delimited(x) && Delimited(y) && p + x == q + y
    ensures p == q && x == y
  {
    var s := p + x;
    assert forall i :: 0 <= i < |p| ==> s[i] == p[i];
    assert forall i :: 0 <= i < |q| ==> s[i] == q[i];
    assert |p| < |s| ==> s[|p|] == x[0];
    assert |q| < |s| ==> s[|q|] == y[0];
    assert |p| == |q|;
    ConcatUnique(p, q, x, y);
  }

  datatype Kind = KNull | KBool(b: bool) | KNumber | KString | KArray | KObject

  function KindOf(v: Value): Kind
    requires IsJson(v)
  {
    match v
    case JNull => KNull
    case JBool(b) => KBool(b)
    case JNumber(_) => KNumber
    case JString(_) => KString
    case JArray(_) => KArray
    case JObject(_) => KObject
  }

  /** The first character of a printed value tells its kind. */
  function KindOfLead(c: char): Kind {
    if c == 'n' then KNull
    else if c == 't' then KBool(true)
    else if c == 'f' then KBool(false)
    else if c == '"' then KString
    else if c == '[' then KArray
    else if c == '{' then KObject
    else KNumber
  }

  lemma LeadOf(v: Value, rest: string)
    requires Printable(v)
    ensures PrintThen(v, rest) != ""
    ensures var c := PrintThen(v, rest)[0]; KindOfLead(c) == KindOf(v) && c != ']'
  {
    match v
    case JNumber(n) => NumberAlphabet(n);
    case _ =>
  }

  /** Where a printed value ends, and which value it is, can be read off the text. */
  lemma {:induction false} PrintThenInjective(a: Value, b: Value, x: string, y: string)
    requires Printable(a) && Printable(b) && Delimited(x) && Delimited(y)
    requires PrintThen(a, x) == PrintThen(b, y)
    ensures a == b && x == y
    decreases a, 0
  {
    LeadOf(a, x);
    LeadOf(b, y);
    match KindOf(a)
    case KNull => ConcatUnique("null", "null", x, y);
    case KBool(t) => ConcatUnique(if t then "true" else "false", if t then "true" else "false", x, y);
    case KNumber => NumberInjective(a.n, b.n, x, y);
    case KString =>
      ConcatUnique(['"'], ['"'], EscapeThen(a.s, x), EscapeThen(b.s, y));
      EscapeThenInjective(a.s, b.s, x, y);
    case KArray =>
      ConcatUnique(['['], ['['], ItemsThen(a.items, x), ItemsThen(b.items, y));
      ItemsThenInjective(a.items, b.items, x, y);
    case KObject =>
      ConcatUnique(['{'], ['{'], MembersThen(a.members, x), MembersThen(b.members, y));
      MembersThenInjective(a.members, b.members, x, y);
  }

  lemma {:induction false} ItemsThenInjective(a: seq<Value>, b: seq<Value>, x: string, y: string)
    requires PrintableItems(a) && PrintableItems(b)
    requires ItemsThen(a, x) == ItemsThen(b, y)
    ensures a == b && x == y
    decreases a, 1
  {
    if a != [] {
      LeadOf(a[0], AfterItem(a[1..], x));
    }
    if b != [] {
      LeadOf(b[0], AfterItem(b[1..], y));
    }
    assert a == [] ==> ItemsThen(a, x)[0] == ']';
    assert b == [] ==> ItemsThen(b, y)[0] == ']';
    if a == [] {
      ConcatUnique([']'], [']'], x, y);
    } else {
      PrintThenInjective(a[0], b[0], AfterItem(a[1..], x), AfterItem(b[1..], y));
      AfterItemInjective(a[1..], b[1..], x, y);
      assert a == [a[0]] + a[1..] && b == [b[0]] + b[1..];
    }
  }

  lemma {:induction false} AfterItemInjective(a: seq<Value>, b: seq<Value>, x: string, y: string)
    requires PrintableItems(a) && PrintableItems(b)
    requires AfterItem(a, x) == AfterItem(b, y)
    ensures a == b && x == y
    decreases a, 2
  {
    assert AfterItem(a, x)[0] == if a == [] then ']' else ',';
    assert AfterItem(b, y)[0] == if b == [] then ']' else ',';
    if a == [] {
      ConcatUnique([']'], [']'], x, y);
    } else {
      ConcatUnique([','], [','], ItemsThen(a, x), ItemsThen(b, y));
      ItemsThenInjective(a, b, x, y);
    }
  }

  lemma {:induction false} MembersThenInjective(a: seq<Member<Value>>, b: seq<Member<Value>>, x: string, y: string)
    requires PrintableMembers(a) && PrintableMembers(b)
    requires MembersThen(a, x) == MembersThen(b, y)
    ensures a == b && x == y
    decreases a, 1
  {
    assert MembersThen(a, x)[0] == if a == [] then '}' else '"';
    assert MembersThen(b, y)[0] == if b == [] then '}' else '"';
    if a == [] {
      ConcatUnique(['}'], ['}'], x, y);
    } else {
      var s, t := PrintThen(a[0].value, AfterMember(a[1..], x)), PrintThen(b[0].value, AfterMember(b[1..], y));
      ConcatUnique(['"'], ['"'], EscapeThen(a[0].key, [':'] + s), EscapeThen(b[0].key, [':'] + t));
      EscapeThenInjective(a[0].key, b[0].key, [':'] + s, [':'] + t);
      ConcatUnique([':'], [':'], s, t);
      PrintThenInjective(a[0].value, b[0].value, AfterMember(a[1..], x), AfterMember(b[1..], y));
      AfterMemberInjective(a[1..], b[1..], x, y);
      assert a == [a[0]] + a[1..] && b == [b[0]] + b[1..];
    }
  }

  lemma {:induction false} AfterMemberInjective(a: seq<Member<Value>>, b: seq<Member<Value>>, x: string, y: string)
    requires PrintableMembers(a) && PrintableMembers(b)
    requires AfterMember(a, x) == AfterMember(b, y)
    ensures a == b && x == y
    decreases a, 2
  {
    assert AfterMember(a, x)[0] == if a == [] then '}' else ',';
    assert AfterMember(b, y)[0] == if b == [] then '}' else ',';
    if a == [] {
      ConcatUnique(['}'], ['}'], x, y);
    } else {
      ConcatUnique([','], [','], MembersThen(a, x), MembersThen(b, y));
      MembersThenInjective(a, b, x, y);
    }
  }
}
