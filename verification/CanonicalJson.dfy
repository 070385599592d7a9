/**
 * The canonical JSON encoding audit entries are hashed through: equal values give equal text,
 * whatever order their members were written in, and different values give different text.
 */
module CanonicalJson {
  import opened Common
  import opened Json
  import opened Decimal
  import opened Numbers
  import opened JsonText

  // ---------------------------------------------------------------- UTF-16 order

  /** The UTF-16 code units of a character, which are what `Array.prototype.sort` compares. */
  function UnitsOf(c: char): seq<int> {
    var n := c as int;
    if n < 0x10000 then [n] else [0xD800 + (n - 0x10000) / 0x400, 0xDC00 + (n - 0x10000) % 0x400]
  }

  function Units(s: string): seq<int> {
    if s == "" then [] else UnitsOf(s[0]) + Units(s[1..])
  }

  lemma UnitsOfInjective(c: char, d: char, x: seq<int>, y: seq<int>)
    requires UnitsOf(c) + x == UnitsOf(d) + y
    ensures c == d && x == y
  {
    var u, v := UnitsOf(c), UnitsOf(d);
    assert (u + x)[0] == u[0] && (v + y)[0] == v[0];
    assert |u| == |v|;
    assert u == (u + x)[..|u|] && v == (v + y)[..|v|];
    assert x == (u + x)[|u|..] && y == (v + y)[|v|..];
    if |u| == 2 {
      var m, n := c as int - 0x10000, d as int - 0x10000;
      assert m / 0x400 == n / 0x400 && m % 0x400 == n % 0x400;
    }
  }

  lemma {:induction false} UnitsInjective(a: string, b: string)
    requires Units(a) == Units(b)
    ensures a == b
  {
    if a != "" && b != "" {
      UnitsOfInjective(a[0], b[0], Units(a[1..]), Units(b[1..]));
      UnitsInjective(a[1..], b[1..]);
      assert a == [a[0]] + a[1..] && b == [b[0]] + b[1..];
    }
  }

  predicate Lex(u: seq<int>, v: seq<int>) {
    v != [] && (u == [] || u[0] < v[0] || (u[0] == v[0] && Lex(u[1..], v[1..])))
  }

  lemma {:induction false} LexTotal(u: seq<int>, v: seq<int>)
    ensures u == v || Lex(u, v) || Lex(v, u)
  {
    if u != [] && v != [] && u[0] == v[0] {
      LexTotal(u[1..], v[1..]);
      assert u == [u[0]] + u[1..] && v == [v[0]] + v[1..];
    }
  }

  lemma {:induction false} LexAsymmetric(u: seq<int>, v: seq<int>)
    requires Lex(u, v)
    ensures !Lex(v, u)
  {
    if u != [] && u[0] == v[0] {
      LexAsymmetric(u[1..], v[1..]);
    }
  }

  lemma {:induction false} LexTransitive(u: seq<int>, v: seq<int>, w: seq<int>)
    requires Lex(u, v) && Lex(v, w)
    ensures Lex(u, w)
  {
    if u != [] && u[0] == v[0] == w[0] {
      LexTransitive(u[1..], v[1..], w[1..]);
    }
  }

  predicate KeyLess(a: string, b: string) {
    Lex(Units(a), Units(b))
  }

  lemma KeyTotal(a: string, b: string)
    ensures a == b || KeyLess(a, b) || KeyLess(b, a)
  {
    LexTotal(Units(a), Units(b));
    if Units(a) == Units(b) {
      UnitsInjective(a, b);
    }
  }

  // ---------------------------------------------------------------- sorting members

  function Insert<T>(m: Member<T>, s: seq<Member<T>>): seq<Member<T>> {
    if s == [] then [m]
    else if KeyLess(m.key, s[0].key) then [m] + s
    else [s[0]] + Insert(m, s[1..])
  }

  function Sort<T>(s: seq<Member<T>>): seq<Member<T>> {
    if s == [] then [] else Insert(s[0], Sort(s[1..]))
  }

  predicate Sorted<T>(s: seq<Member<T>>) {
    forall i, j :: 0 <= i < j < |s| ==> KeyLess(s[i].key, s[j].key)
  }

  lemma {:induction false} InsertElements<T>(m: Member<T>, s: seq<Member<T>>, e: Member<T>)
    ensures |Insert(m, s)| == |s| + 1
    ensures e in Insert(m, s) <==> e == m || e in s
  {
    if s != [] && !KeyLess(m.key, s[0].key) {
      InsertElements(m, s[1..], e);
      assert s == [s[0]] + s[1..];
    }
  }

  lemma {:induction false} InsertSorted<T>(m: Member<T>, s: seq<Member<T>>)
    requires Sorted(s)
    requires forall i :: 0 <= i < |s| ==> s[i].key != m.key
    ensures Sorted(Insert(m, s))
  {
    if s != [] {
      if KeyLess(m.key, s[0].key) {
        forall j | 0 < j < |s| + 1
          ensures KeyLess(m.key, ([m] + s)[j].key)
        {
          if j > 1 {
            LexTransitive(Units(m.key), Units(s[0].key), Units(s[j - 1].key));
          }
        }
      } else {
        KeyTotal(m.key, s[0].key);
        InsertSorted(m, s[1..]);
        var rest := Insert(m, s[1..]);
        forall j | 0 <= j < |rest|
          ensures KeyLess(s[0].key, rest[j].key)
        {
          InsertElements(m, s[1..], rest[j]);
          if rest[j] != m {
            var i :| 0 <= i < |s[1..]| && s[1..][i] == rest[j];
            assert s[i + 1] == rest[j];
          }
        }
      }
    }
  }

  predicate Within<T(==)>(s: seq<Member<T>>, t: seq<Member<T>>) {
    forall i :: 0 <= i < |s| ==> s[i] in t
  }

  /** Sorting keeps exactly the same members and puts their keys in order. */
  lemma {:induction false} SortSorts<T>(s: seq<Member<T>>)
    requires DistinctKeys(s)
    ensures Sorted(Sort(s)) && |Sort(s)| == |s|
    ensures Within(Sort(s), s) && Within(s, Sort(s))
  {
    if s != [] {
      SortSorts(s[1..]);
      var rest := Sort(s[1..]);
      forall i | 0 <= i < |rest|
        ensures rest[i].key != s[0].key
        ensures rest[i] in s
      {
        var j :| 0 <= j < |s[1..]| && s[1..][j] == rest[i];
        assert s[j + 1] == rest[i];
      }
      InsertSorted(s[0], rest);
      InsertElements(s[0], rest, s[0]);
      forall i | 0 <= i < |s|
        ensures s[i] in Sort(s)
      {
        if i > 0 {
          assert s[1..][i - 1] == s[i];
        }
        InsertElements(s[0], rest, s[i]);
      }
      forall i | 0 <= i < |Sort(s)|
        ensures Sort(s)[i] in s
      {
        InsertElements(s[0], rest, Sort(s)[i]);
      }
    }
  }

  lemma SortedDistinct<T>(s: seq<Member<T>>)
    requires Sorted(s)
    ensures DistinctKeys(s)
  {
    forall i, j | 0 <= i < j < |s|
      ensures s[i].key != s[j].key
    {
      LexAsymmetric(Units(s[i].key), Units(s[j].key));
    }
  }

  lemma FirstOfSorted<T>(s: seq<Member<T>>, t: seq<Member<T>>)
    requires Sorted(s) && Sorted(t) && s != [] && t != []
    requires s[0] in t && t[0] in s
    ensures s[0] == t[0]
  {
    var i :| 0 <= i < |t| && t[i] == s[0];
    var j :| 0 <= j < |s| && s[j] == t[0];
    if i > 0 && j > 0 {
      LexAsymmetric(Units(s[0].key), Units(s[j].key));
    }
  }

  lemma TailWithin<T>(s: seq<Member<T>>, t: seq<Member<T>>)
    requires Sorted(s) && s != [] && t != [] && s[0] == t[0] && Within(s, t)
    ensures Within(s[1..], t[1..])
  {
    SortedDistinct(s);
    forall i | 0 <= i < |s[1..]|
      ensures s[1..][i] in t[1..]
    {
      assert s[i + 1] in t;
      var j :| 0 <= j < |t| && t[j] == s[i + 1];
      assert s[0].key != s[i + 1].key;
      assert t[1..][j - 1] == s[i + 1];
    }
  }

  /** Two sorted lists with the same members are the same list. */
  lemma {:induction false} SortedUnique<T>(s: seq<Member<T>>, t: seq<Member<T>>)
    requires Sorted(s) && Sorted(t) && Within(s, t) && Within(t, s)
    ensures s == t
  {
    if s != [] {
      assert s[0] in t;
    }
    if t != [] {
      assert t[0] in s;
    }
    if s != [] && t != [] {
      FirstOfSorted(s, t);
      TailWithin(s, t);
      TailWithin(t, s);
      SortedUnique(s[1..], t[1..]);
      assert s == [s[0]] + s[1..] && t == [t[0]] + t[1..];
    }
  }

  // ---------------------------------------------------------------- equality up to member order

  /** The same JSON value, whatever order members were written in. */
  predicate Same(a: Value, b: Value) {
    match a
    case JArray(items) =>
      b.JArray? && |items| == |b.items| && forall i :: 0 <= i < |items| ==> Same(items[i], b.items[i])
    case JObject(members) =>
      && b.JObject?
      && (forall i :: 0 <= i < |members| ==> HasSame(b.members, members[i]))
      && (forall j :: 0 <= j < |b.members| ==> HasKey(members, b.members[j].key))
    case _ => a == b
  }

  predicate HasSame(members: seq<Member<Value>>, m: Member<Value>)
    decreases m
  {
    exists j :: 0 <= j < |members| && members[j].key == m.key && Same(m.value, members[j].value)
  }

  predicate HasKey<T>(members: seq<Member<T>>, key: string) {
    exists i :: 0 <= i < |members| && members[i].key == key
  }

  /** The value with the members of every object sorted. */
  function Normalize(v: Value): Value {
    match v
    case JArray(items) => JArray(seq(|items|, i requires 0 <= i < |items| => Normalize(items[i])))
    case JObject(members) => JObject(Sort(NormalizeMembers(members)))
    case _ => v
  }

  function NormalizeMembers(members: seq<Member<Value>>): (r: seq<Member<Value>>)
    ensures |r| == |members|
    ensures forall i :: 0 <= i < |r| ==> r[i].key == members[i].key
  {
    seq(|members|, i requires 0 <= i < |members| => Member(members[i].key, Normalize(members[i].value)))
  }

  lemma PrintableArray(items: seq<Value>)
    requires PrintableItems(items)
    ensures Printable(JArray(items))
  {
  }

  lemma PrintableSorted(ms: seq<Member<Value>>)
    requires DistinctKeys(ms) && PrintableMembers(ms)
    ensures Printable(JObject(Sort(ms)))
  {
    var sorted := Sort(ms);
    SortSorts(ms);
    SortedDistinct(sorted);
    forall i | 0 <= i < |sorted|
      ensures Printable(sorted[i].value)
    {
      assert sorted[i] in ms;
    }
  }

  lemma {:induction false} NormalizePrintable(v: Value)
    requires Printable(v)
    ensures Printable(Normalize(v))
    decreases v, 1
  {
    match v
    case JArray(items) =>
      ItemsPrintable(v);
      PrintableArray(Normalize(v).items);
    case JObject(members) =>
      MembersPrintable(v);
      PrintableSorted(NormalizeMembers(members));
    case _ =>
  }

  lemma {:induction false} ItemsPrintable(v: Value)
    requires v.JArray? && Printable(v)
    ensures PrintableItems(Normalize(v).items)
    decreases v, 0
  {
    forall i | 0 <= i < |v.items|
      ensures Printable(Normalize(v).items[i])
    {
      NormalizePrintable(v.items[i]);
    }
  }

  lemma {:induction false} MembersPrintable(v: Value)
    requires v.JObject? && Printable(v)
    ensures DistinctKeys(NormalizeMembers(v.members))
    ensures PrintableMembers(NormalizeMembers(v.members))
    decreases v, 0
  {
    forall i | 0 <= i < |v.members|
      ensures Printable(NormalizeMembers(v.members)[i].value)
    {
      NormalizePrintable(v.members[i].value);
    }
  }

  lemma {:induction false} SameNormalizes(a: Value, b: Value)
    requires WellFormedValue(a) && WellFormedValue(b) && Same(a, b)
    ensures Normalize(a) == Normalize(b)
    decreases a, 2
  {
    match a
    case JArray(items) =>
      forall i | 0 <= i < |items|
        ensures Normalize(items[i]) == Normalize(b.items[i])
      {
        SameNormalizes(items[i], b.items[i]);
      }
      assert Normalize(a).items == Normalize(b).items;
    case JObject(members) =>
      SameMembersNormalize(a, b);
      SameSort(NormalizeMembers(members), NormalizeMembers(b.members));
    case _ =>
  }

  /** Lists with the same members, keys distinct, sort to the same list. */
  lemma SameSort<T>(x: seq<Member<T>>, y: seq<Member<T>>)
    requires DistinctKeys(x) && DistinctKeys(y) && Within(x, y) && Within(y, x)
    ensures Sort(x) == Sort(y)
  {
    SortSorts(x);
    SortSorts(y);
    WithinTransitive(Sort(x), x, y);
    WithinTransitive(Sort(x), y, Sort(y));
    WithinTransitive(Sort(y), y, x);
    WithinTransitive(Sort(y), x, Sort(x));
    SortedUnique(Sort(x), Sort(y));
  }

  lemma WithinTransitive<T>(x: seq<Member<T>>, y: seq<Member<T>>, z: seq<Member<T>>)
    requires Within(x, y) && Within(y, z)
    ensures Within(x, z)
  {
    forall i | 0 <= i < |x|
      ensures x[i] in z
    {
      var j :| 0 <= j < |y| && y[j] == x[i];
    }
  }

  lemma {:induction false} SameMemberNormalizes(a: Value, b: Value, i: nat)
    requires a.JObject? && b.JObject? && WellFormedValue(a) && WellFormedValue(b) && Same(a, b)
    requires i < |a.members|
    ensures NormalizeMembers(a.members)[i] in NormalizeMembers(b.members)
    decreases a, 0
  {
    assert HasSame(b.members, a.members[i]);
    var j :| 0 <= j < |b.members| && b.members[j].key == a.members[i].key && Same(a.members[i].value, b.members[j].value);
    SameNormalizes(a.members[i].value, b.members[j].value);
    assert NormalizeMembers(b.members)[j] == NormalizeMembers(a.members)[i];
  }

  lemma {:induction false} SameMembersNormalize(a: Value, b: Value)
    requires a.JObject? && b.JObject? && WellFormedValue(a) && WellFormedValue(b) && Same(a, b)
    ensures var x, y := NormalizeMembers(a.members), NormalizeMembers(b.members); Within(x, y) && Within(y, x)
    decreases a, 1
  {
    var x, y := NormalizeMembers(a.members), NormalizeMembers(b.members);
    forall i | 0 <= i < |x|
      ensures x[i] in y
    {
      SameMemberNormalizes(a, b, i);
    }
    forall j | 0 <= j < |y|
      ensures HasKey(x, y[j].key)
    {
      assert HasKey(a.members, b.members[j].key);
      var i :| 0 <= i < |a.members| && a.members[i].key == b.members[j].key;
      assert x[i].key == y[j].key;
    }
    KeysBackWithin(x, y);
  }

  /** If `x` is within `y`, keys of `y` are distinct and all occur in `x`, then `y` is within `x`. */
  lemma KeysBackWithin<T>(x: seq<Member<T>>, y: seq<Member<T>>)
    requires Within(x, y) && DistinctKeys(y)
    requires forall j :: 0 <= j < |y| ==> HasKey(x, y[j].key)
    ensures Within(y, x)
  {
    forall j | 0 <= j < |y|
      ensures y[j] in x
    {
      assert HasKey(x, y[j].key);
      var i :| 0 <= i < |x| && x[i].key == y[j].key;
      var k :| 0 <= k < |y| && y[k] == x[i];
      assert k == j;
    }
  }

  lemma {:induction false} NormalIsSame(a: Value, b: Value)
    requires WellFormedValue(a) && WellFormedValue(b) && Normalize(a) == Normalize(b)
    ensures Same(a, b)
    decreases a, 2
  {
    match a
    case JArray(items) =>
      assert |Normalize(a).items| == |items| && |Normalize(b).items| == |b.items|;
      forall i | 0 <= i < |items|
        ensures Same(items[i], b.items[i])
      {
        assert Normalize(a).items[i] == Normalize(b).items[i];
        NormalIsSame(items[i], b.items[i]);
      }
    case JObject(members) =>
      NormalMembersSame(a, b);
    case _ =>
  }

  lemma NormalMembersWithin(a: Value, b: Value)
    requires a.JObject? && b.JObject? && WellFormedValue(a) && WellFormedValue(b)
    requires Sort(NormalizeMembers(a.members)) == Sort(NormalizeMembers(b.members))
    ensures Within(NormalizeMembers(a.members), NormalizeMembers(b.members))
  {
    var x, y := NormalizeMembers(a.members), NormalizeMembers(b.members);
    SortSorts(x);
    SortSorts(y);
    WithinTransitive(x, Sort(x), y);
  }

  lemma {:induction false} NormalMemberSame(a: Value, b: Value, i: nat)
    requires a.JObject? && b.JObject? && WellFormedValue(a) && WellFormedValue(b) && i < |a.members|
    requires NormalizeMembers(a.members)[i] in NormalizeMembers(b.members)
    ensures HasSame(b.members, a.members[i])
    decreases a, 0
  {
    var x, y := NormalizeMembers(a.members), NormalizeMembers(b.members);
    var j :| 0 <= j < |y| && y[j] == x[i];
    NormalIsSame(a.members[i].value, b.members[j].value);
  }

  lemma {:induction false} NormalMembersSame(a: Value, b: Value)
    requires a.JObject? && b.JObject? && WellFormedValue(a) && WellFormedValue(b)
    requires Sort(NormalizeMembers(a.members)) == Sort(NormalizeMembers(b.members))
    ensures Same(a, b)
    decreases a, 1
  {
    var x, y := NormalizeMembers(a.members), NormalizeMembers(b.members);
    NormalMembersWithin(a, b);
    NormalMembersWithin(b, a);
    forall i | 0 <= i < |a.members|
      ensures HasSame(b.members, a.members[i])
    {
      assert x[i] in y;
      NormalMemberSame(a, b, i);
    }
    forall j | 0 <= j < |b.members|
      ensures HasKey(a.members, b.members[j].key)
    {
      assert y[j] in x;
      NormalMemberKey(a, b, j);
    }
  }

  lemma NormalMemberKey(a: Value, b: Value, j: nat)
    requires a.JObject? && b.JObject? && j < |b.members|
    requires NormalizeMembers(b.members)[j] in NormalizeMembers(a.members)
    ensures HasKey(a.members, b.members[j].key)
  {
    var x, y := NormalizeMembers(a.members), NormalizeMembers(b.members);
    var i :| 0 <= i < |x| && x[i] == y[j];
    assert a.members[i].key == b.members[j].key;
  }

  // ---------------------------------------------------------------- the encoder

  datatype EncodingError = NotEncodable

  function Join(texts: seq<string>): string {
    if texts == [] then ""
    else if |texts| == 1 then texts[0]
    else texts[0] + "," + Join(texts[1..])
  }

  function Pairs(members: seq<Member<string>>): seq<string> {
    seq(|members|, i requires 0 <= i < |members| => Quote(members[i].key) + ":" + members[i].value)
  }

  /**
   * The canonical text of a value: members sorted by key, nothing dropped or rewritten. Anything
   * JSON cannot represent is refused rather than mangled.
   */
  function Canonical(v: Value): Result<string, EncodingError>
    requires WellFormedValue(v)
    decreases v, 1
  {
    match v
    case Undefined => Err(NotEncodable)
    case Foreign => Err(NotEncodable)
    case NotFinite => Err(NotEncodable)
    case JNull => Ok("null")
    case JBool(b) => Ok(if b then "true" else "false")
    case JNumber(n) => Ok(NumberText(n))
    case JString(s) => Ok(Quote(s))
    case JArray(items) =>
      (match CanonicalItems(items)
       case Err(e) => Err(e)
       case Ok(texts) => Ok("[" + Join(texts) + "]"))
    case JObject(members) =>
      (match CanonicalMembers(members)
       case Err(e) => Err(e)
       case Ok(texts) => Ok("{" + Join(Pairs(Sort(texts))) + "}"))
  }

  function CanonicalItems(items: seq<Value>): Result<seq<string>, EncodingError>
    requires forall i :: 0 <= i < |items| ==> WellFormedValue(items[i])
    decreases items, 0
  {
    if items == [] then Ok([])
    else
      match (Canonical(items[0]), CanonicalItems(items[1..]))
      case (Ok(first), Ok(rest)) => Ok([first] + rest)
      case _ => Err(NotEncodable)
  }

  function CanonicalMembers(members: seq<Member<Value>>): Result<seq<Member<string>>, EncodingError>
    requires forall i :: 0 <= i < |members| ==> WellFormedValue(members[i].value)
    decreases members, 0
  {
    if members == [] then Ok([])
    else
      match (Canonical(members[0].value), CanonicalMembers(members[1..]))
      case (Ok(first), Ok(rest)) => Ok([Member(members[0].key, first)] + rest)
      case _ => Err(NotEncodable)
  }

  /** `text` is how `v` prints, whatever follows. */
  ghost predicate Prints(text: string, v: Value) {
    Printable(v) && forall rest :: text + rest == PrintThen(v, rest)
  }

  ghost predicate PrintsMember(m: Member<string>, n: Member<Value>) {
    m.key == n.key && Prints(m.value, n.value)
  }

  ghost predicate PrintsMembers(texts: seq<Member<string>>, members: seq<Member<Value>>) {
    |texts| == |members| && forall i :: 0 <= i < |texts| ==> PrintsMember(texts[i], members[i])
  }

  lemma {:induction false} InsertPrints(m: Member<string>, n: Member<Value>, texts: seq<Member<string>>, members: seq<Member<Value>>)
    requires PrintsMember(m, n) && PrintsMembers(texts, members)
    ensures PrintsMembers(Insert(m, texts), Insert(n, members))
  {
    if texts != [] && !KeyLess(m.key, texts[0].key) {
      assert PrintsMember(texts[0], members[0]);
      InsertPrints(m, n, texts[1..], members[1..]);
    }
  }

  lemma {:induction false} SortPrints(texts: seq<Member<string>>, members: seq<Member<Value>>)
    requires PrintsMembers(texts, members)
    ensures PrintsMembers(Sort(texts), Sort(members))
  {
    if texts != [] {
      assert PrintsMember(texts[0], members[0]);
      SortPrints(texts[1..], members[1..]);
      InsertPrints(texts[0], members[0], Sort(texts[1..]), Sort(members[1..]));
    }
  }

  lemma {:induction false} JoinItems(texts: seq<string>, items: seq<Value>, rest: string)
    requires |texts| == |items| && PrintableItems(items)
    requires forall i :: 0 <= i < |texts| ==> Prints(texts[i], items[i])
    ensures Join(texts) + ([']'] + rest) == ItemsThen(items, rest)
  {
    var close := [']'] + rest;
    if texts == [] {
      assert Join(texts) + close == close;
    } else if |texts| == 1 {
      assert Prints(texts[0], items[0]);
      assert items[1..] == [];
    } else {
      assert Prints(texts[0], items[0]);
      JoinItems(texts[1..], items[1..], rest);
      Assoc(texts[0] + ",", Join(texts[1..]), close);
      Assoc(texts[0], ",", Join(texts[1..]) + close);
      assert [','] + ItemsThen(items[1..], rest) == AfterItem(items[1..], rest);
    }
  }

  lemma PairPrints(m: Member<string>, n: Member<Value>, rest: string)
    requires PrintsMember(m, n)
    ensures Quote(m.key) + ":" + m.value + rest == ['"'] + EscapeThen(n.key, [':'] + PrintThen(n.value, rest))
  {
    assert Quote(m.key) + ":" + m.value + rest == Quote(m.key) + ([':'] + (m.value + rest));
    QuoteBefore(m.key, [':'] + (m.value + rest));
    assert m.value + rest == PrintThen(n.value, rest);
  }

  lemma {:induction false} JoinMembers(texts: seq<Member<string>>, members: seq<Member<Value>>, rest: string)
    requires PrintsMembers(texts, members) && PrintableMembers(members)
    ensures Join(Pairs(texts)) + (['}'] + rest) == MembersThen(members, rest)
  {
    var close := ['}'] + rest;
    if texts == [] {
      assert Join(Pairs(texts)) + close == close;
    } else {
      assert PrintsMember(texts[0], members[0]);
      var pair := Quote(texts[0].key) + ":" + texts[0].value;
      PairPrints(texts[0], members[0], AfterMember(members[1..], rest));
      if |texts| == 1 {
        assert Pairs(texts) == [pair];
        assert members[1..] == [];
      } else {
        assert Pairs(texts)[0] == pair && Pairs(texts)[1..] == Pairs(texts[1..]);
        JoinMembers(texts[1..], members[1..], rest);
        Assoc(pair + ",", Join(Pairs(texts[1..])), close);
        Assoc(pair, ",", Join(Pairs(texts[1..])) + close);
        assert [','] + MembersThen(members[1..], rest) == AfterMember(members[1..], rest);
      }
    }
  }

  lemma {:induction false} ItemsPrint(items: seq<Value>)
    requires forall i :: 0 <= i < |items| ==> WellFormedValue(items[i])
    ensures CanonicalItems(items).Ok? <==> forall i :: 0 <= i < |items| ==> IsJson(items[i])
    ensures CanonicalItems(items).Ok? ==>
              && |CanonicalItems(items).value| == |items|
              && forall i :: 0 <= i < |items| ==> Prints(CanonicalItems(items).value[i], Normalize(items[i]))
    decreases items, 0
  {
    if items != [] {
      CanonicalPrints(items[0]);
      ItemsPrint(items[1..]);
      assert items == [items[0]] + items[1..];
    }
  }

  predicate AllJson(members: seq<Member<Value>>) {
    forall i :: 0 <= i < |members| ==> IsJson(members[i].value)
  }

  lemma AllJsonCons(members: seq<Member<Value>>)
    requires members != []
    ensures AllJson(members) <==> IsJson(members[0].value) && AllJson(members[1..])
  {
    assert forall i :: 0 < i < |members| ==> members[i] == members[1..][i - 1];
  }

  lemma {:induction false} MembersPrint(members: seq<Member<Value>>)
    requires forall i :: 0 <= i < |members| ==> WellFormedValue(members[i].value)
    ensures CanonicalMembers(members).Ok? <==> AllJson(members)
    ensures CanonicalMembers(members).Ok? ==> PrintsMembers(CanonicalMembers(members).value, NormalizeMembers(members))
    decreases members, 0
  {
    if members != [] {
      var first, rest := members[0], members[1..];
      CanonicalPrints(first.value);
      MembersPrint(rest);
      AllJsonCons(members);
      assert NormalizeMembers(members) == [Member(first.key, Normalize(first.value))] + NormalizeMembers(rest);
      if CanonicalMembers(members).Ok? {
        var text := Member(first.key, Canonical(first.value).value);
        MemberAdded(text, Member(first.key, Normalize(first.value)), CanonicalMembers(rest).value, NormalizeMembers(rest));
      }
    }
  }

  lemma MemberAdded(m: Member<string>, n: Member<Value>, texts: seq<Member<string>>, members: seq<Member<Value>>)
    requires PrintsMember(m, n) && PrintsMembers(texts, members)
    ensures PrintsMembers([m] + texts, [n] + members)
  {
  }

  lemma Bracketed(open: string, inner: string, close: string, rest: string)
    ensures open + inner + close + rest == open + (inner + (close + rest))
  {
  }

  lemma ArrayPrintsThen(texts: seq<string>, v: Value, rest: string)
    requires v.JArray? && Printable(v) && |texts| == |v.items|
    requires forall i :: 0 <= i < |texts| ==> Prints(texts[i], v.items[i])
    ensures "[" + Join(texts) + "]" + rest == PrintThen(v, rest)
  {
    JoinItems(texts, v.items, rest);
    Bracketed("[", Join(texts), "]", rest);
  }

  lemma ArrayPrints(texts: seq<string>, v: Value)
    requires v.JArray? && Printable(v) && |texts| == |v.items|
    requires forall i :: 0 <= i < |texts| ==> Prints(texts[i], v.items[i])
    ensures Prints("[" + Join(texts) + "]", v)
  {
    forall rest
      ensures "[" + Join(texts) + "]" + rest == PrintThen(v, rest)
    {
      ArrayPrintsThen(texts, v, rest);
    }
  }

  lemma ObjectPrints(texts: seq<Member<string>>, v: Value)
    requires v.JObject? && Printable(v) && PrintsMembers(texts, v.members)
    ensures Prints("{" + Join(Pairs(texts)) + "}", v)
  {
    forall rest
      ensures "{" + Join(Pairs(texts)) + "}" + rest == PrintThen(v, rest)
    {
      JoinMembers(texts, v.members, rest);
      Bracketed("{", Join(Pairs(texts)), "}", rest);
    }
  }

  lemma StringPrints(s: string)
    ensures Prints(Quote(s), JString(s))
  {
    forall rest
      ensures Quote(s) + rest == PrintThen(JString(s), rest)
    {
      QuoteBefore(s, rest);
    }
  }

  /** A value is encoded exactly when it is JSON, and as the text of its sorted form. */
  lemma {:induction false} CanonicalPrints(v: Value)
    requires WellFormedValue(v)
    ensures Canonical(v).Ok? <==> IsJson(v)
    ensures Canonical(v).Ok? ==> Prints(Canonical(v).value, Normalize(v))
    decreases v, 1
  {
    match v
    case JString(s) => StringPrints(s);
    case JArray(items) =>
      ItemsPrint(items);
      if Canonical(v).Ok? {
        NormalizePrintable(v);
        ArrayPrints(CanonicalItems(items).value, Normalize(v));
      }
    case JObject(members) =>
      MembersPrint(members);
      if Canonical(v).Ok? {
        NormalizePrintable(v);
        SortPrints(CanonicalMembers(members).value, NormalizeMembers(members));
        ObjectPrints(Sort(CanonicalMembers(members).value), Normalize(v));
      }
    case _ =>
  }

  /** Two JSON values have the same canonical text exactly when they are the same value. */
  lemma CanonicalIdentifies(a: Value, b: Value)
    requires WellFormedValue(a) && WellFormedValue(b) && IsJson(a) && IsJson(b)
    ensures Canonical(a).Ok? && Canonical(b).Ok?
    ensures Canonical(a).value == Canonical(b).value <==> Same(a, b)
  {
    CanonicalPrints(a);
    CanonicalPrints(b);
    var s, t := Canonical(a).value, Canonical(b).value;
    assert s + "" == PrintThen(Normalize(a), "") && t + "" == PrintThen(Normalize(b), "");
    assert s + "" == s && t + "" == t;
    if s == t {
      PrintThenInjective(Normalize(a), Normalize(b), "", "");
      NormalIsSame(a, b);
    }
    if Same(a, b) {
      SameNormalizes(a, b);
    }
  }
}
