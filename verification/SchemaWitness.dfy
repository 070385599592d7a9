/** The other half of compatibility: what is reported as a break is one, and a value shows it. */
module SchemaWitness {
  import opened Common
  import opened Schema
  import opened Compatibility
  import opened SchemaHistory

  // ---------------------------------------------------------------- schemas whose every keyword tells

  /** The narrowest type of a scalar. */
  function TypeOf(s: Scalar): PrimitiveType {
    match s
    case SString(_) => StringType
    case SNumber(n) => if n == n.Floor as real then IntegerType else NumberType
    case SBool(_) => BooleanType
    case SNull => NullType
  }

  lemma TypesOf(t: PrimitiveType, s: Scalar)
    ensures HasType(t, s) <==> t == TypeOf(s) || (t == NumberType && TypeOf(s) == IntegerType)
  {
  }

  /** Every listed value has one of the types, and every type is the narrowest of one of the values. */
  predicate ListTells(types: set<PrimitiveType>, list: seq<Scalar>) {
    && list != []
    && (forall i :: 0 <= i < |list| ==> exists t :: t in types && HasType(t, list[i]))
    && (forall t {:trigger Uses(list, t)} :: t in types ==> Uses(list, t))
  }

  predicate Uses(list: seq<Scalar>, t: PrimitiveType) {
    exists i :: 0 <= i < |list| && TypeOf(list[i]) == t
  }

  /** No part of a `type` or an `enum` that no value could ever use. */
  predicate Tight(n: Node) {
    match n
    case ObjectNode(properties, _) => forall i :: 0 <= i < |properties| ==> Tight(properties[i].schema)
    case ArrayNode(items) => Tight(items)
    case ScalarNode(types, _, allowed) => types != {} && (allowed.Some? ==> ListTells(types, allowed.value))
  }

  predicate Unbounded(types: set<PrimitiveType>) {
    StringType in types || NumberType in types || IntegerType in types
  }

  /** Wherever an `enum` is added, the old schema has more values than any list. */
  predicate Roomy(previous: Node, next: Node) {
    match previous
    case ObjectNode(properties, _) =>
      next.ObjectNode? ==>
        forall i :: 0 <= i < |properties| && Has(next, properties[i].key) ==>
                      Roomy(properties[i].schema, next.properties[IndexOf(next.properties, properties[i].key)].schema)
    case ArrayNode(items) => next.ArrayNode? ==> Roomy(items, next.items)
    case ScalarNode(types, _, allowed) => next.ScalarNode? && next.allowed.Some? && allowed.None? ==> Unbounded(types)
  }

  /** The formats a schema names, at any depth. */
  function Words(n: Node): set<string> {
    match n
    case ObjectNode(properties, _) => WordsOf(properties)
    case ArrayNode(items) => Words(items)
    case ScalarNode(_, format, _) => if format.Some? then {format.value} else {}
  }

  function WordsOf(properties: seq<Property>): set<string> {
    if properties == [] then {} else WordsOf(properties[..|properties| - 1]) + Words(properties[|properties| - 1].schema)
  }

  lemma {:induction false} WordsAt(properties: seq<Property>, i: nat)
    requires i < |properties|
    ensures Words(properties[i].schema) <= WordsOf(properties)
  {
    if i < |properties| - 1 {
      assert properties[..|properties| - 1][i] == properties[i];
      WordsAt(properties[..|properties| - 1], i);
    }
  }

  /** A `format` that is added, or put in place of another, is none of these. */
  predicate NewFormats(previous: Node, next: Node, words: set<string>) {
    match previous
    case ObjectNode(properties, _) =>
      next.ObjectNode? ==>
        forall i :: 0 <= i < |properties| && Has(next, properties[i].key) ==>
                      NewFormats(properties[i].schema, next.properties[IndexOf(next.properties, properties[i].key)].schema, words)
    case ArrayNode(items) => next.ArrayNode? ==> NewFormats(items, next.items, words)
    case ScalarNode(_, format, _) => next.ScalarNode? && next.format.Some? && format != next.format ==> next.format.value !in words
  }

  // ---------------------------------------------------------------- a value of every schema

  function Default(t: PrimitiveType): (s: Scalar)
    ensures TypeOf(s) == t && HasType(t, s)
  {
    match t
    case StringType => SString("")
    case NumberType => assert 0.5.Floor == 0; SNumber(0.5)
    case IntegerType => assert 0.0.Floor == 0; SNumber(0.0)
    case BooleanType => SBool(true)
    case NullType => SNull
  }

  function SomeType(types: set<PrimitiveType>): (t: PrimitiveType)
    requires types != {}
    ensures t in types
  {
    if StringType in types then StringType
    else if NumberType in types then NumberType
    else if IntegerType in types then IntegerType
    else if BooleanType in types then BooleanType
    else
      assert NullType in types by {
        var t :| t in types;
        assert t == NullType;
      }
      NullType
  }

  function SampleScalar(n: Node): Scalar
    requires n.ScalarNode? && Tight(n)
  {
    if n.allowed.Some? then n.allowed.value[0] else Default(SomeType(n.types))
  }

  /** A value with every property declared. */
  function Sample(n: Node): Value
    requires Tight(n)
    decreases n
  {
    match n
    case ObjectNode(properties, _) => VObject(SampleAll(properties))
    case ArrayNode(_) => VArray([])
    case ScalarNode(_, _, _) => VScalar(SampleScalar(n))
  }

  function SampleAll(properties: seq<Property>): map<string, Value>
    requires forall i :: 0 <= i < |properties| ==> Tight(properties[i].schema)
    decreases properties
  {
    if properties == [] then map[]
    else
      var last := properties[|properties| - 1];
      SampleAll(properties[..|properties| - 1])[last.key := Sample(last.schema)]
  }

  lemma {:induction false} SampleAllAt(properties: seq<Property>, key: string)
    requires forall i :: 0 <= i < |properties| ==> Tight(properties[i].schema)
    ensures key in SampleAll(properties) <==> IndexOf(properties, key) >= 0
    ensures key in SampleAll(properties) ==> SampleAll(properties)[key] == Sample(properties[IndexOf(properties, key)].schema)
  {
    if properties != [] {
      SampleAllAt(properties[..|properties| - 1], key);
    }
  }

  /** A validator for which everything is in the formats it knows, and nothing in any other. */
  function Knows(words: set<string>): Formats {
    (name, _) => name in words
  }

  lemma SampleScalarFits(words: set<string>, n: Node)
    requires n.ScalarNode? && Tight(n) && Words(n) <= words
    ensures Valid(Knows(words), n, VScalar(SampleScalar(n)))
  {
    if n.allowed.Some? {
      assert SampleScalar(n) == n.allowed.value[0];
    } else {
      assert SomeType(n.types) in n.types && HasType(SomeType(n.types), SampleScalar(n));
    }
  }

  lemma {:induction false} SampleFits(words: set<string>, n: Node)
    requires Tight(n) && InProfile(n) && Words(n) <= words
    ensures Valid(Knows(words), n, Sample(n)) && OnlyDeclared(n, Sample(n))
    decreases n
  {
    match n
    case ObjectNode(properties, required) =>
      forall key
        ensures key in Sample(n).members <==> Has(n, key)
      {
        SampleAllAt(properties, key);
      }
      forall i | 0 <= i < |properties|
        ensures properties[i].key in Sample(n).members && Sample(n).members[properties[i].key] == Sample(properties[i].schema)
        ensures Valid(Knows(words), properties[i].schema, Sample(properties[i].schema)) && OnlyDeclared(properties[i].schema, Sample(properties[i].schema))
      {
        assert IndexOf(properties, properties[i].key) == i;
        SampleAllAt(properties, properties[i].key);
        WordsAt(properties, i);
        SampleFits(words, properties[i].schema);
      }
    case ArrayNode(_) =>
    case ScalarNode(_, _, _) => SampleScalarFits(words, n);
  }

  // ---------------------------------------------------------------- a scalar the next schema refuses

  lemma {:induction false} LongerThan(list: seq<Scalar>) returns (n: nat)
    ensures forall i :: 0 <= i < |list| && list[i].SString? ==> |list[i].s| < n
  {
    n := 0;
    if list != [] {
      var last := list[|list| - 1];
      n := LongerThan(list[..|list| - 1]);
      if last.SString? && |last.s| >= n {
        n := |last.s| + 1;
      }
      assert forall i :: 0 <= i < |list| - 1 ==> list[..|list| - 1][i] == list[i];
    }
  }

  lemma {:induction false} GreaterThan(list: seq<Scalar>) returns (n: int)
    ensures forall i :: 0 <= i < |list| && list[i].SNumber? ==> list[i].n < n as real
  {
    n := 0;
    if list != [] {
      var last := list[|list| - 1];
      n := GreaterThan(list[..|list| - 1]);
      if last.SNumber? && last.n >= n as real {
        n := last.n.Floor + 1;
      }
      assert forall i :: 0 <= i < |list| - 1 ==> list[..|list| - 1][i] == list[i];
    }
  }

  /** No list holds every string, or every whole number. */
  lemma OutsideList(types: set<PrimitiveType>, list: seq<Scalar>) returns (x: Scalar)
    requires Unbounded(types)
    ensures x !in list && exists t :: t in types && HasType(t, x)
  {
    if StringType in types {
      var n := LongerThan(list);
      x := SString(seq(n, _ => 'a'));
      assert HasType(StringType, x);
    } else {
      var n := GreaterThan(list);
      x := SNumber(n as real);
      assert (n as real).Floor == n;
      assert HasType(NumberType, x) && HasType(IntegerType, x);
    }
  }

  lemma NoneFits(types: set<PrimitiveType>, x: Scalar)
    requires TypeOf(x) !in types && !(TypeOf(x) == IntegerType && NumberType in types)
    ensures forall t :: t in types ==> !HasType(t, x)
  {
    forall t | t in types
      ensures !HasType(t, x)
    {
      TypesOf(t, x);
    }
  }

  /** A type the next schema lost: a value that has it and none of the others. */
  lemma LostType(words: set<string>, previous: Node, next: Node) returns (x: Scalar)
    requires previous.ScalarNode? && next.ScalarNode? && Tight(previous) && Words(previous) <= words
    requires !Covers(next.types, previous.types)
    ensures Valid(Knows(words), previous, VScalar(x)) && !Valid(Knows(words), next, VScalar(x))
  {
    var t :| t in previous.types && t !in next.types && !(t == IntegerType && NumberType in next.types);
    if previous.allowed.Some? {
      assert Uses(previous.allowed.value, t);
      var i :| 0 <= i < |previous.allowed.value| && TypeOf(previous.allowed.value[i]) == t;
      x := previous.allowed.value[i];
    } else {
      x := Default(t);
    }
    TypesOf(t, x);
    NoneFits(next.types, x);
  }

  lemma ScalarRefused(words: set<string>, previous: Node, next: Node) returns (x: Scalar)
    requires previous.ScalarNode? && next.ScalarNode? && Tight(previous) && Roomy(previous, next)
    requires Words(previous) <= words && NewFormats(previous, next, words) && !ScalarOk(previous, next)
    ensures Valid(Knows(words), previous, VScalar(x)) && !Valid(Knows(words), next, VScalar(x))
  {
    if !Covers(next.types, previous.types) {
      x := LostType(words, previous, next);
    } else if next.allowed.Some? && previous.allowed.None? {
      x := OutsideList(previous.types, next.allowed.value);
    } else if next.allowed.Some? && !AllIn(previous.allowed.value, next.allowed.value) {
      var i :| 0 <= i < |previous.allowed.value| && previous.allowed.value[i] !in next.allowed.value;
      x := previous.allowed.value[i];
    } else {
      x := SampleScalar(previous);
      SampleScalarFits(words, previous);
    }
  }

  // ---------------------------------------------------------------- a value the next schema refuses

  /** The value a report of a backward break is about. */
  ghost predicate Refutes(words: set<string>, previous: Node, next: Node, v: Value) {
    Valid(Knows(words), previous, v) && OnlyDeclared(previous, v) && !Valid(Knows(words), next, v)
  }

  /** A property newly demanded: leave it out. */
  lemma WithoutKey(words: set<string>, previous: Node, next: Node, key: string) returns (v: Value)
    requires previous.ObjectNode? && next.ObjectNode? && Tight(previous) && InProfile(previous) && Words(previous) <= words
    requires key in next.required && key !in previous.required
    ensures Refutes(words, previous, next, v)
  {
    SampleFits(words, previous);
    v := VObject(Sample(previous).members - {key});
    assert key !in v.members;
  }

  /** A property whose schema changed: give it a value that shows the change. */
  lemma WithKey(words: set<string>, previous: Node, next: Node, key: string, w: Value) returns (v: Value)
    requires previous.ObjectNode? && next.ObjectNode? && Tight(previous) && InProfile(previous) && Words(previous) <= words
    requires Has(previous, key) && Has(next, key)
    requires Refutes(words, previous.properties[IndexOf(previous.properties, key)].schema,
                     next.properties[IndexOf(next.properties, key)].schema, w)
    ensures Refutes(words, previous, next, v)
  {
    SampleFits(words, previous);
    v := VObject(Sample(previous).members[key := w]);
    var i, j := IndexOf(previous.properties, key), IndexOf(next.properties, key);
    assert v.members[previous.properties[i].key] == w;
    forall k | 0 <= k < |previous.properties| && previous.properties[k].key in v.members
      ensures Valid(Knows(words), previous.properties[k].schema, v.members[previous.properties[k].key])
      ensures OnlyDeclared(previous.properties[k].schema, v.members[previous.properties[k].key])
    {
      if k != i {
        assert previous.properties[k].key != key;
      }
    }
    assert !Valid(Knows(words), next.properties[j].schema, v.members[next.properties[j].key]);
  }

  lemma {:induction false} Refuted(words: set<string>, previous: Node, next: Node) returns (v: Value)
    requires Tight(previous) && InProfile(previous) && Roomy(previous, next) && !BackwardOk(previous, next)
    requires Words(previous) <= words && NewFormats(previous, next, words)
    ensures Refutes(words, previous, next, v)
    decreases previous
  {
    if !SameKind(previous, next) {
      v := Sample(previous);
      SampleFits(words, previous);
      return;
    }
    match previous
    case ObjectNode(properties, _) =>
      var key :| (Has(previous, key) || Has(next, key)) && !KeyOk(previous, next, key);
      if key in next.required && key !in previous.required {
        v := WithoutKey(words, previous, next, key);
      } else {
        var i := IndexOf(properties, key);
        WordsAt(properties, i);
        var w := Refuted(words, properties[i].schema, next.properties[IndexOf(next.properties, key)].schema);
        v := WithKey(words, previous, next, key, w);
      }
    case ArrayNode(items) =>
      var w := Refuted(words, items, next.items);
      v := VArray([w]);
      assert v.elements[0] == w;
    case ScalarNode(_, _, _) =>
      var x := ScalarRefused(words, previous, next);
      v := VScalar(x);
  }

  /** The pairs of schemas on which every report of a backward break is about some value. */
  predicate Telling(previous: Node, next: Node) {
    Tight(previous) && Roomy(previous, next) && NewFormats(previous, next, Words(previous))
  }

  /**
   * Sound and complete. For an old schema whose every `type` and `enum` entry tells, and a new one that
   * adds an `enum` only where there is room to leave something out and a `format` only if the old schema
   * does not name it anywhere, a backward break is reported exactly when some value written against the
   * old schema is refused by a reader on the new one.
   */
  lemma ReportedIffUnreadable(previous: Node, next: Node, path: Path)
    requires InProfile(previous) && InProfile(next) && Telling(previous, next)
    ensures Breaks(NodeFindings(previous, next, path), Backward) <==> !Reads(next, previous)
  {
    ReportIsExact(previous, next, path);
    if BackwardOk(previous, next) {
      forall f: Formats, v | Valid(f, previous, v) && OnlyDeclared(previous, v)
        ensures Valid(f, next, v)
      {
        BackwardSound(f, previous, next, path, v);
      }
    } else {
      var v := Refuted(Words(previous), previous, next);
    }
  }

  /** So an empty report says exactly that each of two such schemas reads what the other writes. */
  lemma FullyCompatibleIffReadable(a: Node, b: Node)
    requires InProfile(a) && InProfile(b) && Telling(a, b) && Telling(b, a)
    ensures FullyCompatible(a, b) <==> Reads(a, b) && Reads(b, a)
  {
    FullyCompatibleIsExact(a, b);
    ReportIsExact(a, b, []);
    ReportIsExact(b, a, []);
    ReportedIffUnreadable(a, b, []);
    ReportedIffUnreadable(b, a, []);
  }

  // ---------------------------------------------------------------- reports no value can show

  const NULL_ONLY := ScalarNode({NullType}, None, None)
  const NULL_LISTED := ScalarNode({NullType}, None, Some([SNull]))
  const LISTED_OR_NULL := ScalarNode({StringType, NullType}, None, Some([SString("a")]))
  const LISTED := ScalarNode({StringType}, None, Some([SString("a")]))

  /** Listing the only value there is is reported, and breaks nobody. */
  lemma ListedAndReported(path: Path)
    ensures Tight(NULL_ONLY) && !Roomy(NULL_ONLY, NULL_LISTED)
    ensures Breaks(NodeFindings(NULL_ONLY, NULL_LISTED, path), Backward) && Reads(NULL_LISTED, NULL_ONLY)
  {
    ReportIsExact(NULL_ONLY, NULL_LISTED, path);
    assert NullType in NULL_LISTED.types && SNull in NULL_LISTED.allowed.value;
  }

  /** So is dropping a type that no listed value had. */
  lemma NarrowedAndReported(path: Path)
    ensures !Tight(LISTED_OR_NULL) && Roomy(LISTED_OR_NULL, LISTED)
    ensures Breaks(NodeFindings(LISTED_OR_NULL, LISTED, path), Backward) && Reads(LISTED, LISTED_OR_NULL)
  {
    ReportIsExact(LISTED_OR_NULL, LISTED, path);
    assert NullType in LISTED_OR_NULL.types && StringType in LISTED.types;
    assert !Uses(LISTED_OR_NULL.allowed.value, NullType);
  }

  function Dated(format: Option<string>): Node {
    ScalarNode({StringType}, format, Some([SString("v")]))
  }

  function TwoDates(second: Option<string>): Node {
    ObjectNode([Property("a", Dated(Some("date"))), Property("b", Dated(second))], {"a", "b"})
  }

  lemma TwoDatesProperties(second: Option<string>)
    ensures var n := TwoDates(second);
            && IndexOf(n.properties, "a") == 0 && IndexOf(n.properties, "b") == 1
            && forall key :: Has(n, key) <==> key == "a" || key == "b"
  {
    var n := TwoDates(second);
    assert "a"[0] != "b"[0];
    assert n.properties[0].key == "a" && n.properties[1].key == "b";
  }

  lemma DatedIsTight(format: Option<string>)
    ensures Tight(Dated(format))
  {
    var n := Dated(format);
    assert StringType in n.types && HasType(StringType, n.allowed.value[0]) && TypeOf(n.allowed.value[0]) == StringType;
    assert Uses(n.allowed.value, StringType);
  }

  lemma TwoDatesAreTight(second: Option<string>)
    ensures InProfile(TwoDates(second)) && Tight(TwoDates(second))
  {
    TwoDatesProperties(second);
    DatedIsTight(second);
    DatedIsTight(Some("date"));
  }

  lemma SecondDateReported(path: Path)
    ensures Breaks(NodeFindings(TwoDates(None), TwoDates(Some("date")), path), Backward)
  {
    var a, b := TwoDates(None), TwoDates(Some("date"));
    TwoDatesProperties(None);
    TwoDatesProperties(Some("date"));
    assert !BackwardOk(Dated(None), Dated(Some("date")));
    assert Has(a, "b") && !KeyOk(a, b, "b");
    ReportIsExact(a, b, path);
  }

  lemma SecondDateIsNotNew()
    ensures Roomy(TwoDates(None), TwoDates(Some("date")))
    ensures !NewFormats(TwoDates(None), TwoDates(Some("date")), Words(TwoDates(None)))
  {
    var a, b := TwoDates(None), TwoDates(Some("date"));
    TwoDatesProperties(Some("date"));
    WordsAt(a.properties, 0);
    assert "date" in Words(a);
    assert !NewFormats(Dated(None), Dated(Some("date")), Words(a));
    assert a.properties[1].key == "b" && Has(b, "b");
  }

  /**
   * Nor is a format named elsewhere safe, even in a schema that names no format twice: here every
   * value is in the format already, because another part of it that must be the same is.
   */
  lemma SharedFormatAndReported(path: Path)
    ensures var a, b := TwoDates(None), TwoDates(Some("date"));
            && InProfile(a) && InProfile(b) && Tight(a) && Roomy(a, b) && !NewFormats(a, b, Words(a))
            && Breaks(NodeFindings(a, b, path), Backward) && Reads(b, a)
  {
    TwoDatesAreTight(None);
    TwoDatesAreTight(Some("date"));
    SecondDateIsNotNew();
    SecondDateReported(path);
    forall f: Formats, v | Valid(f, TwoDates(None), v)
      ensures Valid(f, TwoDates(Some("date")), v)
    {
      SharedFormatHolds(f, v);
    }
  }

  lemma SharedFormatHolds(f: Formats, v: Value)
    requires Valid(f, TwoDates(None), v)
    ensures Valid(f, TwoDates(Some("date")), v)
  {
    var a, b := TwoDates(None), TwoDates(Some("date"));
    assert "a" in v.members && "b" in v.members;
    var x, y := v.members[a.properties[0].key], v.members[a.properties[1].key];
    assert Valid(f, Dated(Some("date")), x) && Valid(f, Dated(None), y);
    assert x.scalar == SString("v") && y.scalar == SString("v");
    assert Valid(f, Dated(Some("date")), y);
    forall i | 0 <= i < |b.properties| && b.properties[i].key in v.members
      ensures Valid(f, b.properties[i].schema, v.members[b.properties[i].key])
    {
      if i == 0 {
        assert b.properties[0] == a.properties[0];
      }
    }
  }
}
