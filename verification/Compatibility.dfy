/** The event-schema compatibility checker, and what its report means. */
module Compatibility {
  import opened Common
  import opened Schema

  datatype Direction = Backward | Forward

  const BOTH := {Backward, Forward}

  datatype Rule =
    | KindChanged
    | OptionalBecameRequired
    | RequiredBecameOptional
    | RequiredPropertyRemoved
    | RequiredPropertyAdded
    | TypeChanged
    | Added(keyword: Keyword)
    | Removed(keyword: Keyword)
    | Changed(keyword: Keyword)

  datatype Keyword = EnumKeyword | FormatKeyword

  datatype Segment = PropertyOf(key: string) | Items

  type Path = seq<Segment>

  datatype Finding = Finding(path: Path, rule: Rule, breaks: set<Direction>)

  // ---------------------------------------------------------------- scalars

  predicate Covers(superset: set<PrimitiveType>, subset: set<PrimitiveType>) {
    forall t :: t in subset ==> t in superset || (t == IntegerType && NumberType in superset)
  }

  function TypeBreaks(previous: set<PrimitiveType>, next: set<PrimitiveType>): set<Direction> {
    (if Covers(next, previous) then {} else {Backward}) + (if Covers(previous, next) then {} else {Forward})
  }

  function TypeFindings(previous: Node, next: Node, path: Path): seq<Finding>
    requires previous.ScalarNode? && next.ScalarNode?
  {
    var breaks := TypeBreaks(previous.types, next.types);
    if breaks == {} then [] else [Finding(path, TypeChanged, breaks)]
  }

  predicate AllIn(a: seq<Scalar>, b: seq<Scalar>) {
    forall i :: 0 <= i < |a| ==> a[i] in b
  }

  function EnumBreaks(previous: seq<Scalar>, next: seq<Scalar>): set<Direction> {
    (if AllIn(previous, next) then {} else {Backward}) + (if AllIn(next, previous) then {} else {Forward})
  }

  /**
   * The shared rule of `enum` and `format`, where absent means unconstrained. `equal` and
   * `different` matter only when both sides are present.
   */
  function ConstraintFindings(keyword: Keyword, before: bool, after: bool, equal: bool, different: set<Direction>, path: Path): seq<Finding> {
    if !before && !after then []
    else if !before then [Finding(path, Added(keyword), {Backward})]
    else if !after then [Finding(path, Removed(keyword), {Forward})]
    else if equal then []
    else [Finding(path, Changed(keyword), different)]
  }

  function EnumFindings(previous: Option<seq<Scalar>>, next: Option<seq<Scalar>>, path: Path): seq<Finding> {
    var both := previous.Some? && next.Some?;
    ConstraintFindings(EnumKeyword, previous.Some?, next.Some?,
                       both && AllIn(previous.value, next.value) && AllIn(next.value, previous.value),
                       if both then EnumBreaks(previous.value, next.value) else {}, path)
  }

  function FormatFindings(previous: Option<string>, next: Option<string>, path: Path): seq<Finding> {
    ConstraintFindings(FormatKeyword, previous.Some?, next.Some?, previous == next, BOTH, path)
  }

  function ScalarFindings(previous: Node, next: Node, path: Path): seq<Finding>
    requires previous.ScalarNode? && next.ScalarNode?
  {
    TypeFindings(previous, next, path)
    + EnumFindings(previous.allowed, next.allowed, path)
    + FormatFindings(previous.format, next.format, path)
  }

  // ---------------------------------------------------------------- nodes

  predicate SameKind(a: Node, b: Node) {
    (a.ObjectNode? && b.ObjectNode?) || (a.ArrayNode? && b.ArrayNode?) || (a.ScalarNode? && b.ScalarNode?)
  }

  function KeysOf(properties: seq<Property>): seq<string> {
    seq(|properties|, i requires 0 <= i < |properties| => properties[i].key)
  }

  /** Keys of `next` that `previous` does not declare, in order. */
  function NewKeys(previous: Node, properties: seq<Property>): seq<string>
    requires previous.ObjectNode?
  {
    if properties == [] then []
    else
      var last := properties[|properties| - 1].key;
      NewKeys(previous, properties[..|properties| - 1]) + if Has(previous, last) then [] else [last]
  }

  /** Every key either schema declares, once each. */
  function AllKeys(previous: Node, next: Node): seq<string>
    requires previous.ObjectNode? && next.ObjectNode?
  {
    KeysOf(previous.properties) + NewKeys(previous, next.properties)
  }

  /** What is wrong with the presence of a key, before looking into its schemas. */
  function RequiredFindings(previous: Node, next: Node, key: string, path: Path): seq<Finding>
    requires previous.ObjectNode? && next.ObjectNode?
  {
    var was, now := key in previous.required, key in next.required;
    if Has(previous, key) && Has(next, key) then
      (if !was && now then [Finding(path, OptionalBecameRequired, {Backward})] else [])
      + (if was && !now then [Finding(path, RequiredBecameOptional, {Forward})] else [])
    else if Has(previous, key) then
      if was then [Finding(path, RequiredPropertyRemoved, {Forward})] else []
    else if now then [Finding(path, RequiredPropertyAdded, {Backward})]
    else []
  }

  function KeyFindings(previous: Node, next: Node, key: string, path: Path): seq<Finding>
    requires previous.ObjectNode? && next.ObjectNode?
    decreases previous, 0, 0
  {
    var child := path + [PropertyOf(key)];
    RequiredFindings(previous, next, key, child)
    + if Has(previous, key) && Has(next, key) then
        var before := previous.properties[IndexOf(previous.properties, key)].schema;
        var after := next.properties[IndexOf(next.properties, key)].schema;
        NodeFindings(before, after, child)
      else []
  }

  function ObjectFindings(previous: Node, next: Node, path: Path, keys: seq<string>): seq<Finding>
    requires previous.ObjectNode? && next.ObjectNode?
    decreases previous, 1, |keys|
  {
    if keys == [] then []
    else ObjectFindings(previous, next, path, keys[..|keys| - 1]) + KeyFindings(previous, next, keys[|keys| - 1], path)
  }

  /** What the checker reports of two nodes. */
  function NodeFindings(previous: Node, next: Node, path: Path): seq<Finding>
    decreases previous, 2, 0
  {
    if !SameKind(previous, next) then [Finding(path, KindChanged, BOTH)]
    else
      match previous
      case ObjectNode(_, _) => ObjectFindings(previous, next, path, AllKeys(previous, next))
      case ArrayNode(items) => NodeFindings(items, next.items, path + [Items])
      case ScalarNode(_, _, _) => ScalarFindings(previous, next, path)
  }

  function CheckCompatibility(previous: Node, next: Node): seq<Finding> {
    NodeFindings(previous, next, [])
  }

  /** The shared array the comparers push into. */
  class Findings {
    var items: seq<Finding>

    constructor ()
      ensures items == []
    {
      items := [];
    }

    method Push(f: Finding)
      modifies this
      ensures items == old(items) + [f]
    {
      items := items + [f];
    }
  }

  /** Refuses a schema outside the profile it can reason about; else reports every incompatibility. */
  method Check(previous: Node, next: Node) returns (r: Option<seq<Finding>>)
    ensures r.Some? <==> IsDocument(previous) && IsDocument(next)
    ensures r.Some? ==> r.value == CheckCompatibility(previous, next)
  {
    if !IsDocument(previous) || !IsDocument(next) {
      return None;
    }
    var findings := new Findings();
    CompareNodes(previous, next, [], findings);
    return Some(findings.items);
  }

  method CompareNodes(previous: Node, next: Node, path: Path, findings: Findings)
    modifies findings
    ensures findings.items == old(findings.items) + NodeFindings(previous, next, path)
    decreases previous, 2, 0
  {
    if !SameKind(previous, next) {
      findings.Push(Finding(path, KindChanged, BOTH));
      return;
    }
    match previous {
      case ObjectNode(_, _) =>
        CompareObjects(previous, next, path, findings);
      case ArrayNode(items) =>
        CompareNodes(items, next.items, path + [Items], findings);
      case ScalarNode(_, _, _) =>
        CompareScalars(previous, next, path, findings);
    }
  }

  lemma OneMoreKey(previous: Node, next: Node, path: Path, keys: seq<string>, i: nat)
    requires previous.ObjectNode? && next.ObjectNode? && i < |keys|
    ensures ObjectFindings(previous, next, path, keys[..i + 1])
         == ObjectFindings(previous, next, path, keys[..i]) + KeyFindings(previous, next, keys[i], path)
  {
    assert keys[..i + 1][..i] == keys[..i];
  }

  method CompareObjects(previous: Node, next: Node, path: Path, findings: Findings)
    requires previous.ObjectNode? && next.ObjectNode?
    modifies findings
    ensures findings.items == old(findings.items) + ObjectFindings(previous, next, path, AllKeys(previous, next))
    decreases previous, 1, 0
  {
    var keys := AllKeys(previous, next);
    ghost var start := findings.items;
    for i := 0 to |keys|
      invariant findings.items == start + ObjectFindings(previous, next, path, keys[..i])
    {
      ghost var before := ObjectFindings(previous, next, path, keys[..i]);
      ComparePropertyAt(previous, next, keys[i], path, findings);
      OneMoreKey(previous, next, path, keys, i);
      Associates(start, before, KeyFindings(previous, next, keys[i], path));
    }
    assert keys[..|keys|] == keys;
  }

  method ComparePropertyAt(previous: Node, next: Node, key: string, path: Path, findings: Findings)
    requires previous.ObjectNode? && next.ObjectNode?
    modifies findings
    ensures findings.items == old(findings.items) + KeyFindings(previous, next, key, path)
    decreases previous, 0, 0
  {
    var child := path + [PropertyOf(key)];
    var was, now := key in previous.required, key in next.required;
    var before, after := IndexOf(previous.properties, key), IndexOf(next.properties, key);
    if before >= 0 && after >= 0 {
      if !was && now {
        findings.Push(Finding(child, OptionalBecameRequired, {Backward}));
      }
      if was && !now {
        findings.Push(Finding(child, RequiredBecameOptional, {Forward}));
      }
      CompareNodes(previous.properties[before].schema, next.properties[after].schema, child, findings);
    } else if before >= 0 {
      if was {
        findings.Push(Finding(child, RequiredPropertyRemoved, {Forward}));
      }
    } else if now {
      findings.Push(Finding(child, RequiredPropertyAdded, {Backward}));
    }
  }

  method CompareScalars(previous: Node, next: Node, path: Path, findings: Findings)
    requires previous.ScalarNode? && next.ScalarNode?
    modifies findings
    ensures findings.items == old(findings.items) + ScalarFindings(previous, next, path)
  {
    ghost var start := findings.items;
    CompareTypes(previous, next, path, findings);
    CompareEnums(previous.allowed, next.allowed, path, findings);
    CompareConstraint(FormatKeyword, previous.format.Some?, next.format.Some?, previous.format == next.format, BOTH, path, findings);
    ghost var types, enums := TypeFindings(previous, next, path), EnumFindings(previous.allowed, next.allowed, path);
    ghost var formats := FormatFindings(previous.format, next.format, path);
    Associates(start, types, enums);
    Associates(start, types + enums, formats);
  }

  method CompareTypes(previous: Node, next: Node, path: Path, findings: Findings)
    requires previous.ScalarNode? && next.ScalarNode?
    modifies findings
    ensures findings.items == old(findings.items) + TypeFindings(previous, next, path)
  {
    var breaks: set<Direction> := {};
    if !Covers(next.types, previous.types) {
      breaks := breaks + {Backward};
    }
    if !Covers(previous.types, next.types) {
      breaks := breaks + {Forward};
    }
    assert breaks == TypeBreaks(previous.types, next.types);
    if breaks != {} {
      findings.Push(Finding(path, TypeChanged, breaks));
    }
  }

  method CompareEnums(previous: Option<seq<Scalar>>, next: Option<seq<Scalar>>, path: Path, findings: Findings)
    modifies findings
    ensures findings.items == old(findings.items) + EnumFindings(previous, next, path)
  {
    var both := previous.Some? && next.Some?;
    CompareConstraint(EnumKeyword, previous.Some?, next.Some?,
                      both && AllIn(previous.value, next.value) && AllIn(next.value, previous.value),
                      if both then EnumBreaks(previous.value, next.value) else {}, path, findings);
  }

  method CompareConstraint(keyword: Keyword, before: bool, after: bool, equal: bool, different: set<Direction>, path: Path, findings: Findings)
    modifies findings
    ensures findings.items == old(findings.items) + ConstraintFindings(keyword, before, after, equal, different, path)
  {
    if !before && !after {
      return;
    }
    if !before {
      findings.Push(Finding(path, Added(keyword), {Backward}));
      return;
    }
    if !after {
      findings.Push(Finding(path, Removed(keyword), {Forward}));
      return;
    }
    if !equal {
      findings.Push(Finding(path, Changed(keyword), different));
    }
  }

  // ---------------------------------------------------------------- soundness

  predicate Breaks(findings: seq<Finding>, direction: Direction) {
    exists f :: f in findings && direction in f.breaks
  }

  lemma FirstBreaks(some: seq<Finding>, all: seq<Finding>, direction: Direction)
    requires some != [] && direction in some[0].breaks
    requires forall f :: f in some ==> f in all
    ensures Breaks(all, direction)
  {
    assert some[0] in some;
  }

  lemma AllKeysComplete(previous: Node, next: Node, key: string)
    requires previous.ObjectNode? && next.ObjectNode?
    ensures key in AllKeys(previous, next) <==> Has(previous, key) || Has(next, key)
  {
    NewKeysComplete(previous, next.properties, key);
    if Has(previous, key) {
      assert KeysOf(previous.properties)[IndexOf(previous.properties, key)] == key;
    }
  }

  lemma {:induction false} NewKeysComplete(previous: Node, properties: seq<Property>, key: string)
    requires previous.ObjectNode?
    ensures key in NewKeys(previous, properties) <==> !Has(previous, key) && IndexOf(properties, key) >= 0
  {
    if properties != [] {
      NewKeysComplete(previous, properties[..|properties| - 1], key);
    }
  }

  /** The findings of an object are the findings of its keys. */
  lemma {:induction false} FindingsOfKeys(previous: Node, next: Node, path: Path, keys: seq<string>, f: Finding)
    requires previous.ObjectNode? && next.ObjectNode?
    ensures f in ObjectFindings(previous, next, path, keys) <==>
            exists key :: key in keys && f in KeyFindings(previous, next, key, path)
  {
    if keys != [] {
      var init, last := keys[..|keys| - 1], keys[|keys| - 1];
      FindingsOfKeys(previous, next, path, init, f);
      assert forall key :: key in keys <==> key in init || key == last;
      if f in KeyFindings(previous, next, last, path) {
        assert last in keys;
      }
    }
  }

  /** A key's findings are among its object's. */
  lemma KeyFindingsIncluded(previous: Node, next: Node, path: Path, key: string, direction: Direction)
    requires previous.ObjectNode? && next.ObjectNode?
    requires Has(previous, key) || Has(next, key)
    requires !Breaks(NodeFindings(previous, next, path), direction)
    ensures !Breaks(KeyFindings(previous, next, key, path), direction)
  {
    AllKeysComplete(previous, next, key);
    forall f | f in KeyFindings(previous, next, key, path)
      ensures direction !in f.breaks
    {
      FindingsOfKeys(previous, next, path, AllKeys(previous, next), f);
      assert f in NodeFindings(previous, next, path);
    }
  }

  lemma ScalarSound(f: Formats, previous: Node, next: Node, path: Path, v: Value)
    requires previous.ScalarNode? && next.ScalarNode?
    requires !Breaks(ScalarFindings(previous, next, path), Backward)
    requires Valid(f, previous, v)
    ensures Valid(f, next, v)
  {
    var types, enums, formats := TypeFindings(previous, next, path), EnumFindings(previous.allowed, next.allowed, path), FormatFindings(previous.format, next.format, path);
    assert forall x :: x in types || x in enums || x in formats ==> x in ScalarFindings(previous, next, path);
    assert Covers(next.types, previous.types) by {
      if !Covers(next.types, previous.types) {
        FirstBreaks(types, ScalarFindings(previous, next, path), Backward);
        assert false;
      }
    }
    assert enums != [] ==> enums[0] in enums;
    assert formats != [] ==> formats[0] in formats;
    var t :| t in previous.types && HasType(t, v.scalar);
    if t !in next.types {
      assert HasType(NumberType, v.scalar);
    }
  }

  /**
   * If nothing reported breaks backward, a reader on the new schema accepts every value written
   * against the old one, that is, valid there and carrying only properties it declares.
   */
  lemma {:induction false} BackwardSound(f: Formats, previous: Node, next: Node, path: Path, v: Value)
    requires InProfile(next)
    requires !Breaks(NodeFindings(previous, next, path), Backward)
    requires Valid(f, previous, v) && OnlyDeclared(previous, v)
    ensures Valid(f, next, v)
    decreases previous
  {
    assert SameKind(previous, next) by {
      if !SameKind(previous, next) {
        FirstBreaks(NodeFindings(previous, next, path), NodeFindings(previous, next, path), Backward);
        assert false;
      }
    }
    match previous
    case ObjectNode(properties, required) =>
      forall key | key in next.required
        ensures key in v.members
      {
        KeyFindingsIncluded(previous, next, path, key, Backward);
        var found := RequiredFindings(previous, next, key, path + [PropertyOf(key)]);
        assert found != [] ==> found[0] in KeyFindings(previous, next, key, path);
      }
      forall i | 0 <= i < |next.properties| && next.properties[i].key in v.members
        ensures Valid(f, next.properties[i].schema, v.members[next.properties[i].key])
      {
        var key := next.properties[i].key;
        assert Has(previous, key) && Has(next, key);
        assert IndexOf(next.properties, key) == i;
        var child := path + [PropertyOf(key)];
        var j := IndexOf(properties, key);
        KeyFindingsIncluded(previous, next, path, key, Backward);
        assert forall x :: x in NodeFindings(properties[j].schema, next.properties[i].schema, child) ==>
                             x in KeyFindings(previous, next, key, path);
        BackwardSound(f, properties[j].schema, next.properties[i].schema, child, v.members[key]);
      }
    case ArrayNode(items) =>
      forall i | 0 <= i < |v.elements|
        ensures Valid(f, next.items, v.elements[i])
      {
        BackwardSound(f, items, next.items, path + [Items], v.elements[i]);
      }
    case ScalarNode(_, _, _) =>
      ScalarSound(f, previous, next, path, v);
  }

  // ---------------------------------------------------------------- what is reported, exactly

  /** A value a scalar schema accepts is one the next accepts, as far as its keywords say. */
  predicate ScalarOk(previous: Node, next: Node)
    requires previous.ScalarNode? && next.ScalarNode?
  {
    && Covers(next.types, previous.types)
    && (next.allowed.Some? ==> previous.allowed.Some? && AllIn(previous.allowed.value, next.allowed.value))
    && (next.format.Some? ==> previous.format == next.format)
  }

  /** A key is never newly demanded, and where both schemas declare it the next reads the previous. */
  ghost predicate KeyOk(previous: Node, next: Node, key: string)
    requires previous.ObjectNode? && next.ObjectNode?
    decreases previous, 0
  {
    && (Has(next, key) && key in next.required ==> Has(previous, key) && key in previous.required)
    && (Has(previous, key) && Has(next, key) ==>
          BackwardOk(previous.properties[IndexOf(previous.properties, key)].schema,
                     next.properties[IndexOf(next.properties, key)].schema))
  }

  /** The rules for a backward compatible successor, said without reference to any report. */
  ghost predicate BackwardOk(previous: Node, next: Node)
    decreases previous, 1
  {
    && SameKind(previous, next)
    && match previous
       case ObjectNode(_, _) => forall key :: Has(previous, key) || Has(next, key) ==> KeyOk(previous, next, key)
       case ArrayNode(items) => BackwardOk(items, next.items)
       case ScalarNode(_, _, _) => ScalarOk(previous, next)
  }

  lemma BreaksConcat(a: seq<Finding>, b: seq<Finding>, direction: Direction)
    ensures Breaks(a + b, direction) <==> Breaks(a, direction) || Breaks(b, direction)
  {
    assert forall f :: f in a + b <==> f in a || f in b;
  }

  lemma BreaksOne(f: Finding, direction: Direction)
    ensures Breaks([f], direction) <==> direction in f.breaks
  {
    assert f in [f];
  }

  lemma ConstraintBreaks(keyword: Keyword, before: bool, after: bool, equal: bool, different: set<Direction>, path: Path)
    ensures Breaks(ConstraintFindings(keyword, before, after, equal, different, path), Backward)
       <==> after && (!before || (!equal && Backward in different))
  {
    BreaksOne(Finding(path, Added(keyword), {Backward}), Backward);
    BreaksOne(Finding(path, Removed(keyword), {Forward}), Backward);
    BreaksOne(Finding(path, Changed(keyword), different), Backward);
  }

  lemma TypeReported(previous: Node, next: Node, path: Path)
    requires previous.ScalarNode? && next.ScalarNode?
    ensures Breaks(TypeFindings(previous, next, path), Backward) <==> !Covers(next.types, previous.types)
  {
    var breaks := TypeBreaks(previous.types, next.types);
    BreaksOne(Finding(path, TypeChanged, breaks), Backward);
    assert Backward in breaks <==> !Covers(next.types, previous.types);
  }

  lemma EnumReported(previous: Option<seq<Scalar>>, next: Option<seq<Scalar>>, path: Path)
    ensures Breaks(EnumFindings(previous, next, path), Backward)
       <==> next.Some? && (previous.None? || !AllIn(previous.value, next.value))
  {
    var both := previous.Some? && next.Some?;
    ConstraintBreaks(EnumKeyword, previous.Some?, next.Some?,
                     both && AllIn(previous.value, next.value) && AllIn(next.value, previous.value),
                     if both then EnumBreaks(previous.value, next.value) else {}, path);
  }

  lemma ScalarReported(previous: Node, next: Node, path: Path)
    requires previous.ScalarNode? && next.ScalarNode?
    ensures Breaks(ScalarFindings(previous, next, path), Backward) <==> !ScalarOk(previous, next)
  {
    var types, enums := TypeFindings(previous, next, path), EnumFindings(previous.allowed, next.allowed, path);
    var formats := FormatFindings(previous.format, next.format, path);
    TypeReported(previous, next, path);
    EnumReported(previous.allowed, next.allowed, path);
    ConstraintBreaks(FormatKeyword, previous.format.Some?, next.format.Some?, previous.format == next.format, BOTH, path);
    BreaksConcat(types, enums, Backward);
    BreaksConcat(types + enums, formats, Backward);
  }

  lemma RequiredReported(previous: Node, next: Node, key: string, path: Path)
    requires previous.ObjectNode? && next.ObjectNode? && (Has(previous, key) || Has(next, key))
    ensures Breaks(RequiredFindings(previous, next, key, path), Backward)
       <==> Has(next, key) && key in next.required && !(Has(previous, key) && key in previous.required)
  {
    BreaksOne(Finding(path, OptionalBecameRequired, {Backward}), Backward);
    BreaksOne(Finding(path, RequiredBecameOptional, {Forward}), Backward);
    BreaksOne(Finding(path, RequiredPropertyRemoved, {Forward}), Backward);
    BreaksOne(Finding(path, RequiredPropertyAdded, {Backward}), Backward);
    BreaksConcat([Finding(path, OptionalBecameRequired, {Backward})], [], Backward);
    BreaksConcat([], [Finding(path, RequiredBecameOptional, {Forward})], Backward);
  }

  lemma {:induction false} KeyReported(previous: Node, next: Node, key: string, path: Path)
    requires previous.ObjectNode? && next.ObjectNode? && (Has(previous, key) || Has(next, key))
    ensures Breaks(KeyFindings(previous, next, key, path), Backward) <==> !KeyOk(previous, next, key)
    decreases previous, 0
  {
    var child := path + [PropertyOf(key)];
    var required := RequiredFindings(previous, next, key, child);
    RequiredReported(previous, next, key, child);
    if Has(previous, key) && Has(next, key) {
      var before := previous.properties[IndexOf(previous.properties, key)].schema;
      var after := next.properties[IndexOf(next.properties, key)].schema;
      ReportIsExact(before, after, child);
      BreaksConcat(required, NodeFindings(before, after, child), Backward);
    } else {
      BreaksConcat(required, [], Backward);
    }
  }

  /** Something reported breaks backward exactly when the rules are broken. */
  lemma {:induction false} ReportIsExact(previous: Node, next: Node, path: Path)
    ensures Breaks(NodeFindings(previous, next, path), Backward) <==> !BackwardOk(previous, next)
    decreases previous, 2
  {
    if !SameKind(previous, next) {
      BreaksOne(Finding(path, KindChanged, BOTH), Backward);
    } else {
      match previous
      case ObjectNode(_, _) => ObjectReported(previous, next, path);
      case ArrayNode(items) => ReportIsExact(items, next.items, path + [Items]);
      case ScalarNode(_, _, _) => ScalarReported(previous, next, path);
    }
  }

  lemma {:induction false} ObjectReported(previous: Node, next: Node, path: Path)
    requires previous.ObjectNode? && next.ObjectNode?
    ensures Breaks(NodeFindings(previous, next, path), Backward) <==> !BackwardOk(previous, next)
    decreases previous, 1
  {
    if Breaks(NodeFindings(previous, next, path), Backward) {
      var f :| f in NodeFindings(previous, next, path) && Backward in f.breaks;
      FindingsOfKeys(previous, next, path, AllKeys(previous, next), f);
      var key :| key in AllKeys(previous, next) && f in KeyFindings(previous, next, key, path);
      AllKeysComplete(previous, next, key);
      KeyReported(previous, next, key, path);
    } else {
      forall key | Has(previous, key) || Has(next, key)
        ensures KeyOk(previous, next, key)
      {
        KeyFindingsIncluded(previous, next, path, key, Backward);
        KeyReported(previous, next, key, path);
      }
    }
  }
}
