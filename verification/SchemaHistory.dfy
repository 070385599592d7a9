/** The two directions as mirror images, and what a whole history of schemas guarantees. */
module SchemaHistory {
  import opened Common
  import opened Schema
  import opened Compatibility

  function Other(d: Direction): Direction {
    if d == Backward then Forward else Backward
  }

  /** The rule that reports the same change seen from the other side. */
  function MirrorRule(r: Rule): Rule {
    match r
    case OptionalBecameRequired => RequiredBecameOptional
    case RequiredBecameOptional => OptionalBecameRequired
    case RequiredPropertyRemoved => RequiredPropertyAdded
    case RequiredPropertyAdded => RequiredPropertyRemoved
    case Added(k) => Removed(k)
    case Removed(k) => Added(k)
    case _ => r
  }

  predicate Says(findings: seq<Finding>, at: Path, rule: Rule, direction: Direction) {
    exists f :: f in findings && f.path == at && f.rule == rule && direction in f.breaks
  }

  lemma SaysIncluded(some: seq<Finding>, all: seq<Finding>, at: Path, rule: Rule, direction: Direction)
    requires Says(some, at, rule, direction)
    requires forall f :: f in some ==> f in all
    ensures Says(all, at, rule, direction)
  {
    var f :| f in some && f.path == at && f.rule == rule && direction in f.breaks;
    assert f in all;
  }

  lemma MirrorScalars(a: Node, b: Node, path: Path, at: Path, rule: Rule, direction: Direction)
    requires a.ScalarNode? && b.ScalarNode?
    requires Says(ScalarFindings(a, b, path), at, rule, direction)
    ensures Says(ScalarFindings(b, a, path), at, MirrorRule(rule), Other(direction))
  {
    var f :| f in ScalarFindings(a, b, path) && f.path == at && f.rule == rule && direction in f.breaks;
    var all := ScalarFindings(b, a, path);
    var types, enums, formats := TypeFindings(b, a, path), EnumFindings(b.allowed, a.allowed, path), FormatFindings(b.format, a.format, path);
    assert forall x :: x in types || x in enums || x in formats ==> x in all;
    if f in TypeFindings(a, b, path) {
      assert types == [Finding(path, TypeChanged, TypeBreaks(b.types, a.types))];
      assert types[0] in all;
    } else if f in EnumFindings(a.allowed, b.allowed, path) {
      assert enums[0] in all;
    } else {
      assert formats[0] in all;
    }
  }

  lemma MirrorRequired(a: Node, b: Node, key: string, path: Path, at: Path, rule: Rule, direction: Direction)
    requires a.ObjectNode? && b.ObjectNode?
    requires Has(a, key) || Has(b, key)
    requires Says(RequiredFindings(a, b, key, path), at, rule, direction)
    ensures Says(RequiredFindings(b, a, key, path), at, MirrorRule(rule), Other(direction))
  {
    var found := RequiredFindings(b, a, key, path);
    assert found != [];
    assert found[0] in found;
  }

  lemma {:induction false} MirrorOneWay(a: Node, b: Node, path: Path, at: Path, rule: Rule, direction: Direction)
    requires Says(NodeFindings(a, b, path), at, rule, direction)
    ensures Says(NodeFindings(b, a, path), at, MirrorRule(rule), Other(direction))
    decreases a
  {
    if !SameKind(a, b) {
      var f := Finding(path, KindChanged, BOTH);
      assert NodeFindings(a, b, path) == [f] && NodeFindings(b, a, path) == [f];
      assert f in NodeFindings(b, a, path);
      return;
    }
    match a
    case ObjectNode(_, _) =>
      var f :| f in NodeFindings(a, b, path) && f.path == at && f.rule == rule && direction in f.breaks;
      FindingsOfKeys(a, b, path, AllKeys(a, b), f);
      var key :| key in AllKeys(a, b) && f in KeyFindings(a, b, key, path);
      MirrorKey(a, b, key, path, at, rule, direction);
      var g :| g in KeyFindings(b, a, key, path) && g.path == at && g.rule == MirrorRule(rule) && Other(direction) in g.breaks;
      AllKeysComplete(a, b, key);
      AllKeysComplete(b, a, key);
      FindingsOfKeys(b, a, path, AllKeys(b, a), g);
      assert g in NodeFindings(b, a, path);
    case ArrayNode(items) => MirrorOneWay(items, b.items, path + [Items], at, rule, direction);
    case ScalarNode(_, _, _) => MirrorScalars(a, b, path, at, rule, direction);
  }

  lemma {:induction false} MirrorKey(a: Node, b: Node, key: string, path: Path, at: Path, rule: Rule, direction: Direction)
    requires a.ObjectNode? && b.ObjectNode? && key in AllKeys(a, b)
    requires Says(KeyFindings(a, b, key, path), at, rule, direction)
    ensures Says(KeyFindings(b, a, key, path), at, MirrorRule(rule), Other(direction))
    decreases a, 0
  {
    var child := path + [PropertyOf(key)];
    AllKeysComplete(a, b, key);
    var f :| f in KeyFindings(a, b, key, path) && f.path == at && f.rule == rule && direction in f.breaks;
    if f in RequiredFindings(a, b, key, child) {
      assert Says(RequiredFindings(a, b, key, child), at, rule, direction);
      MirrorRequired(a, b, key, child, at, rule, direction);
      SaysIncluded(RequiredFindings(b, a, key, child), KeyFindings(b, a, key, path), at, MirrorRule(rule), Other(direction));
    } else {
      var before, after := a.properties[IndexOf(a.properties, key)].schema, b.properties[IndexOf(b.properties, key)].schema;
      assert f in NodeFindings(before, after, child);
      MirrorOneWay(before, after, child, at, rule, direction);
      SaysIncluded(NodeFindings(after, before, child), KeyFindings(b, a, key, path), at, MirrorRule(rule), Other(direction));
    }
  }

  /** Backward breaks of (a, b) are exactly forward breaks of (b, a): same places, mirrored rules. */
  lemma Mirror(a: Node, b: Node, path: Path, at: Path, rule: Rule, direction: Direction)
    ensures Says(NodeFindings(a, b, path), at, rule, direction)
       <==> Says(NodeFindings(b, a, path), at, MirrorRule(rule), Other(direction))
  {
    assert MirrorRule(MirrorRule(rule)) == rule && Other(Other(direction)) == direction;
    if Says(NodeFindings(a, b, path), at, rule, direction) {
      MirrorOneWay(a, b, path, at, rule, direction);
    }
    if Says(NodeFindings(b, a, path), at, MirrorRule(rule), Other(direction)) {
      MirrorOneWay(b, a, path, at, MirrorRule(rule), Other(direction));
    }
  }

  /** If nothing reported breaks forward, a reader on the old schema accepts what the new one writes. */
  lemma ForwardSound(f: Formats, previous: Node, next: Node, path: Path, v: Value)
    requires InProfile(previous)
    requires !Breaks(NodeFindings(previous, next, path), Forward)
    requires Valid(f, next, v) && OnlyDeclared(next, v)
    ensures Valid(f, previous, v)
  {
    if Breaks(NodeFindings(next, previous, path), Backward) {
      var g :| g in NodeFindings(next, previous, path) && Backward in g.breaks;
      assert Says(NodeFindings(next, previous, path), g.path, g.rule, Backward);
      Mirror(next, previous, path, g.path, g.rule, Backward);
    }
    BackwardSound(f, next, previous, path, v);
  }

  lemma RequiredBreaksSomething(a: Node, b: Node, key: string, path: Path, f: Finding)
    requires a.ObjectNode? && b.ObjectNode? && f in RequiredFindings(a, b, key, path)
    ensures Backward in f.breaks || Forward in f.breaks
  {
  }

  lemma ScalarBreaksSomething(a: Node, b: Node, path: Path, f: Finding)
    requires a.ScalarNode? && b.ScalarNode? && f in ScalarFindings(a, b, path)
    ensures Backward in f.breaks || Forward in f.breaks
  {
    var types, enums, formats := TypeFindings(a, b, path), EnumFindings(a.allowed, b.allowed, path), FormatFindings(a.format, b.format, path);
    assert f in types || f in enums || f in formats;
    assert |types| <= 1 && |enums| <= 1 && |formats| <= 1;
  }

  /** Every finding breaks at least one direction. */
  lemma {:induction false} FindingsBreakSomething(a: Node, b: Node, path: Path, f: Finding)
    requires f in NodeFindings(a, b, path)
    ensures Backward in f.breaks || Forward in f.breaks
    decreases a
  {
    if SameKind(a, b) {
      match a
      case ObjectNode(properties, _) =>
        FindingsOfKeys(a, b, path, AllKeys(a, b), f);
        var key :| key in AllKeys(a, b) && f in KeyFindings(a, b, key, path);
        var child := path + [PropertyOf(key)];
        if f in RequiredFindings(a, b, key, child) {
          RequiredBreaksSomething(a, b, key, child, f);
        } else {
          FindingsBreakSomething(properties[IndexOf(properties, key)].schema, b.properties[IndexOf(b.properties, key)].schema, child, f);
        }
      case ArrayNode(items) => FindingsBreakSomething(items, b.items, path + [Items], f);
      case ScalarNode(_, _, _) => ScalarBreaksSomething(a, b, path, f);
    }
  }

  // ---------------------------------------------------------------- histories

  predicate FullyCompatible(a: Node, b: Node) {
    CheckCompatibility(a, b) == []
  }

  /** The same for the other direction. */
  lemma ForwardReportIsExact(a: Node, b: Node, path: Path)
    ensures Breaks(NodeFindings(a, b, path), Forward) <==> !BackwardOk(b, a)
  {
    ReportIsExact(b, a, path);
    if Breaks(NodeFindings(a, b, path), Forward) {
      var f :| f in NodeFindings(a, b, path) && Forward in f.breaks;
      assert Says(NodeFindings(a, b, path), f.path, f.rule, Forward);
      Mirror(a, b, path, f.path, f.rule, Forward);
    }
    if Breaks(NodeFindings(b, a, path), Backward) {
      var f :| f in NodeFindings(b, a, path) && Backward in f.breaks;
      assert Says(NodeFindings(b, a, path), f.path, f.rule, Backward);
      Mirror(b, a, path, f.path, f.rule, Backward);
    }
  }

  /** An empty report means exactly that the rules hold both ways. */
  lemma FullyCompatibleIsExact(a: Node, b: Node)
    ensures FullyCompatible(a, b) <==> BackwardOk(a, b) && BackwardOk(b, a)
  {
    ReportIsExact(a, b, []);
    ForwardReportIsExact(a, b, []);
    if CheckCompatibility(a, b) != [] {
      var f := CheckCompatibility(a, b)[0];
      FindingsBreakSomething(a, b, [], f);
    }
  }

  /** A reader on `reader` accepts everything written against `writer`. */
  ghost predicate Reads(reader: Node, writer: Node) {
    forall f: Formats, v :: Valid(f, writer, v) && OnlyDeclared(writer, v) ==> Valid(f, reader, v)
  }

  lemma CompatibleReadsBothWays(a: Node, b: Node)
    requires InProfile(a) && InProfile(b) && FullyCompatible(a, b)
    ensures Reads(a, b) && Reads(b, a)
  {
    forall f: Formats, v | Valid(f, a, v) && OnlyDeclared(a, v)
      ensures Valid(f, b, v)
    {
      BackwardSound(f, a, b, [], v);
    }
    forall f: Formats, v | Valid(f, b, v) && OnlyDeclared(b, v)
      ensures Valid(f, a, v)
    {
      ForwardSound(f, a, b, [], v);
    }
  }

  /** Both are schema documents in the profile, and neither breaks readers of the other. */
  predicate PairOk(a: Node, b: Node) {
    IsDocument(a) && IsDocument(b) && FullyCompatible(a, b)
  }

  datatype HistoryError =
    | OutsideProfile(older: nat, newer: nat)
    | Incompatible(older: nat, newer: nat, findings: seq<Finding>)

  /** Checks every version against every earlier one, and reports the first pair that fails. */
  method AssertHistoryIsFullyCompatible(versions: seq<Node>) returns (r: Result<(), HistoryError>)
    ensures r.Ok? <==> forall i, j :: 0 <= i < j < |versions| ==> PairOk(versions[i], versions[j])
    ensures r.Err? ==>
              && r.error.older < r.error.newer < |versions|
              && (forall i, j :: 0 <= i < j < |versions| && (i < r.error.older || (i == r.error.older && j < r.error.newer)) ==>
                                   PairOk(versions[i], versions[j]))
              && var a, b := versions[r.error.older], versions[r.error.newer];
                 && (r.error.OutsideProfile? <==> !IsDocument(a) || !IsDocument(b))
                 && (r.error.Incompatible? ==> r.error.findings == CheckCompatibility(a, b) != [])
  {
    for older := 0 to |versions|
      invariant forall i, j :: 0 <= i < older && i < j < |versions| ==> PairOk(versions[i], versions[j])
    {
      for newer := older + 1 to |versions|
        invariant forall j :: older < j < newer ==> PairOk(versions[older], versions[j])
      {
        var findings := Check(versions[older], versions[newer]);
        if findings.None? {
          assert !PairOk(versions[older], versions[newer]);
          return Err(OutsideProfile(older, newer));
        }
        if findings.value != [] {
          assert !PairOk(versions[older], versions[newer]);
          return Err(Incompatible(older, newer, findings.value));
        }
      }
    }
    return Ok(());
  }

  /** A history that passes lets every version read what every version writes. */
  lemma CheckedHistoryIsReadable(versions: seq<Node>, reader: int, writer: int)
    requires forall i, j :: 0 <= i < j < |versions| ==> PairOk(versions[i], versions[j])
    requires 0 <= reader < |versions| && 0 <= writer < |versions|
    ensures Reads(versions[reader], versions[writer])
  {
    var r, w := versions[reader], versions[writer];
    if reader < writer {
      assert PairOk(r, w);
      CompatibleReadsBothWays(r, w);
    } else if writer < reader {
      assert PairOk(w, r);
      CompatibleReadsBothWays(w, r);
    } else {
      ReadsItself(r);
    }
  }

  lemma ReadsItself(n: Node)
    ensures Reads(n, n)
  {
  }

  // ---------------------------------------------------------------- consecutive checks

  const OPTIONAL_TEXT := ObjectNode([Property("note", ScalarNode({StringType}, None, None))], {})
  const NOTHING := ObjectNode([], {})
  const OPTIONAL_NUMBER := ObjectNode([Property("note", ScalarNode({NumberType}, None, None))], {})

  lemma OneKeyFindings(a: Node, b: Node, key: string)
    requires a.ObjectNode? && b.ObjectNode? && AllKeys(a, b) == [key]
    ensures CheckCompatibility(a, b) == KeyFindings(a, b, key, [])
  {
    var keys := [key];
    OneMoreKey(a, b, [], keys, 0);
    assert keys[..1] == keys && keys[..0] == [];
    assert ObjectFindings(a, b, [], keys[..0]) == [];
  }

  lemma RemovedThenAddedBack()
    ensures InProfile(OPTIONAL_TEXT) && InProfile(NOTHING) && InProfile(OPTIONAL_NUMBER)
    ensures FullyCompatible(OPTIONAL_TEXT, NOTHING) && FullyCompatible(NOTHING, OPTIONAL_NUMBER)
  {
    var a, b, c := OPTIONAL_TEXT, NOTHING, OPTIONAL_NUMBER;
    assert AllKeys(a, b) == ["note"] && AllKeys(b, c) == ["note"];
    OneKeyFindings(a, b, "note");
    OneKeyFindings(b, c, "note");
  }

  lemma TextIsNotANumber(f: Formats)
    ensures !Reads(OPTIONAL_NUMBER, OPTIONAL_TEXT)
  {
    var a, c := OPTIONAL_TEXT, OPTIONAL_NUMBER;
    var x := VScalar(SString("x"));
    var v := VObject(map["note" := x]);
    assert Valid(f, a.properties[0].schema, x) by {
      assert StringType in a.properties[0].schema.types && HasType(StringType, SString("x"));
    }
    assert Valid(f, a, v) && OnlyDeclared(a, v);
    assert !Valid(f, c.properties[0].schema, x);
    assert !Valid(f, c, v);
  }

  /**
   * Checking consecutive versions is not enough: an optional property removed and added back at
   * another type passes each step, and yet the first version's values are unreadable by the last.
   */
  lemma ConsecutiveChecksAreNotEnough(f: Formats)
    ensures InProfile(OPTIONAL_TEXT) && InProfile(NOTHING) && InProfile(OPTIONAL_NUMBER)
    ensures FullyCompatible(OPTIONAL_TEXT, NOTHING) && FullyCompatible(NOTHING, OPTIONAL_NUMBER)
    ensures !FullyCompatible(OPTIONAL_TEXT, OPTIONAL_NUMBER)
    ensures !Reads(OPTIONAL_NUMBER, OPTIONAL_TEXT)
  {
    RemovedThenAddedBack();
    TextIsNotANumber(f);
    if FullyCompatible(OPTIONAL_TEXT, OPTIONAL_NUMBER) {
      CompatibleReadsBothWays(OPTIONAL_TEXT, OPTIONAL_NUMBER);
    }
  }

  /** No property of `a` is missing from `b`, at any depth both have. */
  predicate KeepsProperties(a: Node, b: Node) {
    match a
    case ObjectNode(properties, _) =>
      b.ObjectNode? ==>
        forall i :: 0 <= i < |properties| ==>
                      && Has(b, properties[i].key)
                      && KeepsProperties(properties[i].schema, b.properties[IndexOf(b.properties, properties[i].key)].schema)
    case ArrayNode(items) => b.ArrayNode? ==> KeepsProperties(items, b.items)
    case ScalarNode(_, _, _) => true
  }

  /** An object has no findings exactly when none of its keys has. */
  lemma NoFindingsByKey(a: Node, b: Node, path: Path)
    requires a.ObjectNode? && b.ObjectNode?
    ensures NodeFindings(a, b, path) == [] <==>
            forall key :: Has(a, key) || Has(b, key) ==> KeyFindings(a, b, key, path) == []
  {
    var all := NodeFindings(a, b, path);
    if all == [] {
      forall key | Has(a, key) || Has(b, key)
        ensures KeyFindings(a, b, key, path) == []
      {
        AllKeysComplete(a, b, key);
        var found := KeyFindings(a, b, key, path);
        if found != [] {
          FindingsOfKeys(a, b, path, AllKeys(a, b), found[0]);
        }
      }
    } else {
      var f := all[0];
      FindingsOfKeys(a, b, path, AllKeys(a, b), f);
      var key :| key in AllKeys(a, b) && f in KeyFindings(a, b, key, path);
      AllKeysComplete(a, b, key);
    }
  }

  lemma ScalarTransitive(a: Node, b: Node, c: Node, path: Path)
    requires a.ScalarNode? && b.ScalarNode? && c.ScalarNode?
    requires ScalarFindings(a, b, path) == [] && ScalarFindings(b, c, path) == []
    ensures ScalarFindings(a, c, path) == []
  {
    assert TypeFindings(a, b, path) == [] && TypeFindings(b, c, path) == [];
    assert EnumFindings(a.allowed, b.allowed, path) == [] && EnumFindings(b.allowed, c.allowed, path) == [];
    assert FormatFindings(a.format, b.format, path) == [] && FormatFindings(b.format, c.format, path) == [];
    assert Covers(b.types, a.types) && Covers(a.types, b.types) && Covers(c.types, b.types) && Covers(b.types, c.types) by {
      assert TypeBreaks(a.types, b.types) == {} && TypeBreaks(b.types, c.types) == {};
      assert Backward !in TypeBreaks(a.types, b.types) && Forward !in TypeBreaks(a.types, b.types);
      assert Backward !in TypeBreaks(b.types, c.types) && Forward !in TypeBreaks(b.types, c.types);
    }
    assert TypeBreaks(a.types, c.types) == {};
  }

  /** Full compatibility composes when the first step removes nothing. */
  lemma {:induction false} CompatibilityComposes(a: Node, b: Node, c: Node, path: Path)
    requires NodeFindings(a, b, path) == [] && NodeFindings(b, c, path) == []
    requires KeepsProperties(a, b)
    ensures NodeFindings(a, c, path) == []
    decreases a, 1
  {
    assert SameKind(a, b) && SameKind(b, c);
    match a
    case ObjectNode(_, _) =>
      NoFindingsByKey(a, b, path);
      NoFindingsByKey(b, c, path);
      forall key | Has(a, key) || Has(c, key)
        ensures KeyFindings(a, c, key, path) == []
      {
        CompatibilityComposesAt(a, b, c, key, path);
      }
      NoFindingsByKey(a, c, path);
    case ArrayNode(items) => CompatibilityComposes(items, b.items, c.items, path + [Items]);
    case ScalarNode(_, _, _) => ScalarTransitive(a, b, c, path);
  }

  lemma {:induction false} CompatibilityComposesAt(a: Node, b: Node, c: Node, key: string, path: Path)
    requires a.ObjectNode? && b.ObjectNode? && c.ObjectNode? && KeepsProperties(a, b)
    requires Has(a, key) || Has(c, key)
    requires Has(a, key) || Has(b, key) ==> KeyFindings(a, b, key, path) == []
    requires Has(b, key) || Has(c, key) ==> KeyFindings(b, c, key, path) == []
    ensures KeyFindings(a, c, key, path) == []
    decreases a, 0
  {
    var child := path + [PropertyOf(key)];
    assert Has(a, key) ==> Has(b, key) by {
      if Has(a, key) {
        assert a.properties[IndexOf(a.properties, key)].key == key;
      }
    }
    assert RequiredFindings(a, c, key, child) == [];
    if Has(a, key) && Has(c, key) {
      var x := a.properties[IndexOf(a.properties, key)].schema;
      var y := b.properties[IndexOf(b.properties, key)].schema;
      var z := c.properties[IndexOf(c.properties, key)].schema;
      assert NodeFindings(x, y, child) == [] && NodeFindings(y, z, child) == [];
      CompatibilityComposes(x, y, z, child);
    }
  }

  lemma {:induction false} KeepingComposes(a: Node, b: Node, c: Node, path: Path)
    requires InProfile(a) && NodeFindings(a, b, path) == []
    requires KeepsProperties(a, b) && KeepsProperties(b, c)
    ensures KeepsProperties(a, c)
    decreases a, 1
  {
    assert SameKind(a, b);
    match a
    case ObjectNode(properties, _) =>
      if c.ObjectNode? {
        forall i | 0 <= i < |properties|
          ensures Has(c, properties[i].key)
          ensures KeepsProperties(properties[i].schema, c.properties[IndexOf(c.properties, properties[i].key)].schema)
        {
          KeepingComposesAt(a, b, c, path, i);
        }
      }
    case ArrayNode(items) =>
      if c.ArrayNode? {
        KeepingComposes(items, b.items, c.items, path + [Items]);
      }
    case ScalarNode(_, _, _) =>
  }

  lemma {:induction false} KeepingComposesAt(a: Node, b: Node, c: Node, path: Path, i: nat)
    requires a.ObjectNode? && b.ObjectNode? && c.ObjectNode? && i < |a.properties|
    requires InProfile(a) && NodeFindings(a, b, path) == []
    requires KeepsProperties(a, b) && KeepsProperties(b, c)
    ensures Has(c, a.properties[i].key)
    ensures KeepsProperties(a.properties[i].schema, c.properties[IndexOf(c.properties, a.properties[i].key)].schema)
    decreases a, 0
  {
    var key := a.properties[i].key;
    var j := IndexOf(b.properties, key);
    assert Has(b, key) && b.properties[j].key == key;
    assert IndexOf(a.properties, key) == i;
    assert KeyFindings(a, b, key, path) == [] by {
      NoFindingsByKey(a, b, path);
    }
    KeepingComposes(a.properties[i].schema, b.properties[j].schema,
                    c.properties[IndexOf(c.properties, key)].schema, path + [PropertyOf(key)]);
  }

  /** Fully compatible, and nothing removed. */
  predicate OnlyGrows(a: Node, b: Node) {
    InProfile(a) && FullyCompatible(a, b) && KeepsProperties(a, b)
  }

  lemma GrowthComposes(a: Node, b: Node, c: Node)
    requires OnlyGrows(a, b) && OnlyGrows(b, c)
    ensures OnlyGrows(a, c)
  {
    CompatibilityComposes(a, b, c, []);
    KeepingComposes(a, b, c, []);
  }

  /** When no version removes a property, checking consecutive versions is enough. */
  lemma {:induction false} ConsecutiveChecksSufficeWithoutRemovals(versions: seq<Node>, i: int, j: int)
    requires forall k :: 0 <= k < |versions| - 1 ==> OnlyGrows(versions[k], versions[k + 1])
    requires 0 <= i < j < |versions|
    ensures OnlyGrows(versions[i], versions[j])
    decreases j - i
  {
    assert OnlyGrows(versions[j - 1], versions[j - 1 + 1]);
    if i < j - 1 {
      ConsecutiveChecksSufficeWithoutRemovals(versions, i, j - 1);
      GrowthComposes(versions[i], versions[j - 1], versions[j]);
    }
  }
}
