/** The report, finding by finding: each names a place in both schemas where its rule is broken, and every such place is named. */
module SchemaFindings {
  import opened Common
  import opened Schema
  import opened Compatibility

  function Child(n: Node, key: string): Node
    requires n.ObjectNode? && Has(n, key)
  {
    n.properties[IndexOf(n.properties, key)].schema
  }

  /** The node a path leads to. */
  function NodeAt(n: Node, path: Path): Option<Node>
    decreases path
  {
    if path == [] then Some(n)
    else
      match path[0]
      case PropertyOf(key) => if n.ObjectNode? && Has(n, key) then NodeAt(Child(n, key), path[1..]) else None
      case Items => if n.ArrayNode? then NodeAt(n.items, path[1..]) else None
  }

  predicate Constrains(n: Node, keyword: Keyword)
    requires n.ScalarNode?
  {
    if keyword == EnumKeyword then n.allowed.Some? else n.format.Some?
  }

  /** Exactly these directions, and at least one. */
  predicate Exactly(breaks: set<Direction>, backward: bool, forward: bool) {
    (Backward in breaks <==> backward) && (Forward in breaks <==> forward) && (backward || forward)
  }

  /** A rule about the nodes at one place. */
  predicate BrokenHere(a: Node, b: Node, rule: Rule, breaks: set<Direction>) {
    match rule
    case KindChanged => !SameKind(a, b) && Exactly(breaks, true, true)
    case TypeChanged => a.ScalarNode? && b.ScalarNode? && Exactly(breaks, !Covers(b.types, a.types), !Covers(a.types, b.types))
    case Added(k) => a.ScalarNode? && b.ScalarNode? && !Constrains(a, k) && Constrains(b, k) && Exactly(breaks, true, false)
    case Removed(k) => a.ScalarNode? && b.ScalarNode? && Constrains(a, k) && !Constrains(b, k) && Exactly(breaks, false, true)
    case Changed(EnumKeyword) =>
      && a.ScalarNode? && b.ScalarNode? && a.allowed.Some? && b.allowed.Some?
      && Exactly(breaks, !AllIn(a.allowed.value, b.allowed.value), !AllIn(b.allowed.value, a.allowed.value))
    case Changed(FormatKeyword) =>
      && a.ScalarNode? && b.ScalarNode? && a.format.Some? && b.format.Some? && a.format != b.format
      && Exactly(breaks, true, true)
    case _ => false
  }

  /** A rule about whether a property is there, and must be. */
  predicate BrokenPresence(a: Node, b: Node, key: string, rule: Rule, breaks: set<Direction>) {
    a.ObjectNode? && b.ObjectNode? &&
    match rule
    case OptionalBecameRequired =>
      Has(a, key) && Has(b, key) && key !in a.required && key in b.required && Exactly(breaks, true, false)
    case RequiredBecameOptional =>
      Has(a, key) && Has(b, key) && key in a.required && key !in b.required && Exactly(breaks, false, true)
    case RequiredPropertyRemoved => Has(a, key) && !Has(b, key) && key in a.required && Exactly(breaks, false, true)
    case RequiredPropertyAdded => !Has(a, key) && Has(b, key) && key in b.required && Exactly(breaks, true, false)
    case _ => false
  }

  /** The rule is broken at this place of both schemas, in exactly these directions. */
  predicate Broken(a: Node, b: Node, path: Path, rule: Rule, breaks: set<Direction>)
    decreases path
  {
    if path == [] then BrokenHere(a, b, rule, breaks)
    else
      match path[0]
      case PropertyOf(key) =>
        || (|path| == 1 && BrokenPresence(a, b, key, rule, breaks))
        || (a.ObjectNode? && b.ObjectNode? && Has(a, key) && Has(b, key) && Broken(Child(a, key), Child(b, key), path[1..], rule, breaks))
      case Items => a.ArrayNode? && b.ArrayNode? && Broken(a.items, b.items, path[1..], rule, breaks)
  }

  /** A rule is broken by the two nodes the path leads to. */
  predicate BrokenThere(a: Node, b: Node, path: Path, rule: Rule, breaks: set<Direction>) {
    NodeAt(a, path).Some? && NodeAt(b, path).Some? && BrokenHere(NodeAt(a, path).value, NodeAt(b, path).value, rule, breaks)
  }

  /** A rule is broken by the presence of the property the path ends in. */
  predicate BrokenOnTheWay(a: Node, b: Node, path: Path, rule: Rule, breaks: set<Direction>) {
    && path != [] && path[|path| - 1].PropertyOf?
    && var front := path[..|path| - 1];
       && NodeAt(a, front).Some? && NodeAt(b, front).Some?
       && BrokenPresence(NodeAt(a, front).value, NodeAt(b, front).value, path[|path| - 1].key, rule, breaks)
  }

  /** The nodes one segment down, if both schemas have them. */
  function Down(n: Node, segment: Segment): Option<Node> {
    match segment
    case PropertyOf(key) => if n.ObjectNode? && Has(n, key) then Some(Child(n, key)) else None
    case Items => if n.ArrayNode? then Some(n.items) else None
  }

  lemma NodeAtDown(n: Node, path: Path)
    requires path != []
    ensures NodeAt(n, path) == if Down(n, path[0]).Some? then NodeAt(Down(n, path[0]).value, path[1..]) else None
  {
  }

  lemma OnTheWayDown(a: Node, b: Node, path: Path, rule: Rule, breaks: set<Direction>)
    requires |path| > 1
    ensures BrokenOnTheWay(a, b, path, rule, breaks) <==>
            && Down(a, path[0]).Some? && Down(b, path[0]).Some?
            && BrokenOnTheWay(Down(a, path[0]).value, Down(b, path[0]).value, path[1..], rule, breaks)
  {
    var front := path[..|path| - 1];
    assert front[0] == path[0] && front[1..] == path[1..][..|path| - 2];
    NodeAtDown(a, front);
    NodeAtDown(b, front);
  }

  lemma BrokenDown(a: Node, b: Node, path: Path, rule: Rule, breaks: set<Direction>)
    requires path != []
    ensures Broken(a, b, path, rule, breaks) <==>
            || (|path| == 1 && path[0].PropertyOf? && BrokenPresence(a, b, path[0].key, rule, breaks))
            || (&& Down(a, path[0]).Some? && Down(b, path[0]).Some?
                && Broken(Down(a, path[0]).value, Down(b, path[0]).value, path[1..], rule, breaks))
  {
  }

  /** By the nodes the path leads to: the rule is broken by them, or by the property that leads there. */
  lemma {:induction false} BrokenByAddress(a: Node, b: Node, path: Path, rule: Rule, breaks: set<Direction>)
    ensures Broken(a, b, path, rule, breaks) <==> BrokenThere(a, b, path, rule, breaks) || BrokenOnTheWay(a, b, path, rule, breaks)
    decreases path
  {
    if path != [] {
      NodeAtDown(a, path);
      NodeAtDown(b, path);
      BrokenDown(a, b, path, rule, breaks);
      if Down(a, path[0]).Some? && Down(b, path[0]).Some? {
        BrokenByAddress(Down(a, path[0]).value, Down(b, path[0]).value, path[1..], rule, breaks);
      }
      if |path| > 1 {
        OnTheWayDown(a, b, path, rule, breaks);
      } else {
        assert path[..0] == [] && path[1..] == [];
      }
    }
  }

  // ---------------------------------------------------------------- scalars

  lemma TwoDirections(x: set<Direction>, y: set<Direction>)
    requires (Backward in x <==> Backward in y) && (Forward in x <==> Forward in y)
    ensures x == y
  {
    forall d | d in x || d in y
      ensures d in x && d in y
    {
      assert d == Backward || d == Forward;
    }
  }

  lemma TypeExact(a: Node, b: Node, path: Path, rule: Rule, breaks: set<Direction>)
    requires a.ScalarNode? && b.ScalarNode?
    ensures Finding(path, rule, breaks) in TypeFindings(a, b, path) <==> rule == TypeChanged && BrokenHere(a, b, rule, breaks)
  {
    var found := TypeBreaks(a.types, b.types);
    assert Exactly(found, !Covers(b.types, a.types), !Covers(a.types, b.types)) || found == {};
    if rule == TypeChanged && BrokenHere(a, b, rule, breaks) {
      TwoDirections(breaks, found);
    }
  }

  lemma ConstraintExact(keyword: Keyword, before: bool, after: bool, equal: bool, different: set<Direction>, path: Path, rule: Rule, breaks: set<Direction>)
    ensures Finding(path, rule, breaks) in ConstraintFindings(keyword, before, after, equal, different, path) <==>
            || (rule == Added(keyword) && !before && after && Exactly(breaks, true, false))
            || (rule == Removed(keyword) && before && !after && Exactly(breaks, false, true))
            || (rule == Changed(keyword) && before && after && !equal && breaks == different)
  {
    if Exactly(breaks, true, false) {
      TwoDirections(breaks, {Backward});
    }
    if Exactly(breaks, false, true) {
      TwoDirections(breaks, {Forward});
    }
  }

  predicate About(rule: Rule, keyword: Keyword) {
    rule == Added(keyword) || rule == Removed(keyword) || rule == Changed(keyword)
  }

  lemma EnumExact(a: Node, b: Node, path: Path, rule: Rule, breaks: set<Direction>)
    requires a.ScalarNode? && b.ScalarNode?
    ensures Finding(path, rule, breaks) in EnumFindings(a.allowed, b.allowed, path) <==> About(rule, EnumKeyword) && BrokenHere(a, b, rule, breaks)
  {
    var both := a.allowed.Some? && b.allowed.Some?;
    var different := if both then EnumBreaks(a.allowed.value, b.allowed.value) else {};
    ConstraintExact(EnumKeyword, a.allowed.Some?, b.allowed.Some?,
                    both && AllIn(a.allowed.value, b.allowed.value) && AllIn(b.allowed.value, a.allowed.value),
                    different, path, rule, breaks);
    if rule == Changed(EnumKeyword) && BrokenHere(a, b, rule, breaks) {
      TwoDirections(breaks, different);
    }
  }

  lemma FormatExact(a: Node, b: Node, path: Path, rule: Rule, breaks: set<Direction>)
    requires a.ScalarNode? && b.ScalarNode?
    ensures Finding(path, rule, breaks) in FormatFindings(a.format, b.format, path) <==> About(rule, FormatKeyword) && BrokenHere(a, b, rule, breaks)
  {
    ConstraintExact(FormatKeyword, a.format.Some?, b.format.Some?, a.format == b.format, BOTH, path, rule, breaks);
    if rule == Changed(FormatKeyword) && BrokenHere(a, b, rule, breaks) {
      TwoDirections(breaks, BOTH);
    }
  }

  lemma ScalarExact(a: Node, b: Node, path: Path, rule: Rule, breaks: set<Direction>)
    requires a.ScalarNode? && b.ScalarNode?
    ensures Finding(path, rule, breaks) in ScalarFindings(a, b, path) <==> BrokenHere(a, b, rule, breaks)
  {
    TypeExact(a, b, path, rule, breaks);
    EnumExact(a, b, path, rule, breaks);
    FormatExact(a, b, path, rule, breaks);
    var f := Finding(path, rule, breaks);
    assert f in ScalarFindings(a, b, path) <==>
           || f in TypeFindings(a, b, path) || f in EnumFindings(a.allowed, b.allowed, path) || f in FormatFindings(a.format, b.format, path);
  }

  lemma RequiredExact(a: Node, b: Node, key: string, path: Path, rule: Rule, breaks: set<Direction>)
    requires a.ObjectNode? && b.ObjectNode? && (Has(a, key) || Has(b, key))
    ensures Finding(path, rule, breaks) in RequiredFindings(a, b, key, path) <==> BrokenPresence(a, b, key, rule, breaks)
  {
    if Exactly(breaks, true, false) {
      TwoDirections(breaks, {Backward});
    }
    if Exactly(breaks, false, true) {
      TwoDirections(breaks, {Forward});
    }
  }

  // ---------------------------------------------------------------- paths

  lemma {:induction false} PathsExtend(a: Node, b: Node, path: Path, f: Finding)
    requires f in NodeFindings(a, b, path)
    ensures path <= f.path
    decreases a, 1
  {
    if SameKind(a, b) {
      match a
      case ObjectNode(_, _) =>
        FindingsOfKeys(a, b, path, AllKeys(a, b), f);
        var key :| key in AllKeys(a, b) && f in KeyFindings(a, b, key, path);
        KeyPathsExtend(a, b, key, path, f);
      case ArrayNode(items) => PathsExtend(items, b.items, path + [Items], f);
      case ScalarNode(_, _, _) => ScalarPaths(a, b, path, f);
    }
  }

  lemma ScalarPaths(a: Node, b: Node, path: Path, f: Finding)
    requires a.ScalarNode? && b.ScalarNode? && f in ScalarFindings(a, b, path)
    ensures f.path == path
  {
    assert || f in TypeFindings(a, b, path) || f in EnumFindings(a.allowed, b.allowed, path) || f in FormatFindings(a.format, b.format, path);
  }

  lemma RequiredPaths(a: Node, b: Node, key: string, path: Path, f: Finding)
    requires a.ObjectNode? && b.ObjectNode? && f in RequiredFindings(a, b, key, path)
    ensures f.path == path
  {
  }

  lemma {:induction false} KeyPathsExtend(a: Node, b: Node, key: string, path: Path, f: Finding)
    requires a.ObjectNode? && b.ObjectNode? && f in KeyFindings(a, b, key, path)
    ensures path + [PropertyOf(key)] <= f.path
    decreases a, 0
  {
    var child := path + [PropertyOf(key)];
    if f in RequiredFindings(a, b, key, child) {
      RequiredPaths(a, b, key, child, f);
    } else {
      PathsExtend(Child(a, key), Child(b, key), child, f);
    }
  }

  // ---------------------------------------------------------------- nodes

  lemma {:induction false} KeyExact(a: Node, b: Node, key: string, path: Path, rest: Path, rule: Rule, breaks: set<Direction>)
    requires a.ObjectNode? && b.ObjectNode? && (Has(a, key) || Has(b, key))
    ensures Finding(path + [PropertyOf(key)] + rest, rule, breaks) in KeyFindings(a, b, key, path)
       <==> Broken(a, b, [PropertyOf(key)] + rest, rule, breaks)
    decreases a, 0
  {
    var child, whole := path + [PropertyOf(key)], [PropertyOf(key)] + rest;
    var f := Finding(child + rest, rule, breaks);
    BrokenDown(a, b, whole, rule, breaks);
    assert whole[1..] == rest;
    if rest == [] {
      assert child + rest == child;
      RequiredExact(a, b, key, child, rule, breaks);
    } else if f in RequiredFindings(a, b, key, child) {
      RequiredPaths(a, b, key, child, f);
    }
    if Has(a, key) && Has(b, key) {
      NodeExact(Child(a, key), Child(b, key), child, rest, rule, breaks);
    }
  }

  predicate Declared(a: Node, b: Node, rest: Path)
    requires a.ObjectNode? && b.ObjectNode?
  {
    rest != [] && rest[0].PropertyOf? && (Has(a, rest[0].key) || Has(b, rest[0].key))
  }

  /** A finding of an object is one of the key its path goes on with. */
  lemma ObjectByKey(a: Node, b: Node, path: Path, rest: Path, f: Finding)
    requires a.ObjectNode? && b.ObjectNode? && f.path == path + rest
    ensures f in NodeFindings(a, b, path) <==> Declared(a, b, rest) && f in KeyFindings(a, b, rest[0].key, path)
  {
    FindingsOfKeys(a, b, path, AllKeys(a, b), f);
    if f in NodeFindings(a, b, path) {
      var key :| key in AllKeys(a, b) && f in KeyFindings(a, b, key, path);
      KeyPathsExtend(a, b, key, path, f);
      assert f.path[|path|] == PropertyOf(key);
      AllKeysComplete(a, b, key);
    }
    if Declared(a, b, rest) {
      AllKeysComplete(a, b, rest[0].key);
    }
  }

  lemma {:induction false} ObjectExact(a: Node, b: Node, path: Path, rest: Path, rule: Rule, breaks: set<Direction>)
    requires a.ObjectNode? && b.ObjectNode?
    ensures Finding(path + rest, rule, breaks) in NodeFindings(a, b, path) <==> Broken(a, b, rest, rule, breaks)
    decreases a, 1
  {
    ObjectByKey(a, b, path, rest, Finding(path + rest, rule, breaks));
    if Declared(a, b, rest) {
      var key := rest[0].key;
      assert [PropertyOf(key)] + rest[1..] == rest && path + [PropertyOf(key)] + rest[1..] == path + rest;
      KeyExact(a, b, key, path, rest[1..], rule, breaks);
    } else if rest != [] {
      BrokenDown(a, b, rest, rule, breaks);
    }
  }

  lemma {:induction false} NodeExact(a: Node, b: Node, path: Path, rest: Path, rule: Rule, breaks: set<Direction>)
    ensures Finding(path + rest, rule, breaks) in NodeFindings(a, b, path) <==> Broken(a, b, rest, rule, breaks)
    decreases a, 2
  {
    var f := Finding(path + rest, rule, breaks);
    if !SameKind(a, b) {
      KindExact(a, b, path, rest, rule, breaks);
    } else {
      match a
      case ObjectNode(_, _) => ObjectExact(a, b, path, rest, rule, breaks);
      case ArrayNode(items) =>
        if f in NodeFindings(a, b, path) {
          PathsExtend(items, b.items, path + [Items], f);
          assert f.path[|path|] == Items;
        }
        if rest != [] && rest[0] == Items {
          assert path + [Items] + rest[1..] == path + rest;
          NodeExact(items, b.items, path + [Items], rest[1..], rule, breaks);
        }
      case ScalarNode(_, _, _) =>
        if rest == [] {
          assert path + rest == path;
          ScalarExact(a, b, path, rule, breaks);
        } else if f in ScalarFindings(a, b, path) {
          ScalarPaths(a, b, path, f);
        }
    }
  }

  lemma KindExact(a: Node, b: Node, path: Path, rest: Path, rule: Rule, breaks: set<Direction>)
    requires !SameKind(a, b)
    ensures Finding(path + rest, rule, breaks) in NodeFindings(a, b, path) <==> Broken(a, b, rest, rule, breaks)
  {
    assert NodeFindings(a, b, path) == [Finding(path, KindChanged, BOTH)];
    if rest == [] {
      assert path + rest == path;
      if Exactly(breaks, true, true) {
        TwoDirections(breaks, BOTH);
      }
    } else {
      assert |path + rest| > |path|;
      BrokenDown(a, b, rest, rule, breaks);
    }
  }

  /**
   * The report is exact, finding by finding: a rule is reported at a path, for some directions, if and
   * only if that path leads in both schemas to nodes, or to a property, that break it in just those
   * directions.
   */
  lemma ReportedIffBroken(a: Node, b: Node, f: Finding)
    ensures f in CheckCompatibility(a, b) <==>
            BrokenThere(a, b, f.path, f.rule, f.breaks) || BrokenOnTheWay(a, b, f.path, f.rule, f.breaks)
  {
    assert [] + f.path == f.path && f == Finding(f.path, f.rule, f.breaks);
    NodeExact(a, b, [], f.path, f.rule, f.breaks);
    BrokenByAddress(a, b, f.path, f.rule, f.breaks);
  }
}
