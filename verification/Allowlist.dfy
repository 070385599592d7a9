/** Field paths, the patterns that admit them, and the allowlist compiled from patterns. */
module Allowlist {
  import opened Common
  import opened Redaction

  const WILDCARD_SEGMENT := "*"

  // ---------------------------------------------------------------- matching

  predicate SegmentMatches(segment: string, pattern: string) {
    if pattern == WILDCARD_SEGMENT then segment != ARRAY_SEGMENT else pattern == segment
  }

  /** As many segments, each matching its own; a wildcard matches any key but no array element. */
  predicate Matches(path: Path, pattern: Path) {
    |path| == |pattern| && forall i :: 0 <= i < |path| ==> SegmentMatches(path[i], pattern[i])
  }

  // ---------------------------------------------------------------- parsing a pattern

  predicate Trimmed(s: string) {
    s == [] || (!IsSpace(s[0]) && !IsSpace(s[|s| - 1]))
  }

  function Split(s: string): (parts: seq<string>)
    ensures |parts| >= 1
  {
    if s == [] then [""]
    else
      var rest := Split(s[1..]);
      if s[0] == '.' then [""] + rest else [[s[0]] + rest[0]] + rest[1..]
  }

  predicate EndsInBrackets(s: string) {
    |s| >= 2 && s[|s| - 2] == '[' && s[|s| - 1] == ']'
  }

  /** The name in front of the trailing `[]` pairs, and how many pairs there are. */
  function Strip(s: string): (string, nat) {
    if EndsInBrackets(s) then var (name, depth) := Strip(s[..|s| - 2]); (name, depth + 1) else (s, 0)
  }

  function Elements(depth: nat): (p: Path)
    ensures |p| == depth && forall i :: 0 <= i < depth ==> p[i] == ARRAY_SEGMENT
  {
    if depth == 0 then [] else Elements(depth - 1) + [ARRAY_SEGMENT]
  }

  predicate IsName(s: string) {
    s != [] && '[' !in s && ']' !in s
  }

  function ParsePart(part: string): Option<Path> {
    var (name, depth) := Strip(part);
    if IsName(name) then Some([name] + Elements(depth)) else None
  }

  function ParseParts(parts: seq<string>): Option<Path> {
    if parts == [] then Some([])
    else
      var rest, last := ParseParts(parts[..|parts| - 1]), ParsePart(parts[|parts| - 1]);
      if rest.None? || last.None? then None else Some(rest.value + last.value)
  }

  function ParsePattern(pattern: string): Option<Path> {
    if pattern == [] || !Trimmed(pattern) then None else ParseParts(Split(pattern))
  }

  method Parse(pattern: string) returns (r: Option<Path>)
    ensures r == ParsePattern(pattern)
  {
    if |pattern| == 0 || !Trimmed(pattern) {
      return None;
    }
    var parts := Split(pattern);
    var segments: Path := [];
    for i := 0 to |parts|
      invariant ParseParts(parts[..i]) == Some(segments)
    {
      assert parts[..i + 1][..i] == parts[..i];
      assert parts[..|parts|] == parts;
      var name, depth := parts[i], 0;
      while EndsInBrackets(name)
        invariant var (n, d) := Strip(name); Strip(parts[i]) == (n, d + depth)
        decreases |name|
      {
        name := name[..|name| - 2];
        depth := depth + 1;
      }
      if |name| == 0 || '[' in name || ']' in name {
        RefusedPart(parts, i);
        return None;
      }
      segments := segments + ([name] + Elements(depth));
    }
    assert parts[..|parts|] == parts;
    return Some(segments);
  }

  /** One part that does not parse refuses the whole pattern. */
  lemma {:induction false} RefusedPart(parts: seq<string>, i: nat)
    requires i < |parts| && ParsePart(parts[i]) == None
    ensures ParseParts(parts) == None
  {
    if i < |parts| - 1 {
      assert parts[..|parts| - 1][i] == parts[i];
      RefusedPart(parts[..|parts| - 1], i);
    }
  }

  // ---------------------------------------------------------------- rendering a path

  function Rendered(soFar: string, segment: string): string {
    if segment == ARRAY_SEGMENT then soFar + ARRAY_SEGMENT
    else if soFar == [] then segment else soFar + "." + segment
  }

  function FormatPath(path: Path): string {
    if path == [] then "" else Rendered(FormatPath(path[..|path| - 1]), path[|path| - 1])
  }

  function Brackets(depth: nat): string {
    if depth == 0 then "" else Brackets(depth - 1) + ARRAY_SEGMENT
  }

  /** The part is its name followed by its brackets. */
  lemma {:induction false} StripSplits(s: string)
    ensures var (name, depth) := Strip(s); s == name + Brackets(depth)
  {
    if EndsInBrackets(s) {
      StripSplits(s[..|s| - 2]);
      assert s == s[..|s| - 2] + ARRAY_SEGMENT;
    }
  }

  lemma {:induction false} FormatElements(path: Path, depth: nat)
    ensures FormatPath(path + Elements(depth)) == FormatPath(path) + Brackets(depth)
  {
    if depth == 0 {
      assert path + Elements(0) == path;
    } else {
      FormatElements(path, depth - 1);
      var longer := path + Elements(depth);
      assert longer[..|longer| - 1] == path + Elements(depth - 1);
    }
  }

  function Join(parts: seq<string>): string
    requires parts != []
  {
    if |parts| == 1 then parts[0] else Join(parts[..|parts| - 1]) + "." + parts[|parts| - 1]
  }

  /** Putting a part in front of the rest puts its text in front of theirs. */
  lemma {:induction false} JoinCons(part: string, parts: seq<string>)
    requires parts != []
    ensures Join([part] + parts) == part + "." + Join(parts)
  {
    var all := [part] + parts;
    if |parts| > 1 {
      JoinCons(part, parts[..|parts| - 1]);
      assert all[..|all| - 1] == [part] + parts[..|parts| - 1];
    } else {
      assert all[..1] == [part];
    }
  }

  lemma {:induction false} JoinPrefix(c: char, parts: seq<string>)
    requires parts != []
    ensures Join([[c] + parts[0]] + parts[1..]) == [c] + Join(parts)
  {
    var all := [[c] + parts[0]] + parts[1..];
    if |parts| > 1 {
      JoinPrefix(c, parts[..|parts| - 1]);
      assert all[..|all| - 1] == [[c] + parts[..|parts| - 1][0]] + parts[..|parts| - 1][1..];
    }
  }

  lemma {:induction false} JoinSplit(s: string)
    ensures Join(Split(s)) == s
  {
    if s != [] {
      var rest := Split(s[1..]);
      JoinSplit(s[1..]);
      assert s == [s[0]] + s[1..];
      if s[0] == '.' {
        JoinCons("", rest);
      } else {
        JoinPrefix(s[0], rest);
      }
    }
  }

  lemma FormatPart(path: Path, part: string)
    requires ParsePart(part).Some?
    ensures FormatPath(path + ParsePart(part).value) == Rendered(FormatPath(path), Strip(part).0) + Brackets(Strip(part).1)
    ensures Strip(part).0 != ARRAY_SEGMENT
  {
    var (name, depth) := Strip(part);
    assert ARRAY_SEGMENT[0] == '[';
    var named := path + [name];
    assert path + ([name] + Elements(depth)) == named + Elements(depth);
    FormatElements(named, depth);
    assert named[..|named| - 1] == path;
  }

  lemma {:induction false} FormatParts(parts: seq<string>)
    requires parts != [] && ParseParts(parts).Some?
    ensures FormatPath(ParseParts(parts).value) == Join(parts) && Join(parts) != []
  {
    var front, last := parts[..|parts| - 1], parts[|parts| - 1];
    var path := ParseParts(front).value;
    var (name, depth) := Strip(last);
    StripSplits(last);
    FormatPart(path, last);
    if |parts| == 1 {
      assert FormatPath(path) == "";
    } else {
      FormatParts(front);
      assert Join(front) + "." + name + Brackets(depth) == Join(front) + "." + (name + Brackets(depth));
    }
  }

  /** A pattern that parses is the rendering of what it parsed to. */
  lemma FormatOfParse(pattern: string)
    requires ParsePattern(pattern).Some?
    ensures FormatPath(ParsePattern(pattern).value) == pattern
  {
    FormatParts(Split(pattern));
    JoinSplit(pattern);
  }

  /** A path of names and array elements that starts with a name; no name holds a dot or a bracket. */
  predicate IsProper(path: Path) {
    && path != [] && path[0] != ARRAY_SEGMENT
    && forall i :: 0 <= i < |path| ==> path[i] == ARRAY_SEGMENT || IsPlainName(path[i])
  }

  predicate IsPlainName(s: string) {
    s != [] && forall i :: 0 <= i < |s| ==> s[i] != '.' && s[i] != '[' && s[i] != ']'
  }

  lemma {:induction false} SplitPlain(s: string)
    requires '.' !in s
    ensures Split(s) == [s]
  {
    if s != [] {
      SplitPlain(s[1..]);
      assert [s[0]] + s[1..] == s;
    }
  }

  /** A dot starts a new part. */
  lemma {:induction false} SplitAtDot(s: string, t: string)
    requires '.' !in t
    ensures Split(s + "." + t) == Split(s) + [t]
  {
    var whole := s + "." + t;
    if s == [] {
      assert whole == "." + t && whole[1..] == t;
      SplitPlain(t);
    } else {
      assert whole[1..] == s[1..] + "." + t;
      SplitAtDot(s[1..], t);
    }
  }

  function OntoLast(parts: seq<string>, t: string): seq<string>
    requires parts != []
  {
    parts[..|parts| - 1] + [parts[|parts| - 1] + t]
  }

  lemma OntoLastCons(x: string, rest: seq<string>, t: string)
    requires rest != []
    ensures OntoLast([x] + rest, t) == [x] + OntoLast(rest, t)
  {
  }

  /** The text of the first part grows at its front, the last part at its end. */
  lemma OntoLastFirst(c: char, rest: seq<string>, t: string)
    requires rest != []
    ensures var p := OntoLast(rest, t); OntoLast([[c] + rest[0]] + rest[1..], t) == [[c] + p[0]] + p[1..]
  {
    if |rest| == 1 {
      assert [c] + (rest[0] + t) == ([c] + rest[0]) + t;
      assert rest[1..] == [];
    } else {
      OntoLastCons([c] + rest[0], rest[1..], t);
      OntoLastCons(rest[0], rest[1..], t);
      assert rest == [rest[0]] + rest[1..];
    }
  }

  /** Text without a dot goes onto the last part. */
  lemma {:induction false} SplitOnto(s: string, t: string)
    requires '.' !in t
    ensures Split(s + t) == OntoLast(Split(s), t)
  {
    var whole := s + t;
    if s == [] {
      assert whole == t && "" + t == t;
      SplitPlain(t);
    } else {
      assert whole[1..] == s[1..] + t && whole[0] == s[0];
      SplitOnto(s[1..], t);
      if s[0] == '.' {
        OntoLastCons("", Split(s[1..]), t);
      } else {
        OntoLastFirst(s[0], Split(s[1..]), t);
      }
    }
  }

  lemma NameParses(name: string)
    requires IsName(name)
    ensures ParsePart(name) == Some([name])
  {
    assert name[|name| - 1] in name;
    assert !EndsInBrackets(name);
    assert Elements(0) == [] && [name] + [] == [name];
  }

  lemma BracketsParse(part: string)
    requires ParsePart(part).Some?
    ensures ParsePart(part + ARRAY_SEGMENT) == Some(ParsePart(part).value + [ARRAY_SEGMENT])
  {
    var longer := part + ARRAY_SEGMENT;
    assert longer[..|longer| - 2] == part;
    var (name, depth) := Strip(part);
    assert [name] + Elements(depth + 1) == [name] + Elements(depth) + [ARRAY_SEGMENT];
  }

  lemma FormatStep(front: Path, last: string)
    ensures FormatPath(front + [last]) == Rendered(FormatPath(front), last)
  {
    var path := front + [last];
    assert path[..|path| - 1] == front;
  }

  /** One more array element: two brackets more on the last part, one segment more parsed. */
  lemma ElementParses(text: string, path: Path)
    requires ParseParts(Split(text)) == Some(path)
    ensures ParseParts(Split(text + ARRAY_SEGMENT)) == Some(path + [ARRAY_SEGMENT])
  {
    var parts := Split(text);
    var before, part := parts[..|parts| - 1], parts[|parts| - 1];
    assert parts == before + [part];
    SplitOnto(text, ARRAY_SEGMENT);
    LastPart(before, part);
    BracketsParse(part);
    LastPart(before, part + ARRAY_SEGMENT);
    Associates(ParseParts(before).value, ParsePart(part).value, [ARRAY_SEGMENT]);
  }

  /** One more name: one part more, one segment more parsed. */
  lemma NameAdded(text: string, path: Path, name: string)
    requires ParseParts(Split(text)) == Some(path) && IsPlainName(name)
    ensures ParseParts(Split(text + "." + name)) == Some(path + [name])
  {
    SplitAtDot(text, name);
    NameParses(name);
    LastPart(Split(text), name);
  }

  lemma OneName(name: string)
    requires IsPlainName(name)
    ensures ParseParts(Split(name)) == Some([name])
  {
    SplitPlain(name);
    NameParses(name);
    LastPart([], name);
    assert [] + [name] == [name];
  }

  /** A proper path parses back from its rendering, part by part. */
  lemma {:induction false} PartsOfFormat(path: Path)
    requires IsProper(path)
    ensures FormatPath(path) != "" && ParseParts(Split(FormatPath(path))) == Some(path)
  {
    var front, last := path[..|path| - 1], path[|path| - 1];
    assert path == front + [last];
    FormatStep(front, last);
    if front == [] {
      OneName(last);
    } else {
      PartsOfFormat(front);
      if last == ARRAY_SEGMENT {
        ElementParses(FormatPath(front), front);
      } else {
        NameAdded(FormatPath(front), front, last);
      }
    }
  }

  lemma LastPart(parts: seq<string>, part: string)
    ensures ParseParts(parts + [part])
         == if ParseParts(parts).None? || ParsePart(part).None? then None
            else Some(ParseParts(parts).value + ParsePart(part).value)
  {
    var all := parts + [part];
    assert all[..|all| - 1] == parts;
  }

  lemma {:induction false} SplitLeavesNoDot(s: string)
    ensures forall i :: 0 <= i < |Split(s)| ==> '.' !in Split(s)[i]
  {
    if s != [] {
      SplitLeavesNoDot(s[1..]);
    }
  }

  lemma PartIsProper(part: string)
    requires '.' !in part && ParsePart(part).Some?
    ensures IsProper(ParsePart(part).value)
  {
    StripSplits(part);
    var (name, depth) := Strip(part);
    assert ARRAY_SEGMENT[0] == '[';
    assert IsPlainName(name);
  }

  /** What parses is a name and its elements, once per part. */
  lemma {:induction false} PartsAreProper(parts: seq<string>)
    requires parts != [] && ParseParts(parts).Some?
    requires forall i :: 0 <= i < |parts| ==> '.' !in parts[i]
    ensures IsProper(ParseParts(parts).value)
  {
    var front, last := parts[..|parts| - 1], parts[|parts| - 1];
    PartIsProper(last);
    if front == [] {
      assert [] + ParsePart(last).value == ParsePart(last).value;
    } else {
      PartsAreProper(front);
    }
  }

  /**
   * Parsing and rendering are inverse: a text parses to a path exactly when the path is proper and the
   * text is its rendering, with no blank at either end.
   */
  lemma ParseIffFormat(pattern: string, path: Path)
    ensures ParsePattern(pattern) == Some(path)
       <==> IsProper(path) && FormatPath(path) == pattern && Trimmed(pattern)
  {
    if ParsePattern(pattern) == Some(path) {
      FormatOfParse(pattern);
      SplitLeavesNoDot(pattern);
      PartsAreProper(Split(pattern));
    }
    if IsProper(path) {
      PartsOfFormat(path);
    }
  }

  /** Rendering does not identify an address: a key with a dot in it reads like a nested path. */
  lemma RenderingIsNotAnAddress()
    ensures FormatPath(["a.b"]) == FormatPath(["a", "b"]) && ["a.b"] != ["a", "b"]
  {
    assert ["a", "b"][..1] == ["a"];
    assert ["a"][..0] == [] && ["a.b"][..0] == [];
    assert FormatPath(["a"]) == "a";
    assert FormatPath(["a.b"]) == "a.b";
    assert FormatPath(["a", "b"]) == "a" + "." + "b";
    assert "a" + "." + "b" == "a.b";
  }

  // ---------------------------------------------------------------- the compiled allowlist

  datatype Compiled = Compiled(patterns: seq<string>, byLength: map<nat, seq<Path>>)

  /** What the compiled list is consulted for: only the bucket of the path's own length. */
  predicate Admits(c: Compiled, path: Path) {
    |path| in c.byLength && exists i :: 0 <= i < |c.byLength[|path|]| && Matches(path, c.byLength[|path|][i])
  }

  /** What it means: some pattern given, among those that parse, matches. */
  predicate SomePatternMatches(patterns: seq<string>, path: Path) {
    exists i :: 0 <= i < |patterns| && PatternMatches(patterns[i], path)
  }

  predicate PatternMatches(pattern: string, path: Path) {
    ParsePattern(pattern).Some? && Matches(path, ParsePattern(pattern).value)
  }

  /** A bucket holds patterns of its own length, each from the list. */
  predicate Bucketed(byLength: map<nat, seq<Path>>, segments: seq<Path>) {
    && (forall n, i :: n in byLength && 0 <= i < |byLength[n]| ==> |byLength[n][i]| == n && byLength[n][i] in segments)
    && (forall i :: 0 <= i < |segments| ==> |segments[i]| in byLength && segments[i] in byLength[|segments[i]|])
  }

  /** The patterns that parse, or do not, in the order given. */
  function Keep(patterns: seq<string>, parses: bool): (kept: seq<string>)
    ensures forall p :: p in kept <==> p in patterns && ParsePattern(p).Some? == parses
  {
    if patterns == [] then []
    else
      var last := patterns[|patterns| - 1];
      assert patterns == patterns[..|patterns| - 1] + [last];
      Keep(patterns[..|patterns| - 1], parses) + if ParsePattern(last).Some? == parses then [last] else []
  }

  method Compile(patterns: seq<string>) returns (c: Compiled, rejected: seq<string>)
    ensures c.patterns == Keep(patterns, true) && rejected == Keep(patterns, false)
    ensures forall path :: Admits(c, path) <==> SomePatternMatches(patterns, path)
  {
    var kept, segments;
    kept, segments, rejected := ParseAll(patterns);
    var byLength := Buckets(segments);
    c := Compiled(kept, byLength);
    forall path
      ensures Admits(c, path) <==> SomePatternMatches(patterns, path)
    {
      SegmentsArePatterns(kept, segments, patterns, path);
      BucketIsEnough(c, segments, path);
    }
  }

  /** Each pattern that parses, beside its segments; and each that does not. */
  method ParseAll(patterns: seq<string>) returns (kept: seq<string>, segments: seq<Path>, rejected: seq<string>)
    ensures CompiledFrom(kept, segments, patterns) && rejected == Keep(patterns, false)
  {
    kept, segments, rejected := [], [], [];
    for i := 0 to |patterns|
      invariant CompiledFrom(kept, segments, patterns[..i]) && rejected == Keep(patterns[..i], false)
    {
      assert patterns[..i + 1][..i] == patterns[..i];
      var parsed := Parse(patterns[i]);
      if parsed.None? {
        rejected := rejected + [patterns[i]];
      } else {
        kept := kept + [patterns[i]];
        segments := segments + [parsed.value];
      }
    }
    assert patterns[..|patterns|] == patterns;
  }

  method Buckets(segments: seq<Path>) returns (byLength: map<nat, seq<Path>>)
    ensures Bucketed(byLength, segments)
  {
    byLength := map[];
    for i := 0 to |segments|
      invariant Bucketed(byLength, segments[..i])
    {
      var s := segments[i];
      var n := |s|;
      var bucket := if n in byLength then byLength[n] else [];
      assert segments[..i + 1] == segments[..i] + [s];
      byLength := byLength[n := bucket + [s]];
    }
    assert segments[..|segments|] == segments;
  }

  /** The list as compiled: each pattern that parses, beside its segments. */
  predicate CompiledFrom(kept: seq<string>, segments: seq<Path>, patterns: seq<string>) {
    && kept == Keep(patterns, true) && |segments| == |kept|
    && forall j :: 0 <= j < |segments| ==> ParsePattern(kept[j]) == Some(segments[j])
  }

  /** A list of segments is the segments of some pattern given, and the other way round. */
  lemma SegmentsArePatterns(kept: seq<string>, segments: seq<Path>, patterns: seq<string>, path: Path)
    requires CompiledFrom(kept, segments, patterns)
    ensures SomePatternMatches(patterns, path) <==> exists j :: 0 <= j < |segments| && Matches(path, segments[j])
  {
    if SomePatternMatches(patterns, path) {
      var i :| 0 <= i < |patterns| && PatternMatches(patterns[i], path);
      assert patterns[i] in kept;
      var j :| 0 <= j < |kept| && kept[j] == patterns[i];
      assert Matches(path, segments[j]);
    }
    if j :| 0 <= j < |segments| && Matches(path, segments[j]) {
      assert kept[j] in kept && kept[j] in patterns;
      var k :| 0 <= k < |patterns| && patterns[k] == kept[j];
      assert PatternMatches(patterns[k], path);
    }
  }

  /** The bucket of a path's length holds every segment list that could match it. */
  lemma BucketIsEnough(c: Compiled, segments: seq<Path>, path: Path)
    requires Bucketed(c.byLength, segments)
    ensures Admits(c, path) <==> exists j :: 0 <= j < |segments| && Matches(path, segments[j])
  {
    if Admits(c, path) {
      var bucket := c.byLength[|path|];
      var i :| 0 <= i < |bucket| && Matches(path, bucket[i]);
      var j :| 0 <= j < |segments| && segments[j] == bucket[i];
    }
    if j :| 0 <= j < |segments| && Matches(path, segments[j]) {
      assert segments[j] in c.byLength[|path|];
    }
  }

  // ---------------------------------------------------------------- what a list of patterns admits

  /** The path is the pattern with each `*` filled in by a key. */
  predicate Fills(pattern: Path, path: Path) {
    && |path| == |pattern|
    && forall i :: 0 <= i < |path| ==>
         path[i] == pattern[i] || (pattern[i] == ['*'] && path[i] != ARRAY_SEGMENT)
  }

  /** A pattern given: the rendering of a proper path, with no blank at either end. */
  predicate Reads(pattern: string, p: Path) {
    IsProper(p) && FormatPath(p) == pattern && Trimmed(pattern)
  }

  lemma MatchesIsFilling(path: Path, pattern: Path)
    ensures Matches(path, pattern) <==> Fills(pattern, path)
  {
  }

  /** A path is admitted if and only if some pattern reads as a path that becomes this one when its `*` are filled in. */
  lemma AdmittedIffFilled(patterns: seq<string>, path: Path)
    ensures SomePatternMatches(patterns, path) <==>
            exists i, p :: 0 <= i < |patterns| && Reads(patterns[i], p) && Fills(p, path)
  {
    if SomePatternMatches(patterns, path) {
      var i :| 0 <= i < |patterns| && PatternMatches(patterns[i], path);
      var p := ParsePattern(patterns[i]).value;
      ParseIffFormat(patterns[i], p);
      MatchesIsFilling(path, p);
      assert Reads(patterns[i], p) && Fills(p, path);
    }
    if i, p :| 0 <= i < |patterns| && Reads(patterns[i], p) && Fills(p, path) {
      ParseIffFormat(patterns[i], p);
      MatchesIsFilling(path, p);
      assert PatternMatches(patterns[i], path);
    }
  }

  /** What an operator may add to the list. */
  predicate IsPermittedOperatorPattern(pattern: string) {
    ParsePattern(pattern).Some? && |ParsePattern(pattern).value| > 0 && ParsePattern(pattern).value[0] != WILDCARD_SEGMENT
  }

  /** Every path the pattern admits is under one and the same top-level field. */
  ghost predicate OpensOneField(pattern: string) {
    forall p, q :: PatternMatches(pattern, p) && PatternMatches(pattern, q) ==> p != [] && q != [] && p[0] == q[0]
  }

  lemma WildcardOpensTwo(segments: Path)
    requires segments != [] && segments[0] == WILDCARD_SEGMENT
    ensures Matches(segments[0 := "a"], segments) && Matches(segments[0 := "b"], segments) && "a" != "b"
  {
    assert "a"[0] != ARRAY_SEGMENT[0] && "b"[0] != ARRAY_SEGMENT[0] && "a"[0] != "b"[0];
    MatchesIsFilling(segments[0 := "a"], segments);
    MatchesIsFilling(segments[0 := "b"], segments);
  }

  /** A pattern an operator may add is exactly one that reads, and opens a single top-level field. */
  lemma PermittedIffOneField(pattern: string)
    ensures IsPermittedOperatorPattern(pattern) <==> ParsePattern(pattern).Some? && OpensOneField(pattern)
  {
    if ParsePattern(pattern).Some? {
      var segments := ParsePattern(pattern).value;
      ParseIffFormat(pattern, segments);
      if segments[0] == WILDCARD_SEGMENT {
        WildcardOpensTwo(segments);
        assert PatternMatches(pattern, segments[0 := "a"]) && PatternMatches(pattern, segments[0 := "b"]);
        assert segments[0 := "a"][0] == "a" && segments[0 := "b"][0] == "b";
      } else {
        PlainFirstIsKept(pattern);
      }
    }
  }

  lemma PlainFirstIsKept(pattern: string)
    requires ParsePattern(pattern).Some? && ParsePattern(pattern).value != [] && ParsePattern(pattern).value[0] != WILDCARD_SEGMENT
    ensures OpensOneField(pattern)
  {
    var segments := ParsePattern(pattern).value;
    forall p | PatternMatches(pattern, p)
      ensures p != [] && p[0] == segments[0]
    {
      assert SegmentMatches(p[0], segments[0]);
    }
  }
}
