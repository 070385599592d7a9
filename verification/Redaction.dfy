/** Allowlist redaction of a log record's fields, under one budget shared by the whole walk. */
module Redaction {
  import opened Common

  const MAX_DEPTH := 8
  const MAX_NODES := 512

  const ARRAY_SEGMENT := "[]"

  /** Everything that is not a list, a plain record, `null` or `undefined`. */
  datatype Leaf = Text(text: string) | Num(num: real) | Flag(flag: bool) | Big(big: int) | Date(iso: string) | Instance(id: nat)

  datatype Value = Undefined | Null | Plain(leaf: Leaf) | List(items: seq<Value>) | Record(fields: seq<Field>)

  datatype Field = Field(key: string, value: Value)

  /** What is written: the same shape, with leaves shown, redacted or cut off. */
  datatype Out = NoValue | NullValue | Truncated | Redacted | Shown(leaf: Leaf) | OutList(items: seq<Out>) | OutRecord(fields: seq<OutField>)

  datatype OutField = OutField(key: string, value: Out)

  type Path = seq<string>

  /** What may be shown, and what is scrubbed out of a string that is. */
  datatype Redactor = Redactor(admits: Path -> bool, scrub: string -> string)

  // ---------------------------------------------------------------- one leaf

  /** An admitted leaf: strings scrubbed, plain values kept, anything with code of its own refused. */
  function ShowLeaf(r: Redactor, leaf: Leaf): Out {
    match leaf
    case Text(s) => Shown(Text(r.scrub(s)))
    case Instance(_) => Redacted
    case _ => Shown(leaf)
  }

  function LeafOut(r: Redactor, leaf: Leaf, path: Path): Out {
    if r.admits(path) then ShowLeaf(r, leaf) else Redacted
  }

  /** How a leaf may be written where its path is admitted, and where it is not. */
  predicate LeafWritten(r: Redactor, leaf: Leaf, path: Path, out: Out) {
    if !r.admits(path) || leaf.Instance? then out == Redacted
    else if leaf.Text? then out == Shown(Text(r.scrub(leaf.text)))
    else out == Shown(leaf)
  }

  /** Nobody who may see admitted strings scrubbed, and no instances, can tell these apart. */
  predicate LooksLike(r: Redactor, a: Leaf, b: Leaf) {
    if a.Text? && b.Text? then r.scrub(a.text) == r.scrub(b.text) else a == b || (a.Instance? && b.Instance?)
  }

  // ---------------------------------------------------------------- the walk, on values

  /** The output and what is left of the budget. */
  function Redact(r: Redactor, v: Value, path: Path, nodes: nat): (Out, nat)
    decreases v
  {
    if nodes == 0 then (Truncated, 0)
    else if v.Undefined? then (NoValue, nodes - 1)
    else if v.Null? then (NullValue, nodes - 1)
    else if |path| > MAX_DEPTH then (Truncated, nodes - 1)
    else
      match v
      case List(items) =>
        var (out, left) := RedactItems(r, items, path + [ARRAY_SEGMENT], nodes - 1);
        (OutList(out), left)
      case Record(fields) =>
        var (out, left) := RedactFields(r, fields, path, nodes - 1);
        (OutRecord(out), left)
      case Plain(leaf) => (LeafOut(r, leaf, path), nodes - 1)
  }

  function RedactItems(r: Redactor, items: seq<Value>, path: Path, nodes: nat): (seq<Out>, nat)
    decreases items
  {
    if items == [] then ([], nodes)
    else
      var (out, left) := Redact(r, items[0], path, nodes);
      var (rest, end) := RedactItems(r, items[1..], path, left);
      ([out] + rest, end)
  }

  function RedactFields(r: Redactor, fields: seq<Field>, path: Path, nodes: nat): (seq<OutField>, nat)
    decreases fields
  {
    if fields == [] then ([], nodes)
    else
      var f := fields[0];
      var (out, left) := Redact(r, f.value, path + [f.key], nodes);
      var (rest, end) := RedactFields(r, fields[1..], path, left);
      ([OutField(f.key, out)] + rest, end)
  }

  function RedactRecord(r: Redactor, fields: seq<Field>): seq<OutField> {
    RedactFields(r, fields, [], MAX_NODES).0
  }

  // ---------------------------------------------------------------- the walk, in place

  class Budget {
    var nodes: nat

    constructor (nodes: nat)
      ensures this.nodes == nodes
    {
      this.nodes := nodes;
    }
  }

  method RedactRecordInto(r: Redactor, fields: seq<Field>) returns (out: seq<OutField>)
    ensures out == RedactRecord(r, fields)
  {
    var budget := new Budget(MAX_NODES);
    out := RedactEach(r, fields, [], budget);
  }

  method RedactValue(r: Redactor, v: Value, path: Path, budget: Budget) returns (out: Out)
    modifies budget
    ensures (out, budget.nodes) == Redact(r, v, path, old(budget.nodes))
    decreases v
  {
    if budget.nodes == 0 {
      return Truncated;
    }
    budget.nodes := budget.nodes - 1;
    if v.Undefined? {
      return NoValue;
    }
    if v.Null? {
      return NullValue;
    }
    if |path| > MAX_DEPTH {
      return Truncated;
    }
    match v {
      case List(items) =>
        var elements := RedactElements(r, items, path + [ARRAY_SEGMENT], budget);
        return OutList(elements);
      case Record(fields) =>
        var members := RedactEach(r, fields, path, budget);
        return OutRecord(members);
      case Plain(leaf) =>
        return LeafOut(r, leaf, path);
    }
  }

  method RedactElements(r: Redactor, items: seq<Value>, path: Path, budget: Budget) returns (out: seq<Out>)
    modifies budget
    ensures (out, budget.nodes) == RedactItems(r, items, path, old(budget.nodes))
    decreases items
  {
    out := [];
    ghost var whole := RedactItems(r, items, path, budget.nodes);
    assert items[0..] == items;
    for i := 0 to |items|
      invariant whole.0 == out + RedactItems(r, items[i..], path, budget.nodes).0
      invariant whole.1 == RedactItems(r, items[i..], path, budget.nodes).1
    {
      assert items[i..][1..] == items[i + 1..];
      var element := RedactValue(r, items[i], path, budget);
      out := out + [element];
    }
    assert whole.0 == out;
  }

  method RedactEach(r: Redactor, fields: seq<Field>, path: Path, budget: Budget) returns (out: seq<OutField>)
    modifies budget
    ensures (out, budget.nodes) == RedactFields(r, fields, path, old(budget.nodes))
    decreases fields
  {
    out := [];
    ghost var whole := RedactFields(r, fields, path, budget.nodes);
    assert fields[0..] == fields;
    for i := 0 to |fields|
      invariant whole.0 == out + RedactFields(r, fields[i..], path, budget.nodes).0
      invariant whole.1 == RedactFields(r, fields[i..], path, budget.nodes).1
    {
      assert fields[i..][1..] == fields[i + 1..];
      var value := RedactValue(r, fields[i].value, path + [fields[i].key], budget);
      out := out + [OutField(fields[i].key, value)];
    }
    assert whole.0 == out;
  }

  // ---------------------------------------------------------------- noninterference

  /**
   * Two values of one shape that agree on every leaf that may be shown, strings up to what is scrubbed
   * out of them. Leaves that may not be shown are free, of any type; so is everything below the depth
   * the walk stops at.
   */
  predicate Agree(r: Redactor, v: Value, w: Value, path: Path)
    decreases v
  {
    if v.Undefined? || w.Undefined? || v.Null? || w.Null? then v == w
    else if |path| > MAX_DEPTH then true
    else
      match v
      case List(items) =>
        && w.List? && |w.items| == |items|
        && forall i :: 0 <= i < |items| ==> Agree(r, items[i], w.items[i], path + [ARRAY_SEGMENT])
      case Record(fields) => w.Record? && AgreeFields(r, fields, w.fields, path)
      case Plain(leaf) => w.Plain? && (r.admits(path) ==> LooksLike(r, leaf, w.leaf))
      case _ => true
  }

  predicate AgreeFields(r: Redactor, a: seq<Field>, b: seq<Field>, path: Path)
    decreases a
  {
    && |a| == |b|
    && forall i :: 0 <= i < |a| ==> a[i].key == b[i].key && Agree(r, a[i].value, b[i].value, path + [a[i].key])
  }

  lemma {:induction false} Noninterference(r: Redactor, v: Value, w: Value, path: Path, nodes: nat)
    requires Agree(r, v, w, path)
    ensures Redact(r, v, path, nodes) == Redact(r, w, path, nodes)
    decreases v
  {
    if nodes > 0 && !v.Undefined? && !v.Null? && |path| <= MAX_DEPTH {
      match v
      case List(items) => NoninterferenceOfItems(r, items, w.items, path + [ARRAY_SEGMENT], nodes - 1);
      case Record(fields) => NoninterferenceOfFields(r, fields, w.fields, path, nodes - 1);
      case Plain(leaf) =>
    }
  }

  lemma {:induction false} NoninterferenceOfItems(r: Redactor, a: seq<Value>, b: seq<Value>, path: Path, nodes: nat)
    requires |a| == |b| && forall i :: 0 <= i < |a| ==> Agree(r, a[i], b[i], path)
    ensures RedactItems(r, a, path, nodes) == RedactItems(r, b, path, nodes)
    decreases a
  {
    if a != [] {
      Noninterference(r, a[0], b[0], path, nodes);
      NoninterferenceOfItems(r, a[1..], b[1..], path, Redact(r, a[0], path, nodes).1);
    }
  }

  lemma {:induction false} NoninterferenceOfFields(r: Redactor, a: seq<Field>, b: seq<Field>, path: Path, nodes: nat)
    requires AgreeFields(r, a, b, path)
    ensures RedactFields(r, a, path, nodes) == RedactFields(r, b, path, nodes)
    decreases a
  {
    if a != [] {
      Noninterference(r, a[0].value, b[0].value, path + [a[0].key], nodes);
      NoninterferenceOfFields(r, a[1..], b[1..], path, Redact(r, a[0].value, path + [a[0].key], nodes).1);
    }
  }

  /** What is written does not depend on anything that may not be shown. */
  lemma RecordsAlikeAreWrittenAlike(r: Redactor, a: seq<Field>, b: seq<Field>)
    requires AgreeFields(r, a, b, [])
    ensures RedactRecord(r, a) == RedactRecord(r, b)
  {
    NoninterferenceOfFields(r, a, b, [], MAX_NODES);
  }

  // ---------------------------------------------------------------- what is written

  /**
   * The output mirrors the value: each part is cut off, or has the value's own shape, and a leaf is
   * shown only where its path is admitted.
   */
  predicate Mirrors(r: Redactor, v: Value, out: Out, path: Path)
    decreases v
  {
    out == Truncated ||
    match v
    case Undefined => out == NoValue
    case Null => out == NullValue
    case Plain(leaf) => LeafWritten(r, leaf, path, out)
    case List(items) =>
      && out.OutList? && |out.items| == |items|
      && forall i :: 0 <= i < |items| ==> Mirrors(r, items[i], out.items[i], path + [ARRAY_SEGMENT])
    case Record(fields) => out.OutRecord? && MirrorsFields(r, fields, out.fields, path)
  }

  predicate MirrorsFields(r: Redactor, fields: seq<Field>, out: seq<OutField>, path: Path)
    decreases fields
  {
    && |out| == |fields|
    && forall i :: 0 <= i < |fields| ==> out[i].key == fields[i].key && Mirrors(r, fields[i].value, out[i].value, path + [fields[i].key])
  }

  /** Values written out other than as cut off. */
  function Written(out: Out): nat
    decreases out
  {
    match out
    case Truncated => 0
    case OutList(items) => 1 + WrittenItems(items)
    case OutRecord(fields) => 1 + WrittenFields(fields)
    case _ => 1
  }

  function WrittenItems(items: seq<Out>): nat
    decreases items
  {
    if items == [] then 0 else Written(items[0]) + WrittenItems(items[1..])
  }

  function WrittenFields(fields: seq<OutField>): nat
    decreases fields
  {
    if fields == [] then 0 else Written(fields[0].value) + WrittenFields(fields[1..])
  }

  /** Each value written out is paid for, and the output mirrors the value. */
  lemma {:induction false} RedactMirrors(r: Redactor, v: Value, path: Path, nodes: nat)
    ensures var (out, left) := Redact(r, v, path, nodes);
            left <= nodes && Written(out) <= nodes - left && Mirrors(r, v, out, path)
    decreases v
  {
    if nodes > 0 && |path| <= MAX_DEPTH {
      match v
      case List(items) => ItemsMirror(r, items, path + [ARRAY_SEGMENT], nodes - 1);
      case Record(fields) => FieldsMirror(r, fields, path, nodes - 1);
      case _ =>
    }
  }

  lemma {:induction false} ItemsMirror(r: Redactor, items: seq<Value>, path: Path, nodes: nat)
    ensures var (out, left) := RedactItems(r, items, path, nodes);
            && left <= nodes && WrittenItems(out) <= nodes - left && |out| == |items|
            && forall i :: 0 <= i < |items| ==> Mirrors(r, items[i], out[i], path)
    decreases items
  {
    if items != [] {
      var (out, left) := Redact(r, items[0], path, nodes);
      RedactMirrors(r, items[0], path, nodes);
      ItemsMirror(r, items[1..], path, left);
      var rest := RedactItems(r, items[1..], path, left).0;
      assert ([out] + rest)[1..] == rest;
      assert forall i :: 1 <= i < |items| ==> items[i] == items[1..][i - 1];
    }
  }

  lemma {:induction false} FieldsMirror(r: Redactor, fields: seq<Field>, path: Path, nodes: nat)
    ensures var (out, left) := RedactFields(r, fields, path, nodes);
            left <= nodes && WrittenFields(out) <= nodes - left && MirrorsFields(r, fields, out, path)
    decreases fields
  {
    if fields != [] {
      var f := fields[0];
      var (out, left) := Redact(r, f.value, path + [f.key], nodes);
      RedactMirrors(r, f.value, path + [f.key], nodes);
      FieldsMirror(r, fields[1..], path, left);
      var rest := RedactFields(r, fields[1..], path, left).0;
      assert ([OutField(f.key, out)] + rest)[1..] == rest;
      assert forall i :: 1 <= i < |fields| ==> fields[i] == fields[1..][i - 1];
    }
  }

  /** A record keeps its shape, shows only what is admitted, and writes at most the budget. */
  lemma RecordIsBoundedAndFaithful(r: Redactor, fields: seq<Field>)
    ensures WrittenFields(RedactRecord(r, fields)) <= MAX_NODES
    ensures MirrorsFields(r, fields, RedactRecord(r, fields), [])
  {
    FieldsMirror(r, fields, [], MAX_NODES);
  }

  // ---------------------------------------------------------------- place by place

  /** One step down: the n-th element of a list, or the n-th member of a record. */
  type Address = seq<nat>

  function ValueAt(v: Value, at: Address): Option<Value>
    decreases at
  {
    if at == [] then Some(v)
    else
      match v
      case List(items) => if at[0] < |items| then ValueAt(items[at[0]], at[1..]) else None
      case Record(fields) => if at[0] < |fields| then ValueAt(fields[at[0]].value, at[1..]) else None
      case _ => None
  }

  /** The path of the place an address leads to. */
  function PathTo(v: Value, at: Address, path: Path): Path
    decreases at
  {
    if at == [] then path
    else
      match v
      case List(items) => if at[0] < |items| then PathTo(items[at[0]], at[1..], path + [ARRAY_SEGMENT]) else path
      case Record(fields) => if at[0] < |fields| then PathTo(fields[at[0]].value, at[1..], path + [fields[at[0]].key]) else path
      case _ => path
  }

  function OutAt(out: Out, at: Address): Option<Out>
    decreases at
  {
    if at == [] then Some(out)
    else
      match out
      case OutList(items) => if at[0] < |items| then OutAt(items[at[0]], at[1..]) else None
      case OutRecord(fields) => if at[0] < |fields| then OutAt(fields[at[0]].value, at[1..]) else None
      case _ => None
  }

  /** A leaf shown comes from a leaf of the value at the same place, admitted there, and scrubbed if it is a string. */
  predicate ComesFrom(r: Redactor, shown: Leaf, v: Value, path: Path) {
    && v.Plain? && r.admits(path) && !v.leaf.Instance?
    && if v.leaf.Text? then shown == Text(r.scrub(v.leaf.text)) else shown == v.leaf
  }

  lemma {:induction false} ShownAt(r: Redactor, v: Value, out: Out, path: Path, at: Address)
    requires Mirrors(r, v, out, path) && OutAt(out, at).Some? && OutAt(out, at).value.Shown?
    ensures ValueAt(v, at).Some? && ComesFrom(r, OutAt(out, at).value.leaf, ValueAt(v, at).value, PathTo(v, at, path))
    decreases at
  {
    if at != [] {
      match v
      case List(items) => ShownAt(r, items[at[0]], out.items[at[0]], path + [ARRAY_SEGMENT], at[1..]);
      case Record(fields) => ShownAt(r, fields[at[0]].value, out.fields[at[0]].value, path + [fields[at[0]].key], at[1..]);
      case _ =>
    }
  }

  /**
   * Whatever is shown anywhere in a written record is the admitted leaf of the record at that very
   * place: a string only scrubbed, a number, flag or date as it is, and an instance never.
   */
  lemma ShownIsAdmittedAndScrubbed(r: Redactor, fields: seq<Field>, at: Address)
    requires var out := OutAt(OutRecord(RedactRecord(r, fields)), at); out.Some? && out.value.Shown?
    ensures var shown := OutAt(OutRecord(RedactRecord(r, fields)), at).value.leaf;
            && ValueAt(Record(fields), at).Some?
            && ComesFrom(r, shown, ValueAt(Record(fields), at).value, PathTo(Record(fields), at, []))
  {
    RecordIsBoundedAndFaithful(r, fields);
    ShownAt(r, Record(fields), OutRecord(RedactRecord(r, fields)), [], at);
  }

  // ---------------------------------------------------------------- nothing cut off without need

  /** How many values a walk with no budget limit would visit. */
  function Size(v: Value, depth: nat): nat
    decreases v
  {
    if depth > MAX_DEPTH then 1
    else
      match v
      case List(items) => 1 + ItemsSize(items, depth + 1)
      case Record(fields) => 1 + FieldsSize(fields, depth)
      case _ => 1
  }

  function ItemsSize(items: seq<Value>, depth: nat): nat
    decreases items
  {
    if items == [] then 0 else Size(items[0], depth) + ItemsSize(items[1..], depth)
  }

  function FieldsSize(fields: seq<Field>, depth: nat): nat
    decreases fields
  {
    if fields == [] then 0 else Size(fields[0].value, depth + 1) + FieldsSize(fields[1..], depth)
  }

  /** The budget left is exactly what the visited values did not use. */
  lemma {:induction false} BudgetIsExact(r: Redactor, v: Value, path: Path, nodes: nat)
    ensures Redact(r, v, path, nodes).1 == Max(0, nodes - Size(v, |path|))
    decreases v
  {
    if nodes > 0 && |path| <= MAX_DEPTH {
      match v
      case List(items) => ItemsBudget(r, items, path + [ARRAY_SEGMENT], nodes - 1);
      case Record(fields) => FieldsBudget(r, fields, path, nodes - 1);
      case _ =>
    }
    SizePositive(v, |path|);
  }

  lemma SizePositive(v: Value, depth: nat)
    ensures Size(v, depth) >= 1
  {
  }

  lemma {:induction false} ItemsBudget(r: Redactor, items: seq<Value>, path: Path, nodes: nat)
    ensures RedactItems(r, items, path, nodes).1 == Max(0, nodes - ItemsSize(items, |path|))
    decreases items
  {
    if items != [] {
      BudgetIsExact(r, items[0], path, nodes);
      ItemsBudget(r, items[1..], path, Redact(r, items[0], path, nodes).1);
    }
  }

  lemma {:induction false} FieldsBudget(r: Redactor, fields: seq<Field>, path: Path, nodes: nat)
    ensures RedactFields(r, fields, path, nodes).1 == Max(0, nodes - FieldsSize(fields, |path|))
    decreases fields
  {
    if fields != [] {
      var f := fields[0];
      BudgetIsExact(r, f.value, path + [f.key], nodes);
      FieldsBudget(r, fields[1..], path, Redact(r, f.value, path + [f.key], nodes).1);
    }
  }

  /** The whole value, in full: leaves as their paths allow, and only what is too deep cut off. */
  predicate Shows(r: Redactor, v: Value, out: Out, path: Path)
    decreases v
  {
    if v.Undefined? then out == NoValue
    else if v.Null? then out == NullValue
    else if |path| > MAX_DEPTH then out == Truncated
    else
      match v
      case Plain(leaf) => LeafWritten(r, leaf, path, out)
      case List(items) =>
        && out.OutList? && |out.items| == |items|
        && forall i :: 0 <= i < |items| ==> Shows(r, items[i], out.items[i], path + [ARRAY_SEGMENT])
      case Record(fields) => out.OutRecord? && ShowsFields(r, fields, out.fields, path)
  }

  predicate ShowsFields(r: Redactor, fields: seq<Field>, out: seq<OutField>, path: Path)
    decreases fields
  {
    && |out| == |fields|
    && forall i :: 0 <= i < |fields| ==> out[i].key == fields[i].key && Shows(r, fields[i].value, out[i].value, path + [fields[i].key])
  }

  /** A value that fits the budget is written in full: sharing the budget costs nothing. */
  lemma {:induction false} FittingIsShown(r: Redactor, v: Value, path: Path, nodes: nat)
    requires nodes >= Size(v, |path|)
    ensures Shows(r, v, Redact(r, v, path, nodes).0, path)
    decreases v
  {
    SizePositive(v, |path|);
    if |path| <= MAX_DEPTH {
      match v
      case List(items) => FittingItems(r, items, path + [ARRAY_SEGMENT], nodes - 1);
      case Record(fields) => FittingFields(r, fields, path, nodes - 1);
      case _ =>
    }
  }

  lemma {:induction false} FittingItems(r: Redactor, items: seq<Value>, path: Path, nodes: nat)
    requires nodes >= ItemsSize(items, |path|)
    ensures var out := RedactItems(r, items, path, nodes).0;
            |out| == |items| && forall i :: 0 <= i < |items| ==> Shows(r, items[i], out[i], path)
    decreases items
  {
    if items != [] {
      FittingIsShown(r, items[0], path, nodes);
      BudgetIsExact(r, items[0], path, nodes);
      FittingItems(r, items[1..], path, Redact(r, items[0], path, nodes).1);
      assert forall i :: 1 <= i < |items| ==> items[i] == items[1..][i - 1];
    }
  }

  lemma {:induction false} FittingFields(r: Redactor, fields: seq<Field>, path: Path, nodes: nat)
    requires nodes >= FieldsSize(fields, |path|)
    ensures ShowsFields(r, fields, RedactFields(r, fields, path, nodes).0, path)
    decreases fields
  {
    if fields != [] {
      var f := fields[0];
      FittingIsShown(r, f.value, path + [f.key], nodes);
      BudgetIsExact(r, f.value, path + [f.key], nodes);
      FittingFields(r, fields[1..], path, Redact(r, f.value, path + [f.key], nodes).1);
      assert forall i :: 1 <= i < |fields| ==> fields[i] == fields[1..][i - 1];
    }
  }

  /** Fields after the first ones change nothing about how those are written. */
  lemma {:induction false} FieldsInTurn(r: Redactor, first: seq<Field>, rest: seq<Field>, path: Path, nodes: nat)
    ensures var (out, left) := RedactFields(r, first, path, nodes);
            RedactFields(r, first + rest, path, nodes).0 == out + RedactFields(r, rest, path, left).0
    decreases first
  {
    if first == [] {
      assert first + rest == rest;
    } else {
      assert (first + rest)[1..] == first[1..] + rest;
      FieldsInTurn(r, first[1..], rest, path, Redact(r, first[0].value, path + [first[0].key], nodes).1);
    }
  }

  /** However large a record is, the fields that fit the budget before the rest are written in full. */
  lemma FirstFieldsAreShown(r: Redactor, first: seq<Field>, rest: seq<Field>)
    requires FieldsSize(first, 0) <= MAX_NODES
    ensures |RedactRecord(r, first + rest)| >= |first| && ShowsFields(r, first, RedactRecord(r, first + rest)[..|first|], [])
  {
    FieldsInTurn(r, first, rest, [], MAX_NODES);
    FittingFields(r, first, [], MAX_NODES);
    var out := RedactFields(r, first, [], MAX_NODES).0;
    assert RedactRecord(r, first + rest)[..|first|] == out;
  }
}
