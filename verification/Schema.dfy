/** The JSON Schema profile event contracts are written in, and what a schema accepts. */
module Schema {
  import opened Common

  datatype PrimitiveType = StringType | NumberType | IntegerType | BooleanType | NullType

  datatype Scalar = SString(s: string) | SNumber(n: real) | SBool(b: bool) | SNull

  datatype Property = Property(key: string, schema: Node)

  /**
   * A schema node. `properties` keeps the order `Object.keys` gives; content models are open.
   * `allowed` is the `enum` keyword.
   */
  datatype Node =
    | ObjectNode(properties: seq<Property>, required: set<string>)
    | ArrayNode(items: Node)
    | ScalarNode(types: set<PrimitiveType>, format: Option<string>, allowed: Option<seq<Scalar>>)

  datatype Value = VObject(members: map<string, Value>) | VArray(elements: seq<Value>) | VScalar(scalar: Scalar)

  /** Which strings, numbers and so on satisfy a named `format`: whatever the validator says. */
  type Formats = (string, Scalar) -> bool

  function IndexOf(properties: seq<Property>, key: string): (i: int)
    ensures -1 <= i < |properties|
    ensures i >= 0 ==> properties[i].key == key
    ensures i == -1 <==> forall j :: 0 <= j < |properties| ==> properties[j].key != key
  {
    if properties == [] then -1
    else if properties[|properties| - 1].key == key then |properties| - 1
    else IndexOf(properties[..|properties| - 1], key)
  }

  predicate Has(n: Node, key: string)
    requires n.ObjectNode?
  {
    IndexOf(n.properties, key) >= 0
  }

  /** What `assertInProfile` establishes of every node, keys of one object being distinct to begin with. */
  predicate InProfile(n: Node) {
    match n
    case ObjectNode(properties, required) =>
      && (forall i, j :: 0 <= i < j < |properties| ==> properties[i].key != properties[j].key)
      && (forall key :: key in required ==> Has(n, key))
      && (forall i :: 0 <= i < |properties| ==> InProfile(properties[i].schema))
    case ArrayNode(items) => InProfile(items)
    case ScalarNode(types, _, allowed) => types != {} && (allowed.Some? ==> allowed.value != [])
  }

  /** A whole document is an object schema. */
  predicate IsDocument(n: Node) {
    n.ObjectNode? && InProfile(n)
  }

  /** Section 6.1.1 of JSON Schema Validation: "integer" is any number with a zero fractional part. */
  predicate HasType(t: PrimitiveType, s: Scalar) {
    match t
    case StringType => s.SString?
    case NumberType => s.SNumber?
    case IntegerType => s.SNumber? && s.n == s.n.Floor as real
    case BooleanType => s.SBool?
    case NullType => s.SNull?
  }

  /** The values a schema accepts. */
  ghost predicate Valid(f: Formats, n: Node, v: Value) {
    match n
    case ObjectNode(properties, required) =>
      && v.VObject?
      && (forall key :: key in required ==> key in v.members)
      && (forall i :: 0 <= i < |properties| && properties[i].key in v.members ==>
                        Valid(f, properties[i].schema, v.members[properties[i].key]))
    case ArrayNode(items) => v.VArray? && forall i :: 0 <= i < |v.elements| ==> Valid(f, items, v.elements[i])
    case ScalarNode(types, format, allowed) =>
      && v.VScalar?
      && (exists t :: t in types && HasType(t, v.scalar))
      && (format.Some? ==> f(format.value, v.scalar))
      && (allowed.Some? ==> v.scalar in allowed.value)
  }

  /** The value carries only properties the schema declares, at every depth. */
  ghost predicate OnlyDeclared(n: Node, v: Value) {
    match n
    case ObjectNode(properties, _) =>
      v.VObject? ==>
        && (forall key :: key in v.members ==> Has(n, key))
        && (forall i :: 0 <= i < |properties| && properties[i].key in v.members ==>
                          OnlyDeclared(properties[i].schema, v.members[properties[i].key]))
    case ArrayNode(items) => v.VArray? ==> forall i :: 0 <= i < |v.elements| ==> OnlyDeclared(items, v.elements[i])
    case ScalarNode(_, _, _) => true
  }
}
