/**
 * JavaScript values as the application passes them around, and the JSON ones among them.
 *
 * An object keeps its members in insertion order, because `Object.keys` does; whether two
 * objects are the same value must not depend on that order.
 */
module Json {

  /**
   * A finite number as ECMAScript prints it (Number::toString, section 6.1.6.1.20 of ECMA-262):
   * zero (of either sign), or a sign, the shortest decimal digits that identify the double, and
   * the position `point` of the decimal point relative to the first digit, so that the value is
   * 0.d1d2...dk times ten to the power `point`.
   */
  datatype Number = Zero | Decimal(negative: bool, digits: seq<nat>, point: int)

  predicate WellFormedNumber(n: Number) {
    n.Decimal? ==>
      && 0 < |n.digits| <= 17
      && (forall i :: 0 <= i < |n.digits| ==> n.digits[i] < 10)
      && n.digits[0] != 0
      && n.digits[|n.digits| - 1] != 0
  }

  datatype Member<T> = Member(key: string, value: T)

  /** `Foreign` stands for functions, symbols, big integers, dates and class instances. */
  datatype Value =
    | Undefined
    | Foreign
    | NotFinite
    | JNull
    | JBool(b: bool)
    | JNumber(n: Number)
    | JString(s: string)
    | JArray(items: seq<Value>)
    | JObject(members: seq<Member<Value>>)

  predicate DistinctKeys<T>(members: seq<Member<T>>) {
    forall i, j :: 0 <= i < j < |members| ==> members[i].key != members[j].key
  }

  /** True of every value: keys of one object are distinct, numbers are printable. */
  predicate WellFormedValue(v: Value) {
    match v
    case JNumber(n) => WellFormedNumber(n)
    case JArray(items) => forall i :: 0 <= i < |items| ==> WellFormedValue(items[i])
    case JObject(members) => DistinctKeys(members) && forall i :: 0 <= i < |members| ==> WellFormedValue(members[i].value)
    case _ => true
  }

  /** Nothing in the value is outside JSON. */
  predicate IsJson(v: Value) {
    match v
    case Undefined => false
    case Foreign => false
    case NotFinite => false
    case JArray(items) => forall i :: 0 <= i < |items| ==> IsJson(items[i])
    case JObject(members) => forall i :: 0 <= i < |members| ==> IsJson(members[i].value)
    case _ => true
  }
}
