/**
 Schema documents as the compatibility checker of scripts/check_contracts.py sees
 them: parsed JSON, Python's equality on it, the annotation stripper `schema` and
 the recursive relation `output_compatible`.
 */
module Schemas {

  /** The strings of a document. The keywords the checker or the validator names
      are constructors, so that no two of them can be confused; `RefTo(n)` is the
      reference string "#/$defs/n", `RefRoot` is "#", `Name(s)` is any other text. */
  datatype Text =
    | Properties | Defs | Ref | AdditionalProperties | UnevaluatedProperties | Required
    | Items | AnyOf | AllOf | OneOf | Not | Const | Enum | Type
    | Title | Description | SchemaUri
    | ObjectType | ArrayType | StringType | NumberType | IntegerType | BooleanType | NullType
    | RefRoot | RefTo(target: Text) | Name(s: string)

  datatype Json =
    | JNull
    | JBool(b: bool)
    | JNum(n: real)
    | JStr(t: Text)
    | JArr(a: seq<Json>)
    | JObj(m: map<Text, Json>)

  const STRIPPED: set<Text> := {Title, Description, SchemaUri}

  /** Python's `==` on parsed JSON. It differs from JSON equality in one place:
      True equals 1 and False equals 0. */
  predicate PyEq(a: Json, b: Json)
    decreases a
  {
    match (a, b)
    case (JNull, JNull) => true
    case (JBool(x), JBool(y)) => x == y
    case (JNum(x), JNum(y)) => x == y
    case (JBool(x), JNum(y)) => y == (if x then 1.0 else 0.0)
    case (JNum(x), JBool(y)) => x == (if y then 1.0 else 0.0)
    case (JStr(x), JStr(y)) => x == y
    case (JArr(x), JArr(y)) => |x| == |y| && forall i | 0 <= i < |x| :: PyEq(x[i], y[i])
    case (JObj(x), JObj(y)) => x.Keys == y.Keys && forall k | k in x :: PyEq(x[k], y[k])
    case _ => false
  }

  /** `schema`: drops the three annotation names from every dictionary. */
  function Normalise(v: Json): Json
    decreases v
  {
    match v
    case JObj(m) => JObj(map k | k in m && k !in STRIPPED :: Normalise(m[k]))
    case JArr(a) => JArr(seq(|a|, i requires 0 <= i < |a| => Normalise(a[i])))
    case _ => v
  }

  /** The names listed under `required`, empty when there is no such key. */
  function RequiredNames(m: map<Text, Json>): set<Text> {
    if Required in m && m[Required].JArr?
    then set i | 0 <= i < |m[Required].a| && m[Required].a[i].JStr? :: m[Required].a[i].t
    else {}
  }

  /** `output_compatible`: true where the checker returns, false where it raises. */
  predicate OutputCompatible(before: Json, after: Json)
    decreases before, 1
  {
    if before.JObj? && after.JObj? then
      && (forall key | key in before.m :: key in after.m && KeyCompatible(before, after, key))
      && after.m.Keys - before.m.Keys - {Defs} == {}
    else
      PyEq(before, after)
  }

  predicate KeyCompatible(before: Json, after: Json, key: Text)
    requires before.JObj? && after.JObj? && key in before.m && key in after.m
    decreases before, 0
  {
    var value, other := before.m[key], after.m[key];
    match key
    case Properties =>
      && value.JObj? && other.JObj?
      && (forall name | name in value.m :: name in other.m && OutputCompatible(value.m[name], other.m[name]))
      && (var added := other.m.Keys - value.m.Keys;
          added != {} ==>
            && !(AdditionalProperties in before.m && before.m[AdditionalProperties] == JBool(false))
            && added * RequiredNames(after.m) == {})
    case Defs =>
      && value.JObj? && other.JObj?
      && (forall name | name in value.m :: name in other.m && OutputCompatible(value.m[name], other.m[name]))
    case _ =>
      OutputCompatible(value, other)
  }
}
