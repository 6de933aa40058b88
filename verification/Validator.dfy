/**
 The independent meaning of a schema: a validator for the fragment of JSON Schema
 draft 2020-12 that the service contracts use (Core sections 8.2.3.1 `$ref`, 8.2.4
 `$defs`, 10.2.1 `allOf`/`anyOf`/`oneOf`/`not`, 10.3.1.2 `items`, 10.3.2.1
 `properties`, 10.3.2.3 `additionalProperties`, and the assertions below), and for
 `unevaluatedProperties` (Core section 11.3), which looks at its neighbours.
 */
module Validator {
  import opened Common
  import opened Schemas

  /** Any reading of the keywords not named here (`format`, `minimum`, `default`,
      ...): it is given the keyword, its argument and the instance, and so it is a
      reading of those keywords only whose meaning depends on nothing else. */
  type Assertion = (Text, Json, Json) -> bool

  /** Keywords that depend on their argument and the instance alone: the assertions of
      draft 2020-12 (Validation section 6, but for `minContains` and `maxContains`, and
      `dependentRequired`, whose argument is an object), `format`, and annotations. */
  predicate StandsAlone(key: Text) {
    match key
    case Type | Enum | Const | Required | Title | Description | SchemaUri => true
    case Name(s) => s in ASSERTIONS
    case _ => false
  }

  const ASSERTIONS: seq<string> := [
    "multipleOf", "maximum", "exclusiveMaximum", "minimum", "exclusiveMinimum", "maxLength", "minLength", "pattern",
    "maxItems", "minItems", "uniqueItems", "maxProperties", "minProperties", "format", "contentEncoding",
    "contentMediaType", "default", "deprecated", "readOnly", "writeOnly", "examples", "$comment"]

  /** Where a reference string points inside the document `root`. */
  function Resolve(root: Json, ref: Json): Option<Json> {
    if !ref.JStr? then None
    else match ref.t
      case RefRoot => Some(root)
      case RefTo(name) =>
        if root.JObj? && Defs in root.m && root.m[Defs].JObj? && name in root.m[Defs].m
        then Some(root.m[Defs].m[name]) else None
      case _ => None
  }

  predicate IsOfType(name: Json, v: Json) {
    name.JStr? && match name.t
      case ObjectType => v.JObj?
      case ArrayType => v.JArr?
      case StringType => v.JStr?
      case NumberType => v.JNum?
      case BooleanType => v.JBool?
      case NullType => v.JNull?
      case IntegerType => v.JNum? && v.n == v.n.Floor as real
      case _ => false
  }

  /** The property names a schema object declares; the others are "additional". */
  function Declared(m: map<Text, Json>): set<Text> {
    if Properties in m && m[Properties].JObj? then m[Properties].m.Keys else {}
  }

  /** Instance `v` is valid under schema `s` of document `root` when references are
      followed at most `fuel` deep on any path. */
  ghost predicate Valid(other: Assertion, root: Json, s: Json, v: Json, fuel: nat)
    decreases fuel, s, 3
  {
    match s
    case JBool(b) => b
    case JObj(m) => forall key | key in m :: Holds(other, root, s, key, v, fuel)
    case _ => false
  }

  ghost predicate Holds(other: Assertion, root: Json, s: Json, key: Text, v: Json, fuel: nat)
    requires s.JObj? && key in s.m
    decreases fuel, s, 2
  {
    var arg := s.m[key];
    match key
    case Title | Description | SchemaUri | Defs => true
    case Ref =>
      fuel > 0 && var target := Resolve(root, arg);
      target.Some? && Valid(other, root, target.value, v, fuel - 1)
    case Properties =>
      arg.JObj? && (v.JObj? ==>
        forall name | name in arg.m && name in v.m :: Valid(other, root, arg.m[name], v.m[name], fuel))
    case AdditionalProperties =>
      v.JObj? ==>
        forall name | name in v.m && name !in Declared(s.m) :: Valid(other, root, arg, v.m[name], fuel)
    case UnevaluatedProperties =>
      v.JObj? ==>
        forall name | name in v.m && !Evaluated(other, root, s, v, name, fuel) ::
          Valid(other, root, arg, v.m[name], fuel)
    case Items =>
      v.JArr? ==> forall i | 0 <= i < |v.a| :: Valid(other, root, arg, v.a[i], fuel)
    case AnyOf | AllOf | OneOf => arg.JArr? && UnionHolds(other, root, key, arg, v, fuel)
    case Not => !Valid(other, root, arg, v, fuel)
    case Required =>
      arg.JArr? && (v.JObj? ==> forall i | 0 <= i < |arg.a| :: arg.a[i].JStr? && arg.a[i].t in v.m)
    case Const => v == arg
    case Enum => arg.JArr? && v in arg.a
    case Type => if arg.JArr? then exists i | 0 <= i < |arg.a| :: IsOfType(arg.a[i], v) else IsOfType(arg, v)
    case _ => other(key, arg, v)
  }

  /** Another keyword of the schema, or of a schema applied in its place, has looked at the
      property. */
  ghost predicate Evaluated(other: Assertion, root: Json, s: Json, v: Json, name: Text, fuel: nat)
    requires s.JObj?
    decreases fuel, s, 1
  {
    exists key | key in s.m :: EvaluatedAt(other, root, s, key, v, name, fuel)
  }

  ghost predicate EvaluatedAt(other: Assertion, root: Json, s: Json, key: Text, v: Json, name: Text, fuel: nat)
    requires s.JObj? && key in s.m
    decreases fuel, s, 0
  {
    match key
    case Properties => name in Declared(s.m)
    case AdditionalProperties => true
    case AnyOf | AllOf | OneOf => EvaluatedAmong(other, root, s.m[key], v, name, fuel)
    case Ref => EvaluatedThrough(other, root, s.m[key], v, name, fuel)
    case _ => false
  }

  ghost predicate EvaluatedAmong(other: Assertion, root: Json, branches: Json, v: Json, name: Text, fuel: nat)
    decreases fuel, branches, 5
  {
    branches.JArr? && exists i | 0 <= i < |branches.a| :: EvaluatedBy(other, root, branches.a[i], v, name, fuel)
  }

  ghost predicate EvaluatedThrough(other: Assertion, root: Json, ref: Json, v: Json, name: Text, fuel: nat)
    decreases fuel, ref, 5
  {
    fuel > 0 && var target := Resolve(root, ref);
    target.Some? && EvaluatedBy(other, root, target.value, v, name, fuel - 1)
  }

  /** A subschema counts only where it accepts the instance. */
  ghost predicate EvaluatedBy(other: Assertion, root: Json, s: Json, v: Json, name: Text, fuel: nat)
    decreases fuel, s, 4
  {
    && s.JObj? && Valid(other, root, s, v, fuel)
    && (UnevaluatedProperties in s.m || Evaluated(other, root, s, v, name, fuel))
  }

  ghost predicate UnionHolds(other: Assertion, root: Json, key: Text, branches: Json, v: Json, fuel: nat)
    requires branches.JArr?
    decreases fuel, branches, 5
  {
    if key == AnyOf then exists i | 0 <= i < |branches.a| :: Valid(other, root, branches.a[i], v, fuel)
    else if key == AllOf then forall i | 0 <= i < |branches.a| :: Valid(other, root, branches.a[i], v, fuel)
    else exists i | 0 <= i < |branches.a| :: OnlyBranch(other, root, branches, i, v, fuel)
  }

  /** Branch `i` of a `oneOf` accepts the instance and no other branch does. */
  ghost predicate OnlyBranch(other: Assertion, root: Json, branches: Json, i: nat, v: Json, fuel: nat)
    requires branches.JArr? && i < |branches.a|
    decreases fuel, branches, 4
  {
    forall j | 0 <= j < |branches.a| :: Valid(other, root, branches.a[j], v, fuel) <==> j == i
  }

  /** A retained client can decode `v`: it is valid however deep references are
      followed, from some depth on. */
  ghost predicate Decodes(other: Assertion, document: Json, v: Json) {
    exists enough: nat :: ValidFrom(other, document, v, enough)
  }

  ghost predicate ValidFrom(other: Assertion, document: Json, v: Json, enough: nat) {
    forall fuel: nat | fuel >= enough :: Valid(other, document, document, v, fuel)
  }
}
