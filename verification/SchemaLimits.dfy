/**
 Every condition of `StableService.InFragment` is needed: for each there is a pair of
 schemas that the checker accepts and that meets all the other conditions, and a value
 that the changed schema admits and the original refuses, under every reading of the
 remaining keywords.
 */
module SchemaLimits {
  import opened Common
  import opened Schemas
  import opened SchemaOrder
  import opened Validator
  import opened SchemaSoundness
  import opened SchemaMeaning
  import opened SchemaStripping
  import opened StableService

  const X := Name("x")
  const STRING := JObj(map[Type := JStr(StringType)])
  const NUMBER := JObj(map[Type := JStr(NumberType)])
  const ONE := JNum(1.0)

  function Object(properties: map<Text, Json>): Json { JObj(map[Properties := JObj(properties)]) }

  /** The checker accepts the change although `v` is no longer decodable. */
  ghost predicate Unsound(other: Assertion, before: Json, after: Json, v: Json) {
    && OutputCompatible(Normalise(before), Normalise(after))
    && Decodes(other, after, v) && !Decodes(other, before, v)
  }

  /** The four conditions. */
  datatype Condition = Hidden | Form | Extension | Alignment

  predicate Meets(condition: Condition, before: Json, after: Json) {
    var x, y := Clean(before), Clean(after);
    match condition
    case Hidden => HiddenKept(x, y)
    case Form => WellFormed(x, x)
    case Extension => SafeExtension(x, y)
    case Alignment => Aligned(x, y)
  }

  /** The condition fails and it is the only one. */
  predicate FailsOnly(failing: Condition, before: Json, after: Json) {
    forall condition: Condition :: Meets(condition, before, after) <==> condition != failing
  }

  lemma ConditionsAreAll(before: Json, after: Json)
    ensures InFragment(before, after) <==> forall condition: Condition :: Meets(condition, before, after)
  {
    assert InFragment(before, after) <==>
      && Meets(Hidden, before, after) && Meets(Form, before, after)
      && Meets(Extension, before, after) && Meets(Alignment, before, after);
  }

  /** Where nothing is stripped, the documents are what is compared. */
  lemma Unstripped(before: Json, after: Json)
    requires Normalise(before) == before && Normalise(after) == after && OutputCompatible(before, after)
    ensures Clean(before) == before && Clean(after) == after && Meets(Hidden, before, after)
  {
    NothingToStrip(before);
    NothingToStrip(after);
    HiddenExactly(before, after);
  }

  lemma {:induction false} NothingToStrip(s: Json)
    requires Normalise(s) == s
    ensures Clean(s) == s
    decreases s, 1
  {
    if s.JObj? {
      NormaliseKeys(s);
      CleanKeys(s);
      forall key | key in s.m ensures Clean(s).m[key] == s.m[key] {
        NormaliseAt(s, key);
        NoArgumentToStrip(key, s.m[key]);
        CleanAt(s, key);
      }
      assert Clean(s).m == s.m;
    }
  }

  lemma {:induction false} NoArgumentToStrip(key: Text, arg: Json)
    requires Normalise(arg) == arg
    ensures CleanArgument(key, arg) == arg
    decreases arg, 2
  {
    if key == Properties || key == Defs {
      if arg.JObj? {
        NormaliseKeys(arg);
        forall name | name in arg.m ensures Clean(arg.m[name]) == arg.m[name] {
          NormaliseAt(arg, name);
          NothingToStrip(arg.m[name]);
        }
        assert CleanArgument(key, arg).m == arg.m;
      }
    } else if key in SCHEMA_KEYWORDS {
      NothingToStrip(arg);
    } else if (key == AnyOf || key == AllOf || key == OneOf) && arg.JArr? {
      forall i | 0 <= i < |arg.a| ensures Clean(arg.a[i]) == arg.a[i] {
        assert Normalise(arg).a[i] == Normalise(arg.a[i]);
        NothingToStrip(arg.a[i]);
      }
      assert CleanBranches(arg).a == arg.a;
    }
  }

  /** How to show it for documents that cleaning leaves alone. */
  lemma OnlyFailing(failing: Condition, before: Json, after: Json)
    requires Clean(before) == before && Clean(after) == after
    requires HiddenKept(before, after) <==> failing != Hidden
    requires WellFormed(before, before) <==> failing != Form
    requires SafeExtension(before, after) <==> failing != Extension
    requires Aligned(before, after) <==> failing != Alignment
    ensures FailsOnly(failing, before, after)
  {
  }

  lemma OnlyFailingUnstripped(failing: Condition, before: Json, after: Json)
    requires Normalise(before) == before && Normalise(after) == after && OutputCompatible(before, after)
    requires failing != Hidden
    requires WellFormed(before, before) <==> failing != Form
    requires SafeExtension(before, after) <==> failing != Extension
    requires Aligned(before, after) <==> failing != Alignment
    ensures FailsOnly(failing, before, after)
  {
    Unstripped(before, after);
  }

  /** Two schemas with the same keyword. */
  lemma SameKeyword(key: Text, x: Json, y: Json)
    requires key != Properties && key != Defs && SafeExtension(x, y)
    ensures SafeExtension(JObj(map[key := x]), JObj(map[key := y]))
    ensures Aligned(JObj(map[key := x]), JObj(map[key := y])) <==> Aligned(x, y)
  {
    var s, t := JObj(map[key := x]), JObj(map[key := y]);
    assert s.m[key] == x && t.m[key] == y;
    assert SafeExtensionAt(s, t, key);
  }

  /** Decided the same way at every depth past 1. */
  lemma Settled(other: Assertion, before: Json, after: Json, v: Json)
    requires forall fuel: nat | fuel > 0 ::
      Valid(other, after, after, v, fuel) && !Valid(other, before, before, v, fuel)
    ensures Decodes(other, after, v) && !Decodes(other, before, v)
  {
    assert ValidFrom(other, after, v, 1);
    forall enough: nat ensures !ValidFrom(other, before, v, enough) {
      assert !Valid(other, before, before, v, enough + 1);
    }
  }

  lemma NormaliseOne(key: Text, arg: Json)
    ensures key !in STRIPPED ==> Normalise(JObj(map[key := arg])) == JObj(map[key := Normalise(arg)])
    ensures key in STRIPPED ==> Normalise(JObj(map[key := arg])) == JObj(map[])
  {}

  lemma NormaliseTwo(key: Text, arg: Json, key': Text, arg': Json)
    requires key != key' && key !in STRIPPED && key' !in STRIPPED
    ensures Normalise(JObj(map[key := arg, key' := arg']))
      == JObj(map[key := Normalise(arg), key' := Normalise(arg')])
  {
    var n := Normalise(JObj(map[key := arg, key' := arg'])).m;
    assert n.Keys == {key, key'};
    assert n[key] == Normalise(arg) && n[key'] == Normalise(arg');
  }

  lemma NormaliseProperty(p: Text, schema: Json)
    ensures p !in STRIPPED ==> Normalise(Object(map[p := schema])) == Object(map[p := Normalise(schema)])
    ensures p in STRIPPED ==> Normalise(Object(map[p := schema])) == Object(map[])
  {
    NormaliseOne(p, schema);
    NormaliseOne(Properties, JObj(map[p := schema]));
  }

  lemma NormaliseTypes()
    ensures Normalise(STRING) == STRING && Normalise(NUMBER) == NUMBER
    ensures Normalise(JObj(map[])) == JObj(map[]) && Normalise(Object(map[])) == Object(map[])
  {
    NormaliseOne(Type, JStr(StringType));
    NormaliseOne(Type, JStr(NumberType));
    NormaliseOne(Properties, JObj(map[]));
  }

  /** A schema with one keyword means what that keyword means. */
  lemma ConstOnly(other: Assertion, root: Json, arg: Json, v: Json, fuel: nat)
    ensures Valid(other, root, JObj(map[Const := arg]), v, fuel) <==> v == arg
  {
    assert Holds(other, root, JObj(map[Const := arg]), Const, v, fuel) <==> v == arg;
  }

  lemma TypeOnly(other: Assertion, root: Json, arg: Json, v: Json, fuel: nat)
    requires arg.JStr?
    ensures Valid(other, root, JObj(map[Type := arg]), v, fuel) <==> IsOfType(arg, v)
  {
    assert Holds(other, root, JObj(map[Type := arg]), Type, v, fuel) <==> IsOfType(arg, v);
  }

  lemma NotOnly(other: Assertion, root: Json, arg: Json, v: Json, fuel: nat)
    ensures Valid(other, root, JObj(map[Not := arg]), v, fuel) <==> !Valid(other, root, arg, v, fuel)
  {
    assert Holds(other, root, JObj(map[Not := arg]), Not, v, fuel) <==> !Valid(other, root, arg, v, fuel);
  }

  lemma ReferenceOnly(other: Assertion, root: Json, ref: Json, v: Json, fuel: nat)
    requires fuel > 0 && Resolve(root, ref).Some?
    ensures Valid(other, root, JObj(map[Ref := ref]), v, fuel)
      <==> Valid(other, root, Resolve(root, ref).value, v, fuel - 1)
  {
    assert Holds(other, root, JObj(map[Ref := ref]), Ref, v, fuel)
      <==> Valid(other, root, Resolve(root, ref).value, v, fuel - 1);
  }

  lemma NoProperties(other: Assertion, root: Json, v: Json, fuel: nat)
    ensures Valid(other, root, Object(map[]), v, fuel)
  {
    assert Holds(other, root, Object(map[]), Properties, v, fuel);
  }

  /** A value with the single property `p`, equal to 1, under a schema for that property. */
  lemma OneProperty(other: Assertion, root: Json, p: Text, schema: Json, fuel: nat)
    ensures Valid(other, root, Object(map[p := schema]), JObj(map[p := ONE]), fuel)
      <==> Valid(other, root, schema, ONE, fuel)
  {
    var s, v := Object(map[p := schema]), JObj(map[p := ONE]);
    assert p in s.m[Properties].m && v.m[p] == ONE;
    assert Holds(other, root, s, Properties, v, fuel) <==> Valid(other, root, s.m[Properties].m[p], v.m[p], fuel);
  }

  lemma TypeOfOne(other: Assertion, root: Json, fuel: nat)
    ensures !Valid(other, root, STRING, ONE, fuel) && Valid(other, root, NUMBER, ONE, fuel)
  {
    TypeOnly(other, root, JStr(StringType), ONE, fuel);
    TypeOnly(other, root, JStr(NumberType), ONE, fuel);
  }

  /** A property literally named `title`: `schema` strips its schema, so that its type
      may change freely. The released contract has such properties. */
  lemma StrippedPropertyIsUnchecked(other: Assertion)
    ensures
      var before, after := Object(map[Title := STRING]), Object(map[Title := NUMBER]);
      && !HiddenNamesKept(before.m[Properties], after.m[Properties]) && HiddenNamesAllowed(before, after)
      && FailsOnly(Hidden, before, after) && Unsound(other, before, after, JObj(map[Title := ONE]))
  {
    var before, after := Object(map[Title := STRING]), Object(map[Title := NUMBER]);
    RetypedTitle();
    TitleConditions();
    forall fuel: nat
      ensures !Valid(other, before, before, JObj(map[Title := ONE]), fuel)
      ensures Valid(other, after, after, JObj(map[Title := ONE]), fuel)
    {
      TypeOfOne(other, before, fuel);
      TypeOfOne(other, after, fuel);
      OneProperty(other, before, Title, STRING, fuel);
      OneProperty(other, after, Title, NUMBER, fuel);
    }
    Settled(other, before, after, JObj(map[Title := ONE]));
  }

  lemma RetypedTitle()
    ensures OutputCompatible(Normalise(Object(map[Title := STRING])), Normalise(Object(map[Title := NUMBER])))
  {
    NormaliseProperty(Title, STRING);
    NormaliseProperty(Title, NUMBER);
    assert KeyCompatible(Object(map[]), Object(map[]), Properties);
  }

  lemma TitleConditions()
    ensures
      var before, after := Object(map[Title := STRING]), Object(map[Title := NUMBER]);
      && !HiddenNamesKept(before.m[Properties], after.m[Properties]) && HiddenNamesAllowed(before, after)
      && FailsOnly(Hidden, before, after)
  {
    CleanProperty(Title, STRING);
    CleanProperty(Title, NUMBER);
    DifferentTypes(StringType, NumberType);
    HiddenProperty(Title, STRING, NUMBER);
    TypedProperty(Object(map[Title := STRING]), Title, StringType);
    SameNames(Title, STRING, NUMBER);
    OnlyFailing(Hidden, Object(map[Title := STRING]), Object(map[Title := NUMBER]));
  }

  lemma HiddenProperty(p: Text, s: Json, t: Json)
    requires p in STRIPPED && !OutputCompatible(s, t)
    ensures
      var before, after := Object(map[p := s]), Object(map[p := t]);
      && !HiddenNamesKept(before.m[Properties], after.m[Properties]) && HiddenNamesAllowed(before, after)
      && !HiddenKept(before, after)
  {
    var before, after := Object(map[p := s]), Object(map[p := t]);
    assert before.m[Properties].m[p] == s && after.m[Properties].m[p] == t;
    assert !HiddenKeptAt(before, after, Properties);
  }

  lemma TypedProperty(root: Json, p: Text, name: Text)
    ensures WellFormed(root, Object(map[p := JObj(map[Type := JStr(name)])]))
  {
    TypeForm(root, name);
    assert WellFormedAt(root, Object(map[p := JObj(map[Type := JStr(name)])]), Properties);
  }

  /** Two schemas for the same property. */
  lemma SameNames(p: Text, s: Json, t: Json)
    requires SafeExtension(s, t) && Aligned(s, t)
    ensures SafeExtension(Object(map[p := s]), Object(map[p := t])) && Aligned(Object(map[p := s]), Object(map[p := t]))
  {
    var before, after := Object(map[p := s]), Object(map[p := t]);
    assert after.m[Properties].m.Keys - before.m[Properties].m.Keys == {};
    assert SafeExtensionAt(before, after, Properties);
  }

  lemma CleanType(name: Text)
    ensures Clean(JObj(map[Type := JStr(name)])) == JObj(map[Type := JStr(name)])
  {
    NormaliseOne(Type, JStr(name));
    NothingToStrip(JObj(map[Type := JStr(name)]));
  }

  lemma CleanProperty(p: Text, schema: Json)
    requires schema == STRING || schema == NUMBER
    ensures Clean(Object(map[p := schema])) == Object(map[p := schema])
  {
    CleanType(StringType);
    CleanType(NumberType);
    assert CleanArgument(Properties, JObj(map[p := schema])).m == map[p := schema];
    assert Clean(Object(map[p := schema])).m == map[Properties := JObj(map[p := schema])];
  }

  lemma DifferentTypes(x: Text, y: Text)
    requires x != y
    ensures
      var s, t := JObj(map[Type := JStr(x)]), JObj(map[Type := JStr(y)]);
      !OutputCompatible(s, t) && Aligned(s, t) && SafeExtension(s, t)
  {
    var s, t := JObj(map[Type := JStr(x)]), JObj(map[Type := JStr(y)]);
    assert s.m[Type] == JStr(x) && t.m[Type] == JStr(y);
    assert !KeyCompatible(s, t, Type);
    assert SafeExtensionAt(s, t, Type);
  }

  const CLOSED := JBool(false)

  /** A property named `title` that is added where no property may be: the checker sees
      no addition. */
  lemma StrippedAdditionIsUnchecked(other: Assertion)
    ensures
      var before, after := Closed(CLOSED, map[]), Closed(CLOSED, map[Title := NUMBER]);
      && HiddenNamesKept(before.m[Properties], after.m[Properties]) && !HiddenNamesAllowed(before, after)
      && FailsOnly(Hidden, before, after) && Unsound(other, before, after, JObj(map[Title := ONE]))
  {
    var before, after := Closed(CLOSED, map[]), Closed(CLOSED, map[Title := NUMBER]);
    AddedTitle();
    AddedTitleConditions();
    forall fuel: nat
      ensures !Valid(other, before, before, JObj(map[Title := ONE]), fuel)
      ensures Valid(other, after, after, JObj(map[Title := ONE]), fuel)
    {
      ClosedAdmitsDeclared(other, after, Title, fuel);
      ClosedRefusesUndeclared(other, before, Title, fuel);
    }
    Settled(other, before, after, JObj(map[Title := ONE]));
  }

  lemma AddedTitle()
    ensures OutputCompatible(Normalise(Closed(CLOSED, map[])), Normalise(Closed(CLOSED, map[Title := NUMBER])))
  {
    NormaliseTypes();
    NormaliseOne(Title, NUMBER);
    NormaliseTwo(Properties, JObj(map[]), AdditionalProperties, CLOSED);
    NormaliseTwo(Properties, JObj(map[Title := NUMBER]), AdditionalProperties, CLOSED);
    EmptyTableGrows(Closed(CLOSED, map[]), Closed(CLOSED, map[]));
  }

  lemma AddedTitleConditions()
    ensures
      var before, after := Closed(CLOSED, map[]), Closed(CLOSED, map[Title := NUMBER]);
      && HiddenNamesKept(before.m[Properties], after.m[Properties]) && !HiddenNamesAllowed(before, after)
      && FailsOnly(Hidden, before, after)
  {
    CleanClosed(map[]);
    CleanType(NumberType);
    CleanClosed(map[Title := NUMBER]);
    HiddenAddition(Title, NUMBER);
    ClosedConditions(map[Title := NUMBER]);
    OnlyFailing(Hidden, Closed(CLOSED, map[]), Closed(CLOSED, map[Title := NUMBER]));
  }

  lemma HiddenAddition(p: Text, s: Json)
    requires p in STRIPPED
    ensures
      var before, after := Closed(CLOSED, map[]), Closed(CLOSED, map[p := s]);
      && HiddenNamesKept(before.m[Properties], after.m[Properties]) && !HiddenNamesAllowed(before, after)
      && !HiddenKept(before, after)
  {
    var before, after := Closed(CLOSED, map[]), Closed(CLOSED, map[p := s]);
    assert p in (after.m[Properties].m.Keys - before.m[Properties].m.Keys) * STRIPPED;
    assert !HiddenKeptAt(before, after, Properties);
  }

  lemma ClosedConditions(added: map<Text, Json>)
    ensures
      var before, after := Closed(CLOSED, map[]), Closed(CLOSED, added);
      WellFormed(before, before) && SafeExtension(before, after) && Aligned(before, after)
  {
    EmptyConditions(Closed(CLOSED, map[]), Closed(CLOSED, added));
  }

  /** A closed schema without properties, and one with some. */
  lemma EmptyConditions(s: Json, t: Json)
    requires s.JObj? && t.JObj? && s.m.Keys == {Properties, AdditionalProperties} == t.m.Keys
    requires s.m[Properties] == JObj(map[]) && t.m[Properties].JObj?
    requires s.m[AdditionalProperties].JBool? && t.m[AdditionalProperties].JBool?
    ensures WellFormed(s, s) && SafeExtension(s, t) && Aligned(s, t)
  {
    assert WellFormedAt(s, s, Properties) && WellFormedAt(s, s, AdditionalProperties);
    assert SafeExtensionAt(s, t, Properties) && SafeExtensionAt(s, t, AdditionalProperties);
  }

  lemma CleanClosed(properties: map<Text, Json>)
    requires forall p | p in properties :: Clean(properties[p]) == properties[p]
    ensures Clean(Closed(CLOSED, properties)) == Closed(CLOSED, properties)
  {
    assert CleanArgument(Properties, JObj(properties)).m == properties;
    assert Clean(Closed(CLOSED, properties)).m == Closed(CLOSED, properties).m;
  }

  lemma ClosedAdmitsDeclared(other: Assertion, root: Json, p: Text, fuel: nat)
    ensures Valid(other, root, Closed(CLOSED, map[p := NUMBER]), JObj(map[p := ONE]), fuel)
  {
    var s, v := Closed(CLOSED, map[p := NUMBER]), JObj(map[p := ONE]);
    TypeOfOne(other, root, fuel);
    assert Declared(s.m) == {p} && v.m[p] == ONE;
    assert Holds(other, root, s, Properties, v, fuel) && Holds(other, root, s, AdditionalProperties, v, fuel);
  }

  lemma ClosedRefusesUndeclared(other: Assertion, root: Json, p: Text, fuel: nat)
    ensures !Valid(other, root, Closed(CLOSED, map[]), JObj(map[p := ONE]), fuel)
  {
    var s, v := Closed(CLOSED, map[]), JObj(map[p := ONE]);
    assert p !in Declared(s.m) && v.m[p] == ONE;
    assert !Valid(other, root, CLOSED, ONE, fuel);
    assert !Holds(other, root, s, AdditionalProperties, v, fuel);
  }

  function Bounded(properties: map<Text, Json>): Json {
    JObj(map[Properties := JObj(properties), AdditionalProperties := STRING])
  }

  lemma NormaliseBounded(properties: map<Text, Json>)
    requires Normalise(JObj(properties)) == JObj(properties)
    ensures Normalise(Bounded(properties)) == Bounded(properties)
  {
    NormaliseTypes();
    NormaliseTwo(Properties, JObj(properties), AdditionalProperties, STRING);
  }

  /** An empty table of properties may grow where the object is not closed. */
  lemma EmptyTableGrows(s: Json, t: Json)
    requires s.JObj? && t.JObj? && s.m.Keys == {Properties, AdditionalProperties} == t.m.Keys
    requires s.m[Properties] == JObj(map[]) && t.m[Properties].JObj?
    requires OutputCompatible(s.m[AdditionalProperties], t.m[AdditionalProperties])
    requires t.m[Properties] == JObj(map[]) || !IsClosed(s)
    ensures OutputCompatible(s, t)
  {
    assert RequiredNames(t.m) == {};
    assert KeyCompatible(s, t, Properties) && KeyCompatible(s, t, AdditionalProperties);
    assert t.m.Keys - s.m.Keys - {Defs} == {};
  }

  lemma BoundedAccepted()
    ensures OutputCompatible(Normalise(Bounded(map[])), Normalise(Bounded(map[X := NUMBER])))
  {
    BoundedIsNormal();
    SameType();
    EmptyTableGrows(Bounded(map[]), Bounded(map[X := NUMBER]));
  }

  lemma BoundedIsUnsafe()
    ensures !SafeExtension(Bounded(map[]), Bounded(map[X := NUMBER]))
  {
    var before, after := Bounded(map[]), Bounded(map[X := NUMBER]);
    assert X in after.m[Properties].m.Keys - before.m[Properties].m.Keys;
    assert !SafeExtensionAt(before, after, Properties);
  }

  lemma BoundedForm(root: Json)
    ensures WellFormed(root, Bounded(map[]))
  {
    TypeForm(root, StringType);
    EmptyForm(root, Bounded(map[]));
  }

  lemma TypeForm(root: Json, name: Text)
    ensures WellFormed(root, JObj(map[Type := JStr(name)]))
  {
    assert WellFormedAt(root, JObj(map[Type := JStr(name)]), Type);
  }

  lemma EmptyForm(root: Json, s: Json)
    requires s.JObj? && s.m.Keys == {Properties, AdditionalProperties}
    requires s.m[Properties] == JObj(map[]) && WellFormed(root, s.m[AdditionalProperties])
    ensures WellFormed(root, s)
  {
    assert WellFormedAt(root, s, Properties) && WellFormedAt(root, s, AdditionalProperties);
  }

  lemma BoundedAligned(added: map<Text, Json>)
    ensures Aligned(Bounded(map[]), Bounded(added))
  {
    AlignedReflexive(STRING);
  }

  lemma SameType()
    ensures OutputCompatible(STRING, STRING)
  {
    assert KeyCompatible(STRING, STRING, Type);
  }

  /** A property added where the original constrains additional properties by a schema. */
  lemma AddedPropertyEscapesItsSchema(other: Assertion)
    ensures
      var before, after := Bounded(map[]), Bounded(map[X := NUMBER]);
      FailsOnly(Extension, before, after) && Unsound(other, before, after, JObj(map[X := ONE]))
  {
    BoundedAccepted();
    BoundedFailsOnly(Bounded(map[]), Bounded(map[X := NUMBER]));
    BoundedDecodes(other, Bounded(map[]), Bounded(map[X := NUMBER]));
  }

  lemma BoundedIsNormal()
    ensures Normalise(Bounded(map[])) == Bounded(map[])
    ensures Normalise(Bounded(map[X := NUMBER])) == Bounded(map[X := NUMBER])
  {
    NormaliseTypes();
    NormaliseOne(X, NUMBER);
    NormaliseBounded(map[]);
    NormaliseBounded(map[X := NUMBER]);
  }

  lemma BoundedConditions()
    ensures WellFormed(Bounded(map[]), Bounded(map[])) && !SafeExtension(Bounded(map[]), Bounded(map[X := NUMBER]))
    ensures Aligned(Bounded(map[]), Bounded(map[X := NUMBER]))
  {
    BoundedIsUnsafe();
    BoundedForm(Bounded(map[]));
    BoundedAligned(map[X := NUMBER]);
  }

  lemma BoundedFailsOnly(before: Json, after: Json)
    requires before == Bounded(map[]) && after == Bounded(map[X := NUMBER])
    requires OutputCompatible(Normalise(before), Normalise(after))
    ensures FailsOnly(Extension, before, after)
  {
    BoundedIsNormal();
    BoundedConditions();
    OnlyFailingUnstripped(Extension, before, after);
  }

  lemma BoundedDecodes(other: Assertion, before: Json, after: Json)
    requires before == Bounded(map[]) && after == Bounded(map[X := NUMBER])
    ensures Decodes(other, after, JObj(map[X := ONE])) && !Decodes(other, before, JObj(map[X := ONE]))
  {
    var v := JObj(map[X := ONE]);
    forall fuel: nat
      ensures Valid(other, after, after, v, fuel)
      ensures !Valid(other, before, before, v, fuel)
    {
      BoundedAdmitsDeclared(other, after, fuel);
      BoundedRefusesUndeclared(other, before, fuel);
    }
    Settled(other, before, after, v);
  }

  lemma BoundedAdmitsDeclared(other: Assertion, root: Json, fuel: nat)
    ensures Valid(other, root, Bounded(map[X := NUMBER]), JObj(map[X := ONE]), fuel)
  {
    var s, v := Bounded(map[X := NUMBER]), JObj(map[X := ONE]);
    TypeOfOne(other, root, fuel);
    assert Declared(s.m) == {X} && v.m[X] == ONE;
    assert Holds(other, root, s, Properties, v, fuel) && Holds(other, root, s, AdditionalProperties, v, fuel);
  }

  lemma BoundedRefusesUndeclared(other: Assertion, root: Json, fuel: nat)
    ensures !Valid(other, root, Bounded(map[]), JObj(map[X := ONE]), fuel)
  {
    var s, v := Bounded(map[]), JObj(map[X := ONE]);
    TypeOfOne(other, root, fuel);
    assert X !in Declared(s.m) && v.m[X] == ONE;
    assert !Holds(other, root, s, AdditionalProperties, v, fuel);
  }

  lemma AddedToOpenObject()
    ensures OutputCompatible(Object(map[]), Object(map[X := STRING]))
  {
    assert RequiredNames(Object(map[X := STRING]).m) == {};
    assert KeyCompatible(Object(map[]), Object(map[X := STRING]), Properties);
  }

  lemma OpenConditions(added: map<Text, Json>)
    ensures SafeExtension(Object(map[]), Object(added)) && Aligned(Object(map[]), Object(added))
  {
    assert SafeExtensionAt(Object(map[]), Object(added), Properties);
  }

  function Negated(s: Json): Json { JObj(map[Not := s]) }

  lemma NegatedIsIllFormed(s: Json)
    ensures !WellFormed(Negated(s), Negated(s))
  {
    assert !WellFormedAt(Negated(s), Negated(s), Not);
  }

  lemma NegatedAccepted(x: Json, y: Json)
    requires Normalise(x) == x && Normalise(y) == y && OutputCompatible(x, y)
    ensures Normalise(Negated(x)) == Negated(x) && Normalise(Negated(y)) == Negated(y)
    ensures OutputCompatible(Negated(x), Negated(y))
  {
    NormaliseOne(Not, x);
    NormaliseOne(Not, y);
    assert KeyCompatible(Negated(x), Negated(y), Not);
  }

  /** Under `not`, narrowing the inner schema widens the outer one. */
  lemma NegationIsNotCovered(other: Assertion)
    ensures
      var before, after := Negated(Object(map[])), Negated(Object(map[X := STRING]));
      FailsOnly(Form, before, after) && Unsound(other, before, after, JObj(map[X := ONE]))
  {
    NormaliseTypes();
    NormaliseProperty(X, STRING);
    AddedToOpenObject();
    NegatedAccepted(Object(map[]), Object(map[X := STRING]));
    NegatedIsIllFormed(Object(map[]));
    OpenConditions(map[X := STRING]);
    SameKeyword(Not, Object(map[]), Object(map[X := STRING]));
    OnlyFailingUnstripped(Form, Negated(Object(map[])), Negated(Object(map[X := STRING])));
    NegatedMeaning(other, Negated(Object(map[])), Negated(Object(map[X := STRING])));
  }

  lemma NegatedMeaning(other: Assertion, before: Json, after: Json)
    requires before == Negated(Object(map[])) && after == Negated(Object(map[X := STRING]))
    ensures Decodes(other, after, JObj(map[X := ONE])) && !Decodes(other, before, JObj(map[X := ONE]))
  {
    var v := JObj(map[X := ONE]);
    forall fuel: nat
      ensures Valid(other, after, after, v, fuel)
      ensures !Valid(other, before, before, v, fuel)
    {
      TypeOfOne(other, after, fuel);
      OneProperty(other, after, X, STRING, fuel);
      NotOnly(other, after, Object(map[X := STRING]), v, fuel);
      NoProperties(other, before, v, fuel);
      NotOnly(other, before, Object(map[]), v, fuel);
    }
    Settled(other, before, after, v);
  }

  function Constant(v: Json): Json { JObj(map[Const := v]) }

  lemma ConstantAccepted(x: Json, y: Json)
    requires Normalise(x) == x && Normalise(y) == y && OutputCompatible(x, y)
    ensures Normalise(Constant(x)) == Constant(x) && Normalise(Constant(y)) == Constant(y)
    ensures OutputCompatible(Constant(x), Constant(y))
  {
    NormaliseOne(Const, x);
    NormaliseOne(Const, y);
    assert KeyCompatible(Constant(x), Constant(y), Const);
  }

  lemma ConstantDecodes(other: Assertion, x: Json, y: Json)
    requires x != y
    ensures Decodes(other, Constant(y), y) && !Decodes(other, Constant(x), y)
  {
    forall fuel: nat
      ensures Valid(other, Constant(y), Constant(y), y, fuel)
      ensures !Valid(other, Constant(x), Constant(x), y, fuel)
    {
      ConstOnly(other, Constant(y), y, y, fuel);
      ConstOnly(other, Constant(x), x, y, fuel);
    }
    Settled(other, Constant(x), Constant(y), y);
  }

  /** Python's True == 1: the constant `true` may become the number 1. */
  lemma TruthValueMayBecomeNumber(other: Assertion)
    ensures
      var before, after := Constant(JBool(true)), Constant(ONE);
      FailsOnly(Alignment, before, after) && Unsound(other, before, after, ONE)
  {
    ConstantAccepted(JBool(true), ONE);
    ConstantForm(JBool(true));
    SameKeyword(Const, JBool(true), ONE);
    OnlyFailingUnstripped(Alignment, Constant(JBool(true)), Constant(ONE));
    ConstantDecodes(other, JBool(true), ONE);
  }

  /** A constant that is an object is compared as if it were a schema, so `$defs` may
      be added to it. */
  lemma ObjectConstantMayGrow(other: Assertion)
    ensures
      var v := JObj(map[Defs := JNull]);
      var before, after := Constant(JObj(map[])), Constant(v);
      FailsOnly(Form, before, after) && Unsound(other, before, after, v)
  {
    GrownConstant(JObj(map[Defs := JNull]));
    ConstantDecodes(other, JObj(map[]), JObj(map[Defs := JNull]));
  }

  lemma GrownConstant(v: Json)
    requires v == JObj(map[Defs := JNull])
    ensures v != JObj(map[])
    ensures OutputCompatible(Normalise(Constant(JObj(map[]))), Normalise(Constant(v)))
    ensures FailsOnly(Form, Constant(JObj(map[])), Constant(v))
  {
    NormaliseTypes();
    NormaliseOne(Defs, JNull);
    assert v.m.Keys - JObj(map[]).m.Keys - {Defs} == {};
    assert Defs in v.m;
    ConstantAccepted(JObj(map[]), v);
    ConstantForm(JObj(map[]));
    SameKeyword(Const, JObj(map[]), v);
    OnlyFailingUnstripped(Form, Constant(JObj(map[])), Constant(v));
  }

  /** A constant may contain an object too, and `schema` strips names from that. */
  lemma StrippedConstantIsUnchecked(other: Assertion)
    ensures
      var v := JArr([JObj(map[Title := ONE])]);
      var before, after := Constant(JArr([JObj(map[])])), Constant(v);
      FailsOnly(Hidden, before, after) && Unsound(other, before, after, v)
  {
    var x, y := JArr([JObj(map[])]), JArr([JObj(map[Title := ONE])]);
    StrippedConstantAccepted();
    CleanConstant(x);
    CleanConstant(y);
    ConstantForm(x);
    assert JObj(map[]).m.Keys != JObj(map[Title := ONE]).m.Keys by { assert Title in JObj(map[Title := ONE]).m.Keys; }
    assert !PyEq(x.a[0], y.a[0]);
    ListsAligned(JObj(map[]), JObj(map[Title := ONE]));
    SameKeyword(Const, x, y);
    assert !HiddenKept(x, y);
    HiddenConstant(x, y);
    OnlyFailing(Hidden, Constant(x), Constant(y));
    ConstantDecodes(other, x, y);
  }

  lemma StrippedConstantAccepted()
    ensures OutputCompatible(Normalise(Constant(JArr([JObj(map[])]))),
                             Normalise(Constant(JArr([JObj(map[Title := ONE])]))))
  {
    var x, y := JArr([JObj(map[])]), JArr([JObj(map[Title := ONE])]);
    NormaliseOne(Title, ONE);
    NormaliseTypes();
    assert Normalise(x).a == x.a;
    assert Normalise(y).a == x.a;
    NormaliseOne(Const, x);
    NormaliseOne(Const, y);
    AlignedReflexive(x);
    PyEqIsEquality(x, x);
    assert KeyCompatible(Constant(x), Constant(x), Const);
  }

  lemma ListsAligned(x: Json, y: Json)
    requires Aligned(x, y)
    ensures Aligned(JArr([x]), JArr([y]))
  {}

  lemma HiddenConstant(x: Json, y: Json)
    requires !HiddenKept(x, y)
    ensures !HiddenKept(Constant(x), Constant(y))
  {
    assert !HiddenKeptAt(Constant(x), Constant(y), Const);
  }

  lemma CleanConstant(v: Json)
    ensures Clean(Constant(v)) == Constant(v)
  {
    assert Clean(Constant(v)).m == map[Const := v];
  }

  lemma ConstantForm(v: Json)
    ensures WellFormed(Constant(v), Constant(v)) <==> !v.JObj?
  {
    assert WellFormedAt(Constant(v), Constant(v), Const) <==> !v.JObj?;
  }

  const REFERENCE := JObj(map[Ref := JStr(RefTo(X))])
  const VARIANTS := JArr([REFERENCE, JBool(true)])

  function Overlapping(a: Json): Json { JObj(map[Defs := JObj(map[X := a]), OneOf := VARIANTS]) }

  /** One variant accepts everything, the other what the definition accepts. */
  lemma OverlappingMeaning(other: Assertion, a: Json, v: Json, fuel: nat)
    requires fuel > 0
    ensures
      var s := Overlapping(a);
      Valid(other, s, s, v, fuel) <==> !Valid(other, s, a, v, fuel - 1)
  {
    var s := Overlapping(a);
    ReferenceOnly(other, s, JStr(RefTo(X)), v, fuel);
    assert Resolve(s, JStr(RefTo(X))) == Some(a);
    assert Valid(other, s, REFERENCE, v, fuel) <==> Valid(other, s, a, v, fuel - 1);
    assert Valid(other, s, s, v, fuel) <==> Holds(other, s, s, OneOf, v, fuel);
    OneOfWithTrue(other, s, VARIANTS, v, fuel);
  }

  lemma OneOfWithTrue(other: Assertion, root: Json, branches: Json, v: Json, fuel: nat)
    requires branches.JArr? && |branches.a| == 2 && branches.a[1] == JBool(true)
    ensures UnionHolds(other, root, OneOf, branches, v, fuel) <==> !Valid(other, root, branches.a[0], v, fuel)
  {
    assert Valid(other, root, branches.a[1], v, fuel) && !OnlyBranch(other, root, branches, 0, v, fuel);
    if !Valid(other, root, branches.a[0], v, fuel) {
      assert OnlyBranch(other, root, branches, 1, v, fuel);
    }
  }

  lemma NormaliseOverlapping(a: Json)
    requires Normalise(a) == a
    ensures Normalise(Overlapping(a)) == Overlapping(a)
  {
    NormaliseOne(X, a);
    NormaliseOne(Ref, JStr(RefTo(X)));
    assert Normalise(VARIANTS).a == VARIANTS.a;
    NormaliseTwo(Defs, JObj(map[X := a]), OneOf, VARIANTS);
  }

  lemma OverlappingAccepted()
    ensures OutputCompatible(Normalise(Overlapping(Object(map[]))), Normalise(Overlapping(Object(map[X := STRING]))))
  {
    var before, after := Overlapping(Object(map[])), Overlapping(Object(map[X := STRING]));
    NormaliseTypes();
    NormaliseProperty(X, STRING);
    NormaliseOverlapping(Object(map[]));
    NormaliseOverlapping(Object(map[X := STRING]));
    AddedToOpenObject();
    AlignedReflexive(VARIANTS);
    PyEqIsEquality(VARIANTS, VARIANTS);
    assert KeyCompatible(before, after, Defs) && KeyCompatible(before, after, OneOf);
  }

  lemma OverlappingConditions(a: Json, a': Json)
    requires SafeExtension(a, a') && Aligned(a, a')
    ensures SafeExtension(Overlapping(a), Overlapping(a')) && Aligned(Overlapping(a), Overlapping(a'))
  {
    AlignedReflexive(VARIANTS);
    UnionConditions(Overlapping(a), Overlapping(a'), VARIANTS);
  }

  /** Two schemas with one definition each and the same variants. */
  lemma UnionConditions(s: Json, t: Json, variants: Json)
    requires s.JObj? && t.JObj? && s.m.Keys == {Defs, OneOf} == t.m.Keys
    requires s.m[OneOf] == variants == t.m[OneOf] && variants.JArr? && Aligned(variants, variants)
    requires s.m[Defs].JObj? && t.m[Defs].JObj? && s.m[Defs].m.Keys == {X} == t.m[Defs].m.Keys
    requires SafeExtension(s.m[Defs].m[X], t.m[Defs].m[X]) && Aligned(s.m[Defs].m[X], t.m[Defs].m[X])
    ensures SafeExtension(s, t) && Aligned(s, t)
  {
    assert SafeExtensionAt(s, t, Defs) && SafeExtensionAt(s, t, OneOf);
    assert Aligned(s.m[Defs], t.m[Defs]);
  }

  lemma OverlappingIsIllFormed(a: Json)
    ensures !WellFormed(Overlapping(a), Overlapping(a))
  {
    var s := Overlapping(a);
    assert VARIANTS.a[1] == JBool(true) && |VARIANTS.a| == 2;
    assert !Apart(VARIANTS.a[0], VARIANTS.a[1]) && !Apart(VARIANTS.a[1], VARIANTS.a[0]);
    assert !WellFormedAt(s, s, OneOf);
  }

  /** Overlapping `oneOf` variants: narrowing one of them leaves an instance with a
      single match in the new schema and two in the old. */
  lemma OverlappingVariantsAreNotCovered(other: Assertion)
    ensures
      var before, after := Overlapping(Object(map[])), Overlapping(Object(map[X := STRING]));
      FailsOnly(Form, before, after) && Unsound(other, before, after, JObj(map[X := ONE]))
  {
    OverlappingAccepted();
    NormaliseTypes();
    NormaliseProperty(X, STRING);
    OpenConditions(map[X := STRING]);
    OverlappingFailsOnly(Object(map[]), Object(map[X := STRING]));
    OverlappingDecodes(other, Overlapping(Object(map[])), Overlapping(Object(map[X := STRING])));
  }

  lemma OverlappingFailsOnly(a: Json, a': Json)
    requires Normalise(a) == a && Normalise(a') == a' && SafeExtension(a, a') && Aligned(a, a')
    requires OutputCompatible(Normalise(Overlapping(a)), Normalise(Overlapping(a')))
    ensures FailsOnly(Form, Overlapping(a), Overlapping(a'))
  {
    OverlappingIsIllFormed(a);
    OverlappingConditions(a, a');
    NormaliseOverlapping(a);
    NormaliseOverlapping(a');
    OnlyFailingUnstripped(Form, Overlapping(a), Overlapping(a'));
  }

  lemma OverlappingDecodes(other: Assertion, before: Json, after: Json)
    requires before == Overlapping(Object(map[])) && after == Overlapping(Object(map[X := STRING]))
    ensures Decodes(other, after, JObj(map[X := ONE])) && !Decodes(other, before, JObj(map[X := ONE]))
  {
    var v := JObj(map[X := ONE]);
    forall fuel: nat | fuel > 0
      ensures !Valid(other, before, before, v, fuel)
      ensures Valid(other, after, after, v, fuel)
    {
      OverlappingMeaning(other, Object(map[]), v, fuel);
      OverlappingMeaning(other, Object(map[X := STRING]), v, fuel);
      NoProperties(other, before, v, fuel - 1);
      NotAString(other, after, fuel - 1);
    }
    Settled(other, before, after, v);
  }

  lemma NotAString(other: Assertion, root: Json, fuel: nat)
    ensures !Valid(other, root, Object(map[X := STRING]), JObj(map[X := ONE]), fuel)
  {
    TypeOfOne(other, root, fuel);
    OneProperty(other, root, X, STRING, fuel);
  }

  const RESOLVED := JObj(map[Ref := JStr(RefTo(X)), Defs := JObj(map[X := JBool(true)])])

  /** A reference that does not resolve accepts nothing; the definition may be added. */
  lemma DanglingReferenceIsNotCovered(other: Assertion)
    ensures FailsOnly(Form, REFERENCE, RESOLVED) && Unsound(other, REFERENCE, RESOLVED, ONE)
  {
    ResolvedAccepted();
    DanglingFailsOnly(REFERENCE, RESOLVED);
    forall fuel: nat | fuel > 0
      ensures !Valid(other, REFERENCE, REFERENCE, ONE, fuel)
      ensures Valid(other, RESOLVED, RESOLVED, ONE, fuel)
    {
      DanglingRefuses(other, REFERENCE, ONE, fuel);
      ResolvedAdmits(other, RESOLVED, ONE, fuel);
    }
    Settled(other, REFERENCE, RESOLVED, ONE);
  }

  lemma DanglingFailsOnly(before: Json, after: Json)
    requires before == REFERENCE && after == RESOLVED
    requires Normalise(before) == before && Normalise(after) == after && OutputCompatible(before, after)
    ensures FailsOnly(Form, before, after)
  {
    assert !WellFormedAt(before, before, Ref);
    ResolvedConditions();
    OnlyFailingUnstripped(Form, before, after);
  }

  lemma DanglingRefuses(other: Assertion, s: Json, v: Json, fuel: nat)
    requires s.JObj? && Ref in s.m && Resolve(s, s.m[Ref]).None?
    ensures !Valid(other, s, s, v, fuel)
  {
    assert !Holds(other, s, s, Ref, v, fuel);
  }

  lemma ResolvedAdmits(other: Assertion, s: Json, v: Json, fuel: nat)
    requires s.JObj? && s.m.Keys == {Ref, Defs} && Resolve(s, s.m[Ref]) == Some(JBool(true)) && fuel > 0
    ensures Valid(other, s, s, v, fuel)
  {
    assert Holds(other, s, s, Ref, v, fuel) && Holds(other, s, s, Defs, v, fuel);
  }

  lemma ResolvedAccepted()
    ensures Normalise(REFERENCE) == REFERENCE && Normalise(RESOLVED) == RESOLVED
    ensures OutputCompatible(REFERENCE, RESOLVED)
  {
    NormaliseOne(Ref, JStr(RefTo(X)));
    NormaliseOne(X, JBool(true));
    NormaliseTwo(Ref, JStr(RefTo(X)), Defs, JObj(map[X := JBool(true)]));
    assert RESOLVED.m.Keys == {Ref, Defs};
    assert KeyCompatible(REFERENCE, RESOLVED, Ref);
  }

  lemma ResolvedConditions()
    ensures SafeExtension(REFERENCE, RESOLVED) && Aligned(REFERENCE, RESOLVED)
  {
    assert SafeExtensionAt(REFERENCE, RESOLVED, Ref);
  }

  function Exhaustive(properties: map<Text, Json>): Json {
    JObj(map[Properties := JObj(properties), UnevaluatedProperties := CLOSED])
  }

  /** `unevaluatedProperties` closes an object as well, and the checker does not know it: a
      declared property is one more that it leaves alone. */
  lemma UnevaluatedIsNotCovered(other: Assertion)
    ensures
      var before, after := Exhaustive(map[]), Exhaustive(map[X := NUMBER]);
      FailsOnly(Form, before, after) && Unsound(other, before, after, JObj(map[X := ONE]))
  {
    ExhaustiveIsNormal();
    ExhaustiveAccepted(Exhaustive(map[]), Exhaustive(map[X := NUMBER]));
    ExhaustiveFailsOnly(Exhaustive(map[]), Exhaustive(map[X := NUMBER]));
    ExhaustiveDecodes(other, Exhaustive(map[]), Exhaustive(map[X := NUMBER]));
  }

  lemma ExhaustiveIsNormal()
    ensures Normalise(Exhaustive(map[])) == Exhaustive(map[])
    ensures Normalise(Exhaustive(map[X := NUMBER])) == Exhaustive(map[X := NUMBER])
  {
    NormaliseTypes();
    NormaliseOne(X, NUMBER);
    NormaliseTwo(Properties, JObj(map[]), UnevaluatedProperties, CLOSED);
    NormaliseTwo(Properties, JObj(map[X := NUMBER]), UnevaluatedProperties, CLOSED);
  }

  lemma ExhaustiveAccepted(s: Json, t: Json)
    requires s.JObj? && t.JObj? && s.m.Keys == {Properties, UnevaluatedProperties} == t.m.Keys
    requires s.m[Properties] == JObj(map[]) && t.m[Properties].JObj?
    requires s.m[UnevaluatedProperties] == CLOSED == t.m[UnevaluatedProperties]
    ensures OutputCompatible(s, t)
  {
    assert RequiredNames(t.m) == {};
    assert KeyCompatible(s, t, Properties) && KeyCompatible(s, t, UnevaluatedProperties);
    assert t.m.Keys - s.m.Keys - {Defs} == {};
  }

  lemma ExhaustiveConditions(s: Json, t: Json)
    requires s.JObj? && t.JObj? && s.m.Keys == {Properties, UnevaluatedProperties} == t.m.Keys
    requires s.m[Properties] == JObj(map[]) && t.m[Properties].JObj?
    requires s.m[UnevaluatedProperties] == CLOSED == t.m[UnevaluatedProperties]
    ensures !WellFormed(s, s) && SafeExtension(s, t) && Aligned(s, t)
  {
    assert !WellFormedAt(s, s, UnevaluatedProperties);
    assert SafeExtensionAt(s, t, Properties) && SafeExtensionAt(s, t, UnevaluatedProperties);
  }

  lemma ExhaustiveFailsOnly(before: Json, after: Json)
    requires before == Exhaustive(map[]) && after == Exhaustive(map[X := NUMBER])
    requires Normalise(before) == before && Normalise(after) == after && OutputCompatible(before, after)
    ensures FailsOnly(Form, before, after)
  {
    ExhaustiveConditions(before, after);
    OnlyFailingUnstripped(Form, before, after);
  }

  lemma ExhaustiveDecodes(other: Assertion, before: Json, after: Json)
    requires before == Exhaustive(map[]) && after == Exhaustive(map[X := NUMBER])
    ensures Decodes(other, after, JObj(map[X := ONE])) && !Decodes(other, before, JObj(map[X := ONE]))
  {
    var v := JObj(map[X := ONE]);
    forall fuel: nat
      ensures Valid(other, after, after, v, fuel)
      ensures !Valid(other, before, before, v, fuel)
    {
      TypeOfOne(other, after, fuel);
      ExhaustiveAdmits(other, after, after, X, v, fuel);
      ExhaustiveRefuses(other, before, before, X, v, fuel);
    }
    Settled(other, before, after, v);
  }

  lemma ExhaustiveAdmits(other: Assertion, root: Json, s: Json, p: Text, v: Json, fuel: nat)
    requires s.JObj? && s.m.Keys == {Properties, UnevaluatedProperties} && s.m[Properties] == JObj(map[p := NUMBER])
    requires v == JObj(map[p := ONE]) && Valid(other, root, NUMBER, ONE, fuel)
    ensures Valid(other, root, s, v, fuel)
  {
    assert s.m[Properties].m[p] == NUMBER && v.m[p] == ONE;
    assert EvaluatedAt(other, root, s, Properties, v, p, fuel);
    assert Holds(other, root, s, Properties, v, fuel) && Holds(other, root, s, UnevaluatedProperties, v, fuel);
  }

  lemma ExhaustiveRefuses(other: Assertion, root: Json, s: Json, p: Text, v: Json, fuel: nat)
    requires s.JObj? && s.m.Keys == {Properties, UnevaluatedProperties} && s.m[Properties] == JObj(map[])
    requires s.m[UnevaluatedProperties] == CLOSED && v == JObj(map[p := ONE])
    ensures !Valid(other, root, s, v, fuel)
  {
    EvaluatedByNone(other, root, s, v, p, fuel);
    assert p in v.m && v.m[p] == ONE && !Valid(other, root, CLOSED, ONE, fuel);
    assert !Holds(other, root, s, UnevaluatedProperties, v, fuel);
  }
}
