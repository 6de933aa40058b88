/**
 What the validator makes of whole schemas, against statements that do not follow its
 keywords: counts of branches, the members of objects one by one, and the primitive types.
 */
module ValidatorLaws {
  import opened Common
  import opened Schemas
  import opened Validator

  /** The branches that accept the instance. */
  ghost function Accepting(other: Assertion, root: Json, branches: seq<Json>, v: Json, fuel: nat): set<nat> {
    set i: nat | i < |branches| && Valid(other, root, branches[i], v, fuel)
  }

  lemma OnlyOne(accepting: set<nat>, i: nat)
    ensures accepting == {i} <==> |accepting| == 1 && i in accepting
  {
    if |accepting| == 1 && i in accepting { assert |accepting - {i}| == 0; }
  }

  lemma OneAccepts(other: Assertion, root: Json, branches: Json, v: Json, fuel: nat)
    requires branches.JArr?
    ensures (exists i: nat :: i < |branches.a| && OnlyBranch(other, root, branches, i, v, fuel))
      <==> |Accepting(other, root, branches.a, v, fuel)| == 1
  {
    var accepting := Accepting(other, root, branches.a, v, fuel);
    forall i: nat | i < |branches.a|
      ensures OnlyBranch(other, root, branches, i, v, fuel) <==> |accepting| == 1 && i in accepting
    {
      OnlyBranchIs(other, root, branches, i, v, fuel);
      OnlyOne(accepting, i);
    }
    if |accepting| == 1 {
      var i :| i in accepting;
      assert i < |branches.a| && OnlyBranch(other, root, branches, i, v, fuel);
    }
  }

  lemma OnlyBranchIs(other: Assertion, root: Json, branches: Json, i: nat, v: Json, fuel: nat)
    requires branches.JArr? && i < |branches.a|
    ensures OnlyBranch(other, root, branches, i, v, fuel) <==> Accepting(other, root, branches.a, v, fuel) == {i}
  {
    var accepting := Accepting(other, root, branches.a, v, fuel);
    forall j: nat | j < |branches.a| ensures j in accepting <==> Valid(other, root, branches.a[j], v, fuel) {}
    assert forall j | j in accepting :: j < |branches.a|;
  }

  lemma AllAccept(accepting: set<nat>, n: nat)
    requires forall i | i in accepting :: i < n
    ensures |accepting| == n <==> forall i: nat | i < n :: i in accepting
  {
    var all := Below(n);
    assert (forall i: nat | i < n :: i in accepting) <==> accepting == all;
    if |accepting| == n { SubsetOfSameSize(accepting, all); }
  }

  function Below(n: nat): (r: set<nat>)
    ensures |r| == n && forall i: nat :: i in r <==> i < n
  {
    if n == 0 then {} else Below(n - 1) + {n - 1}
  }

  lemma SubsetOfSameSize(a: set<nat>, b: set<nat>)
    requires a <= b && |a| == |b|
    ensures a == b
  {
    assert |b - a| == |b| - |a| by { assert a + (b - a) == b; }
    assert b - a == {};
  }

  lemma SomeAccepts(other: Assertion, root: Json, branches: Json, v: Json, fuel: nat)
    requires branches.JArr?
    ensures (exists i | 0 <= i < |branches.a| :: Valid(other, root, branches.a[i], v, fuel))
      <==> |Accepting(other, root, branches.a, v, fuel)| > 0
  {
    var accepting := Accepting(other, root, branches.a, v, fuel);
    if i :| 0 <= i < |branches.a| && Valid(other, root, branches.a[i], v, fuel) {
      assert i in accepting;
    } else {
      assert accepting == {};
    }
  }

  /** Unions by numbers: some branch accepts, every one does, exactly one does. */
  lemma UnionsCount(other: Assertion, root: Json, branches: Json, v: Json, fuel: nat)
    requires branches.JArr?
    ensures UnionHolds(other, root, AnyOf, branches, v, fuel) <==> |Accepting(other, root, branches.a, v, fuel)| > 0
    ensures UnionHolds(other, root, AllOf, branches, v, fuel)
      <==> |Accepting(other, root, branches.a, v, fuel)| == |branches.a|
    ensures UnionHolds(other, root, OneOf, branches, v, fuel) <==> |Accepting(other, root, branches.a, v, fuel)| == 1
  {
    SomeAccepts(other, root, branches, v, fuel);
    EveryAccepts(other, root, branches, v, fuel);
    OneAccepts(other, root, branches, v, fuel);
    OneOfIs(other, root, OneOf, branches, v, fuel);
  }

  lemma EveryAccepts(other: Assertion, root: Json, branches: Json, v: Json, fuel: nat)
    requires branches.JArr?
    ensures UnionHolds(other, root, AllOf, branches, v, fuel)
      <==> |Accepting(other, root, branches.a, v, fuel)| == |branches.a|
  {
    var accepting := Accepting(other, root, branches.a, v, fuel);
    AllAccept(accepting, |branches.a|);
    forall i: nat | i < |branches.a| ensures Valid(other, root, branches.a[i], v, fuel) <==> i in accepting {}
  }

  lemma OneOfGives(other: Assertion, root: Json, key: Text, branches: Json, v: Json, fuel: nat) returns (i: nat)
    requires branches.JArr? && key == OneOf && UnionHolds(other, root, key, branches, v, fuel)
    ensures i < |branches.a| && OnlyBranch(other, root, branches, i, v, fuel)
  {
    i :| 0 <= i < |branches.a| && OnlyBranch(other, root, branches, i, v, fuel);
  }

  lemma OneOfIs(other: Assertion, root: Json, key: Text, branches: Json, v: Json, fuel: nat)
    requires branches.JArr? && key == OneOf
    ensures UnionHolds(other, root, key, branches, v, fuel)
      <==> exists i: nat :: i < |branches.a| && OnlyBranch(other, root, branches, i, v, fuel)
  {
    if UnionHolds(other, root, key, branches, v, fuel) {
      var i := OneOfGives(other, root, key, branches, v, fuel);
      assert OnlyBranch(other, root, branches, i, v, fuel);
    }
  }

  /** Each member of an object is read by the schema of its own name, or else by the one for
      additional properties. */
  lemma MembersOneByOne(other: Assertion, root: Json, properties: map<Text, Json>, additional: Json,
                        members: map<Text, Json>, fuel: nat)
    ensures
      Valid(other, root, JObj(map[Properties := JObj(properties), AdditionalProperties := additional]), JObj(members),
            fuel)
      <==> forall name | name in members ::
             Valid(other, root, if name in properties then properties[name] else additional, members[name], fuel)
  {
    var s := JObj(map[Properties := JObj(properties), AdditionalProperties := additional]);
    MembersRead(other, root, s, properties, additional, JObj(members), fuel);
    assert s.m.Keys == {Properties, AdditionalProperties};
  }

  lemma MembersRead(other: Assertion, root: Json, s: Json, properties: map<Text, Json>, additional: Json, v: Json,
                    fuel: nat)
    requires s.JObj? && v.JObj? && Properties in s.m && AdditionalProperties in s.m
    requires s.m[Properties] == JObj(properties) && s.m[AdditionalProperties] == additional
    ensures Holds(other, root, s, Properties, v, fuel) && Holds(other, root, s, AdditionalProperties, v, fuel)
      <==> forall name | name in v.m ::
             Valid(other, root, if name in properties then properties[name] else additional, v.m[name], fuel)
  {
    assert Declared(s.m) == properties.Keys;
    assert Holds(other, root, s, Properties, v, fuel)
      <==> forall name | name in properties && name in v.m :: Valid(other, root, properties[name], v.m[name], fuel);
    assert Holds(other, root, s, AdditionalProperties, v, fuel)
      <==> forall name | name in v.m && name !in properties :: Valid(other, root, additional, v.m[name], fuel);
  }

  function Whole(k: int): real { k as real }

  /** Every value has one primitive type, and whole numbers are integers as well. */
  lemma TypesExactly(name: Text, v: Json)
    ensures IsOfType(JStr(name), v) <==>
      || (name == NullType && v == JNull)
      || (name == BooleanType && (v == JBool(true) || v == JBool(false)))
      || (name == NumberType && exists n :: v == JNum(n))
      || (name == IntegerType && exists k :: v == JNum(Whole(k)))
      || (name == StringType && exists t :: v == JStr(t))
      || (name == ArrayType && exists a :: v == JArr(a))
      || (name == ObjectType && exists m :: v == JObj(m))
  {
    if IsOfType(JStr(name), v) {
      if name == IntegerType { assert v == JNum(Whole(v.n.Floor)); }
    }
  }

  /** An enumeration accepts its members, as a union of constants does. */
  lemma EnumerationIsUnion(other: Assertion, root: Json, values: seq<Json>, v: Json, fuel: nat)
    ensures Valid(other, root, JObj(map[Enum := JArr(values)]), v, fuel)
      <==> exists i | 0 <= i < |values| :: v == values[i]
  {
    var s := JObj(map[Enum := JArr(values)]);
    assert Holds(other, root, s, Enum, v, fuel) <==> v in values;
  }
}
