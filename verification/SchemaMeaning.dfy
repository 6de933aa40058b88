/**
 What `schema` means: stripping the annotations of schemas never changes their meaning,
 and beyond annotations it strips exactly what the conditions here describe.
 */
module SchemaMeaning {
  import opened Schemas
  import opened Validator

  /** The schema without its annotations, and with every property, definition and
      constant as it is: what `schema` would do if it knew where it stands. */
  function Clean(s: Json): Json
    decreases s, 1
  {
    match s
    case JObj(m) => JObj(map key | key in m && key !in STRIPPED :: CleanArgument(key, m[key]))
    case _ => s
  }

  function CleanArgument(key: Text, arg: Json): Json
    decreases arg, 2
  {
    if key == Properties || key == Defs then
      match arg
      case JObj(m) => JObj(map name | name in m :: Clean(m[name]))
      case _ => arg
    else if key in SCHEMA_KEYWORDS then Clean(arg)
    else if key == AnyOf || key == AllOf || key == OneOf then CleanBranches(arg)
    else arg
  }

  /** The keywords whose argument is one schema. */
  const SCHEMA_KEYWORDS := {Items, AdditionalProperties, UnevaluatedProperties, Not}

  function CleanBranches(branches: Json): Json
    decreases branches, 1
  {
    match branches
    case JArr(a) => JArr(seq(|a|, i requires 0 <= i < |a| => Clean(a[i])))
    case _ => branches
  }

  lemma CleanAt(s: Json, key: Text)
    requires s.JObj? && key in s.m && key !in STRIPPED
    ensures key in Clean(s).m && Clean(s).m[key] == CleanArgument(key, s.m[key])
  {
  }

  lemma CleanKeys(s: Json)
    requires s.JObj?
    ensures Clean(s).JObj? && Clean(s).m.Keys == s.m.Keys - STRIPPED
  {
  }

  /** Annotations have no meaning: nothing is assumed of the document. */
  lemma {:induction false} CleanMeaning(other: Assertion, root: Json, s: Json, v: Json, fuel: nat)
    ensures Valid(other, Clean(root), Clean(s), v, fuel) <==> Valid(other, root, s, v, fuel)
    decreases fuel, s, 6
  {
    if s.JObj? {
      var n := Clean(s);
      forall key | key in n.m
        ensures Holds(other, Clean(root), n, key, v, fuel) <==> Holds(other, root, s, key, v, fuel)
      {
        KeywordKept(other, root, s, key, v, fuel);
      }
      forall key | key in s.m && key !in n.m ensures Holds(other, root, s, key, v, fuel) {}
      assert forall key | key in n.m :: key in s.m;
    }
  }

  /** Two lists of branches accept the same branches, position by position. */
  ghost predicate SameBranches(other: Assertion, root: Json, root': Json, x: Json, y: Json, v: Json, fuel: nat) {
    && x.JArr? && y.JArr? && |x.a| == |y.a|
    && forall i | 0 <= i < |x.a| :: Valid(other, root, x.a[i], v, fuel) == Valid(other, root', y.a[i], v, fuel)
  }

  lemma UnionImplies(other: Assertion, root: Json, root': Json, x: Json, y: Json, key: Text, v: Json, fuel: nat)
    requires SameBranches(other, root, root', x, y, v, fuel) && UnionHolds(other, root, key, x, v, fuel)
    ensures UnionHolds(other, root', key, y, v, fuel)
  {
    if key == AnyOf {
      var i :| 0 <= i < |x.a| && Valid(other, root, x.a[i], v, fuel);
      assert Valid(other, root', y.a[i], v, fuel);
    } else if key != AllOf {
      var i :| 0 <= i < |x.a| && OnlyBranch(other, root, x, i, v, fuel);
      assert OnlyBranch(other, root', y, i, v, fuel);
    }
  }

  /** The meaning of one keyword survives; one case for each way its argument is read. */
  lemma {:induction false} KeywordKept(other: Assertion, root: Json, s: Json, key: Text, v: Json, fuel: nat)
    requires s.JObj? && key in s.m && key !in STRIPPED
    ensures Holds(other, Clean(root), Clean(s), key, v, fuel) <==> Holds(other, root, s, key, v, fuel)
    decreases fuel, s, 5
  {
    if key == Properties {
      PropertiesKept(other, root, s, v, fuel);
    } else if key == AdditionalProperties {
      AdditionalKept(other, root, s, v, fuel);
    } else if key == UnevaluatedProperties {
      UnevaluatedKept(other, root, s, v, fuel);
    } else if key == Items {
      ItemsKept(other, root, s, v, fuel);
    } else if key == Not {
      NegationKept(other, root, s, v, fuel);
    } else if key == AnyOf || key == AllOf || key == OneOf {
      UnionKept(other, root, s, key, v, fuel);
    } else if key == Ref {
      ReferenceKept(other, root, s, v, fuel);
    } else {
      AssertionKept(other, root, s, key, v, fuel);
    }
  }

  lemma {:induction false} NegationKept(other: Assertion, root: Json, s: Json, v: Json, fuel: nat)
    requires s.JObj? && Not in s.m
    ensures Holds(other, Clean(root), Clean(s), Not, v, fuel) <==> Holds(other, root, s, Not, v, fuel)
    decreases fuel, s, 0
  {
    CleanMeaning(other, root, s.m[Not], v, fuel);
  }

  lemma AssertionKept(other: Assertion, root: Json, s: Json, key: Text, v: Json, fuel: nat)
    requires s.JObj? && key in s.m && key !in STRIPPED && key !in APPLICATORS
    ensures Holds(other, Clean(root), Clean(s), key, v, fuel) <==> Holds(other, root, s, key, v, fuel)
  {
    CleanAt(s, key);
    AssertionAgrees(other, Clean(root), root, Clean(s), s, key, v, fuel);
  }

  const APPLICATORS := {Properties, AdditionalProperties, UnevaluatedProperties, Items, Not, AnyOf, AllOf, OneOf, Ref}

  lemma AssertionAgrees(other: Assertion, root: Json, root': Json, s: Json, s': Json, key: Text, v: Json, fuel: nat)
    requires s.JObj? && s'.JObj? && key in s.m && key in s'.m && key !in APPLICATORS
    requires key == Defs || s.m[key] == s'.m[key]
    ensures Holds(other, root, s, key, v, fuel) <==> Holds(other, root', s', key, v, fuel)
  {}

  lemma ReferenceAgrees(other: Assertion, root: Json, root': Json, s: Json, s': Json, v: Json, fuel: nat)
    requires s.JObj? && s'.JObj? && Ref in s.m && Ref in s'.m && s.m[Ref] == s'.m[Ref]
    requires fuel > 0 ==> (Resolve(root, s.m[Ref]).Some? <==> Resolve(root', s.m[Ref]).Some?)
    requires fuel > 0 && Resolve(root, s.m[Ref]).Some? ==>
      (Valid(other, root, Resolve(root, s.m[Ref]).value, v, fuel - 1)
       <==> Valid(other, root', Resolve(root', s.m[Ref]).value, v, fuel - 1))
    ensures Holds(other, root, s, Ref, v, fuel) <==> Holds(other, root', s', Ref, v, fuel)
  {}

  lemma {:induction false} PropertiesKept(other: Assertion, root: Json, s: Json, v: Json, fuel: nat)
    requires s.JObj? && Properties in s.m
    ensures Holds(other, Clean(root), Clean(s), Properties, v, fuel) <==> Holds(other, root, s, Properties, v, fuel)
    decreases fuel, s, 0
  {
    var arg := s.m[Properties];
    if arg.JObj? && v.JObj? {
      forall name | name in arg.m && name in v.m
        ensures Valid(other, Clean(root), CleanArgument(Properties, arg).m[name], v.m[name], fuel)
          <==> Valid(other, root, arg.m[name], v.m[name], fuel)
      {
        CleanMeaning(other, root, arg.m[name], v.m[name], fuel);
      }
      assert CleanArgument(Properties, arg).m.Keys == arg.m.Keys;
    }
  }

  lemma {:induction false} AdditionalKept(other: Assertion, root: Json, s: Json, v: Json, fuel: nat)
    requires s.JObj? && AdditionalProperties in s.m
    ensures Holds(other, Clean(root), Clean(s), AdditionalProperties, v, fuel)
      <==> Holds(other, root, s, AdditionalProperties, v, fuel)
    decreases fuel, s, 0
  {
    var arg := s.m[AdditionalProperties];
    SameDeclared(s);
    if v.JObj? {
      forall name | name in v.m
        ensures Valid(other, Clean(root), Clean(arg), v.m[name], fuel) <==> Valid(other, root, arg, v.m[name], fuel)
      {
        CleanMeaning(other, root, arg, v.m[name], fuel);
      }
    }
  }

  lemma {:induction false} UnevaluatedKept(other: Assertion, root: Json, s: Json, v: Json, fuel: nat)
    requires s.JObj? && UnevaluatedProperties in s.m
    ensures Holds(other, Clean(root), Clean(s), UnevaluatedProperties, v, fuel)
      <==> Holds(other, root, s, UnevaluatedProperties, v, fuel)
    decreases fuel, s, 4
  {
    var arg := s.m[UnevaluatedProperties];
    if v.JObj? {
      forall name | name in v.m
        ensures Evaluated(other, Clean(root), Clean(s), v, name, fuel) <==> Evaluated(other, root, s, v, name, fuel)
        ensures Valid(other, Clean(root), Clean(arg), v.m[name], fuel) <==> Valid(other, root, arg, v.m[name], fuel)
      {
        EvaluatedKept(other, root, s, v, name, fuel);
        CleanMeaning(other, root, arg, v.m[name], fuel);
      }
    }
  }

  lemma {:induction false} EvaluatedKept(other: Assertion, root: Json, s: Json, v: Json, name: Text, fuel: nat)
    requires s.JObj?
    ensures Evaluated(other, Clean(root), Clean(s), v, name, fuel) <==> Evaluated(other, root, s, v, name, fuel)
    decreases fuel, s, 3
  {
    EvaluatedStays(other, root, s, v, name, fuel);
    EvaluatedBefore(other, root, s, v, name, fuel);
  }

  lemma {:induction false} EvaluatedStays(other: Assertion, root: Json, s: Json, v: Json, name: Text, fuel: nat)
    requires s.JObj?
    ensures Evaluated(other, root, s, v, name, fuel) ==> Evaluated(other, Clean(root), Clean(s), v, name, fuel)
    decreases fuel, s, 2
  {
    if Evaluated(other, root, s, v, name, fuel) {
      var key := EvaluatedWhere(other, root, s, v, name, fuel);
      EvaluatedAtKept(other, root, s, key, v, name, fuel);
      EvaluatedThere(other, Clean(root), Clean(s), key, v, name, fuel);
    }
  }

  lemma {:induction false} EvaluatedBefore(other: Assertion, root: Json, s: Json, v: Json, name: Text, fuel: nat)
    requires s.JObj?
    ensures Evaluated(other, Clean(root), Clean(s), v, name, fuel) ==> Evaluated(other, root, s, v, name, fuel)
    decreases fuel, s, 2
  {
    if Evaluated(other, Clean(root), Clean(s), v, name, fuel) {
      var key := EvaluatedWhere(other, Clean(root), Clean(s), v, name, fuel);
      CleanKeys(s);
      EvaluatedAtKept(other, root, s, key, v, name, fuel);
      EvaluatedThere(other, root, s, key, v, name, fuel);
    }
  }

  const EVALUATORS := {Properties, AdditionalProperties, AnyOf, AllOf, OneOf, Ref}

  lemma EvaluatedWhere(other: Assertion, root: Json, s: Json, v: Json, name: Text, fuel: nat) returns (key: Text)
    requires s.JObj? && Evaluated(other, root, s, v, name, fuel)
    ensures key in s.m && key in EVALUATORS && EvaluatedAt(other, root, s, key, v, name, fuel)
  {
    key :| key in s.m && EvaluatedAt(other, root, s, key, v, name, fuel);
  }

  lemma EvaluatedByNone(other: Assertion, root: Json, s: Json, v: Json, name: Text, fuel: nat)
    requires s.JObj? && Declared(s.m) == {} && forall key | key in s.m && key in EVALUATORS :: key == Properties
    ensures !Evaluated(other, root, s, v, name, fuel)
  {
    forall key | key in s.m ensures !EvaluatedAt(other, root, s, key, v, name, fuel) {}
  }

  lemma EvaluatedThere(other: Assertion, root: Json, s: Json, key: Text, v: Json, name: Text, fuel: nat)
    requires s.JObj? && key in s.m && EvaluatedAt(other, root, s, key, v, name, fuel)
    ensures Evaluated(other, root, s, v, name, fuel)
  {}

  /** One case for each keyword that looks at properties. */
  lemma {:induction false} EvaluatedAtKept(other: Assertion, root: Json, s: Json, key: Text, v: Json, name: Text,
                                           fuel: nat)
    requires s.JObj? && key in s.m && key in EVALUATORS
    ensures key in Clean(s).m
    ensures EvaluatedAt(other, Clean(root), Clean(s), key, v, name, fuel)
      <==> EvaluatedAt(other, root, s, key, v, name, fuel)
    decreases fuel, s, 1
  {
    CleanKeys(s);
    if key == Properties {
      SameDeclared(s);
      DeclaredAgrees(other, Clean(root), root, Clean(s), s, v, name, fuel);
    } else if key == Ref {
      EvaluatedReferenceKept(other, root, s, v, name, fuel);
    } else if key != AdditionalProperties {
      EvaluatedUnionKept(other, root, s, key, v, name, fuel);
    } else {
      AdditionalEvaluates(other, root, s, v, name, fuel);
      AdditionalEvaluates(other, Clean(root), Clean(s), v, name, fuel);
    }
  }

  lemma {:induction false} EvaluatedReferenceKept(other: Assertion, root: Json, s: Json, v: Json, name: Text,
                                                  fuel: nat)
    requires s.JObj? && Ref in s.m && Ref in Clean(s).m
    ensures EvaluatedAt(other, Clean(root), Clean(s), Ref, v, name, fuel)
      <==> EvaluatedAt(other, root, s, Ref, v, name, fuel)
    decreases fuel, s, 0
  {
    CleanAt(s, Ref);
    ThroughKept(other, root, s.m[Ref], v, name, fuel);
    EvaluatedThroughAgrees(other, Clean(root), root, Clean(s), s, v, name, fuel);
  }

  lemma {:induction false} EvaluatedUnionKept(other: Assertion, root: Json, s: Json, key: Text, v: Json, name: Text,
                                              fuel: nat)
    requires s.JObj? && key in s.m && key in Clean(s).m && (key == AnyOf || key == AllOf || key == OneOf)
    ensures EvaluatedAt(other, Clean(root), Clean(s), key, v, name, fuel)
      <==> EvaluatedAt(other, root, s, key, v, name, fuel)
    decreases fuel, s, 0
  {
    CleanUnion(s, key);
    AmongKept(other, root, s.m[key], v, name, fuel);
    EvaluatedAmongIs(other, root, s, key, v, name, fuel);
    EvaluatedAmongIs(other, Clean(root), Clean(s), key, v, name, fuel);
  }

  lemma AdditionalEvaluates(other: Assertion, root: Json, s: Json, v: Json, name: Text, fuel: nat)
    requires s.JObj? && AdditionalProperties in s.m
    ensures EvaluatedAt(other, root, s, AdditionalProperties, v, name, fuel)
  {}

  lemma DeclaredAgrees(other: Assertion, root: Json, root': Json, s: Json, s': Json, v: Json, name: Text, fuel: nat)
    requires s.JObj? && s'.JObj? && Properties in s.m && Properties in s'.m && Declared(s.m) == Declared(s'.m)
    ensures EvaluatedAt(other, root, s, Properties, v, name, fuel)
      <==> EvaluatedAt(other, root', s', Properties, v, name, fuel)
  {}

  lemma CleanUnion(s: Json, key: Text)
    requires s.JObj? && key in s.m && (key == AnyOf || key == AllOf || key == OneOf)
    ensures key in Clean(s).m && Clean(s).m[key] == CleanBranches(s.m[key])
  {
    CleanAt(s, key);
  }

  lemma EvaluatedAmongIs(other: Assertion, root: Json, s: Json, key: Text, v: Json, name: Text, fuel: nat)
    requires s.JObj? && key in s.m && (key == AnyOf || key == AllOf || key == OneOf)
    ensures EvaluatedAt(other, root, s, key, v, name, fuel)
      <==> EvaluatedAmong(other, root, s.m[key], v, name, fuel)
  {}

  lemma EvaluatedThroughAgrees(other: Assertion, root: Json, root': Json, s: Json, s': Json, v: Json, name: Text,
                               fuel: nat)
    requires s.JObj? && s'.JObj? && Ref in s.m && Ref in s'.m
    requires EvaluatedThrough(other, root, s.m[Ref], v, name, fuel)
      <==> EvaluatedThrough(other, root', s'.m[Ref], v, name, fuel)
    ensures EvaluatedAt(other, root, s, Ref, v, name, fuel) <==> EvaluatedAt(other, root', s', Ref, v, name, fuel)
  {}

  lemma {:induction false} AmongKept(other: Assertion, root: Json, branches: Json, v: Json, name: Text, fuel: nat)
    ensures EvaluatedAmong(other, Clean(root), CleanBranches(branches), v, name, fuel)
      <==> EvaluatedAmong(other, root, branches, v, name, fuel)
    decreases fuel, branches, 6
  {
    if branches.JArr? {
      var n := CleanBranches(branches);
      forall i | 0 <= i < |branches.a|
        ensures EvaluatedBy(other, Clean(root), n.a[i], v, name, fuel)
          <==> EvaluatedBy(other, root, branches.a[i], v, name, fuel)
      {
        EvaluatedByKept(other, root, branches.a[i], v, name, fuel);
      }
    }
  }

  lemma {:induction false} ThroughKept(other: Assertion, root: Json, ref: Json, v: Json, name: Text, fuel: nat)
    ensures EvaluatedThrough(other, Clean(root), ref, v, name, fuel)
      <==> EvaluatedThrough(other, root, ref, v, name, fuel)
    decreases fuel, ref, 6
  {
    ResolveKept(root, ref);
    if fuel > 0 && Resolve(root, ref).Some? {
      EvaluatedByKept(other, root, Resolve(root, ref).value, v, name, fuel - 1);
    }
  }

  lemma {:induction false} EvaluatedByKept(other: Assertion, root: Json, s: Json, v: Json, name: Text, fuel: nat)
    ensures EvaluatedBy(other, Clean(root), Clean(s), v, name, fuel) <==> EvaluatedBy(other, root, s, v, name, fuel)
    decreases fuel, s, 7
  {
    if s.JObj? {
      CleanMeaning(other, root, s, v, fuel);
      EvaluatedKept(other, root, s, v, name, fuel);
    }
  }

  lemma {:induction false} ItemsKept(other: Assertion, root: Json, s: Json, v: Json, fuel: nat)
    requires s.JObj? && Items in s.m
    ensures Holds(other, Clean(root), Clean(s), Items, v, fuel) <==> Holds(other, root, s, Items, v, fuel)
    decreases fuel, s, 0
  {
    var arg := s.m[Items];
    if v.JArr? {
      forall i | 0 <= i < |v.a|
        ensures Valid(other, Clean(root), Clean(arg), v.a[i], fuel) <==> Valid(other, root, arg, v.a[i], fuel)
      {
        CleanMeaning(other, root, arg, v.a[i], fuel);
      }
    }
  }

  lemma {:induction false} UnionKept(other: Assertion, root: Json, s: Json, key: Text, v: Json, fuel: nat)
    requires s.JObj? && key in s.m
    requires key == AnyOf || key == AllOf || key == OneOf
    ensures Holds(other, Clean(root), Clean(s), key, v, fuel) <==> Holds(other, root, s, key, v, fuel)
    decreases fuel, s, 0
  {
    var x, y := s.m[key], CleanArgument(key, s.m[key]);
    CleanAt(s, key);
    assert y == CleanBranches(x);
    UnionIs(other, root, s, key, v, fuel);
    UnionIs(other, Clean(root), Clean(s), key, v, fuel);
    if x.JArr? {
      BranchesKept(other, root, x, v, fuel);
      if UnionHolds(other, root, key, x, v, fuel) {
        UnionImplies(other, root, Clean(root), x, y, key, v, fuel);
      } else if UnionHolds(other, Clean(root), key, y, v, fuel) {
        UnionImplies(other, Clean(root), root, y, x, key, v, fuel);
      }
    }
  }

  lemma UnionIs(other: Assertion, root: Json, s: Json, key: Text, v: Json, fuel: nat)
    requires s.JObj? && key in s.m && (key == AnyOf || key == AllOf || key == OneOf)
    ensures Holds(other, root, s, key, v, fuel) <==> s.m[key].JArr? && UnionHolds(other, root, key, s.m[key], v, fuel)
  {}

  lemma {:induction false} BranchesKept(other: Assertion, root: Json, branches: Json, v: Json, fuel: nat)
    requires branches.JArr?
    ensures SameBranches(other, root, Clean(root), branches, CleanBranches(branches), v, fuel)
    ensures SameBranches(other, Clean(root), root, CleanBranches(branches), branches, v, fuel)
    decreases fuel, branches, 3
  {
    var n := CleanBranches(branches);
    forall i | 0 <= i < |branches.a|
      ensures Valid(other, Clean(root), n.a[i], v, fuel) == Valid(other, root, branches.a[i], v, fuel)
    {
      CleanMeaning(other, root, branches.a[i], v, fuel);
    }
  }

  lemma {:induction false} ReferenceKept(other: Assertion, root: Json, s: Json, v: Json, fuel: nat)
    requires s.JObj? && Ref in s.m
    ensures Holds(other, Clean(root), Clean(s), Ref, v, fuel) <==> Holds(other, root, s, Ref, v, fuel)
    decreases fuel, s, 0
  {
    var arg := s.m[Ref];
    ResolveKept(root, arg);
    if fuel > 0 && Resolve(root, arg).Some? {
      CleanMeaning(other, root, Resolve(root, arg).value, v, fuel - 1);
    }
    CleanAt(s, Ref);
    ReferenceAgrees(other, Clean(root), root, Clean(s), s, v, fuel);
  }

  lemma SameDeclared(s: Json)
    requires s.JObj?
    ensures Declared(Clean(s).m) == Declared(s.m)
  {
    if Properties in s.m {
      if s.m[Properties].JObj? { assert CleanArgument(Properties, s.m[Properties]).m.Keys == s.m[Properties].m.Keys; }
    }
  }

  lemma ResolveKept(root: Json, ref: Json)
    ensures Resolve(Clean(root), ref).Some? <==> Resolve(root, ref).Some?
    ensures Resolve(root, ref).Some? ==>
      Resolve(Clean(root), ref).value == Clean(Resolve(root, ref).value)
  {
  }
}
