/**
 What acceptance by the checker means for retained clients: whatever the changed
 service emits still decodes under the original schema.
 */
module SchemaSoundness {
  import opened Common
  import opened Schemas
  import opened SchemaOrder
  import opened Validator

  /** The constant a schema object pins property `p` to, if it does. */
  function Pinned(s: Json, p: Text): Option<Json> {
    if s.JObj? && Properties in s.m && s.m[Properties].JObj? && p in s.m[Properties].m
       && s.m[Properties].m[p].JObj? && Const in s.m[Properties].m[p].m
    then Some(s.m[Properties].m[p].m[Const]) else None
  }

  /** Two variants of a tagged union no instance can satisfy together: they pin the
      whole value, or a property the first one requires, to different constants. */
  predicate Apart(x: Json, y: Json) {
    && x.JObj? && y.JObj?
    && (|| (Const in x.m && Const in y.m && x.m[Const] != y.m[Const])
        || (&& Type in x.m && x.m[Type] == JStr(ObjectType)
            && exists p | p in RequiredNames(x.m) ::
                 Pinned(x, p).Some? && Pinned(y, p).Some? && Pinned(x, p) != Pinned(y, p)))
  }

  /** The schemas covered: positive applicators, unions with disjoint tags, references that
      resolve inside the document, and keywords that stand alone. */
  predicate WellFormed(root: Json, s: Json)
    decreases s, 1
  {
    match s
    case JBool(_) => true
    case JObj(m) => forall key | key in m :: WellFormedAt(root, s, key)
    case _ => false
  }

  predicate WellFormedAt(root: Json, s: Json, key: Text)
    requires s.JObj? && key in s.m
    decreases s, 0
  {
    var arg := s.m[key];
    match key
    case Properties => arg.JObj? && forall name | name in arg.m :: WellFormed(root, arg.m[name])
    case Defs => arg.JObj? && forall name | name in arg.m :: WellFormed(root, arg.m[name])
    case Items => WellFormed(root, arg)
    case AdditionalProperties => WellFormed(root, arg)
    case AnyOf => arg.JArr? && forall i | 0 <= i < |arg.a| :: WellFormed(root, arg.a[i])
    case AllOf => arg.JArr? && forall i | 0 <= i < |arg.a| :: WellFormed(root, arg.a[i])
    case OneOf =>
      && arg.JArr? && (forall i | 0 <= i < |arg.a| :: WellFormed(root, arg.a[i]))
      && forall i, j | 0 <= i < j < |arg.a| :: Apart(arg.a[i], arg.a[j]) || Apart(arg.a[j], arg.a[i])
    case Ref => Resolve(root, arg).Some?
    case Not => false
    case _ => StandsAlone(key) && !arg.JObj?
  }

  /** Where properties were added, the original `additionalProperties` is absent or
      a truth value. */
  predicate SafeExtension(before: Json, after: Json)
    decreases before, 1
  {
    before.JObj? && after.JObj? ==>
      forall key | key in before.m && key in after.m :: SafeExtensionAt(before, after, key)
  }

  predicate SafeExtensionAt(before: Json, after: Json, key: Text)
    requires before.JObj? && after.JObj? && key in before.m && key in after.m
    decreases before, 0
  {
    var x, y := before.m[key], after.m[key];
    if key == Properties || key == Defs then
      x.JObj? && y.JObj? ==>
        && (key == Properties && y.m.Keys - x.m.Keys != {} ==>
              AdditionalProperties in before.m ==> before.m[AdditionalProperties].JBool?)
        && forall name | name in x.m && name in y.m :: SafeExtension(x.m[name], y.m[name])
    else
      SafeExtension(x, y)
  }

  /** A pair of schemas, at one place of the two documents, that the argument covers. */
  predicate Covered(oldRoot: Json, before: Json, after: Json) {
    && OutputCompatible(before, after) && WellFormed(oldRoot, before)
    && SafeExtension(before, after) && Aligned(before, after)
  }

  lemma {:induction false} SafeExtensionReflexive(s: Json)
    ensures SafeExtension(s, s)
    decreases s
  {
    if s.JObj? {
      forall key | key in s.m ensures SafeExtensionAt(s, s, key) {
        var x := s.m[key];
        if (key == Properties || key == Defs) && x.JObj? {
          assert x.m.Keys - x.m.Keys == {};
          forall name | name in x.m ensures SafeExtension(x.m[name], x.m[name]) { SafeExtensionReflexive(x.m[name]); }
        } else {
          SafeExtensionReflexive(x);
        }
      }
    }
  }

  lemma {:induction false} WellFormedIsTabular(root: Json, s: Json)
    requires WellFormed(root, s)
    ensures Tabular(s)
    decreases s
  {
    if s.JObj? {
      forall key | key in s.m ensures TabularAt(s, key) {
        assert WellFormedAt(root, s, key);
        var x := s.m[key];
        if key == Properties || key == Defs {
          forall name | name in x.m ensures Tabular(x.m[name]) { WellFormedIsTabular(root, x.m[name]); }
        } else if x.JObj? {
          WellFormedIsTabular(root, x);
        }
      }
    }
  }

  lemma ApartExcludes(other: Assertion, root: Json, x: Json, y: Json, v: Json, fuel: nat)
    requires Apart(x, y)
    ensures !(Valid(other, root, x, v, fuel) && Valid(other, root, y, v, fuel))
  {
    if Const in x.m && Const in y.m && x.m[Const] != y.m[Const] {
      assert Holds(other, root, x, Const, v, fuel) <==> v == x.m[Const];
      assert Holds(other, root, y, Const, v, fuel) <==> v == y.m[Const];
    } else {
      var p :| p in RequiredNames(x.m)
        && Pinned(x, p).Some? && Pinned(y, p).Some? && Pinned(x, p) != Pinned(y, p);
      if Valid(other, root, x, v, fuel) {
        RequiredIsPresent(other, root, x, p, v, fuel);
        PinnedIsConstant(other, root, x, p, v, fuel);
        if Valid(other, root, y, v, fuel) {
          PinnedIsConstant(other, root, y, p, v, fuel);
        }
      }
    }
  }

  lemma RequiredIsPresent(other: Assertion, root: Json, s: Json, p: Text, v: Json, fuel: nat)
    requires s.JObj? && Type in s.m && s.m[Type] == JStr(ObjectType) && p in RequiredNames(s.m)
    requires Valid(other, root, s, v, fuel)
    ensures v.JObj? && p in v.m
  {
    assert Holds(other, root, s, Type, v, fuel) && Holds(other, root, s, Required, v, fuel);
  }

  lemma PinnedIsConstant(other: Assertion, root: Json, s: Json, p: Text, v: Json, fuel: nat)
    requires Pinned(s, p).Some? && v.JObj? && p in v.m && Valid(other, root, s, v, fuel)
    ensures Pinned(s, p) == Some(v.m[p])
  {
    assert Holds(other, root, s, Properties, v, fuel);
    assert Holds(other, root, s.m[Properties].m[p], Const, v.m[p], fuel);
  }

  lemma CoveredTable(root: Json, before: Json, after: Json, key: Text)
    requires Covered(root, before, after) && before.JObj? && key in before.m && (key == Properties || key == Defs)
    ensures after.JObj? && key in after.m && before.m[key].JObj? && after.m[key].JObj?
    ensures forall name | name in before.m[key].m ::
      name in after.m[key].m && Covered(root, before.m[key].m[name], after.m[key].m[name])
  {
    assert KeyCompatible(before, after, key) && WellFormedAt(root, before, key);
    assert SafeExtensionAt(before, after, key) && Aligned(before.m[key], after.m[key]);
  }

  lemma CoveredSchema(root: Json, before: Json, after: Json, key: Text)
    requires Covered(root, before, after) && before.JObj? && key in before.m
    requires key == Items || key == AdditionalProperties
    ensures after.JObj? && key in after.m && Covered(root, before.m[key], after.m[key])
  {
    assert KeyCompatible(before, after, key) && WellFormedAt(root, before, key);
    assert SafeExtensionAt(before, after, key) && Aligned(before.m[key], after.m[key]);
  }

  lemma CoveredLeaf(root: Json, before: Json, after: Json, key: Text)
    requires Covered(root, before, after) && before.JObj? && key in before.m
    requires key !in {Properties, Defs, Items, AdditionalProperties}
    ensures after.JObj? && key in after.m && before.m[key] == after.m[key]
  {
    assert KeyCompatible(before, after, key) && WellFormedAt(root, before, key);
    assert Aligned(before.m[key], after.m[key]);
    PyEqIsEquality(before.m[key], after.m[key]);
  }

  lemma CoveredReflexive(root: Json, s: Json)
    requires WellFormed(root, s)
    ensures Covered(root, s, s)
  {
    WellFormedIsTabular(root, s);
    AlignedReflexive(s);
    PyEqIsEquality(s, s);
    MutualCompatibility(s, s);
    SafeExtensionReflexive(s);
  }

  lemma CoveredReference(oldRoot: Json, newRoot: Json, ref: Json)
    requires Covered(oldRoot, oldRoot, newRoot) && Resolve(oldRoot, ref).Some?
    ensures Resolve(newRoot, ref).Some?
    ensures Covered(oldRoot, Resolve(oldRoot, ref).value, Resolve(newRoot, ref).value)
  {
    if ref.t.RefTo? { CoveredTable(oldRoot, oldRoot, newRoot, Defs); }
  }

  /** A property that only the new schema declares was open in the old one. */
  lemma NewlyDeclared(root: Json, before: Json, after: Json, name: Text)
    requires Covered(root, before, after) && before.JObj? && after.JObj?
    requires name in Declared(after.m) && name !in Declared(before.m)
    requires AdditionalProperties in before.m
    ensures before.m[AdditionalProperties] == JBool(true)
  {
    assert after.m.Keys - before.m.Keys - {Defs} == {};
    assert Properties !in after.m.Keys - before.m.Keys - {Defs};
    CoveredTable(root, before, after, Properties);
    assert KeyCompatible(before, after, Properties) && SafeExtensionAt(before, after, Properties);
    assert name in after.m[Properties].m.Keys - before.m[Properties].m.Keys;
  }

  /** Accepted changes only narrow a schema, wherever it stands in the documents and
      however deep references are followed. */
  lemma {:induction false} Narrows(other: Assertion, oldRoot: Json, newRoot: Json, before: Json, after: Json,
                                   v: Json, newFuel: nat, oldFuel: nat)
    requires newFuel <= oldFuel && Covered(oldRoot, oldRoot, newRoot) && Covered(oldRoot, before, after)
    requires Valid(other, newRoot, after, v, newFuel)
    ensures Valid(other, oldRoot, before, v, oldFuel)
    decreases newFuel, before, 2
  {
    if before.JObj? && after.JObj? {
      forall key | key in before.m ensures Holds(other, oldRoot, before, key, v, oldFuel) {
        NarrowsAt(other, oldRoot, newRoot, before, after, key, v, newFuel, oldFuel);
      }
    } else {
      PyEqIsEquality(before, after);
    }
  }

  lemma {:induction false} NarrowsAt(other: Assertion, oldRoot: Json, newRoot: Json, before: Json, after: Json,
                                     key: Text, v: Json, newFuel: nat, oldFuel: nat)
    requires newFuel <= oldFuel && Covered(oldRoot, oldRoot, newRoot) && Covered(oldRoot, before, after)
    requires before.JObj? && after.JObj? && key in before.m && Valid(other, newRoot, after, v, newFuel)
    ensures Holds(other, oldRoot, before, key, v, oldFuel)
    decreases newFuel, before, 1
  {
    if key == Properties || key == Defs {
      CoveredTable(oldRoot, before, after, key);
      if v.JObj? && key == Properties {
        assert Holds(other, newRoot, after, key, v, newFuel);
        forall name | name in before.m[key].m && name in v.m
          ensures Valid(other, oldRoot, before.m[key].m[name], v.m[name], oldFuel)
        {
          Narrows(other, oldRoot, newRoot, before.m[key].m[name], after.m[key].m[name], v.m[name], newFuel, oldFuel);
        }
      }
    } else if key == Items {
      CoveredSchema(oldRoot, before, after, key);
      assert Holds(other, newRoot, after, key, v, newFuel);
      if v.JArr? {
        forall i | 0 <= i < |v.a| ensures Valid(other, oldRoot, before.m[key], v.a[i], oldFuel) {
          Narrows(other, oldRoot, newRoot, before.m[key], after.m[key], v.a[i], newFuel, oldFuel);
        }
      }
    } else if key == AdditionalProperties {
      NarrowsAdditional(other, oldRoot, newRoot, before, after, v, newFuel, oldFuel);
    } else {
      CoveredLeaf(oldRoot, before, after, key);
      assert Holds(other, newRoot, after, key, v, newFuel) && WellFormedAt(oldRoot, before, key);
      NarrowsLeaf(other, oldRoot, newRoot, before, after, key, v, newFuel, oldFuel);
    }
  }

  lemma {:induction false} NarrowsAdditional(other: Assertion, oldRoot: Json, newRoot: Json, before: Json, after: Json,
                                             v: Json, newFuel: nat, oldFuel: nat)
    requires newFuel <= oldFuel && Covered(oldRoot, oldRoot, newRoot) && Covered(oldRoot, before, after)
    requires before.JObj? && after.JObj? && AdditionalProperties in before.m
    requires Valid(other, newRoot, after, v, newFuel)
    ensures Holds(other, oldRoot, before, AdditionalProperties, v, oldFuel)
    decreases newFuel, before, 0
  {
    CoveredSchema(oldRoot, before, after, AdditionalProperties);
    assert Holds(other, newRoot, after, AdditionalProperties, v, newFuel);
    if v.JObj? {
      forall name | name in v.m && name !in Declared(before.m)
        ensures Valid(other, oldRoot, before.m[AdditionalProperties], v.m[name], oldFuel)
      {
        if name in Declared(after.m) {
          NewlyDeclared(oldRoot, before, after, name);
        } else {
          Narrows(other, oldRoot, newRoot, before.m[AdditionalProperties], after.m[AdditionalProperties],
                  v.m[name], newFuel, oldFuel);
        }
      }
    }
  }

  /** Everything else is spelled the same in both documents; only what references
      inside it mean may have narrowed. */
  lemma {:induction false} NarrowsLeaf(other: Assertion, oldRoot: Json, newRoot: Json, before: Json, after: Json,
                                       key: Text, v: Json, newFuel: nat, oldFuel: nat)
    requires newFuel <= oldFuel && Covered(oldRoot, oldRoot, newRoot)
    requires before.JObj? && after.JObj? && key in before.m && key in after.m && before.m[key] == after.m[key]
    requires key !in {Properties, Defs, Items, AdditionalProperties}
    requires WellFormedAt(oldRoot, before, key) && Holds(other, newRoot, after, key, v, newFuel)
    ensures Holds(other, oldRoot, before, key, v, oldFuel)
    decreases newFuel, before, 0
  {
    var arg := before.m[key];
    if key == Ref {
      CoveredReference(oldRoot, newRoot, arg);
      Narrows(other, oldRoot, newRoot, Resolve(oldRoot, arg).value, Resolve(newRoot, arg).value, v, newFuel - 1,
              oldFuel - 1);
    } else if key == AnyOf || key == AllOf || key == OneOf {
      forall i | 0 <= i < |arg.a|
        ensures Valid(other, newRoot, arg.a[i], v, newFuel) ==> Valid(other, oldRoot, arg.a[i], v, oldFuel)
      {
        if Valid(other, newRoot, arg.a[i], v, newFuel) {
          CoveredReflexive(oldRoot, arg.a[i]);
          Narrows(other, oldRoot, newRoot, arg.a[i], arg.a[i], v, newFuel, oldFuel);
        }
      }
      assert UnionHolds(other, newRoot, key, arg, v, newFuel);
      if key == OneOf {
        var i :| 0 <= i < |arg.a| && OnlyBranch(other, newRoot, arg, i, v, newFuel);
        forall j | 0 <= j < |arg.a| && j != i ensures !Valid(other, oldRoot, arg.a[j], v, oldFuel) {
          if Apart(arg.a[i], arg.a[j]) {
            ApartExcludes(other, oldRoot, arg.a[i], arg.a[j], v, oldFuel);
          } else {
            ApartExcludes(other, oldRoot, arg.a[j], arg.a[i], v, oldFuel);
          }
        }
        assert OnlyBranch(other, oldRoot, arg, i, v, oldFuel);
      }
      assert UnionHolds(other, oldRoot, key, arg, v, oldFuel);
    }
  }
}
