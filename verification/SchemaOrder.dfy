/**
 The relation decided by `output_compatible` is a partial order up to Python
 equality, and `schema` is a projection.
 */
module SchemaOrder {
  import opened Schemas

  /** `properties` and `$defs` hold objects wherever the checker reads them as
      tables of names. */
  predicate Tabular(s: Json)
    decreases s, 1
  {
    s.JObj? ==> forall key | key in s.m :: TabularAt(s, key)
  }

  predicate TabularAt(s: Json, key: Text)
    requires s.JObj? && key in s.m
    decreases s, 0
  {
    if key == Properties || key == Defs
    then s.m[key].JObj? && forall name | name in s.m[key].m :: Tabular(s.m[key].m[name])
    else Tabular(s.m[key])
  }

  /** No truth value stands where the other document has a number, the one place
      where Python's equality is coarser than JSON's. */
  predicate Aligned(before: Json, after: Json)
    decreases before, 1
  {
    match (before, after)
    case (JBool(_), JNum(_)) => false
    case (JNum(_), JBool(_)) => false
    case (JArr(x), JArr(y)) => forall i | 0 <= i < |x| && i < |y| :: Aligned(x[i], y[i])
    case (JObj(x), JObj(y)) => forall key | key in x && key in y :: Aligned(x[key], y[key])
    case _ => true
  }

  lemma {:induction false} AlignedReflexive(a: Json)
    ensures Aligned(a, a)
    decreases a
  {
    if a.JObj? {
      forall key | key in a.m ensures Aligned(a.m[key], a.m[key]) { AlignedReflexive(a.m[key]); }
    } else if a.JArr? {
      forall i | 0 <= i < |a.a| ensures Aligned(a.a[i], a.a[i]) { AlignedReflexive(a.a[i]); }
    }
  }

  /** Python equality is JSON equality exactly when no truth value meets a number. */
  lemma {:induction false} PyEqIsEquality(a: Json, b: Json)
    ensures a == b <==> PyEq(a, b) && Aligned(a, b)
    decreases a
  {
    if a.JObj? && b.JObj? {
      forall key | key in a.m && key in b.m
        ensures a.m[key] == b.m[key] <==> PyEq(a.m[key], b.m[key]) && Aligned(a.m[key], b.m[key])
      { PyEqIsEquality(a.m[key], b.m[key]); }
      if a == b { AlignedReflexive(a); }
      if PyEq(a, b) && Aligned(a, b) { assert a.m == b.m; }
    } else if a.JArr? && b.JArr? {
      forall i | 0 <= i < |a.a| && i < |b.a|
        ensures a.a[i] == b.a[i] <==> PyEq(a.a[i], b.a[i]) && Aligned(a.a[i], b.a[i])
      { PyEqIsEquality(a.a[i], b.a[i]); }
      if PyEq(a, b) && Aligned(a, b) { assert a.a == b.a; }
    }
  }

  lemma {:induction false} PyEqSymmetric(a: Json, b: Json)
    requires PyEq(a, b)
    ensures PyEq(b, a)
    decreases a
  {
    if a.JObj? {
      forall key | key in a.m ensures PyEq(b.m[key], a.m[key]) { PyEqSymmetric(a.m[key], b.m[key]); }
    } else if a.JArr? {
      forall i | 0 <= i < |a.a| ensures PyEq(b.a[i], a.a[i]) { PyEqSymmetric(a.a[i], b.a[i]); }
    }
  }

  lemma {:induction false} PyEqTransitive(a: Json, b: Json, c: Json)
    requires PyEq(a, b) && PyEq(b, c)
    ensures PyEq(a, c)
    decreases a
  {
    if a.JObj? {
      forall key | key in a.m ensures PyEq(a.m[key], c.m[key]) { PyEqTransitive(a.m[key], b.m[key], c.m[key]); }
    } else if a.JArr? {
      forall i | 0 <= i < |a.a| ensures PyEq(a.a[i], c.a[i]) { PyEqTransitive(a.a[i], b.a[i], c.a[i]); }
    }
  }

  /** Two schemas are each compatible with the other exactly when Python calls them
      equal and the checker can read them: reflexivity and antisymmetry in one. */
  lemma {:induction false} MutualCompatibility(a: Json, b: Json)
    ensures OutputCompatible(a, b) && OutputCompatible(b, a) <==> PyEq(a, b) && Tabular(a) && Tabular(b)
    decreases a
  {
    if a.JObj? && b.JObj? {
      if a.m.Keys == b.m.Keys {
        forall key | key in a.m { MutualKey(a, b, key); }
      }
    } else {
      if PyEq(a, b) { PyEqSymmetric(a, b); }
    }
  }

  lemma {:induction false} MutualKey(a: Json, b: Json, key: Text)
    requires a.JObj? && b.JObj? && key in a.m && key in b.m
    ensures KeyCompatible(a, b, key) && KeyCompatible(b, a, key)
      <==> PyEq(a.m[key], b.m[key]) && TabularAt(a, key) && TabularAt(b, key)
    decreases a, 0
  {
    var x, y := a.m[key], b.m[key];
    if key == Properties || key == Defs {
      if x.JObj? && y.JObj? {
        forall name | name in x.m && name in y.m
          ensures OutputCompatible(x.m[name], y.m[name]) && OutputCompatible(y.m[name], x.m[name])
            <==> PyEq(x.m[name], y.m[name]) && Tabular(x.m[name]) && Tabular(y.m[name])
        { MutualCompatibility(x.m[name], y.m[name]); }
        if KeyCompatible(a, b, key) && KeyCompatible(b, a, key) {
          assert x.m.Keys == y.m.Keys;
        }
        if PyEq(x, y) && TabularAt(a, key) && TabularAt(b, key) {
          assert y.m.Keys - x.m.Keys == {};
          assert x.m.Keys - y.m.Keys == {};
        }
      }
    } else {
      MutualCompatibility(x, y);
    }
  }

  /** No closed object of the first document is spelled open in the second: where `false`
      forbids additional properties, it is not replaced by the number that equals it. */
  predicate StaysClosed(a: Json, b: Json)
    decreases a, 1
  {
    a.JObj? && b.JObj? ==> forall key | key in a.m && key in b.m :: StaysClosedAt(a, b, key)
  }

  predicate StaysClosedAt(a: Json, b: Json, key: Text)
    requires a.JObj? && b.JObj? && key in a.m && key in b.m
    decreases a, 0
  {
    var x, y := a.m[key], b.m[key];
    if key == Properties || key == Defs then
      x.JObj? && y.JObj? ==>
        && (key == Properties && IsClosed(a) ==> IsClosed(b))
        && forall name | name in x.m && name in y.m :: StaysClosed(x.m[name], y.m[name])
    else
      StaysClosed(x, y)
  }

  predicate IsClosed(s: Json)
    requires s.JObj?
  {
    AdditionalProperties in s.m && s.m[AdditionalProperties] == JBool(false)
  }

  lemma {:induction false} AlignedStaysClosed(a: Json, b: Json)
    requires OutputCompatible(a, b) && Aligned(a, b)
    ensures StaysClosed(a, b)
    decreases a
  {
    if a.JObj? && b.JObj? {
      forall key | key in a.m ensures StaysClosedAt(a, b, key) {
        assert KeyCompatible(a, b, key);
        var x, y := a.m[key], b.m[key];
        if key == Properties || key == Defs {
          if IsClosed(a) { assert KeyCompatible(a, b, AdditionalProperties); }
          forall name | name in x.m ensures StaysClosed(x.m[name], y.m[name]) {
            AlignedStaysClosed(x.m[name], y.m[name]);
          }
        } else {
          AlignedStaysClosed(x, y);
        }
      }
    }
  }

  /** Accepted changes compose as long as the first one leaves closed objects closed. */
  lemma {:induction false} Transitive(a: Json, b: Json, c: Json)
    requires OutputCompatible(a, b) && OutputCompatible(b, c)
    requires StaysClosed(a, b)
    ensures OutputCompatible(a, c)
    decreases a
  {
    if a.JObj? && b.JObj? && c.JObj? {
      forall key | key in a.m ensures key in c.m && KeyCompatible(a, c, key) { TransitiveKey(a, b, c, key); }
    } else {
      PyEqTransitive(a, b, c);
    }
  }

  lemma {:induction false} TransitiveKey(a: Json, b: Json, c: Json, key: Text)
    requires a.JObj? && b.JObj? && c.JObj? && key in a.m
    requires OutputCompatible(a, b) && OutputCompatible(b, c) && StaysClosed(a, b)
    ensures key in c.m && KeyCompatible(a, c, key)
    decreases a, 0
  {
    assert key in b.m && KeyCompatible(a, b, key) && key in c.m && KeyCompatible(b, c, key);
    assert StaysClosedAt(a, b, key);
    var x, y, z := a.m[key], b.m[key], c.m[key];
    if key == Properties || key == Defs {
      forall name | name in x.m ensures name in z.m && OutputCompatible(x.m[name], z.m[name]) {
        Transitive(x.m[name], y.m[name], z.m[name]);
      }
      if key == Properties && z.m.Keys - x.m.Keys != {} {
        assert z.m.Keys - x.m.Keys == (z.m.Keys - y.m.Keys) + (y.m.Keys - x.m.Keys);
        SameRequired(b, c);
      }
    } else {
      Transitive(x, y, z);
    }
  }

  /** A document with a successor can be read as tables where the checker does so. */
  lemma {:induction false} SuccessorNeedsTables(b: Json, c: Json)
    requires OutputCompatible(b, c)
    ensures Tabular(b)
    decreases b
  {
    if b.JObj? {
      forall key | key in b.m ensures TabularAt(b, key) {
        assert KeyCompatible(b, c, key);
        var x, y := b.m[key], c.m[key];
        if key == Properties || key == Defs {
          forall name | name in x.m ensures Tabular(x.m[name]) { SuccessorNeedsTables(x.m[name], y.m[name]); }
        } else {
          SuccessorNeedsTables(x, y);
        }
      }
    }
  }

  lemma {:induction false} LongerThanAll(names: set<Text>) returns (n: nat)
    ensures forall t | t in names && t.Name? :: |t.s| < n
    decreases |names|
  {
    if names == {} { return 0; }
    var t :| t in names;
    n := LongerThanAll(names - {t});
    if t.Name? && |t.s| >= n { n := |t.s| + 1; }
  }

  lemma FreshName(names: set<Text>) returns (t: Text)
    ensures t !in names && t.Name?
  {
    var n := LongerThanAll(names);
    t := Name(seq(n, i => 'x'));
  }

  /** Where a closed object has become open, an accepted extension of the second document
      breaks the first. */
  lemma {:induction false} OpenedBreaks(a: Json, b: Json) returns (c: Json)
    requires OutputCompatible(a, b) && Tabular(b) && !StaysClosed(a, b)
    ensures OutputCompatible(b, c) && !OutputCompatible(a, c)
    decreases a
  {
    var key :| key in a.m && key in b.m && !StaysClosedAt(a, b, key);
    assert KeyCompatible(a, b, key) && TabularAt(b, key);
    var x, y := a.m[key], b.m[key];
    if key == Properties && IsClosed(a) && !IsClosed(b) {
      var novel := FreshName(y.m.Keys + RequiredNames(b.m));
      c := Replaced(b, Properties, JObj(y.m[novel := JNull]));
      ExtendedProperties(a, b, novel);
    } else if key == Properties || key == Defs {
      var name :| name in x.m && name in y.m && !StaysClosed(x.m[name], y.m[name]);
      var inner := OpenedBreaks(x.m[name], y.m[name]);
      c := Replaced(b, key, JObj(y.m[name := inner]));
      ReplacedEntry(a, b, key, name, inner);
    } else {
      var inner := OpenedBreaks(x, y);
      c := Replaced(b, key, inner);
      ReplacedKeyword(a, b, key, inner);
    }
  }

  function Replaced(s: Json, key: Text, arg: Json): Json
    requires s.JObj?
  {
    JObj(s.m[key := arg])
  }

  /** A readable schema is compatible with itself. */
  lemma Reflexive(s: Json)
    requires Tabular(s)
    ensures OutputCompatible(s, s)
  {
    AlignedReflexive(s);
    PyEqIsEquality(s, s);
    MutualCompatibility(s, s);
  }

  lemma ExtendedProperties(a: Json, b: Json, novel: Text)
    requires a.JObj? && b.JObj? && Tabular(b) && OutputCompatible(a, b) && Properties in a.m && Properties in b.m
    requires a.m[Properties].JObj? && b.m[Properties].JObj? && IsClosed(a) && !IsClosed(b)
    requires novel !in b.m[Properties].m && novel !in RequiredNames(b.m)
    ensures
      var c := Replaced(b, Properties, JObj(b.m[Properties].m[novel := JNull]));
      OutputCompatible(b, c) && !OutputCompatible(a, c)
  {
    var y := b.m[Properties];
    var c := Replaced(b, Properties, JObj(y.m[novel := JNull]));
    assert RequiredNames(c.m) == RequiredNames(b.m);
    assert TabularAt(b, Properties);
    assert c.m[Properties].m.Keys - y.m.Keys == {novel};
    forall name | name in y.m ensures OutputCompatible(y.m[name], c.m[Properties].m[name]) { Reflexive(y.m[name]); }
    forall key | key in b.m ensures KeyCompatible(b, c, key) {
      if key != Properties { UnchangedKey(b, c, key); }
    }
    assert c.m.Keys - b.m.Keys - {Defs} == {};
    assert KeyCompatible(a, b, Properties);
    assert novel in c.m[Properties].m.Keys - a.m[Properties].m.Keys;
    assert !KeyCompatible(a, c, Properties);
  }

  /** A keyword with the same argument in two documents that require the same names. */
  lemma UnchangedKey(b: Json, c: Json, key: Text)
    requires b.JObj? && c.JObj? && Tabular(b) && key in b.m && key in c.m && c.m[key] == b.m[key]
    ensures KeyCompatible(b, c, key)
  {
    assert TabularAt(b, key);
    var x := b.m[key];
    if key == Properties || key == Defs {
      assert x.m.Keys - x.m.Keys == {};
      forall name | name in x.m ensures OutputCompatible(x.m[name], x.m[name]) { Reflexive(x.m[name]); }
    } else {
      Reflexive(x);
    }
  }

  lemma ReplacedEntry(a: Json, b: Json, key: Text, name: Text, inner: Json)
    requires a.JObj? && b.JObj? && Tabular(b) && (key == Properties || key == Defs) && key in a.m && key in b.m
    requires a.m[key].JObj? && b.m[key].JObj? && name in a.m[key].m && name in b.m[key].m
    requires OutputCompatible(b.m[key].m[name], inner) && !OutputCompatible(a.m[key].m[name], inner)
    ensures
      var c := Replaced(b, key, JObj(b.m[key].m[name := inner]));
      OutputCompatible(b, c) && !OutputCompatible(a, c)
  {
    var y := b.m[key];
    var c := Replaced(b, key, JObj(y.m[name := inner]));
    assert TabularAt(b, key);
    assert c.m[key].m.Keys == y.m.Keys;
    assert c.m[key].m.Keys - y.m.Keys == {};
    forall other | other in y.m ensures OutputCompatible(y.m[other], c.m[key].m[other]) {
      if other != name { Reflexive(y.m[other]); }
    }
    forall other | other in b.m ensures KeyCompatible(b, c, other) {
      if other != key { UnchangedKey(b, c, other); }
    }
    assert c.m.Keys - b.m.Keys - {Defs} == {};
    assert !KeyCompatible(a, c, key);
  }

  lemma ReplacedKeyword(a: Json, b: Json, key: Text, inner: Json)
    requires a.JObj? && b.JObj? && Tabular(b) && key != Properties && key != Defs && key in a.m && key in b.m
    requires OutputCompatible(b.m[key], inner) && !OutputCompatible(a.m[key], inner)
    ensures OutputCompatible(b, Replaced(b, key, inner)) && !OutputCompatible(a, Replaced(b, key, inner))
  {
    var c := Replaced(b, key, inner);
    forall other | other in b.m ensures KeyCompatible(b, c, other) {
      if other != key { UnchangedKey(b, c, other); }
    }
    assert c.m.Keys - b.m.Keys - {Defs} == {};
    assert !KeyCompatible(a, c, key);
  }

  /** Exactly when an accepted change composes with every later one: no closed object has
      become open, or there is no later one because a table is not readable. */
  lemma CompositionExactly(a: Json, b: Json)
    requires OutputCompatible(a, b)
    ensures (forall c :: OutputCompatible(b, c) ==> OutputCompatible(a, c)) <==> StaysClosed(a, b) || !Tabular(b)
  {
    if StaysClosed(a, b) {
      forall c | OutputCompatible(b, c) ensures OutputCompatible(a, c) { Transitive(a, b, c); }
    } else if !Tabular(b) {
      forall c ensures !OutputCompatible(b, c) { if OutputCompatible(b, c) { SuccessorNeedsTables(b, c); } }
    } else {
      var c := OpenedBreaks(a, b);
    }
  }

  /** A compatible change keeps the set of required names. */
  lemma SameRequired(before: Json, after: Json)
    requires before.JObj? && after.JObj? && OutputCompatible(before, after)
    ensures RequiredNames(before.m) == RequiredNames(after.m)
  {
    if Required in before.m {
      assert KeyCompatible(before, after, Required);
      var x, y := before.m[Required], after.m[Required];
      if x.JArr? {
        forall i | 0 <= i < |x.a| ensures (x.a[i].JStr? || y.a[i].JStr?) ==> x.a[i] == y.a[i] {
          assert PyEq(x.a[i], y.a[i]);
        }
        forall t | t in RequiredNames(before.m) ensures t in RequiredNames(after.m) {
          var i :| 0 <= i < |x.a| && x.a[i].JStr? && x.a[i].t == t;
          assert y.a[i].JStr? && y.a[i].t == t;
        }
        forall t | t in RequiredNames(after.m) ensures t in RequiredNames(before.m) {
          var i :| 0 <= i < |y.a| && y.a[i].JStr? && y.a[i].t == t;
          assert x.a[i].JStr? && x.a[i].t == t;
        }
      }
    } else {
      assert Required !in after.m.Keys - before.m.Keys - {Defs};
    }
  }

  /** Without that, composition fails: `false`, 0 and then a new property. */
  lemma CompositionNeedsAlignment()
    ensures
      var a := Closed(JBool(false), map[]);
      var b := Closed(JNum(0.0), map[]);
      var c := Closed(JNum(0.0), map[Name("x") := JObj(map[])]);
      OutputCompatible(a, b) && OutputCompatible(b, c) && !OutputCompatible(a, c)
  {
    var a := Closed(JBool(false), map[]);
    var b := Closed(JNum(0.0), map[]);
    var c := Closed(JNum(0.0), map[Name("x") := JObj(map[])]);
    assert KeyCompatible(a, b, Properties) && KeyCompatible(a, b, AdditionalProperties);
    assert KeyCompatible(b, c, Properties) && KeyCompatible(b, c, AdditionalProperties);
    assert Name("x") in c.m[Properties].m.Keys - a.m[Properties].m.Keys;
    assert !KeyCompatible(a, c, Properties);
  }

  function Closed(additional: Json, properties: map<Text, Json>): Json {
    JObj(map[Properties := JObj(properties), AdditionalProperties := additional])
  }

  /** `schema` leaves nothing for a second pass to strip. */
  lemma {:induction false} NormaliseIdempotent(v: Json)
    ensures Normalise(Normalise(v)) == Normalise(v)
    decreases v
  {
    if v.JObj? {
      var n := Normalise(v).m;
      forall key | key in n ensures Normalise(n[key]) == n[key] { NormaliseIdempotent(v.m[key]); }
      assert Normalise(JObj(n)).m == n;
    } else if v.JArr? {
      var n := Normalise(v).a;
      forall i | 0 <= i < |n| ensures Normalise(n[i]) == n[i] { NormaliseIdempotent(v.a[i]); }
      assert Normalise(JArr(n)).a == n;
    }
  }
}
