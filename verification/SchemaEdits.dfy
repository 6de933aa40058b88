/**
 What the checker says about one edit of a schema, wherever it is made: exactly which
 edits it lets through.
 */
module SchemaEdits {
  import opened Schemas
  import opened SchemaOrder

  /** What is stripped is these three names, at every level. */
  lemma StrippedExactly(s: Json)
    ensures s.JObj? ==>
      && Normalise(s).JObj?
      && (forall key | key in s.m && key != Title && key != Description && key != SchemaUri ::
            key in Normalise(s).m && Normalise(s).m[key] == Normalise(s.m[key]))
      && forall key | key in Normalise(s).m :: key in s.m && key != Title && key != Description && key != SchemaUri
    ensures s.JArr? ==>
      && Normalise(s).JArr? && |Normalise(s).a| == |s.a|
      && forall i | 0 <= i < |s.a| :: Normalise(s).a[i] == Normalise(s.a[i])
    ensures !s.JObj? && !s.JArr? ==> Normalise(s) == s
  {
  }

  /** Only the arguments of `keys` differ, and they are compatible. */
  lemma OtherKeys(b: Json, c: Json, key: Text)
    requires b.JObj? && c.JObj? && Tabular(b) && key in b.m && c.m.Keys == b.m.Keys
    requires forall other | other in b.m && other != key :: c.m[other] == b.m[other]
    ensures OutputCompatible(b, c) <==> KeyCompatible(b, c, key)
  {
    forall other | other in b.m && other != key ensures KeyCompatible(b, c, other) { UnchangedKey(b, c, other); }
    assert c.m.Keys - b.m.Keys - {Defs} == {};
  }

  /** A property is added: accepted unless the object is closed or requires it already. */
  lemma AddedPropertyExactly(s: Json, p: Text, schema: Json)
    requires s.JObj? && Tabular(s) && Properties in s.m && s.m[Properties].JObj? && p !in s.m[Properties].m
    ensures OutputCompatible(s, Replaced(s, Properties, JObj(s.m[Properties].m[p := schema]))) <==>
      && !(AdditionalProperties in s.m && s.m[AdditionalProperties] == JBool(false))
      && !(Required in s.m && s.m[Required].JArr? && JStr(p) in s.m[Required].a)
  {
    var table := s.m[Properties].m;
    var t := Replaced(s, Properties, JObj(table[p := schema]));
    OtherKeys(s, t, Properties);
    assert t.m[Properties].m.Keys - table.Keys == {p};
    assert TabularAt(s, Properties);
    forall name | name in table ensures OutputCompatible(table[name], t.m[Properties].m[name]) {
      Reflexive(table[name]);
    }
    assert RequiredNames(t.m) == RequiredNames(s.m);
    RequiredExactly(s, p);
    OneAdded(p, RequiredNames(t.m));
  }

  lemma OneAdded(p: Text, required: set<Text>)
    ensures {p} * required == {} <==> p !in required
  {
    if {p} * required == {} { assert p !in {p} * required; }
  }

  lemma RequiredExactly(s: Json, p: Text)
    requires s.JObj?
    ensures p in RequiredNames(s.m) <==> Required in s.m && s.m[Required].JArr? && JStr(p) in s.m[Required].a
  {
  }

  /** A definition is added: accepted, whether or not there were any. */
  lemma AddedDefinition(s: Json, name: Text, schema: Json)
    requires s.JObj? && Tabular(s) && (Defs in s.m ==> s.m[Defs].JObj? && name !in s.m[Defs].m)
    ensures OutputCompatible(s, Replaced(s, Defs, JObj((if Defs in s.m then s.m[Defs].m else map[])[name := schema])))
  {
    var t := Replaced(s, Defs, JObj((if Defs in s.m then s.m[Defs].m else map[])[name := schema]));
    forall key | key in s.m ensures KeyCompatible(s, t, key) {
      if key == Defs {
        assert TabularAt(s, Defs);
        forall other | other in s.m[Defs].m ensures OutputCompatible(s.m[Defs].m[other], t.m[Defs].m[other]) {
          Reflexive(s.m[Defs].m[other]);
        }
      } else {
        UnchangedKey(s, t, key);
      }
    }
    assert t.m.Keys - s.m.Keys - {Defs} == {};
  }

  /** Another keyword is added, or one is dropped: refused. */
  lemma KeywordsStay(s: Json, t: Json)
    requires s.JObj? && t.JObj? && OutputCompatible(s, t)
    ensures s.m.Keys <= t.m.Keys && forall key | key in t.m && key != Defs :: key in s.m
  {
    forall key | key in t.m && key != Defs ensures key in s.m {
      assert key !in t.m.Keys - s.m.Keys - {Defs};
    }
  }

  /** The argument of a keyword is edited: accepted exactly when the edit by itself is. */
  lemma InnerEditExactly(s: Json, key: Text, inner: Json)
    requires s.JObj? && Tabular(s) && key in s.m && key != Properties && key != Defs
    ensures OutputCompatible(s, Replaced(s, key, inner)) <==> OutputCompatible(s.m[key], inner)
  {
    OtherKeys(s, Replaced(s, key, inner), key);
  }

  /** So is the schema of a property or a definition. */
  lemma EntryEditExactly(s: Json, key: Text, name: Text, inner: Json)
    requires s.JObj? && Tabular(s) && key in s.m && (key == Properties || key == Defs)
    requires s.m[key].JObj? && name in s.m[key].m
    ensures OutputCompatible(s, Replaced(s, key, JObj(s.m[key].m[name := inner])))
      <==> OutputCompatible(s.m[key].m[name], inner)
  {
    var table := s.m[key].m;
    var t := Replaced(s, key, JObj(table[name := inner]));
    OtherKeys(s, t, key);
    assert TabularAt(s, key);
    assert t.m[key].m.Keys == table.Keys;
    assert t.m[key].m.Keys - table.Keys == {};
    forall other | other in table && other != name ensures OutputCompatible(table[other], t.m[key].m[other]) {
      Reflexive(table[other]);
    }
  }

  /** A property or a definition is dropped: refused. */
  lemma DroppedEntry(s: Json, key: Text, name: Text, t: Json)
    requires s.JObj? && t.JObj? && key in s.m && (key == Properties || key == Defs)
    requires s.m[key].JObj? && name in s.m[key].m
    requires key in t.m && t.m[key].JObj? && name !in t.m[key].m
    ensures !OutputCompatible(s, t)
  {
    assert !KeyCompatible(s, t, key);
  }
}
