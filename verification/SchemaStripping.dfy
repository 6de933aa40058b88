/**
 What `schema` hides from the checker: it strips three names from every dictionary, not
 only from schemas, and so from tables of properties and definitions too.
 */
module SchemaStripping {
  import opened Schemas
  import opened SchemaOrder
  import opened SchemaMeaning
  import opened Validator

  /** Nothing that `schema` strips makes a difference: what is hidden is compatible too.
      Where a table of the original has a stripped name, so has the other with a
      compatible schema, and a stripped name that is added as a property obeys the rule
      for added properties. */
  predicate HiddenKept(before: Json, after: Json)
    decreases before, 1
  {
    if before.JObj? && after.JObj? then
      && before.m.Keys * STRIPPED == after.m.Keys * STRIPPED
      && forall key | key in before.m && key in after.m :: HiddenKeptAt(before, after, key)
    else
      PyEq(before, after)
  }

  predicate HiddenKeptAt(before: Json, after: Json, key: Text)
    requires before.JObj? && after.JObj? && key in before.m && key in after.m
    decreases before, 0
  {
    var x, y := before.m[key], after.m[key];
    if key in STRIPPED then OutputCompatible(x, y)
    else if key == Properties || key == Defs then
      x.JObj? && y.JObj? ==>
        && HiddenNamesKept(x, y)
        && (key == Properties ==> HiddenNamesAllowed(before, after))
        && (forall name | name in x.m && name in y.m && name !in STRIPPED :: HiddenKept(x.m[name], y.m[name]))
    else
      HiddenKept(x, y)
  }

  /** The first half: no stripped name of a table is dropped or changed incompatibly. */
  predicate HiddenNamesKept(x: Json, y: Json)
    requires x.JObj? && y.JObj?
  {
    forall name | name in x.m && name in STRIPPED :: name in y.m && OutputCompatible(x.m[name], y.m[name])
  }

  /** The second half: stripped names are added as properties only where any may be. */
  predicate HiddenNamesAllowed(before: Json, after: Json)
    requires before.JObj? && after.JObj? && Properties in before.m && Properties in after.m
    requires before.m[Properties].JObj? && after.m[Properties].JObj?
  {
    AddedAllowed(IsClosed(before), RequiredNames(after.m),
                 (after.m[Properties].m.Keys - before.m[Properties].m.Keys) * STRIPPED)
  }

  lemma {:induction false} EqualWhenStripped(x: Json, y: Json)
    requires PyEq(x, y)
    ensures PyEq(Normalise(x), Normalise(y))
    decreases x
  {
    if x.JObj? {
      forall key | key in Normalise(x).m ensures PyEq(Normalise(x).m[key], Normalise(y).m[key]) {
        EqualWhenStripped(x.m[key], y.m[key]);
      }
      assert Normalise(x).m.Keys == Normalise(y).m.Keys;
    } else if x.JArr? {
      forall i | 0 <= i < |x.a| ensures PyEq(Normalise(x).a[i], Normalise(y).a[i]) {
        EqualWhenStripped(x.a[i], y.a[i]);
      }
    }
  }

  lemma RequiredWhenStripped(s: Json)
    requires s.JObj?
    ensures RequiredNames(Normalise(s).m) == RequiredNames(s.m)
  {
    var n := Normalise(s);
    assert Required in s.m <==> Required in n.m;
    if Required in s.m && s.m[Required].JArr? {
      var x, y := s.m[Required].a, n.m[Required].a;
      assert |x| == |y| && forall i | 0 <= i < |x| :: y[i] == Normalise(x[i]);
      forall i | 0 <= i < |x| ensures (x[i].JStr? || y[i].JStr?) ==> x[i] == y[i] {}
      forall t | t in RequiredNames(s.m) ensures t in RequiredNames(n.m) {
        var i :| 0 <= i < |x| && x[i].JStr? && x[i].t == t;
        assert y[i].JStr? && y[i].t == t;
      }
      forall t | t in RequiredNames(n.m) ensures t in RequiredNames(s.m) {
        var i :| 0 <= i < |y| && y[i].JStr? && y[i].t == t;
        assert x[i].JStr? && x[i].t == t;
      }
    }
  }

  lemma ClosedWhenStripped(s: Json)
    requires s.JObj?
    ensures IsClosed(Normalise(s)) <==> IsClosed(s)
  {
  }

  lemma NormaliseAt(s: Json, key: Text)
    requires s.JObj? && key in s.m && key !in STRIPPED
    ensures key in Normalise(s).m && Normalise(s).m[key] == Normalise(s.m[key])
  {
  }

  /** The checker's rule for added properties. */
  predicate AddedAllowed(closed: bool, required: set<Text>, added: set<Text>) {
    added != {} ==> !closed && added * required == {}
  }

  lemma AddedWhenStripped(closed: bool, required: set<Text>, x: set<Text>, y: set<Text>)
    ensures AddedAllowed(closed, required, y - x) <==>
      && AddedAllowed(closed, required, (y - STRIPPED) - (x - STRIPPED))
      && AddedAllowed(closed, required, (y - x) * STRIPPED)
  {
    AddedParts(x, y);
    var left, stripped := (y - x) - STRIPPED, (y - x) * STRIPPED;
    assert (y - x) * required == left * required + stripped * required;
  }

  lemma AddedParts(x: set<Text>, y: set<Text>)
    ensures y - x == ((y - x) - STRIPPED) + ((y - x) * STRIPPED)
    ensures (y - STRIPPED) - (x - STRIPPED) == (y - x) - STRIPPED
  {
  }

  /** The checker's verdict on the stripped documents and what it cannot see make up its
      verdict on the documents themselves. */
  lemma {:induction false} HiddenExactly(before: Json, after: Json)
    ensures OutputCompatible(before, after)
      <==> OutputCompatible(Normalise(before), Normalise(after)) && HiddenKept(before, after)
    decreases before, 2
  {
    if before.JObj? && after.JObj? {
      var n, n' := Normalise(before), Normalise(after);
      forall key | key in before.m && key in after.m
        ensures KeyCompatible(before, after, key)
          <==> (key in STRIPPED || KeyCompatible(n, n', key)) && HiddenKeptAt(before, after, key)
      {
        HiddenKey(before, after, key);
      }
      HiddenKeys(before.m.Keys, after.m.Keys);
      assert n.m.Keys == before.m.Keys - STRIPPED && n'.m.Keys == after.m.Keys - STRIPPED;
    } else if PyEq(before, after) {
      EqualWhenStripped(before, after);
    }
  }

  lemma HiddenKeys(x: set<Text>, y: set<Text>)
    ensures (x <= y && y - x - {Defs} == {}) <==>
      x - STRIPPED <= y - STRIPPED && (y - STRIPPED) - (x - STRIPPED) - {Defs} == {} && x * STRIPPED == y * STRIPPED
  {
    assert Defs !in STRIPPED;
    if x <= y && y - x - {Defs} == {} {
      forall key | key in y && key in STRIPPED ensures key in x { assert key !in y - x - {Defs}; }
      assert x * STRIPPED == y * STRIPPED;
    }
    if x - STRIPPED <= y - STRIPPED && (y - STRIPPED) - (x - STRIPPED) - {Defs} == {} && x * STRIPPED == y * STRIPPED {
      forall key | key in x ensures key in y { assert key in STRIPPED ==> key in x * STRIPPED; }
      forall key | key in y && key != Defs ensures key in x {
        assert key in STRIPPED ==> key in y * STRIPPED;
        assert key !in (y - STRIPPED) - (x - STRIPPED) - {Defs};
      }
    }
  }

  lemma {:induction false} HiddenKey(before: Json, after: Json, key: Text)
    requires before.JObj? && after.JObj? && key in before.m && key in after.m
    ensures KeyCompatible(before, after, key) <==>
      && (key in STRIPPED || KeyCompatible(Normalise(before), Normalise(after), key))
      && HiddenKeptAt(before, after, key)
    decreases before, 1
  {
    var x, y := before.m[key], after.m[key];
    if key == Properties || key == Defs {
      if x.JObj? && y.JObj? { HiddenTable(before, after, key); }
    } else if key !in STRIPPED {
      HiddenExactly(x, y);
    }
  }

  lemma {:induction false} HiddenTable(before: Json, after: Json, key: Text)
    requires before.JObj? && after.JObj? && key in before.m && key in after.m && (key == Properties || key == Defs)
    requires before.m[key].JObj? && after.m[key].JObj?
    ensures KeyCompatible(before, after, key)
      <==> KeyCompatible(Normalise(before), Normalise(after), key) && HiddenKeptAt(before, after, key)
    decreases before, 0
  {
    var x, y := before.m[key], after.m[key];
    forall name | name in x.m && name in y.m && name !in STRIPPED ensures HiddenEntry(x.m[name], y.m[name]) {
      HiddenExactly(x.m[name], y.m[name]);
    }
    NormaliseAt(before, key);
    NormaliseAt(after, key);
    TableEntries(x, y);
    TableMeaning(before, after, key);
    TableMeaning(Normalise(before), Normalise(after), key);
    if key == Properties {
      AddedWhenStripped(IsClosed(before), RequiredNames(after.m), x.m.Keys, y.m.Keys);
      RequiredWhenStripped(after);
      ClosedWhenStripped(before);
      NormaliseKeys(x);
      NormaliseKeys(y);
    }
  }

  predicate HiddenEntry(x: Json, y: Json) {
    OutputCompatible(x, y) <==> OutputCompatible(Normalise(x), Normalise(y)) && HiddenKept(x, y)
  }

  lemma NormaliseKeys(s: Json)
    requires s.JObj?
    ensures Normalise(s).m.Keys == s.m.Keys - STRIPPED
  {
  }

  /** The entries of two tables: the ones that are left, and the stripped ones. */
  lemma TableEntries(x: Json, y: Json)
    requires x.JObj? && y.JObj?
    requires forall name | name in x.m && name in y.m && name !in STRIPPED :: HiddenEntry(x.m[name], y.m[name])
    ensures EntriesKept(x, y) <==>
      && HiddenNamesKept(x, y) && EntriesKept(Normalise(x), Normalise(y)) && HiddenEntriesKept(x, y)
  {
    if EntriesKept(x, y) { EntriesApart(x, y); }
    if HiddenNamesKept(x, y) && EntriesKept(Normalise(x), Normalise(y)) && HiddenEntriesKept(x, y) {
      EntriesTogether(x, y);
    }
  }

  predicate HiddenEntriesKept(x: Json, y: Json)
    requires x.JObj? && y.JObj?
  {
    forall name | name in x.m && name in y.m && name !in STRIPPED :: HiddenKept(x.m[name], y.m[name])
  }

  lemma EntriesApart(x: Json, y: Json)
    requires x.JObj? && y.JObj? && EntriesKept(x, y)
    requires forall name | name in x.m && name in y.m && name !in STRIPPED :: HiddenEntry(x.m[name], y.m[name])
    ensures HiddenNamesKept(x, y) && EntriesKept(Normalise(x), Normalise(y)) && HiddenEntriesKept(x, y)
  {
    NormaliseKeys(x);
    forall name | name in Normalise(x).m ensures EntryKept(Normalise(x), Normalise(y), name) {
      assert EntryKept(x, y, name) && HiddenEntry(x.m[name], y.m[name]);
      EntryLeft(x, y, name);
    }
    forall name | name in x.m ensures name in y.m && OutputCompatible(x.m[name], y.m[name]) {
      assert EntryKept(x, y, name);
    }
  }

  lemma EntriesTogether(x: Json, y: Json)
    requires x.JObj? && y.JObj?
    requires forall name | name in x.m && name in y.m && name !in STRIPPED :: HiddenEntry(x.m[name], y.m[name])
    requires HiddenNamesKept(x, y) && EntriesKept(Normalise(x), Normalise(y)) && HiddenEntriesKept(x, y)
    ensures EntriesKept(x, y)
  {
    NormaliseKeys(x);
    forall name | name in x.m ensures EntryKept(x, y, name) {
      if name !in STRIPPED {
        assert EntryKept(Normalise(x), Normalise(y), name);
        EntryLeft(x, y, name);
        assert HiddenEntry(x.m[name], y.m[name]);
      }
    }
  }

  /** An entry that is not stripped. */
  lemma EntryLeft(x: Json, y: Json, name: Text)
    requires x.JObj? && y.JObj? && name in x.m && name !in STRIPPED
    ensures name in Normalise(x).m
    ensures EntryKept(Normalise(x), Normalise(y), name)
      <==> name in y.m && OutputCompatible(Normalise(x.m[name]), Normalise(y.m[name]))
  {
    NormaliseAt(x, name);
    NormaliseKeys(y);
    if name in y.m { NormaliseAt(y, name); }
  }

  predicate EntriesKept(x: Json, y: Json)
    requires x.JObj? && y.JObj?
  {
    forall name | name in x.m :: EntryKept(x, y, name)
  }

  predicate EntryKept(x: Json, y: Json, name: Text)
    requires x.JObj? && y.JObj? && name in x.m
  {
    name in y.m && OutputCompatible(x.m[name], y.m[name])
  }

  lemma TableMeaning(before: Json, after: Json, key: Text)
    requires before.JObj? && after.JObj? && key in before.m && key in after.m && (key == Properties || key == Defs)
    requires before.m[key].JObj? && after.m[key].JObj?
    ensures
      var added := after.m[key].m.Keys - before.m[key].m.Keys;
      KeyCompatible(before, after, key) <==>
        && EntriesKept(before.m[key], after.m[key])
        && (key == Properties ==> AddedAllowed(IsClosed(before), RequiredNames(after.m), added))
  {
    var x, y := before.m[key], after.m[key];
    assert EntriesKept(x, y) <==>
      forall name | name in x.m :: name in y.m && OutputCompatible(x.m[name], y.m[name]) by {
      assert forall name | name in x.m ::
        EntryKept(x, y, name) <==> name in y.m && OutputCompatible(x.m[name], y.m[name]);
    }
  }

  /** Cleaning first does not change what the checker sees. */
  lemma {:induction false} CleanIsInvisible(s: Json)
    ensures Normalise(Clean(s)) == Normalise(s)
    decreases s, 1
  {
    if s.JObj? {
      forall key | key in s.m && key !in STRIPPED
        ensures Normalise(CleanArgument(key, s.m[key])) == Normalise(s.m[key])
      {
        CleanArgumentIsInvisible(key, s.m[key]);
      }
      assert Normalise(Clean(s)).m == Normalise(s).m;
    }
  }

  lemma {:induction false} CleanArgumentIsInvisible(key: Text, arg: Json)
    ensures Normalise(CleanArgument(key, arg)) == Normalise(arg)
    decreases arg, 2
  {
    if key == Properties || key == Defs {
      if arg.JObj? {
        forall name | name in arg.m ensures Normalise(Clean(arg.m[name])) == Normalise(arg.m[name]) {
          CleanIsInvisible(arg.m[name]);
        }
        assert Normalise(CleanArgument(key, arg)).m == Normalise(arg).m;
      }
    } else if key in SCHEMA_KEYWORDS {
      CleanIsInvisible(arg);
    } else if (key == AnyOf || key == AllOf || key == OneOf) && arg.JArr? {
      forall i | 0 <= i < |arg.a| ensures Normalise(Clean(arg.a[i])) == Normalise(arg.a[i]) {
        CleanIsInvisible(arg.a[i]);
      }
      assert Normalise(CleanBranches(arg)).a == Normalise(arg).a;
    }
  }

  /** What the checker accepts, and what it cannot see, as one verdict on the schemas. */
  lemma CleanVerdict(before: Json, after: Json)
    ensures OutputCompatible(Clean(before), Clean(after))
      <==> OutputCompatible(Normalise(before), Normalise(after)) && HiddenKept(Clean(before), Clean(after))
  {
    HiddenExactly(Clean(before), Clean(after));
    CleanIsInvisible(before);
    CleanIsInvisible(after);
  }

  /** No property and no definition carries one of the names `schema` strips, and no
      constant or other argument contains one. */
  predicate NamesKept(s: Json)
    decreases s, 1
  {
    if s.JObj? then forall key | key in s.m :: key in STRIPPED || NamesKeptAt(key, s.m[key])
    else Normalise(s) == s
  }

  predicate NamesKeptAt(key: Text, arg: Json)
    decreases arg, 2
  {
    if (key == Properties || key == Defs) && arg.JObj? then
      forall name | name in arg.m :: name !in STRIPPED && NamesKept(arg.m[name])
    else if key in SCHEMA_KEYWORDS then
      NamesKept(arg)
    else if (key == AnyOf || key == AllOf || key == OneOf) && arg.JArr? then
      forall i | 0 <= i < |arg.a| :: NamesKept(arg.a[i])
    else
      Normalise(arg) == arg
  }

  /** Exactly then `schema` strips annotations only. */
  lemma {:induction false} StripsAnnotationsOnly(s: Json)
    ensures NamesKept(s) <==> Normalise(s) == Clean(s)
    decreases s, 1
  {
    if s.JObj? {
      forall key | key in s.m && key !in STRIPPED
        ensures NamesKeptAt(key, s.m[key]) <==> Normalise(s.m[key]) == CleanArgument(key, s.m[key])
      {
        ArgumentStripsAnnotationsOnly(key, s.m[key]);
      }
      SameEntries(s);
    }
  }

  lemma SameMap(n: map<Text, Json>, c: map<Text, Json>)
    ensures n == c <==> n.Keys == c.Keys && forall key | key in n :: n[key] == c[key]
  {
  }

  lemma SameEntries(s: Json)
    requires s.JObj?
    ensures Normalise(s) == Clean(s)
      <==> forall key | key in s.m && key !in STRIPPED :: Normalise(s.m[key]) == CleanArgument(key, s.m[key])
  {
    NormaliseKeys(s);
    CleanKeys(s);
    forall key | key in s.m && key !in STRIPPED
      ensures Normalise(s).m[key] == Clean(s).m[key] <==> Normalise(s.m[key]) == CleanArgument(key, s.m[key])
    {
      NormaliseAt(s, key);
      CleanAt(s, key);
    }
    SameMap(Normalise(s).m, Clean(s).m);
  }

  lemma SameTable(key: Text, arg: Json)
    requires (key == Properties || key == Defs) && arg.JObj?
    ensures Normalise(arg) == CleanArgument(key, arg)
      <==> forall name | name in arg.m :: name !in STRIPPED && Normalise(arg.m[name]) == Clean(arg.m[name])
  {
    NormaliseKeys(arg);
    assert CleanArgument(key, arg).m.Keys == arg.m.Keys;
    SameMap(Normalise(arg).m, CleanArgument(key, arg).m);
  }

  lemma SameBranchList(key: Text, arg: Json)
    requires (key == AnyOf || key == AllOf || key == OneOf) && arg.JArr?
    ensures Normalise(arg) == CleanArgument(key, arg)
      <==> forall i | 0 <= i < |arg.a| :: Normalise(arg.a[i]) == Clean(arg.a[i])
  {
    var n, c := Normalise(arg).a, CleanBranches(arg).a;
    assert |n| == |c| == |arg.a| && forall i | 0 <= i < |n| :: n[i] == Normalise(arg.a[i]) && c[i] == Clean(arg.a[i]);
  }

  lemma {:induction false} ArgumentStripsAnnotationsOnly(key: Text, arg: Json)
    ensures NamesKeptAt(key, arg) <==> Normalise(arg) == CleanArgument(key, arg)
    decreases arg, 2
  {
    if (key == Properties || key == Defs) && arg.JObj? {
      forall name | name in arg.m ensures NamesKept(arg.m[name]) <==> Normalise(arg.m[name]) == Clean(arg.m[name]) {
        StripsAnnotationsOnly(arg.m[name]);
      }
      SameTable(key, arg);
    } else if key in SCHEMA_KEYWORDS {
      StripsAnnotationsOnly(arg);
    } else if (key == AnyOf || key == AllOf || key == OneOf) && arg.JArr? {
      forall i | 0 <= i < |arg.a| ensures NamesKept(arg.a[i]) <==> Normalise(arg.a[i]) == Clean(arg.a[i]) {
        StripsAnnotationsOnly(arg.a[i]);
      }
      SameBranchList(key, arg);
    }
  }

  /** So stripping leaves the meaning of such a document alone. */
  lemma MeaningKept(other: Assertion, root: Json, s: Json, v: Json, fuel: nat)
    requires NamesKept(root) && NamesKept(s)
    ensures Valid(other, Normalise(root), Normalise(s), v, fuel) <==> Valid(other, root, s, v, fuel)
  {
    StripsAnnotationsOnly(root);
    StripsAnnotationsOnly(s);
    CleanMeaning(other, root, s, v, fuel);
  }
}
