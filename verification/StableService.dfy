/**
 `verify_service` and what a chain of accepted releases guarantees to a client that
 was built against the first one (scripts/check_contracts.py).
 */
module StableService {
  import opened Common
  import opened Schemas
  import opened SchemaOrder
  import opened Validator
  import opened SchemaSoundness
  import opened SchemaMeaning
  import opened SchemaStripping

  datatype Method = Method(id: string, kind: string, args: Json, errors: Json, output: Json)

  datatype Service = Service(name: string, version: string, methods: seq<Method>)

  /** The dictionary built from the method list: a later duplicate replaces an earlier one. */
  function Table(methods: seq<Method>): map<string, Method> {
    if methods == [] then map[]
    else
      var last := methods[|methods| - 1];
      Table(methods[..|methods| - 1])[last.id := last]
  }

  predicate Keeps(original: Method, current: Method) {
    && current.kind == original.kind
    && PyEq(Normalise(current.args), Normalise(original.args))
    && PyEq(Normalise(current.errors), Normalise(original.errors))
    && OutputCompatible(Normalise(original.output), Normalise(current.output))
  }

  predicate Retained(before: map<string, Method>, after: map<string, Method>) {
    forall id | id in before :: id in after && Keeps(before[id], after[id])
  }

  /** The number of methods added, or None where the checker raises. */
  function VerifyService(baseline: Service, current: Service): (added: Option<int>)
    ensures added.Some? ==>
      && Table(baseline.methods).Keys <= Table(current.methods).Keys
      && added.value == |Table(current.methods).Keys - Table(baseline.methods).Keys|
  {
    var before, after := Table(baseline.methods), Table(current.methods);
    if (baseline.name, baseline.version) != (current.name, current.version) then None
    else if |after| != |current.methods| then None
    else if Retained(before, after) then
      assert before.Keys <= after.Keys;
      SubsetDifference(before.Keys, after.Keys);
      Some(|after| - |before|)
    else None
  }

  lemma SubsetDifference(small: set<string>, large: set<string>)
    requires small <= large
    ensures |large - small| == |large| - |small|
  {
    assert small + (large - small) == large;
  }

  predicate Distinct(methods: seq<Method>) {
    forall i, j | 0 <= i < j < |methods| :: methods[i].id != methods[j].id
  }

  /** The entry of an identifier is one of the methods that have it. */
  lemma {:induction false} TableListed(methods: seq<Method>)
    ensures forall i | 0 <= i < |methods| :: methods[i].id in Table(methods)
    ensures forall id | id in Table(methods) ::
      exists i | 0 <= i < |methods| :: methods[i].id == id && Table(methods)[id] == methods[i]
  {
    if methods != [] {
      var front, last := methods[..|methods| - 1], methods[|methods| - 1];
      TableListed(front);
      forall id | id in Table(methods)
        ensures exists i | 0 <= i < |methods| :: methods[i].id == id && Table(methods)[id] == methods[i]
      {
        if id == last.id {
          assert Table(methods)[id] == methods[|methods| - 1];
        } else {
          assert id in Table(front) && Table(methods)[id] == Table(front)[id];
          var i :| 0 <= i < |front| && front[i].id == id && Table(front)[id] == front[i];
          assert methods[i] == front[i];
        }
      }
      forall i | 0 <= i < |methods| ensures methods[i].id in Table(methods) {
        if i < |front| { assert front[i] == methods[i]; }
      }
    }
  }

  /** The dictionary is as long as the list exactly when no identifier is repeated. */
  lemma {:induction false} TableSize(methods: seq<Method>)
    ensures |Table(methods)| <= |methods| && (|Table(methods)| == |methods| <==> Distinct(methods))
    ensures forall i | 0 <= i < |methods| :: methods[i].id in Table(methods)
    ensures forall id | id in Table(methods) ::
      exists i | 0 <= i < |methods| :: methods[i].id == id && Table(methods)[id] == methods[i]
  {
    TableListed(methods);
    if methods != [] {
      var front, last := methods[..|methods| - 1], methods[|methods| - 1];
      TableSize(front);
      TableGrows(Table(front), last);
      DistinctFront(methods);
      assert last.id in Table(front) <==> exists i | 0 <= i < |front| :: front[i].id == last.id;
    }
  }

  lemma TableGrows(table: map<string, Method>, m: Method)
    ensures |table[m.id := m]| == |table| + if m.id in table then 0 else 1
  {
    if m.id in table {
      assert (table[m.id := m]).Keys == table.Keys;
    } else {
      assert (table[m.id := m]).Keys == table.Keys + {m.id};
    }
  }

  lemma DistinctFront(methods: seq<Method>)
    requires methods != []
    ensures
      var front, last := methods[..|methods| - 1], methods[|methods| - 1];
      Distinct(methods) <==> Distinct(front) && !(exists i | 0 <= i < |front| :: front[i].id == last.id)
  {
    var front, last := methods[..|methods| - 1], methods[|methods| - 1];
    assert forall i | 0 <= i < |front| :: front[i] == methods[i];
    if Distinct(front) && !(exists i | 0 <= i < |front| :: front[i].id == last.id) {
      forall i, j | 0 <= i < j < |methods| ensures methods[i].id != methods[j].id {
        if j < |front| { assert front[i].id != front[j].id; } else { assert front[i].id != last.id; }
      }
    }
    if Distinct(methods) {
      forall i | 0 <= i < |front| ensures front[i].id != last.id { assert methods[i].id != methods[|front|].id; }
      forall i, j | 0 <= i < j < |front| ensures front[i].id != front[j].id { assert methods[i].id != methods[j].id; }
    }
  }

  /** One of the methods has the identifier and keeps the original. */
  predicate Offered(methods: seq<Method>, id: string, original: Method) {
    exists j | 0 <= j < |methods| :: methods[j].id == id && Keeps(original, methods[j])
  }

  predicate EveryOneOffered(before: map<string, Method>, methods: seq<Method>) {
    forall id | id in before :: Offered(methods, id, before[id])
  }

  lemma EveryEntryWith(before: map<string, Method>, methods: seq<Method>, keeps: (Method, Method) -> bool)
    requires Distinct(methods)
    ensures (forall id | id in before :: id in Table(methods) && keeps(before[id], Table(methods)[id])) <==>
      forall id | id in before :: exists j | 0 <= j < |methods| :: methods[j].id == id && keeps(before[id], methods[j])
  {
    forall id | id in before
      ensures id in Table(methods) && keeps(before[id], Table(methods)[id]) <==>
        exists j | 0 <= j < |methods| :: methods[j].id == id && keeps(before[id], methods[j])
    {
      EntryWith(methods, id, m => keeps(before[id], m));
    }
  }

  lemma AllOffered(before: map<string, Method>, methods: seq<Method>)
    requires Distinct(methods)
    ensures Retained(before, Table(methods)) <==> EveryOneOffered(before, methods)
  {
    var keeps := (a: Method, b: Method) => Keeps(a, b);
    EveryEntryWith(before, methods, keeps);
    assert Retained(before, Table(methods)) <==>
      forall id | id in before :: id in Table(methods) && keeps(before[id], Table(methods)[id]);
    forall id | id in before
      ensures Offered(methods, id, before[id])
        <==> exists j | 0 <= j < |methods| :: methods[j].id == id && keeps(before[id], methods[j])
    {
    }
  }

  /** The baseline lists no other method with this identifier behind this one. */
  predicate LastListed(methods: seq<Method>, i: nat)
    requires i < |methods|
  {
    forall k | i < k < |methods| :: methods[k].id != methods[i].id
  }

  lemma {:induction false} LastWins(methods: seq<Method>, i: nat)
    requires i < |methods|
    ensures methods[i].id in Table(methods)
    ensures LastListed(methods, i) ==> Table(methods)[methods[i].id] == methods[i]
  {
    if i < |methods| - 1 {
      LastWins(methods[..|methods| - 1], i);
      assert LastListed(methods, i) ==> LastListed(methods[..|methods| - 1], i);
    }
  }

  lemma {:induction false} LastOf(methods: seq<Method>, id: string) returns (i: nat)
    requires id in Table(methods)
    ensures i < |methods| && methods[i].id == id && LastListed(methods, i)
  {
    i := |methods| - 1;
    if methods[i].id != id { i := LastOf(methods[..i], id); }
  }

  /** Exactly when a release is accepted: it has the same name and version and repeats no
      method, and for every method that the baseline lists last under its identifier it
      has one with the same kind, arguments and errors that are equal to Python, and an
      output that the checker finds compatible, all without their annotations. */
  lemma AcceptedExactly(baseline: Service, current: Service)
    ensures VerifyService(baseline, current).Some? <==>
      && current.name == baseline.name && current.version == baseline.version
      && (forall i, j | 0 <= i < j < |current.methods| :: current.methods[i].id != current.methods[j].id)
      && forall i | 0 <= i < |baseline.methods| && LastListed(baseline.methods, i) ::
           exists j | 0 <= j < |current.methods| ::
             && current.methods[j].id == baseline.methods[i].id
             && current.methods[j].kind == baseline.methods[i].kind
             && PyEq(Normalise(current.methods[j].args), Normalise(baseline.methods[i].args))
             && PyEq(Normalise(current.methods[j].errors), Normalise(baseline.methods[i].errors))
             && OutputCompatible(Normalise(baseline.methods[i].output), Normalise(current.methods[j].output))
  {
    AcceptedOffered(baseline, current);
    OfferedToEach(baseline.methods, current.methods);
    forall i | 0 <= i < |baseline.methods| { OfferedMeans(baseline.methods[i], current.methods); }
  }

  lemma AcceptedOffered(baseline: Service, current: Service)
    ensures VerifyService(baseline, current).Some? <==>
      && current.name == baseline.name && current.version == baseline.version && Distinct(current.methods)
      && EveryOneOffered(Table(baseline.methods), current.methods)
  {
    TableSize(current.methods);
    if Distinct(current.methods) { AllOffered(Table(baseline.methods), current.methods); }
  }

  lemma OfferedMeans(original: Method, methods: seq<Method>)
    ensures Offered(methods, original.id, original) <==>
      exists j | 0 <= j < |methods| ::
        && methods[j].id == original.id && methods[j].kind == original.kind
        && PyEq(Normalise(methods[j].args), Normalise(original.args))
        && PyEq(Normalise(methods[j].errors), Normalise(original.errors))
        && OutputCompatible(Normalise(original.output), Normalise(methods[j].output))
  {
  }

  lemma OfferedToEach(originals: seq<Method>, methods: seq<Method>)
    ensures EveryOneOffered(Table(originals), methods) <==>
      forall i | 0 <= i < |originals| && LastListed(originals, i) ::
        Offered(methods, originals[i].id, originals[i])
  {
    if EveryOneOffered(Table(originals), methods) {
      forall i | 0 <= i < |originals| && LastListed(originals, i)
        ensures Offered(methods, originals[i].id, originals[i])
      {
        LastWins(originals, i);
      }
    } else {
      var id :| id in Table(originals) && !Offered(methods, id, Table(originals)[id]);
      var i := LastOf(originals, id);
      LastWins(originals, i);
    }
  }

  lemma OnlyEntry(methods: seq<Method>)
    requires Distinct(methods)
    ensures forall j | 0 <= j < |methods| ::
      methods[j].id in Table(methods) && Table(methods)[methods[j].id] == methods[j]
  {
    TableSize(methods);
    forall j | 0 <= j < |methods| ensures Table(methods)[methods[j].id] == methods[j] {
      var i :| 0 <= i < |methods| && methods[i].id == methods[j].id && Table(methods)[methods[j].id] == methods[i];
      assert i == j;
    }
  }

  lemma EntryWith(methods: seq<Method>, id: string, p: Method -> bool)
    requires Distinct(methods)
    ensures id in Table(methods) && p(Table(methods)[id]) <==>
      exists j | 0 <= j < |methods| :: methods[j].id == id && p(methods[j])
  {
    TableSize(methods);
    OnlyEntry(methods);
  }

  /** What has to be known of an output schema and its successor, besides the checker's
      verdict, for the verdict to protect clients. Every part is a check on the two
      documents, read without their annotations. */
  predicate InFragment(before: Json, after: Json) {
    var x, y := Clean(before), Clean(after);
    HiddenKept(x, y) && WellFormed(x, x) && SafeExtension(x, y) && Aligned(x, y)
  }

  /** Soundness: a value the changed service emits decodes in the retained client. */
  lemma AcceptedOutputStillDecodes(other: Assertion, before: Json, after: Json, v: Json)
    requires InFragment(before, after) && OutputCompatible(Normalise(before), Normalise(after))
    requires Decodes(other, after, v)
    ensures Decodes(other, before, v)
  {
    CleanVerdict(before, after);
    var x, y := Clean(before), Clean(after);
    var enough: nat :| ValidFrom(other, after, v, enough);
    forall fuel: nat | fuel >= enough ensures Valid(other, before, before, v, fuel) {
      CleanMeaning(other, after, after, v, fuel);
      Narrows(other, x, y, x, y, v, fuel, fuel);
      CleanMeaning(other, before, before, v, fuel);
    }
    assert ValidFrom(other, before, v, enough);
  }

  /** Nothing is asked of a schema that does not change but to be covered at all. */
  lemma UnchangedIsInFragment(s: Json)
    ensures InFragment(s, s) <==> WellFormed(Clean(s), Clean(s))
  {
    if WellFormed(Clean(s), Clean(s)) {
      CoveredReflexive(Clean(s), Clean(s));
      HiddenExactly(Clean(s), Clean(s));
    }
  }

  /** Depth does not matter within the fragment: a value that is valid at one depth of
      references is decoded. */
  lemma AnyDepthDecides(other: Assertion, document: Json, v: Json, fuel: nat)
    requires WellFormed(document, document) && Valid(other, document, document, v, fuel)
    ensures Decodes(other, document, v)
  {
    CoveredReflexive(document, document);
    forall more: nat | more >= fuel ensures Valid(other, document, document, v, more) {
      Narrows(other, document, document, document, document, v, fuel, more);
    }
    assert ValidFrom(other, document, v, fuel);
  }

  /** Releases each accepted against the one before it. */
  ghost predicate Chain(releases: seq<Service>) {
    && releases != []
    && forall i, j | 0 <= i && j == i + 1 < |releases| :: VerifyService(releases[i], releases[j]).Some?
  }

  function Last(releases: seq<Service>): map<string, Method>
    requires releases != []
  {
    Table(releases[|releases| - 1].methods)
  }

  /** A chain never changes the service's name or version. */
  lemma {:induction false} ChainKeepsIdentity(releases: seq<Service>)
    requires Chain(releases)
    ensures releases[|releases| - 1].name == releases[0].name && releases[|releases| - 1].version == releases[0].version
    decreases |releases|
  {
    if |releases| > 1 {
      var earlier := releases[..|releases| - 1];
      assert forall i | 0 <= i < |earlier| :: earlier[i] == releases[i];
      ChainKeepsIdentity(earlier);
      AcceptedExactly(releases[|releases| - 2], releases[|releases| - 1]);
    }
  }

  /** Every release of a chain still offers each original method, with the same
      lifecycle, arguments and errors. */
  lemma {:induction false} ChainKeepsMethods(releases: seq<Service>, id: string)
    requires Chain(releases) && id in Table(releases[0].methods)
    ensures id in Last(releases)
    ensures
      var first, last := Table(releases[0].methods)[id], Last(releases)[id];
      && last.kind == first.kind
      && PyEq(Normalise(last.args), Normalise(first.args))
      && PyEq(Normalise(last.errors), Normalise(first.errors))
    decreases |releases|
  {
    var first := Table(releases[0].methods)[id];
    if |releases| == 1 {
      PyEqIsEquality(Normalise(first.args), Normalise(first.args));
      PyEqIsEquality(Normalise(first.errors), Normalise(first.errors));
    } else {
      var earlier := releases[..|releases| - 1];
      assert forall i | 0 <= i < |earlier| :: earlier[i] == releases[i];
      ChainKeepsMethods(earlier, id);
      var previous, last := Last(earlier)[id], Last(releases)[id];
      assert VerifyService(releases[|releases| - 2], releases[|releases| - 1]).Some?;
      PyEqTransitive(Normalise(last.args), Normalise(previous.args), Normalise(first.args));
      PyEqTransitive(Normalise(last.errors), Normalise(previous.errors), Normalise(first.errors));
    }
  }

  /** Both releases offer method `id` and its outputs satisfy the checker's conditions. */
  predicate SafeStep(before: Service, after: Service, id: string) {
    && id in Table(before.methods) && id in Table(after.methods)
    && InFragment(Table(before.methods)[id].output, Table(after.methods)[id].output)
  }

  ghost predicate SafeChain(releases: seq<Service>, id: string) {
    forall i, j | 0 <= i && j == i + 1 < |releases| :: SafeStep(releases[i], releases[j], id)
  }

  /** No closed object of the method's output becomes open from one release to the next. */
  ghost predicate ChainStaysClosed(releases: seq<Service>, id: string) {
    forall i, j | 0 <= i && j == i + 1 < |releases| :: StepStaysClosed(releases[i], releases[j], id)
  }

  predicate StepStaysClosed(before: Service, after: Service, id: string) {
    id in Table(before.methods) && id in Table(after.methods) ==>
      StaysClosed(Normalise(Table(before.methods)[id].output), Normalise(Table(after.methods)[id].output))
  }

  /** After any number of accepted releases the newest output is compatible with the
      first, */
  lemma {:induction false} ChainStaysCompatible(releases: seq<Service>, id: string)
    requires Chain(releases) && |releases| > 1 && id in Table(releases[0].methods) && ChainStaysClosed(releases, id)
    ensures id in Last(releases)
    ensures OutputCompatible(Normalise(Table(releases[0].methods)[id].output), Normalise(Last(releases)[id].output))
    decreases |releases|
  {
    var later := releases[1..];
    assert VerifyService(releases[0], releases[1]).Some? && StepStaysClosed(releases[0], releases[1], id);
    assert Keeps(Table(releases[0].methods)[id], Table(later[0].methods)[id]);
    var first, second := Table(releases[0].methods)[id].output, Table(later[0].methods)[id].output;
    assert Last(later) == Last(releases);
    if |later| > 1 {
      LaterReleases(releases, id);
      ChainStaysCompatible(later, id);
      Transitive(Normalise(first), Normalise(second), Normalise(Last(later)[id].output));
    }
  }

  lemma LaterReleases(releases: seq<Service>, id: string)
    requires |releases| > 1 && Chain(releases)
    ensures Chain(releases[1..])
    ensures ChainStaysClosed(releases, id) ==> ChainStaysClosed(releases[1..], id)
    ensures SafeChain(releases, id) ==> SafeChain(releases[1..], id)
  {
    var later := releases[1..];
    forall i, j | 0 <= i && j == i + 1 < |later|
      ensures VerifyService(later[i], later[j]).Some?
      ensures ChainStaysClosed(releases, id) ==> StepStaysClosed(later[i], later[j], id)
      ensures SafeChain(releases, id) ==> SafeStep(later[i], later[j], id)
    {
      assert later[i] == releases[i + 1] && later[j] == releases[j + 1];
    }
  }

  /** and whatever it emits still decodes in the first client. */
  lemma {:induction false} ChainKeepsOldClients(other: Assertion, releases: seq<Service>, id: string, v: Json)
    requires Chain(releases) && id in Table(releases[0].methods) && SafeChain(releases, id)
    requires id in Last(releases) && Decodes(other, Last(releases)[id].output, v)
    ensures Decodes(other, Table(releases[0].methods)[id].output, v)
    decreases |releases|
  {
    if |releases| > 1 {
      FirstStep(releases, id);
      var later := releases[1..];
      assert Last(later) == Last(releases);
      ChainKeepsOldClients(other, later, id, v);
      AcceptedOutputStillDecodes(other, Table(releases[0].methods)[id].output, Table(later[0].methods)[id].output, v);
    }
  }

  /** A chain is an accepted step followed by a chain. */
  lemma FirstStep(releases: seq<Service>, id: string)
    requires |releases| > 1 && Chain(releases) && SafeChain(releases, id)
    ensures Chain(releases[1..]) && SafeChain(releases[1..], id)
    ensures
      var before, after := Table(releases[0].methods), Table(releases[1..][0].methods);
      && id in before && id in after && InFragment(before[id].output, after[id].output)
      && OutputCompatible(Normalise(before[id].output), Normalise(after[id].output))
  {
    LaterReleases(releases, id);
    assert VerifyService(releases[0], releases[1]).Some? && SafeStep(releases[0], releases[1], id);
    assert Keeps(Table(releases[0].methods)[id], Table(releases[1].methods)[id]);
  }
}
