/**
 Resumable publication of one frozen bundle to a private and a public store,
 scripts/publish-platform-release.py and `immutable_assets` of scripts/platform_release.py.
 A run may stop anywhere, and an upload may store other bytes than it was given.
 */
module Publication {
  import opened Common

  /** A release: whether it is a draft, and the digest of each stored asset. */
  datatype Release = Release(draft: bool, assets: map<string, string>)

  /** `immutable_assets`: the names still missing, None where it raises. */
  function ImmutableAssets(release: Release, expected: map<string, string>): Option<set<string>> {
    if !(release.assets.Keys <= expected.Keys) then None
    else if !release.draft && release.assets.Keys != expected.Keys then None
    else if exists name | name in release.assets :: release.assets[name] != expected[name] then None
    else Some(expected.Keys - release.assets.Keys)
  }

  ghost predicate Within(small: map<string, string>, large: map<string, string>) {
    forall name | name in small :: name in large && small[name] == large[name]
  }

  /** It accepts exactly the releases whose assets are some of the expected ones, and
      published ones only when they hold all of them; nothing is missing exactly when the
      release holds the bundle. */
  lemma AcceptedAssets(release: Release, expected: map<string, string>)
    ensures ImmutableAssets(release, expected).Some? <==>
      Within(release.assets, expected) && (!release.draft ==> release.assets == expected)
    ensures ImmutableAssets(release, expected).Some? ==>
      (ImmutableAssets(release, expected).value == {} <==> release.assets == expected)
  {
    if Within(release.assets, expected) {
      assert release.assets.Keys == expected.Keys ==> release.assets == expected;
      if ImmutableAssets(release, expected).Some? && ImmutableAssets(release, expected).value == {} {
        assert forall name | name in expected :: name !in expected.Keys - release.assets.Keys;
      }
    }
  }

  class Store {
    var release: Option<Release>

    constructor ()
      ensures release == None
    {
      release := None;
    }

    function Assets(): map<string, string> reads this {
      if release.Some? then release.value.assets else map[]
    }

    /** Nothing stored is ever replaced or removed, and nothing published is withdrawn. */
    twostate predicate Kept() reads this {
      && Within(old(Assets()), Assets())
      && (old(release).Some? ==> release.Some? && (!old(release).value.draft ==> release == old(release)))
    }

    /** One upload. It may fail, or store something else than the bytes of `sha`. */
    method Upload(name: string, sha: string, calm: bool) returns (stored: Option<string>)
      requires release.Some? && release.value.draft && name !in release.value.assets
      modifies this
      ensures Kept() && release.Some? && release.value.draft
      ensures stored.None? ==> release == old(release)
      ensures stored.Some? ==> Assets() == old(Assets())[name := stored.value]
      ensures calm ==> stored == Some(sha)
    {
      var happens: bool, result: string := *, *;
      if calm { happens, result := true, sha; }
      if !happens { return None; }
      release := Some(release.value.(assets := release.value.assets[name := result]));
      stored := Some(result);
    }

    /** The upload of everything missing, each checked; false where it raises or stops. */
    method Fill(missing: set<string>, expected: map<string, string>, calm: bool) returns (ok: bool)
      requires release.Some? && ImmutableAssets(release.value, expected) == Some(missing)
      modifies this
      ensures Kept() && release.Some? && (release.value.draft || release == old(release))
      ensures ok ==> Assets() == expected
      ensures calm ==> ok
      ensures Assets().Keys <= expected.Keys
    {
      AcceptedAssets(release.value, expected);
      var left := missing;
      while left != {}
        invariant Kept() && release.Some? && (release.value.draft || release == old(release))
        invariant Within(Assets(), expected) && left == expected.Keys - Assets().Keys
        invariant left != {} ==> release.value.draft
        decreases left
      {
        var name :| name in left;
        var stored := Upload(name, expected[name], calm);
        if stored != Some(expected[name]) { return false; }
        left := left - {name};
      }
      forall name | name in expected ensures name in Assets() { assert name !in expected.Keys - Assets().Keys; }
      assert Assets() == expected;
      ok := true;
    }

    /** One store's part of a run: the release, its assets, and the end of the draft. */
    method Complete(expected: map<string, string>, calm: bool) returns (ok: bool)
      requires Closed(expected)
      modifies this
      ensures Kept() && Closed(expected)
      ensures ok ==> Holds(expected)
      ensures !old(Resumable(expected)) ==> !ok && release == old(release)
      ensures calm && old(Resumable(expected)) ==> ok
    {
      var stops: bool := *;
      if release.None? {
        if stops && !calm { return false; }
        release := Some(Release(true, map[]));
      }
      AcceptedAssets(release.value, expected);
      var missing := ImmutableAssets(release.value, expected);
      if missing.None? { return false; }
      ok := Fill(missing.value, expected, calm);
      stops := *;
      if !ok || (stops && !calm) { return false; }
      release := Some(release.value.(draft := false));
    }

    /** A published release holds the bundle and nothing else. */
    ghost predicate Closed(expected: map<string, string>) reads this {
      release.Some? && !release.value.draft ==> release.value.assets == expected
    }

    ghost predicate Holds(expected: map<string, string>) reads this {
      release == Some(Release(false, expected))
    }

    /** A store that a run can complete. */
    ghost predicate Resumable(expected: map<string, string>) reads this {
      release.Some? ==>
        Within(release.value.assets, expected) && (!release.value.draft ==> release.value.assets == expected)
    }
  }

  /** The public release is only ever published after the private one. */
  ghost predicate Ordered(inner: Store, outer: Store, expected: map<string, string>) reads inner, outer {
    && inner.Closed(expected) && outer.Closed(expected)
    && (outer.release.Some? ==> inner.Holds(expected))
  }

  /** The publishing part of `main`. */
  method Publish(inner: Store, outer: Store, expected: map<string, string>, calm: bool) returns (ok: bool)
    requires inner != outer && Ordered(inner, outer, expected)
    modifies inner, outer
    ensures Ordered(inner, outer, expected) && inner.Kept() && outer.Kept()
    ensures ok ==> inner.Holds(expected) && outer.Holds(expected)
    ensures !old(inner.Resumable(expected)) ==>
      !ok && inner.release == old(inner.release) && outer.release == old(outer.release)
    ensures !old(outer.Resumable(expected)) ==> !ok && outer.release == old(outer.release)
    ensures calm && old(inner.Resumable(expected)) && old(outer.Resumable(expected)) ==> ok
  {
    ok := inner.Complete(expected, calm);
    if !ok { return; }
    ok := outer.Complete(expected, calm);
    var confirmed: bool := *;
    if !calm { ok := ok && confirmed; }
  }

  /** Any number of runs from no release, each stopping anywhere: whatever is published is
      exactly the bundle, first privately, and nothing stored was ever replaced. Once an
      upload has stored other bytes, no later run publishes that store. */
  method Runs(inner: Store, outer: Store, expected: map<string, string>, runs: nat) returns (published: bool)
    requires inner != outer && Ordered(inner, outer, expected)
    modifies inner, outer
    ensures Ordered(inner, outer, expected) && inner.Kept() && outer.Kept()
    ensures published ==> inner.Holds(expected) && outer.Holds(expected)
    ensures !old(inner.Resumable(expected)) ==>
      outer.release == old(outer.release) && inner.release == old(inner.release)
    ensures !old(outer.Resumable(expected)) ==> outer.release == old(outer.release)
  {
    published := false;
    for i := 0 to runs
      invariant Ordered(inner, outer, expected) && inner.Kept() && outer.Kept()
      invariant published ==> inner.Holds(expected) && outer.Holds(expected)
      invariant !old(inner.Resumable(expected)) ==>
        outer.release == old(outer.release) && inner.release == old(inner.release)
      invariant !old(outer.Resumable(expected)) ==> outer.release == old(outer.release)
    {
      published := Publish(inner, outer, expected, false);
    }
  }
}
