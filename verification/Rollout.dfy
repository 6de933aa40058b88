/**
 The guarded website rollout of scripts/deploy-website.py: optimistic concurrency against
 any other writer of the same Kubernetes deployment.
 */
module Rollout {
  import opened Common

  /** A volume of the pod template; `configMap` is absent for other kinds of volumes. */
  datatype Volume = Volume(name: string, configMap: Option<Content>)
  datatype Content = Content(name: string, files: set<string>)
  datatype Mount = Mount(name: string, path: string, readOnly: bool, partial: bool)

  /** A pod template; `rest` is everything else in it. */
  datatype Template = Template(volumes: seq<Volume>, mounts: seq<Mount>, rest: string)

  /** The desired state; `replicas` and `rest` are what lies outside the template. */
  datatype Spec = Spec(template: Template, replicas: int, rest: string)

  datatype Status = Status(observed: Option<int>, replicas: int, updated: int, ready: int, available: int, stuck: bool)

  datatype Deployment = Deployment(uid: string, generation: int, spec: Spec, status: Status)

  /** The positions of the volumes called `content`. */
  function Contents(volumes: seq<Volume>, from: nat): (r: seq<nat>)
    requires from <= |volumes|
    ensures forall i :: i in r <==> from <= i < |volumes| && volumes[i].name == "content"
    ensures forall k | 0 <= k < |r| :: from <= r[k] < |volumes|
    decreases |volumes| - from
  {
    if from == |volumes| then []
    else if volumes[from].name == "content" then [from] + Contents(volumes, from + 1)
    else Contents(volumes, from + 1)
  }

  function ContentMounts(mounts: seq<Mount>): seq<Mount> {
    if mounts == [] then []
    else (if mounts[0].name == "content" then [mounts[0]] else []) + ContentMounts(mounts[1..])
  }

  /** `content_volume`: the position of the volume, None where it raises. */
  function ContentVolume(t: Template): Option<nat> {
    var found, mounts := Contents(t.volumes, 0), ContentMounts(t.mounts);
    if |found| == 1 && t.volumes[found[0]].configMap.Some?
       && |mounts| == 1 && mounts[0].path == "/usr/share/nginx/html" && mounts[0].readOnly && !mounts[0].partial
    then Some(found[0]) else None
  }

  /** It is the one volume with that name. */
  lemma ContentVolumeIsUnique(t: Template)
    ensures ContentVolume(t).Some? ==>
      && ContentVolume(t).value < |t.volumes|
      && forall i | 0 <= i < |t.volumes| :: t.volumes[i].name == "content" <==> i == ContentVolume(t).value
  {
    var found := Contents(t.volumes, 0);
    if |found| == 1 {
      assert found[0] in found;
      forall i | i in found ensures i == found[0] {}
    }
  }

  /** The one volume called `content` is a ConfigMap, and the one mount of that name is the
      whole, read-only document root of Nginx. */
  predicate Deployable(t: Template) {
    && (exists i :: 0 <= i < |t.volumes| && t.volumes[i].configMap.Some? && OnlyVolume(t.volumes, i))
    && exists j :: 0 <= j < |t.mounts| && t.mounts[j].path == "/usr/share/nginx/html" && t.mounts[j].readOnly
         && !t.mounts[j].partial && OnlyMount(t.mounts, j)
  }

  predicate OnlyVolume(volumes: seq<Volume>, i: nat) {
    forall k | 0 <= k < |volumes| :: volumes[k].name == "content" <==> k == i
  }

  predicate OnlyMount(mounts: seq<Mount>, j: nat) {
    forall k | 0 <= k < |mounts| :: mounts[k].name == "content" <==> k == j
  }

  predicate OnlyFrom(volumes: seq<Volume>, from: nat, i: nat) {
    from <= i < |volumes| && forall k | from <= k < |volumes| :: volumes[k].name == "content" <==> k == i
  }

  lemma Nothing(s: seq<nat>)
    ensures (forall k :: k !in s) <==> s == []
  {
    if |s| > 0 { assert s[0] in s; }
  }

  lemma {:induction false} OneContent(volumes: seq<Volume>, from: nat, i: nat)
    requires from <= |volumes| && OnlyFrom(volumes, from, i)
    ensures Contents(volumes, from) == [i]
    decreases |volumes| - from
  {
    var rest := Contents(volumes, from + 1);
    if i == from {
      Nothing(rest);
    } else {
      OneContent(volumes, from + 1, i);
    }
  }

  lemma {:induction false} OneContentMount(mounts: seq<Mount>)
    ensures forall j | 0 <= j < |mounts| && OnlyMount(mounts, j) :: ContentMounts(mounts) == [mounts[j]]
    ensures |ContentMounts(mounts)| == 1 ==> exists j :: 0 <= j < |mounts| && OnlyMount(mounts, j)
    ensures ContentMounts(mounts) == [] <==> forall k | 0 <= k < |mounts| :: mounts[k].name != "content"
  {
    if mounts != [] {
      var rest := mounts[1..];
      OneContentMount(rest);
      forall j | 0 <= j < |mounts| && OnlyMount(mounts, j) ensures ContentMounts(mounts) == [mounts[j]] {
        if j > 0 { assert OnlyMount(rest, j - 1); }
      }
      if |ContentMounts(mounts)| == 1 {
        if mounts[0].name == "content" {
          assert OnlyMount(mounts, 0);
        } else {
          var j :| 0 <= j < |rest| && OnlyMount(rest, j);
          assert OnlyMount(mounts, j + 1);
        }
      }
    }
  }

  /** Exactly then the activation finds the volume. */
  lemma ContentVolumeExactly(t: Template)
    ensures ContentVolume(t).Some? <==> Deployable(t)
  {
    OneContentMount(t.mounts);
    OneContentVolume(t.volumes);
    if ContentVolume(t).Some? {
      var j :| 0 <= j < |t.mounts| && OnlyMount(t.mounts, j);
      assert ContentMounts(t.mounts) == [t.mounts[j]];
    }
  }

  lemma OneContentVolume(volumes: seq<Volume>)
    ensures |Contents(volumes, 0)| == 1 ==> OnlyVolume(volumes, Contents(volumes, 0)[0])
    ensures forall i | 0 <= i < |volumes| && OnlyVolume(volumes, i) :: Contents(volumes, 0) == [i]
  {
    var found := Contents(volumes, 0);
    if |found| == 1 {
      assert found[0] in found;
      forall k | k in found ensures k == found[0] {}
    }
    forall i | 0 <= i < |volumes| && OnlyVolume(volumes, i) ensures found == [i] { OneContent(volumes, 0, i); }
  }

  /** A JSON Patch operation, RFC 6902 sections 4.3 and 4.6, on the paths used here. */
  datatype Operation =
    | TestUid(uid: string)
    | TestGeneration(generation: int)
    | TestVolume(index: nat, volume: Volume)
    | ReplaceVolume(index: nat, volume: Volume)

  function ReplaceAt(d: Deployment, index: nat, volume: Volume): Deployment
    requires index < |d.spec.template.volumes|
  {
    d.(spec := d.spec.(template := WithVolume(d.spec.template, index, volume)))
  }

  function WithVolume(t: Template, index: nat, volume: Volume): Template
    requires index < |t.volumes|
  {
    t.(volumes := t.volumes[index := volume])
  }

  function ApplyOne(d: Deployment, op: Operation): Option<Deployment> {
    match op
    case TestUid(uid) => if d.uid == uid then Some(d) else None
    case TestGeneration(g) => if d.generation == g then Some(d) else None
    case TestVolume(i, v) => if i < |d.spec.template.volumes| && d.spec.template.volumes[i] == v then Some(d) else None
    case ReplaceVolume(i, v) => if i < |d.spec.template.volumes| then Some(ReplaceAt(d, i, v)) else None
  }

  /** RFC 6902 section 5: one failing operation and the whole patch has no effect. */
  function Apply(d: Deployment, patch: seq<Operation>): Option<Deployment>
    decreases |patch|
  {
    if patch == [] then Some(d)
    else match ApplyOne(d, patch[0])
      case None => None
      case Some(next) => Apply(next, patch[1..])
  }

  /** `volume_patch`. */
  function VolumePatch(d: Deployment, volume: Volume): Option<seq<Operation>> {
    match ContentVolume(d.spec.template)
    case None => None
    case Some(i) =>
      ContentVolumeIsUnique(d.spec.template);
      Some([TestUid(d.uid), TestGeneration(d.generation), TestVolume(i, d.spec.template.volumes[i]),
            ReplaceVolume(i, volume)])
  }

  /** The patch takes effect on exactly the objects with the uid, the generation and the
      volume that were read, and replaces that volume and nothing else. */
  lemma PatchIsGuarded(read: Deployment, volume: Volume, live: Deployment)
    requires VolumePatch(read, volume).Some?
    ensures
      var i := ContentVolume(read.spec.template).value;
      && i < |read.spec.template.volumes|
      && Apply(live, VolumePatch(read, volume).value)
        == if live.uid == read.uid && live.generation == read.generation
              && i < |live.spec.template.volumes| && live.spec.template.volumes[i] == read.spec.template.volumes[i]
           then Some(ReplaceAt(live, i, volume)) else None
  {
    ContentVolumeIsUnique(read.spec.template);
    var i := ContentVolume(read.spec.template).value;
    var p := VolumePatch(read, volume).value;
    assert p[1..] == [TestGeneration(read.generation), TestVolume(i, read.spec.template.volumes[i]),
                      ReplaceVolume(i, volume)];
    assert p[1..][1..] == [TestVolume(i, read.spec.template.volumes[i]), ReplaceVolume(i, volume)];
    assert p[1..][1..][1..] == [ReplaceVolume(i, volume)];
    assert p[1..][1..][1..][1..] == [];
    if live.uid == read.uid && live.generation == read.generation
       && i < |live.spec.template.volumes| && live.spec.template.volumes[i] == read.spec.template.volumes[i]
    {
      assert Apply(live, p) == Apply(live, p[1..]) == Apply(live, p[1..][1..]) == Apply(live, p[1..][1..][1..]);
      assert Apply(live, p[1..][1..][1..]) == Apply(ReplaceAt(live, i, volume), []);
    } else if live.uid == read.uid && live.generation == read.generation {
      assert Apply(live, p) == Apply(live, p[1..]) == Apply(live, p[1..][1..]);
    } else if live.uid == read.uid {
      assert Apply(live, p) == Apply(live, p[1..]);
    }
  }

  /** `wait_ready` accepts this deployment. */
  predicate FullyReady(d: Deployment) {
    && d.spec.replicas > 0 && d.status.observed == Some(d.generation)
    && d.status.replicas == d.status.updated == d.status.ready == d.status.available == d.spec.replicas
  }

  /** What the controllers report in the end. */
  function ReadyStatus(d: Deployment): Status {
    Status(Some(d.generation), d.spec.replicas, d.spec.replicas, d.spec.replicas, d.spec.replicas, false)
  }

  /** One successful write of ours. */
  datatype Change = Change(before: Deployment, after: Deployment)

  datatype Outcome = Refused | Activated(current: Deployment) | Restored | Stopped | RecoveryFailed

  /** How the cluster behaves: anything may happen; nobody else writes the specification;
      or, besides, every request is answered and the controllers get the pods ready. */
  datatype Weather = Stormy | Quiet | Calm

  /** The API server's copy of the deployment, which others write too. */
  class Cluster {
    var live: Option<Deployment>

    /** The specification that each uid and generation has stood for. */
    var specs: map<(string, int), Spec>

    /** Every deployment that has been live between two of our steps, and our own writes. */
    ghost var past: set<Deployment>
    ghost var ours: seq<Change>

    /** A generation of an object never stands for two specifications, and the live one is
        the latest of its object. */
    ghost predicate Valid() reads this {
      && (live.Some? ==> live.value in past)
      && (forall d | d in past :: Stands(d))
      && (live.Some? ==> forall key | key in specs && key.0 == live.value.uid :: key.1 <= live.value.generation)
    }

    /** What the API server may put in place of the live deployment: the same generation
        with another status, a later generation, or another object with a new uid. */
    predicate Follows(next: Deployment) reads this {
      if live.Some? && next.uid == live.value.uid then
        next.generation > live.value.generation || Same(next, live.value)
      else forall key | key in specs :: key.0 != next.uid
    }

    predicate Stands(d: Deployment) reads this {
      (d.uid, d.generation) in specs && specs[(d.uid, d.generation)] == d.spec
    }

    constructor (d: Deployment)
      ensures Valid() && live == Some(d) && past == {d} && ours == []
    {
      live, past, specs, ours := Some(d), {d}, map[(d.uid, d.generation) := d.spec], [];
    }

    /** The deployment is live from now on. */
    method Install(d: Deployment)
      requires Valid() && Follows(d)
      modifies this`live, this`specs, this`past
      ensures Valid() && live == Some(d) && past == old(past) + {d}
    {
      live, specs := Some(d), specs[(d.uid, d.generation) := d.spec];
      past := past + {d};
    }

    /** Whatever other writers and the controllers have done meanwhile; unless it is
        stormy, only the controllers act, who report status. */
    method Others(w: Weather)
      requires Valid()
      modifies this`live, this`specs, this`past
      ensures Valid() && past >= old(past)
      ensures w != Stormy ==> live.Some? == old(live).Some?
      ensures w != Stormy && live.Some? ==> Same(live.value, old(live).value)
      ensures w == Calm && live.Some? && live.value.spec.replicas > 0 ==> FullyReady(live.value)
    {
      var next: Deployment, status: Status, deleted: bool := *, *, *;
      if w != Stormy {
        if live.Some? { Install(live.value.(status := if w == Calm then ReadyStatus(live.value) else status)); }
      } else if deleted {
        live := None;
      } else if Follows(next) {
        Install(next);
      }
    }

    /** `kubectl get`; Failed when there is no answer. */
    method Get(w: Weather) returns (failed: bool, current: Option<Deployment>)
      requires Valid()
      modifies this`live, this`specs, this`past
      ensures Valid() && past >= old(past)
      ensures current.Some? ==> current.value in past
      ensures !failed ==> current == live
      ensures w == Calm ==> !failed && (live.Some? && live.value.spec.replicas > 0 ==> FullyReady(live.value))
      ensures w != Stormy ==> live.Some? == old(live).Some?
      ensures w != Stormy && live.Some? ==> Same(live.value, old(live).value)
    {
      Others(w);
      failed := *;
      if w == Calm { failed := false; }
      current := if failed then None else live;
    }

    /** `kubectl patch`. The answer may be lost after the patch took effect. */
    method Patch(read: Deployment, volume: Volume, w: Weather) returns (answer: Option<Deployment>)
      requires Valid() && read in past && ContentVolume(read.spec.template).Some?
      modifies this
      ensures Valid() && past >= old(past) && (answer.Some? ==> answer == live && ours != old(ours))
      ensures ours == old(ours) && w != Stormy ==>
        live.Some? == old(live).Some? && (live.Some? ==> Same(live.value, old(live).value))
      ensures w == Calm && old(live).Some? && Same(old(live).value, read) ==> answer.Some?
      ensures ours == old(ours) || (Wrote(old(ours), ours, read, volume) && live == Some(ours[|old(ours)|].after))
      ensures ours != old(ours) && w != Stormy ==> old(live).Some? && Same(old(live).value, read)
    {
      Others(w);
      answer := None;
      var reached: bool, lost: bool := *, *;
      if w == Calm { reached, lost := true, false; }
      if live.None? || !reached { return; }
      var d := live.value;
      PatchIsGuarded(read, volume, d);
      var after := Apply(d, VolumePatch(read, volume).value);
      if after.None? { return; }
      var next := if after.value.spec == d.spec then after.value else after.value.(generation := d.generation + 1);
      Install(next);
      ours := ours + [Change(d, next)];
      if !lost { answer := Some(next); }
    }

    /** `wait_ready`, which looks once more after `polls` turns; None where it raises. */
    method WaitReady(uid: string, template: Template, polls: nat, w: Weather) returns (current: Option<Deployment>)
      requires Valid()
      modifies this`live, this`specs, this`past
      ensures Valid() && past >= old(past)
      ensures current.Some? ==> current.value in past && Serves(current.value, uid, template)
      ensures w == Calm && old(live).Some? && old(live).value.uid == uid && old(live).value.spec.template == template
        && old(live).value.spec.replicas > 0
        ==> current.Some?
      ensures w != Stormy ==> live.Some? == old(live).Some? && (live.Some? ==> Same(live.value, old(live).value))
    {
      for turn := 0 to polls + 1
        invariant Valid() && past >= old(past)
        invariant w == Calm && old(live).Some? && old(live).value.spec.replicas > 0
          && old(live).value.uid == uid && old(live).value.spec.template == template
          ==> turn == 0
        invariant w != Stormy ==> live.Some? == old(live).Some? && (live.Some? ==> Same(live.value, old(live).value))
      {
        var failed;
        failed, current := Get(w);
        if failed || current.None? || current.value.uid != uid || current.value.spec.template != template {
          return None;
        }
        if FullyReady(current.value) { return; }
        if current.value.status.stuck { return None; }
      }
      current := None;
    }

    /** The guarded block of `activate`; None where it raises. */
    method Roll(previous: Deployment, volume: Volume, polls: nat, w: Weather) returns (current: Option<Deployment>)
      requires Valid() && previous in past && ContentVolume(previous.spec.template).Some?
      modifies this
      ensures Valid() && past >= old(past)
      ensures ours == old(ours) || Wrote(old(ours), ours, previous, volume)
      ensures current.Some? ==>
        && ours != old(ours) && current.value in past
        && Serves(current.value, previous.uid, Swapped(previous.spec.template, volume))
      ensures w == Calm && old(live).Some? && Same(old(live).value, previous) && previous.spec.replicas > 0 ==>
        current.Some?
      ensures w != Stormy && old(live).Some? && Same(old(live).value, previous) ==>
        && live.Some? && live.value.uid == previous.uid
        && live.value.spec.template ==
           if ours == old(ours) then previous.spec.template else Swapped(previous.spec.template, volume)
      ensures w != Stormy && old(live).Some? && !Same(old(live).value, previous) ==>
        current.None? && ours == old(ours) && live.Some? && Same(live.value, old(live).value)
    {
      var answer := Patch(previous, volume, w);
      if answer.None? { return None; }
      current := WaitReady(previous.uid, Swapped(previous.spec.template, volume), polls, w);
      var served: bool := *;
      if !served && w != Calm { current := None; }
    }

    /** The recovery of `activate`. */
    method Recover(previous: Deployment, volume: Volume, polls: nat, w: Weather) returns (outcome: Outcome)
      requires Valid() && previous in past && ContentVolume(previous.spec.template).Some? && Versioned(volume)
      modifies this
      ensures Valid() && past >= old(past) && outcome in {Restored, Stopped, RecoveryFailed}
      ensures ours == old(ours) || WroteBack(old(ours), ours, previous, volume)
      ensures outcome == Restored ==>
        ours != old(ours) && exists d :: d in past && Serves(d, previous.uid, previous.spec.template)
      ensures outcome == Stopped ==> ours == old(ours)
      ensures w != Stormy && old(live).Some? && old(live).value.uid == previous.uid
        && old(live).value.spec.template in {previous.spec.template, Swapped(previous.spec.template, volume)}
        && outcome != RecoveryFailed
        ==> live.Some? && live.value.spec.template == previous.spec.template
      ensures w == Calm && old(live).Some? ==>
        && (ours != old(ours) <==> TakesBack(old(live).value, previous, volume))
        && (ours == old(ours) ==> outcome == Stopped)
      ensures w == Calm && old(live).Some? && TakesBack(old(live).value, previous, volume) ==>
        && live.Some? && live.value.spec == old(live).value.spec.(template := previous.spec.template)
        && (old(live).value.spec.replicas > 0 ==> outcome == Restored)
    {
      var template := previous.spec.template;
      var before := template.volumes[ContentVolume(template).value];
      var failed, current := Get(w);
      if failed { return RecoveryFailed; }
      SwapBack(template, volume);
      if current.None? || current.value.uid != previous.uid
         || current.value.spec.template != Swapped(template, volume) || before == volume {
        return Stopped;
      }
      var restored := Patch(current.value, before, w);
      if restored.None? { return RecoveryFailed; }
      var ready := WaitReady(restored.value.uid, restored.value.spec.template, polls, w);
      outcome := if ready.Some? then Restored else RecoveryFailed;
    }

    /** `activate`. */
    method Activate(previous: Deployment, volume: Volume, polls: nat, w: Weather) returns (outcome: Outcome)
      requires Valid() && previous in past && Versioned(volume)
      modifies this
      ensures Valid() && past >= old(past)
      ensures outcome == Refused <==> !Deployable(previous.spec.template)
      ensures outcome == Refused ==> ours == old(ours) && live == old(live)
      ensures OnlyGuardedWrites(old(ours), ours, previous, volume)
      ensures outcome.Activated? ==>
        && Wrote(old(ours), ours, previous, volume) && outcome.current in past
        && Serves(outcome.current, previous.uid, Swapped(previous.spec.template, volume))
        && Observed(outcome.current, previous, volume)
      ensures outcome == Restored ==>
        && |ours| > |old(ours)| && Backward(ours[|ours| - 1], previous, volume)
        && exists d :: d in past && Serves(d, previous.uid, previous.spec.template)
      ensures w == Calm && old(live).Some? && Same(old(live).value, previous) && previous.spec.replicas > 0 ==>
        outcome.Activated? || outcome == Refused
      ensures w != Stormy && old(live).Some? && Same(old(live).value, previous) && outcome != RecoveryFailed ==>
        && live.Some?
        && live.value.spec.template ==
           if outcome.Activated? then Swapped(previous.spec.template, volume) else previous.spec.template
      ensures w == Calm && outcome != Refused && old(live).Some? && !Same(old(live).value, previous) ==>
        if TakesBack(old(live).value, previous, volume) then
          && WroteBack(old(ours), ours, previous, volume) && live.Some?
          && live.value.spec == old(live).value.spec.(template := previous.spec.template)
          && (old(live).value.spec.replicas > 0 ==> outcome == Restored)
        else ours == old(ours) && outcome == Stopped
    {
      ContentVolumeExactly(previous.spec.template);
      if ContentVolume(previous.spec.template).None? { return Refused; }
      ObservedWhenServed(previous, volume);
      SwapBack(previous.spec.template, volume);
      var current := Roll(previous, volume, polls, w);
      if current.Some? { return Activated(current.value); }
      outcome := Recover(previous, volume, polls, w);
    }
  }

  /** All replicas of the object run its latest generation, and its template is the previous
      one with the new volume in place of the one called `content`. */
  predicate Observed(d: Deployment, previous: Deployment, volume: Volume) {
    && d.uid == previous.uid && d.status.observed == Some(d.generation) && d.spec.replicas > 0
    && d.status.replicas == d.spec.replicas && d.status.updated == d.spec.replicas
    && d.status.ready == d.spec.replicas && d.status.available == d.spec.replicas
    && d.spec.template.mounts == previous.spec.template.mounts && d.spec.template.rest == previous.spec.template.rest
    && |d.spec.template.volumes| == |previous.spec.template.volumes|
    && forall i | 0 <= i < |d.spec.template.volumes| ::
         d.spec.template.volumes[i] ==
         if previous.spec.template.volumes[i].name == "content" then volume else previous.spec.template.volumes[i]
  }

  lemma ObservedWhenServed(previous: Deployment, volume: Volume)
    requires ContentVolume(previous.spec.template).Some?
    ensures forall d :: Serves(d, previous.uid, Swapped(previous.spec.template, volume)) ==>
      Observed(d, previous, volume)
  {
    ContentVolumeIsUnique(previous.spec.template);
  }

  /** What the recovery writes over: the object with exactly the template that was being
      activated, where that differs from the previous one. */
  predicate TakesBack(d: Deployment, previous: Deployment, volume: Volume) {
    && ContentVolume(previous.spec.template).Some?
    && d.uid == previous.uid && d.spec.template == Swapped(previous.spec.template, volume)
    && d.spec.template != previous.spec.template
  }

  /** Another writer rolls out the very template that is being activated, just before the
      activation starts: the guarded patch is refused, and the recovery takes the other
      writer's rollout back. */
  method OvertakenByTwin(c: Cluster, previous: Deployment, other: Deployment, volume: Volume, polls: nat)
    returns (outcome: Outcome)
    requires c.Valid() && c.live == Some(previous) && Versioned(volume)
    requires other.generation > previous.generation && TakesBack(other, previous, volume) && other.spec.replicas > 0
    modifies c
    ensures c.Valid() && outcome == Restored
    ensures c.live.Some? && c.live.value.spec == other.spec.(template := previous.spec.template)
    ensures WroteBack(old(c.ours), c.ours, previous, volume)
  {
    ContentVolumeExactly(previous.spec.template);
    c.Install(other);
    outcome := c.Activate(previous, volume, polls, Calm);
  }

  /** The object with the given template, as observed when all its replicas were ready. */
  predicate Serves(d: Deployment, uid: string, template: Template) {
    d.uid == uid && d.spec.template == template && FullyReady(d)
  }

  /** `version_volume` produces such volumes. */
  predicate Versioned(v: Volume) { v.name == "content" && v.configMap.Some? }

  ghost predicate Wrote(before: seq<Change>, after: seq<Change>, read: Deployment, volume: Volume) {
    |after| == |before| + 1 && after[..|before|] == before && Replaces(after[|before|], read, volume)
  }

  ghost predicate WroteBack(before: seq<Change>, after: seq<Change>, previous: Deployment, volume: Volume) {
    |after| == |before| + 1 && after[..|before|] == before && Backward(after[|before|], previous, volume)
  }

  /** A write of the recovery: it found exactly the template that was being activated, and
      put the previous template in its place, whatever lies outside the template. */
  ghost predicate Backward(change: Change, previous: Deployment, volume: Volume) {
    && ContentVolume(previous.spec.template).Some?
    && change.before.uid == previous.uid && change.before.spec.template == Swapped(previous.spec.template, volume)
    && change.after.uid == previous.uid && change.after.spec == change.before.spec.(template := previous.spec.template)
  }

  /** At most one write forward, on exactly what had been read, and then at most one back. */
  ghost predicate OnlyGuardedWrites(before: seq<Change>, after: seq<Change>, previous: Deployment, volume: Volume) {
    || after == before
    || Wrote(before, after, previous, volume)
    || WroteBack(before, after, previous, volume)
    || exists middle :: Wrote(before, middle, previous, volume) && WroteBack(middle, after, previous, volume)
  }

  /** The recovery cannot tell who wrote the template it takes back: any deployment of the
      same object that carries exactly the template being activated is put back, whoever
      rolled it out, and no deployment with another template is. */
  lemma IdenticalRolloutIsReverted(previous: Deployment, volume: Volume, other: Deployment)
    requires ContentVolume(previous.spec.template).Some? && Versioned(volume) && other.uid == previous.uid
    requires other.spec.template == Swapped(previous.spec.template, volume)
    ensures
      var before := previous.spec.template.volumes[ContentVolume(previous.spec.template).value];
      && VolumePatch(other, before).Some?
      && Apply(other, VolumePatch(other, before).value)
         == Some(other.(spec := other.spec.(template := previous.spec.template)))
  {
    SwapBack(previous.spec.template, volume);
    PatchIsGuarded(other, previous.spec.template.volumes[ContentVolume(previous.spec.template).value], other);
  }

  /** Putting the old volume back yields the old template. */
  lemma SwapBack(t: Template, volume: Volume)
    requires ContentVolume(t).Some? && Versioned(volume)
    ensures ContentVolume(Swapped(t, volume)) == ContentVolume(t)
    ensures Swapped(Swapped(t, volume), t.volumes[ContentVolume(t).value]) == t
  {
    var i, s := ContentVolume(t).value, Swapped(t, volume);
    ContentVolumeIsUnique(t);
    SamePositions(t.volumes, s.volumes, 0);
    assert s.volumes[i := t.volumes[i]] == t.volumes;
  }

  lemma {:induction false} SamePositions(a: seq<Volume>, b: seq<Volume>, from: nat)
    requires |a| == |b| && from <= |a| && forall i | 0 <= i < |a| :: a[i].name == b[i].name
    ensures Contents(a, from) == Contents(b, from)
    decreases |a| - from
  {
    if from < |a| { SamePositions(a, b, from + 1); }
  }

  /** The same object in the same generation. */
  predicate Same(a: Deployment, b: Deployment) {
    a.uid == b.uid && a.generation == b.generation && a.spec == b.spec
  }

  /** A write that replaced the content volume, and nothing else, of the very object, in
      the very generation and with the very specification that had been read. */
  ghost predicate Replaces(change: Change, read: Deployment, volume: Volume) {
    && ContentVolume(read.spec.template).Some?
    && Same(change.before, read)
    && change.after.uid == read.uid && change.after.spec.replicas == read.spec.replicas
    && change.after.spec.rest == read.spec.rest
    && change.after.spec.template == Swapped(read.spec.template, volume)
  }

  /** The template with another content volume. */
  function Swapped(t: Template, volume: Volume): Template
    requires ContentVolume(t).Some?
  {
    ContentVolumeIsUnique(t);
    WithVolume(t, ContentVolume(t).value, volume)
  }
}
