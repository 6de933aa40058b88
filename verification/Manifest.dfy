/**
 The shared candidate manifest of scripts/release-candidate.py: any number of processes
 change it under a file lock, and each may die at any point. A process that dies loses
 the lock; the manifest itself is replaced atomically.
 */
module Manifest {
  import opened Common

  datatype Reference = Reference(path: string, sha: string)

  datatype Attempt = Attempt(check: string, report: Reference)

  /** `inputs` stands for the source bindings, the wire profile and its configuration. */
  datatype Manifest = Manifest(inputs: string, artifacts: map<string, Reference>, checks: map<string, Reference>,
                               attempts: seq<Attempt>)

  /** What one process wants to add; `inputs` are the ones its check ran against. */
  datatype Update = AddArtifact(name: string, artifact: Reference) | Record(attempt: Attempt, inputs: string)

  /** The change under the lock; None where it raises. */
  function Applied(m: Manifest, u: Update): Option<Manifest> {
    match u
    case AddArtifact(name, artifact) =>
      if name in m.artifacts then None else Some(m.(artifacts := m.artifacts[name := artifact]))
    case Record(attempt, inputs) =>
      if inputs != m.inputs then None
      else Some(m.(checks := m.checks[attempt.check := attempt.report], attempts := m.attempts + [attempt]))
  }

  /** One update after the other, each on the manifest the one before it left. */
  function Replay(m: Manifest, updates: seq<Update>): Option<Manifest>
    decreases |updates|
  {
    if updates == [] then Some(m)
    else match Replay(m, updates[..|updates| - 1])
      case None => None
      case Some(before) => Applied(before, updates[|updates| - 1])
  }

  /** The last attempt of a check. */
  function Latest(attempts: seq<Attempt>, check: string): Option<Reference> {
    if attempts == [] then None
    else if attempts[|attempts| - 1].check == check then Some(attempts[|attempts| - 1].report)
    else Latest(attempts[..|attempts| - 1], check)
  }

  /** Each check names the report of its latest attempt. */
  ghost predicate Current(m: Manifest) {
    forall check :: Latest(m.attempts, check) == if check in m.checks then Some(m.checks[check]) else None
  }

  /** What an update keeps. */
  ghost predicate Extends(a: Manifest, b: Manifest) {
    && b.inputs == a.inputs && a.attempts <= b.attempts
    && forall name | name in a.artifacts :: name in b.artifacts && b.artifacts[name] == a.artifacts[name]
  }

  function Recorded(updates: seq<Update>): seq<Attempt> {
    if updates == [] then []
    else
      var last := updates[|updates| - 1];
      Recorded(updates[..|updates| - 1]) + (if last.Record? then [last.attempt] else [])
  }

  lemma AppliedKeeps(m: Manifest, u: Update)
    requires Applied(m, u).Some?
    ensures Extends(m, Applied(m, u).value)
    ensures Current(m) ==> Current(Applied(m, u).value)
  {
    var next := Applied(m, u).value;
    if u.Record? && Current(m) {
      assert next.attempts[..|next.attempts| - 1] == m.attempts;
    }
  }

  /** Whatever was applied, in whatever order: artifacts are never replaced, attempts are
      exactly the recorded ones behind the original ones, and checks stay current. */
  lemma {:induction false} ReplayKeeps(m: Manifest, updates: seq<Update>)
    requires Replay(m, updates).Some?
    ensures Extends(m, Replay(m, updates).value)
    ensures Replay(m, updates).value.attempts == m.attempts + Recorded(updates)
    ensures Current(m) ==> Current(Replay(m, updates).value)
    ensures forall i | 0 <= i < |updates| && updates[i].AddArtifact? ::
      && updates[i].name !in m.artifacts && updates[i].name in Replay(m, updates).value.artifacts
      && Replay(m, updates).value.artifacts[updates[i].name] == updates[i].artifact
    decreases |updates|
  {
    if updates != [] {
      var earlier := updates[..|updates| - 1];
      ReplayKeeps(m, earlier);
      var before := Replay(m, earlier).value;
      AppliedKeeps(before, updates[|updates| - 1]);
      forall i | 0 <= i < |updates| - 1 ensures updates[i] == earlier[i] {}
    }
  }

  lemma ReplayMore(m: Manifest, updates: seq<Update>, u: Update)
    requires Replay(m, updates).Some?
    ensures Replay(m, updates + [u]) == Applied(Replay(m, updates).value, u)
  {
    assert (updates + [u])[..|updates|] == updates;
  }

  type Pid = nat

  /** Where a process is: holding the lock, or with its own copy of the manifest. */
  datatype Stage = Locked(update: Update) | Read(update: Update, copy: Manifest) | Done

  class Workspace {
    var manifest: Manifest
    var lock: Option<Pid>
    var stages: map<Pid, Stage>

    /** The manifest in the beginning, and the updates that have been written since. */
    ghost var first: Manifest
    ghost var written: seq<Update>

    /** The manifest is what the written updates make of the first one, one after the
        other; only the holder of the lock is past it, and its copy is up to date. */
    ghost predicate Valid() reads this {
      && Replay(first, written) == Some(manifest)
      && (forall pid | pid in stages :: lock == Some(pid))
      && (forall pid | pid in stages && stages[pid].Read? :: stages[pid].copy == manifest)
    }

    constructor (m: Manifest)
      ensures Valid() && manifest == first == m && written == []
    {
      manifest, lock, stages, first, written := m, None, map[], m, [];
    }

    twostate predicate Kept() reads this {
      first == old(first) && old(written) <= written
    }

    /** Entry of `manifest_lock`; nothing happens while another process holds it. */
    method Acquire(pid: Pid, u: Update) returns (got: bool)
      requires Valid()
      modifies this`lock, this`stages
      ensures Valid() && (got <==> old(lock).None?)
    {
      got := lock.None?;
      if got { lock, stages := Some(pid), map[pid := Locked(u)]; }
    }

    /** `read_json` under the lock. */
    method Load(pid: Pid)
      requires Valid() && pid in stages && stages[pid].Locked?
      modifies this`stages
      ensures Valid() && pid in stages && stages[pid] == Read(old(stages)[pid].update, manifest)
    {
      stages := stages[pid := Read(stages[pid].update, manifest)];
    }

    /** The change of the copy and `write_json`; false where it raises. */
    method Store(pid: Pid) returns (ok: bool)
      requires Valid() && pid in stages && stages[pid].Read?
      modifies this`manifest, this`stages, this`written
      ensures Valid() && pid in stages && stages[pid] == Done
      ensures ok <==> match old(stages)[pid].update
        case AddArtifact(name, _) => name !in old(manifest).artifacts
        case Record(_, inputs) => inputs == old(manifest).inputs
      ensures ok ==> match old(stages)[pid].update
        case AddArtifact(name, artifact) =>
          manifest == old(manifest).(artifacts := old(manifest).artifacts[name := artifact])
        case Record(attempt, _) =>
          manifest == old(manifest).(checks := old(manifest).checks[attempt.check := attempt.report],
                                     attempts := old(manifest).attempts + [attempt])
      ensures ok ==> written == old(written) + [old(stages)[pid].update]
      ensures !ok ==> manifest == old(manifest) && written == old(written)
    {
      var u, copy := stages[pid].update, stages[pid].copy;
      assert copy == manifest && lock == Some(pid);
      ReplayMore(first, written, u);
      var next := Applied(copy, u);
      stages := map[pid := Done];
      ok := next.Some?;
      if ok {
        manifest := next.value;
        written := written + [u];
      }
    }

    /** The lock is released, also by the death of its holder at any stage. */
    method Release(pid: Pid)
      requires Valid()
      modifies this`lock, this`stages
      ensures Valid() && pid !in stages && lock != Some(pid)
    {
      if lock == Some(pid) { lock, stages := None, map[]; }
    }
  }

  datatype Step = Enter(pid: Pid, u: Update) | Load(pid: Pid) | Store(pid: Pid) | Leave(pid: Pid)

  /** Any interleaving of any processes, dying anywhere: the manifest is the result of
      exactly the updates that were written, none lost. `stored` counts the writes that
      their processes saw succeed. */
  method Run(w: Workspace, steps: seq<Step>) returns (stored: nat)
    requires w.Valid()
    modifies w
    ensures w.Valid() && w.Kept() && |w.written| == |old(w.written)| + stored
    ensures Extends(w.first, w.manifest) && w.manifest.attempts == w.first.attempts + Recorded(w.written)
    ensures Current(w.first) ==> Current(w.manifest)
    ensures forall i | 0 <= i < |w.written| && w.written[i].AddArtifact? ::
      w.written[i].name in w.manifest.artifacts && w.manifest.artifacts[w.written[i].name] == w.written[i].artifact
  {
    stored := 0;
    for i := 0 to |steps|
      invariant w.Valid() && w.Kept() && |w.written| == |old(w.written)| + stored
    {
      match steps[i] {
        case Enter(pid, u) => var got := w.Acquire(pid, u);
        case Load(pid) => if pid in w.stages && w.stages[pid].Locked? { w.Load(pid); }
        case Store(pid) =>
          if pid in w.stages && w.stages[pid].Read? {
            var ok := w.Store(pid);
            if ok { stored := stored + 1; }
          }
        case Leave(pid) => w.Release(pid);
      }
    }
    ReplayKeeps(w.first, w.written);
  }
}
