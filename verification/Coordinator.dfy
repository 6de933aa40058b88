/**
 The sending side of an encrypted delivery, scripts/release_acceptance_delivery.py: a
 coordinator that may be cut off between any two durable effects and is then called
 again.
 */
module Coordinator {
  import opened Common
  import Base64Url
  import opened ArchiveCodec
  import opened Delivery
  import opened Transcript

  /** What a runner must say about itself, and what the host expects it to say. */
  datatype Worker = Worker(schema: int, protocol: string, request: string, release: string, sources: string,
                           target: string, commit: string, tree: string)

  /** The runner's announcement, acceptance-ready.json. */
  datatype Binding = Binding(worker: Worker, publicKey: string, createdAt: int)

  /** A listed artifact that has the announcement's name and has not expired. */
  datatype Artifact = Artifact(id: int, digest: string, size: int)

  datatype Grant = Grant(expiresAt: int, invitation: seq<byte>)

  /** The marker file sealed-delivery.json. */
  datatype Proof = Proof(request: string, run: int, worker: Worker, artifact: int, archiveSha: string,
                         responseSha: string, archives: map<Role, Bound>, expiresAt: int)

  /** The published directory of the request. */
  datatype Site = Site(archives: map<Role, seq<byte>>, response: Option<Sealed>)

  /** The retained intent: the expected worker, and the digest of each role's archive. */
  datatype Intent = Intent(worker: Worker, specs: map<Role, string>)

  /** What one call of `ready` meets: whether it runs to its end, the provider's answers, the clock, fresh randomness,
      the contents of the retained archives and the host's reply to `issue`. */
  datatype Call = Call(uncut: bool, inProgress: bool, run: int, artifacts: seq<Artifact>, download: seq<byte>, now: int,
                       later: int, private: seq<byte>, nonces: map<Role, seq<byte>>, responseNonce: seq<byte>,
                       retained: map<Role, seq<byte>>, grant: Option<Grant>)

  datatype Outcome = Nothing | Refused | CutOff | Delivered(proof: Proof)

  /** The world of a coordinator: `announcement` reads acceptance-ready.json out of an
      archive, None when its members or their sizes are not the expected ones. */
  datatype Host = Host(world: World, announcement: seq<byte> -> Option<Binding>)

  /** Whether the process is cut off here. */
  method Cutting(call: Call) returns (cut: bool)
    ensures call.uncut ==> !cut
  {
    cut := *;
    if call.uncut { cut := false; }
  }

  predicate FreshRandomness(call: Call) {
    |call.responseNonce| == 12 && forall role: Role :: role in call.nonces && |call.nonces[role]| == 8
  }

  /** The digest of a response file. */
  function ResponseSha(w: World, sealed: Sealed): string { w.suite.hash(w.encodeResponse(sealed)) }

  predicate Identified(a: Artifact) {
    && |a.digest| == 71 && a.digest[..7] == "sha256:" && Hex64(a.digest[7..]) && 0 < a.size <= 65536
  }

  predicate Describes(h: Host, a: Artifact, archive: seq<byte>) {
    "sha256:" + h.world.suite.hash(archive) == a.digest && |archive| == a.size
  }

  predicate Announces(h: Host, intent: Intent, archive: seq<byte>, now: int) {
    match h.announcement(archive)
    case None => false
    case Some(binding) => binding.worker == intent.worker && 0 <= now - binding.createdAt <= 300
  }

  predicate Granted(call: Call) {
    call.grant.Some? && call.later < call.grant.value.expiresAt <= call.later + 3600
    && 0 < |call.grant.value.invitation| <= 48000
  }

  /** What a call needs of the announcement `zip`, written out: one artifact with a digest
      and a size, and `zip` of that digest and size; the expected worker, who announced
      itself at most 300 seconds ago and not later than now; and a usable key. */
  predicate Usable(h: Host, intent: Intent, zip: seq<byte>, call: Call) {
    && |call.artifacts| == 1 && |call.artifacts[0].digest| == 71 && Hex64(call.artifacts[0].digest[7..])
    && 1 <= call.artifacts[0].size <= 65536
    && "sha256:" + h.world.suite.hash(zip) == call.artifacts[0].digest && |zip| == call.artifacts[0].size
    && h.announcement(zip).Some? && h.announcement(zip).value.worker == intent.worker
    && h.announcement(zip).value.createdAt <= call.now <= h.announcement(zip).value.createdAt + 300
    && KeyFor(h.world, call.private, h.announcement(zip).value.publicKey, intent.worker.request, "response").Some?
  }

  /** And what an undisturbed one needs besides for its first delivery: every frozen archive
      with its digest, and a grant for at most an hour. */
  predicate Due(h: Host, intent: Intent, zip: seq<byte>, call: Call) {
    && Usable(h, intent, zip, call)
    && (forall role | role in intent.specs ::
          && role in call.retained && 1 <= |call.retained[role]| <= 12884901888
          && intent.specs[role] == h.world.suite.hash(call.retained[role]))
    && call.grant.Some? && call.later + 1 <= call.grant.value.expiresAt <= call.later + 3600
    && 1 <= |call.grant.value.invitation| <= 48000
  }

  /** `b` and `data` are what a recipient with key `recipient` can decrypt from `sender`. */
  ghost predicate SealedRole(w: World, sender: seq<byte>, recipient: string, request: string, role: Role, sha: string,
                             b: Bound, data: seq<byte>, plain: seq<byte>)
  {
    var k := KeyFor(w, sender, recipient, request, Purpose(role));
    && k.Some? && ArchiveBound(b) && b.sha256 == sha && Matches(w.suite, b, data)
    && Encrypts(w.suite, SessionOf(k.value, request, Purpose(role), b), data, plain)
  }

  /** The archives of the first `i` roles have been sealed, from the bytes in `plains`. */
  ghost predicate SealedSoFar(w: World, sender: seq<byte>, recipient: string, intent: Intent, bounds: map<Role, Bound>,
                              archives: map<Role, seq<byte>>, plains: map<Role, seq<byte>>, i: nat)
  {
    && bounds.Keys == archives.Keys == plains.Keys && RolesSoFar(intent.specs, bounds.Keys, i)
    && forall role | role in bounds ::
         SealedRole(w, sender, recipient, intent.worker.request, role, intent.specs[role], bounds[role], archives[role],
                    plains[role])
  }

  /** The requested ones of the first `i` roles. */
  predicate RolesSoFar(specs: map<Role, string>, roles: set<Role>, i: nat) {
    roles <= specs.Keys && forall role | role in specs :: role in roles <==> Place(role) < i
  }

  /** Who made a delivery, for whom, what it says, which bytes it carries and what they were
      sealed to. */
  datatype Made = Made(sender: seq<byte>, recipient: string, payload: Payload, nonce: seq<byte>,
                       plains: map<Role, seq<byte>>, archives: map<Role, seq<byte>>)

  /** `sealed` is the response of the delivery `m`, which answers the intent. */
  ghost predicate Answers(w: World, intent: Intent, m: Made, sealed: Sealed) {
    && |m.nonce| == 12 && Hex64(intent.worker.request)
    && m.payload.request == intent.worker.request && m.payload.sources == intent.worker.sources
    && m.payload.target == intent.worker.target && m.payload.inputs == intent.specs
    && 0 < |m.payload.invitation| <= 48000
    && Seal(w, m.payload, m.sender, m.recipient, intent.worker.request, m.nonce) == Some(sealed)
  }

  /** The archives of a delivery are the ones its response describes. */
  ghost predicate Beside(w: World, intent: Intent, m: Made) {
    SealedSoFar(w, m.sender, m.recipient, intent, m.payload.archives, m.archives, m.plains, 3)
  }

  /** Some of the archives, unchanged. */
  predicate Among(some: map<Role, seq<byte>>, all: map<Role, seq<byte>>) {
    forall role | role in some :: role in all && some[role] == all[role]
  }

  /** The marker describes the delivery, which was made for the announced runner. */
  ghost predicate Names(h: Host, intent: Intent, m: Made, archive: Option<seq<byte>>, proof: Proof) {
    && proof.request == intent.worker.request && proof.worker == intent.worker
    && proof.archives == m.payload.archives && proof.expiresAt == m.payload.expiresAt
    && archive.Some? && proof.archiveSha == h.world.suite.hash(archive.value)
    && h.announcement(archive.value).Some? && h.announcement(archive.value).value.worker == intent.worker
    && h.announcement(archive.value).value.publicKey == m.recipient
  }

  /** What a removal that was cut off has left. */
  function Kept(archives: map<Role, seq<byte>>, kept: set<Role>): map<Role, seq<byte>> {
    map role | role in kept && role in archives :: archives[role]
  }

  /** The bytes in `plains` were read from `retained`. */
  ghost predicate ReadFrom(plains: map<Role, seq<byte>>, retained: map<Role, seq<byte>>) {
    forall role | role in plains :: role in retained && plains[role] == retained[role]
  }

  /** The encryption loop of a call stands before its turn `i`. */
  ghost predicate Progress(w: World, call: Call, recipient: string, intent: Intent, bounds: map<Role, Bound>,
                           archives: map<Role, seq<byte>>, plains: map<Role, seq<byte>>, i: nat)
  {
    SealedSoFar(w, call.private, recipient, intent, bounds, archives, plains, i) && ReadFrom(plains, call.retained)
  }

  /** The secret that a sender shares with a recipient. */
  function SecretOf(w: World, sender: seq<byte>, recipient: string): seq<byte> {
    match Agreed(w, sender, recipient) case None => [] case Some(secret) => secret
  }

  /** What a call seals for a role. */
  function ArchiveOf(intent: Intent, call: Call, secret: seq<byte>, role: Role): Sent
    requires role in intent.specs && role in call.nonces && role in call.retained
  {
    Archive(secret, intent.worker.request, role, call.nonces[role], |call.retained[role]|, intent.specs[role],
            call.retained[role])
  }

  predicate OfCall(intent: Intent, call: Call, secret: seq<byte>, x: Sent) {
    && x.Archive? && x.role in intent.specs && x.role in call.nonces && x.role in call.retained
    && x == ArchiveOf(intent, call, secret, x.role)
  }

  /** What has been sealed, and besides what had been before only archives of this call. */
  predicate OnlyOfCall(intent: Intent, call: Call, secret: seq<byte>, before: set<Sent>, after: set<Sent>) {
    OnlyUnder(secret, before, after) && forall x | x in after && x !in before :: OfCall(intent, call, secret, x)
  }

  /** What has been sealed, and besides what had been before only under this secret. */
  predicate OnlyUnder(secret: seq<byte>, before: set<Sent>, after: set<Sent>) {
    before <= after && forall x | x in after && x !in before :: x.secret == secret
  }

  /** The archive of a role has been sealed as its description says. */
  predicate RecordedRole(sent: set<Sent>, secret: seq<byte>, request: string, role: Role, b: Bound, plain: seq<byte>) {
    ArchiveBound(b)
    && Archive(secret, request, role, Base64Url.Decode(b.nonce, 8).value, b.size, b.sha256, plain) in sent
  }

  predicate Recorded(sent: set<Sent>, secret: seq<byte>, request: string, bounds: map<Role, Bound>,
                     plains: map<Role, seq<byte>>)
  {
    forall role | role in bounds ::
      role in plains && RecordedRole(sent, secret, request, role, bounds[role], plains[role])
  }

  /** Under this secret nothing was sealed but the delivery, each part of it once. */
  predicate Alone(sent: set<Sent>, secret: seq<byte>, m: Made) {
    && (forall x | x in sent && x.secret == secret ::
          && x.request == m.payload.request && |x.nonce| == (if x.Response? then 12 else 8)
          && (if x.Response? then x.value == m.payload
              else x.role in m.plains && x.plain == m.plains[x.role] && x.size == |x.plain|))
    && forall x, y | x in sent && y in sent && x.secret == y.secret == secret && PurposeOf(x) == PurposeOf(y) :: x == y
  }

  /** All parts of the delivery have been sealed, and nothing else under its secret unless
      a secret was used again. */
  predicate Accounted(w: World, sent: set<Sent>, reused: bool, m: Made) {
    var secret := SecretOf(w, m.sender, m.recipient);
    && Response(secret, m.payload.request, m.nonce, m.payload) in sent
    && Recorded(sent, secret, m.payload.request, m.payload.archives, m.plains)
    && (!reused ==> Alone(sent, secret, m))
  }

  class Sender {
    const host: Host
    const intent: Intent

    var archive: Option<seq<byte>>
    var site: Option<Site>
    var journal: Option<Sealed>
    var marker: Option<Proof>

    /** How many grants the host was asked for. */
    var issued: nat

    ghost var made: Made
    ghost var cleaned: bool

    /** What has been sealed, noted before the first frame is written, and whether a call met
        a secret under which an earlier one had sealed something, as no call with a fresh key
        does. */
    ghost var sent: set<Sent>
    ghost var reused: bool

    /** Without a marker nothing is visible; with one, the journal is the response the
        marker names, whatever response is visible is the journal, and the archives beside it
        are some of those it describes, and all of them until `cleanup`. */
    ghost predicate Valid() reads this {
      && (marker.None? ==> !cleaned && (site.Some? ==> site.value.response.None?))
      && (marker.Some? ==>
           && journal.Some? && ResponseSha(host.world, journal.value) == marker.value.responseSha
           && Answers(host.world, intent, made, journal.value) && Names(host, intent, made, archive, marker.value)
           && Beside(host.world, intent, made) && Accounted(host.world, sent, reused, made)
           && (site.Some? && site.value.response.Some? ==> site.value.response == journal)
           && (site.Some? ==> Among(site.value.archives, made.archives))
           && (!cleaned ==> site.Some? && site.value.archives == made.archives))
    }

    /** Nothing has been delivered yet. */
    ghost predicate Preparing() reads this {
      marker.None? && !cleaned && (site.Some? ==> site.value.response.None?)
    }

    /** What no later step may change once the marker exists. */
    twostate predicate Settled() reads this {
      old(marker).Some? ==>
        && (old(cleaned) ==> cleaned)
        && marker == old(marker) && journal == old(journal) && made == old(made) && archive == old(archive)
        && issued == old(issued) && sent == old(sent) && reused == old(reused)
        && (site.Some? ==> Among(site.value.archives, if old(site).None? then map[] else old(site).value.archives))
        && (old(site).Some? && old(site).value.response.Some? && !cleaned ==> site == old(site))
    }

    constructor (host: Host, intent: Intent)
      ensures Valid() && this.host == host && this.intent == intent
      ensures marker.None? && site.None? && journal.None? && archive.None? && issued == 0 && !cleaned
      ensures sent == {} && !reused
    {
      this.host, this.intent, sent, reused := host, intent, {}, false;
      archive, site, journal, marker, issued, cleaned := None, None, None, None, 0, false;
    }

    /** The announcement a call works with: the retained one, or the one it fetches. */
    function Zip(call: Call): seq<byte> reads this { if archive.Some? then archive.value else call.download }

    /** Everything `ready` checks before it changes anything but the retained announcement. */
    predicate Ripe(call: Call) reads this {
      && |call.artifacts| == 1 && Identified(call.artifacts[0])
      && Describes(host, call.artifacts[0], Zip(call)) && Announces(host, intent, Zip(call), call.now)
      && KeyFor(host.world, call.private, host.announcement(Zip(call)).value.publicKey, intent.worker.request,
                "response").Some?
    }

    lemma UsableIs(call: Call)
      ensures Usable(host, intent, Zip(call), call) <==> Ripe(call)
    {
      if |call.artifacts| == 1 && Describes(host, call.artifacts[0], Zip(call)) {
        assert "sha256:" == ("sha256:" + host.world.suite.hash(Zip(call)))[..7];
      }
    }

    lemma DueIs(call: Call)
      ensures Due(host, intent, Zip(call), call) <==> Ripe(call) && Retained(host.world, intent, call) && Granted(call)
    {
      UsableIs(call);
    }

    /** The marker and the delivery are about this call's run, artifact and grant. */
    ghost predicate Stems(call: Call) reads this {
      && marker.Some? && journal.Some? && |call.artifacts| == 1 && call.grant.Some?
      && marker.value.responseSha == host.world.suite.hash(host.world.encodeResponse(journal.value))
      && marker.value.run == call.run && marker.value.artifact == call.artifacts[0].id
      && marker.value.expiresAt == call.grant.value.expiresAt
      && made.payload.invitation == call.grant.value.invitation && made.nonce == call.responseNonce
      && made.sender == call.private
    }

    /** The secret of a call. */
    function Secret(call: Call): seq<byte> reads this
      requires host.announcement(Zip(call)).Some?
    {
      SecretOf(host.world, call.private, host.announcement(Zip(call)).value.publicKey)
    }

    /** The call meets a secret that was used before. */
    ghost predicate Repeats(call: Call) reads this {
      host.announcement(Zip(call)).Some? && Used(sent, Secret(call))
    }

    /** The branch of `ready` for an existing marker. */
    method Republish(call: Call) returns (outcome: Outcome)
      requires Valid() && marker.Some?
      modifies this`site
      ensures Valid() && Settled()
      ensures outcome != CutOff ==>
        outcome == if marker.value.request == intent.worker.request && marker.value.run == call.run
        && marker.value.worker.sources == intent.worker.sources && marker.value.worker.commit == intent.worker.commit
        then Delivered(marker.value) else Refused
      ensures outcome.Delivered? ==> site.Some? && site.value.response == journal
      ensures outcome.Delivered? && old(site).None? ==> site == Some(Site(map[], journal))
      ensures outcome.Delivered? && old(site).Some? ==> site == Some(old(site).value.(response := journal))
      ensures outcome == Refused ==> site == old(site)
      ensures call.uncut ==> outcome != CutOff
    {
      var cut: bool;
      var proof := marker.value;
      if proof.request != intent.worker.request || proof.run != call.run
         || proof.worker.sources != intent.worker.sources || proof.worker.commit != intent.worker.commit {
        return Refused;
      }
      if ResponseSha(host.world, journal.value) != proof.responseSha { return Refused; }
      if site.None? || site.value.response.None? {
        if site.None? { site := Some(Site(map[], None)); }
        cut := Cutting(call);
        if cut { return CutOff; }
        site := Some(site.value.(response := journal));
        cut := Cutting(call);
        if cut { return CutOff; }
      }
      if ResponseSha(host.world, site.value.response.value) != proof.responseSha { return Refused; }
      outcome := Delivered(proof);
    }

    /** The removal of an unfinished publication and the new, empty directory. */
    method Clear(call: Call) returns (done: bool)
      requires Preparing()
      modifies this`site
      ensures Preparing()
      ensures done ==> site == Some(Site(map[], None))
      ensures call.uncut ==> done
    {
      var cut: bool;
      if site.Some? {
        var kept: set<Role> := *;
        site := Some(Site(Kept(site.value.archives, kept), None));
        cut := Cutting(call);
        if cut { return false; }
        site := None;
        cut := Cutting(call);
        if cut { return false; }
      }
      site := Some(Site(map[], None));
      cut := Cutting(call);
      done := !cut;
    }

    /** `encrypt_archive` into the directory, which first holds some part of the file. */
    method WriteSealed(call: Call, recipient: string, role: Role) returns (turn: Turn<Bound>)
      requires Preparing() && site.Some? && role in intent.specs && FreshRandomness(call) && LawfulWorld(host.world)
      requires KeyFor(host.world, call.private, recipient, intent.worker.request, "response").Some?
      modifies this`site, this`sent
      ensures OnlyOfCall(intent, call, SecretOf(host.world, call.private, recipient), old(sent), sent)
      ensures turn.More? ==>
        role in call.retained
        && RecordedRole(sent, SecretOf(host.world, call.private, recipient), intent.worker.request, role, turn.value,
                        call.retained[role])
      ensures Preparing() && site.Some? && (call.uncut ==> turn != Cut)
      ensures turn != Cut ==> (turn.More? <==> Unchanged(host.world, intent, call, role))
      ensures turn.More? ==>
        && role in site.value.archives && role in call.retained
        && site.value.archives == old(site).value.archives[role := site.value.archives[role]]
        && SealedRole(host.world, call.private, recipient, intent.worker.request, role, intent.specs[role],
                      turn.value, site.value.archives[role], call.retained[role])
    {
      if role !in call.retained { return Bad; }
      sent := sent + {ArchiveOf(intent, call, SecretOf(host.world, call.private, recipient), role)};
      var before := site.value.archives;
      var partial: seq<byte> := *;
      site := Some(Site(before[role := partial], None));
      var cut := Cutting(call);
      if cut { return Cut; }
      var k := KeyFor(host.world, call.private, recipient, intent.worker.request, Purpose(role)).value;
      var made := Encryption(host.world.suite, call.retained[role], k, intent.worker.request, Purpose(role),
                             intent.specs[role], call.nonces[role]);
      if made.None? {
        site := Some(Site(before - {role}, None));
        return Bad;
      }
      EncryptionSeals(host.world, intent, call, recipient, role);
      site := Some(Site(before[role := made.value.1], None));
      cut := Cutting(call);
      turn := if cut then Cut else More(made.value.0);
    }

    /** One turn of the encryption loop. */
    method SealNext(call: Call, recipient: string, bounds: map<Role, Bound>, ghost plains: map<Role, seq<byte>>, i: nat)
      returns (turn: Turn<map<Role, Bound>>, ghost more: map<Role, seq<byte>>)
      requires Preparing() && site.Some? && i < 3 && FreshRandomness(call) && LawfulWorld(host.world)
      requires KeyFor(host.world, call.private, recipient, intent.worker.request, "response").Some?
      requires Progress(host.world, call, recipient, intent, bounds, site.value.archives, plains, i)
      requires Recorded(sent, SecretOf(host.world, call.private, recipient), intent.worker.request, bounds, plains)
      modifies this`site, this`sent
      ensures OnlyOfCall(intent, call, SecretOf(host.world, call.private, recipient), old(sent), sent)
      ensures turn.More? ==>
        Recorded(sent, SecretOf(host.world, call.private, recipient), intent.worker.request, turn.value, more)
      ensures Preparing() && site.Some? && (call.uncut ==> turn != Cut)
      ensures turn != Cut ==>
        (turn.More? <==> ORDER[i] in intent.specs ==> Unchanged(host.world, intent, call, ORDER[i]))
      ensures turn.More? ==> Progress(host.world, call, recipient, intent, turn.value, site.value.archives, more, i + 1)
    {
      var role := ORDER[i];
      ghost var before := site.value.archives;
      turn, more := More(bounds), plains;
      if role in intent.specs {
        var written := WriteSealed(call, recipient, role);
        if written.More? {
          more := plains[role := call.retained[role]];
          SealedNext(host.world, call, recipient, intent, bounds, before, plains, i, written.value,
                     site.value.archives[role]);
        }
        turn := if written.More? then More(bounds[role := written.value]) else if written.Cut? then Cut else Bad;
      } else {
        SealedSkip(host.world, call, recipient, intent, bounds, before, plains, i);
      }
    }

    /** The retrieval of the announcement; None when refused or cut off. */
    method Retrieve(call: Call) returns (cut: bool, recipient: Option<string>)
      requires Preparing() && |call.artifacts| == 1
      modifies this`archive
      ensures Preparing()
      ensures !cut ==> (recipient.Some? <==> old(Ripe(call)))
      ensures !cut ==>
        (recipient.Some?
         <==> Usable(host, intent, if old(archive).Some? then old(archive).value else call.download, call))
      ensures recipient.Some? ==>
        && !cut && archive == Some(old(Zip(call))) && Announces(host, intent, archive.value, call.now)
        && recipient.value == host.announcement(archive.value).value.publicKey
        && KeyFor(host.world, call.private, recipient.value, intent.worker.request, "response").Some?
      ensures call.uncut ==> !cut
    {
      UsableIs(call);
      var artifact := call.artifacts[0];
      if !Identified(artifact) { return false, None; }
      if archive.None? {
        cut := Cutting(call);
        if cut { return true, None; }
        if !Describes(host, artifact, call.download) { return false, None; }
        archive := Some(call.download);
        cut := Cutting(call);
        if cut { return true, None; }
      }
      if !Describes(host, artifact, archive.value) || !Announces(host, intent, archive.value, call.now) {
        return false, None;
      }
      var key := host.announcement(archive.value).value.publicKey;
      if KeyFor(host.world, call.private, key, intent.worker.request, "response").None? { return false, None; }
      return false, Some(key);
    }

    /** The encryption of every requested archive into the new directory. */
    method SealAll(call: Call, recipient: string)
      returns (turn: Turn<map<Role, Bound>>, ghost plains: map<Role, seq<byte>>)
      requires Preparing() && FreshRandomness(call) && LawfulWorld(host.world)
      requires site == Some(Site(map[], None))
      requires KeyFor(host.world, call.private, recipient, intent.worker.request, "response").Some?
      modifies this`site, this`sent
      ensures OnlyOfCall(intent, call, SecretOf(host.world, call.private, recipient), old(sent), sent)
      ensures turn.More? ==>
        Recorded(sent, SecretOf(host.world, call.private, recipient), intent.worker.request, turn.value, plains)
      ensures Preparing() && site.Some?
      ensures turn != Cut ==> (turn.More? <==> Retained(host.world, intent, call))
      ensures turn.More? ==> Progress(host.world, call, recipient, intent, turn.value, site.value.archives, plains, 3)
      ensures call.uncut ==> turn != Cut
    {
      turn, plains := More(map[]), map[];
      SealedFirst(host.world, call, recipient, intent);
      for i := 0 to 3
        invariant Preparing() && site.Some? && turn.More?
        invariant OnlyOfCall(intent, call, SecretOf(host.world, call.private, recipient), old(sent), sent)
        invariant Recorded(sent, SecretOf(host.world, call.private, recipient), intent.worker.request, turn.value,
                           plains)
        invariant Progress(host.world, call, recipient, intent, turn.value, site.value.archives, plains, i)
        invariant RetainedSoFar(host.world, intent, call, i)
      {
        RetainedNext(host.world, intent, call, i);
        turn, plains := SealNext(call, recipient, turn.value, plains, i);
        if !turn.More? { return; }
      }
      RetainedAll(host.world, intent, call);
    }

    /** The journal, the marker and the visible response, in this order. */
    method Commit(call: Call, recipient: string, bounds: map<Role, Bound>, ghost plains: map<Role, seq<byte>>)
      returns (outcome: Outcome)
      requires Preparing() && FreshRandomness(call) && LawfulWorld(host.world)
      requires Granted(call) && site.Some? && |call.artifacts| == 1
      requires archive.Some? && Announces(host, intent, archive.value, call.now)
      requires recipient == host.announcement(archive.value).value.publicKey
      requires KeyFor(host.world, call.private, recipient, intent.worker.request, "response").Some?
      requires SealedFor(call, recipient, bounds, plains, site.value.archives)
      modifies this`site, this`journal, this`marker, this`made, this`sent
      ensures OnlyUnder(SecretOf(host.world, call.private, recipient), old(sent), sent)
      ensures marker.Some? ==> made.plains == plains && Stems(call)
      ensures Valid() && (outcome == CutOff || outcome.Delivered?)
      ensures outcome.Delivered? ==> marker == Some(outcome.proof) && site.Some? && site.value.response == journal
      ensures call.uncut ==> outcome != CutOff
    {
      var payload := PayloadOf(intent, call, bounds);
      var sealed := Seal(host.world, payload, call.private, recipient, intent.worker.request, call.responseNonce).value;
      var proof := ProofOf(host, intent, call, bounds, archive.value, sealed);
      ghost var m := Made(call.private, recipient, payload, call.responseNonce, plains, site.value.archives);
      EverythingAccounted(host.world, intent, call, recipient, sent, reused, m);
      sent := sent + {Response(SecretOf(host.world, call.private, recipient), intent.worker.request, m.nonce, payload)};
      outcome := Keep(call, proof, sealed, m);
    }

    /** The journal, behind which the rest follows. */
    method Keep(call: Call, proof: Proof, sealed: Sealed, ghost m: Made) returns (outcome: Outcome)
      requires Preparing() && site.Some? && proof.responseSha == ResponseSha(host.world, sealed)
      requires Answers(host.world, intent, m, sealed) && Names(host, intent, m, archive, proof)
      requires Beside(host.world, intent, m) && m.archives == site.value.archives
      requires Accounted(host.world, sent, reused, m)
      modifies this`site, this`journal, this`marker, this`made
      ensures Valid() && (outcome == CutOff || outcome == Delivered(proof))
      ensures marker.Some? ==> marker == Some(proof) && made == m
      ensures outcome.Delivered? ==> marker == Some(proof) && site.Some? && site.value.response == journal
      ensures call.uncut ==> outcome != CutOff
    {
      outcome := CutOff;
      var cut := Cutting(call);
      if !cut {
        journal := Some(sealed);
        cut := Cutting(call);
        if !cut { outcome := Announce(call, proof, sealed, m); }
      }
    }

    /** The marker and the visible response, behind the journal. */
    method Announce(call: Call, proof: Proof, sealed: Sealed, ghost m: Made) returns (outcome: Outcome)
      requires Preparing() && site.Some? && journal == Some(sealed)
      requires proof.responseSha == ResponseSha(host.world, sealed)
      requires Answers(host.world, intent, m, sealed) && Names(host, intent, m, archive, proof)
      requires Beside(host.world, intent, m) && m.archives == site.value.archives
      requires Accounted(host.world, sent, reused, m)
      modifies this`site, this`marker, this`made
      ensures Valid() && made == m && marker == Some(proof) && (outcome == CutOff || outcome == Delivered(proof))
      ensures call.uncut ==> outcome != CutOff
      ensures outcome.Delivered? ==> marker == Some(proof) && site.Some? && site.value.response == journal
    {
      marker, made := Some(proof), m;
      var cut := Cutting(call);
      if !cut {
        site := Some(site.value.(response := Some(sealed)));
        cut := Cutting(call);
      }
      outcome := if cut then CutOff else Delivered(proof);
    }

    /** `ready` from the retrieval of the announcement on. */
    method Publish(call: Call) returns (outcome: Outcome)
      requires Valid() && FreshRandomness(call) && LawfulWorld(host.world) && marker.None? && |call.artifacts| == 1
      modifies this`archive, this`site, this`journal, this`marker, this`made, this`issued, this`sent, this`reused
      ensures Valid() && outcome != Nothing
      ensures sent == old(sent) || (old(Ripe(call)) && OnlyUnder(old(Secret(call)), old(sent), sent))
      ensures reused ==> old(reused) || old(Repeats(call))
      ensures old(issued) <= issued <= old(issued) + 1
      ensures issued != old(issued) ==> old(Ripe(call)) && Retained(host.world, intent, call)
      ensures marker.Some? ==> issued == old(issued) + 1 && ReadFrom(made.plains, call.retained) && Stems(call)
      ensures outcome.Delivered? ==> marker == Some(outcome.proof) && site.Some? && site.value.response == journal
      ensures outcome != CutOff ==>
        (outcome.Delivered? <==> old(Ripe(call)) && Retained(host.world, intent, call) && Granted(call))
      ensures call.uncut ==> outcome != CutOff
    {
      var cut, recipient := Retrieve(call);
      if cut { return CutOff; }
      if recipient.None? { return Refused; }
      outcome := Deliver(call, recipient.value);
    }

    /** The encryption for an announced recipient, the grant and what follows it. */
    method Deliver(call: Call, recipient: string) returns (outcome: Outcome)
      requires Preparing() && FreshRandomness(call) && LawfulWorld(host.world) && |call.artifacts| == 1
      requires archive.Some? && Announces(host, intent, archive.value, call.now)
      requires recipient == host.announcement(archive.value).value.publicKey
      requires KeyFor(host.world, call.private, recipient, intent.worker.request, "response").Some?
      modifies this`site, this`journal, this`marker, this`made, this`issued, this`sent, this`reused
      ensures Valid() && outcome != Nothing
      ensures OnlyUnder(SecretOf(host.world, call.private, recipient), old(sent), sent)
      ensures reused <==> old(reused) || Used(old(sent), SecretOf(host.world, call.private, recipient))
      ensures old(issued) <= issued <= old(issued) + 1
      ensures issued != old(issued) ==> Retained(host.world, intent, call)
      ensures marker.Some? ==> issued == old(issued) + 1 && ReadFrom(made.plains, call.retained) && Stems(call)
      ensures outcome.Delivered? ==> marker == Some(outcome.proof) && site.Some? && site.value.response == journal
      ensures outcome != CutOff ==> (outcome.Delivered? <==> Retained(host.world, intent, call) && Granted(call))
      ensures call.uncut ==> outcome != CutOff
    {
      var turn, plains := Prepare(call, recipient);
      if turn.More? {
        outcome := Issue(call, recipient, turn.value, plains);
      } else {
        outcome := if turn.Cut? then CutOff else Refused;
      }
    }

    /** A new directory with everything that was requested. */
    method Prepare(call: Call, recipient: string)
      returns (turn: Turn<map<Role, Bound>>, ghost plains: map<Role, seq<byte>>)
      requires Preparing() && FreshRandomness(call) && LawfulWorld(host.world)
      requires KeyFor(host.world, call.private, recipient, intent.worker.request, "response").Some?
      modifies this`site, this`sent, this`reused
      ensures Preparing()
      ensures OnlyUnder(SecretOf(host.world, call.private, recipient), old(sent), sent)
      ensures reused <==> old(reused) || Used(old(sent), SecretOf(host.world, call.private, recipient))
      ensures turn != Cut ==> (turn.More? <==> Retained(host.world, intent, call))
      ensures turn.More? ==>
        && site.Some? && SealedFor(call, recipient, turn.value, plains, site.value.archives)
      ensures call.uncut ==> turn != Cut
    {
      ghost var secret := SecretOf(host.world, call.private, recipient);
      reused := reused || Used(sent, secret);
      var cleared := Clear(call);
      turn, plains := Cut, map[];
      if cleared {
        turn, plains := SealAll(call, recipient);
        if !reused { OnlyArchivesSince(intent, call, secret, old(sent), sent); }
      }
    }

    /** Every requested archive is in the directory, described by `bounds` and made from
        `plains`, and all of that has been noted as sealed. */
    ghost predicate SealedFor(call: Call, recipient: string, bounds: map<Role, Bound>, plains: map<Role, seq<byte>>,
                           archives: map<Role, seq<byte>>) reads this {
      && Progress(host.world, call, recipient, intent, bounds, archives, plains, 3)
      && Recorded(sent, SecretOf(host.world, call.private, recipient), intent.worker.request, bounds, plains)
      && (!reused ==> OnlyArchives(intent, call, SecretOf(host.world, call.private, recipient), sent))
    }

    /** The request for a grant, and the response. */
    method Issue(call: Call, recipient: string, bounds: map<Role, Bound>, ghost plains: map<Role, seq<byte>>)
      returns (outcome: Outcome)
      requires Preparing() && FreshRandomness(call) && LawfulWorld(host.world) && site.Some? && |call.artifacts| == 1
      requires archive.Some? && Announces(host, intent, archive.value, call.now)
      requires recipient == host.announcement(archive.value).value.publicKey
      requires KeyFor(host.world, call.private, recipient, intent.worker.request, "response").Some?
      requires SealedFor(call, recipient, bounds, plains, site.value.archives)
      modifies this`site, this`journal, this`marker, this`made, this`issued, this`sent
      ensures Valid() && outcome != Nothing
      ensures OnlyUnder(SecretOf(host.world, call.private, recipient), old(sent), sent)
      ensures issued == old(issued) + 1
      ensures marker.Some? ==> ReadFrom(made.plains, call.retained) && Stems(call)
      ensures outcome.Delivered? ==> marker == Some(outcome.proof) && site.Some? && site.value.response == journal
      ensures outcome != CutOff ==> (outcome.Delivered? <==> Granted(call))
      ensures call.uncut ==> outcome != CutOff
    {
      issued := issued + 1;
      var cut := Cutting(call);
      if cut { return CutOff; }
      if !Granted(call) { return Refused; }
      outcome := Commit(call, recipient, bounds, plains);
    }

    /** `ready`. */
    method Ready(call: Call) returns (outcome: Outcome)
      requires Valid() && FreshRandomness(call) && LawfulWorld(host.world)
      modifies this
      ensures Valid() && Settled() && cleaned == old(cleaned)
      ensures sent == old(sent) || (old(Ripe(call)) && OnlyUnder(old(Secret(call)), old(sent), sent))
      ensures reused ==> old(reused) || old(Repeats(call))
      ensures old(issued) <= issued <= old(issued) + 1
      ensures issued != old(issued) ==> call.inProgress && old(Ripe(call)) && Retained(host.world, intent, call)
      ensures old(marker).None? && marker.Some? ==>
        issued == old(issued) + 1 && ReadFrom(made.plains, call.retained) && Stems(call)
      ensures issued != old(issued) || marker != old(marker) ==>
        var binding := host.announcement(if old(archive).Some? then old(archive).value else call.download);
        binding.Some? && binding.value.createdAt <= call.now <= binding.value.createdAt + 300
      ensures old(marker).None? && call.inProgress && call.uncut ==>
        (outcome.Delivered?
         <==> Due(host, intent, if old(archive).Some? then old(archive).value else call.download, call))
      ensures outcome.Delivered? ==> marker == Some(outcome.proof) && site.Some? && site.value.response == journal
      ensures outcome.Nothing?
        <==> !call.inProgress || (old(marker).None? && Hex64(intent.worker.request) && call.artifacts == [])
      ensures old(marker).None? && outcome != CutOff ==>
        (outcome.Delivered?
         <==> call.inProgress && old(Ripe(call)) && Retained(host.world, intent, call) && Granted(call))
      ensures old(marker).Some? && outcome != CutOff ==>
        (outcome.Delivered? <==> call.inProgress && old(marker).value.run == call.run)
      ensures call.uncut ==> outcome != CutOff
    {
      DueIs(call);
      if !call.inProgress { return Nothing; }
      if !Hex64(intent.worker.request) { return Refused; }
      if marker.Some? {
        outcome := Republish(call);
      } else if call.artifacts == [] {
        outcome := Nothing;
      } else if |call.artifacts| != 1 {
        outcome := Refused;
      } else {
        outcome := Publish(call);
      }
    }

    /** `cleanup`: the published directory goes away. */
    method Cleanup() returns (done: bool)
      requires Valid()
      modifies this`site, this`cleaned
      ensures Valid() && Settled() && (done ==> site.None?)
      ensures cleaned <==> old(cleaned) || marker.Some?
    {
      cleaned := cleaned || marker.Some?;
      if site.Some? {
        var kept: set<Role> := *;
        var keep: bool := *;
        var response := if keep then site.value.response else None;
        site := Some(Site(Kept(site.value.archives, kept), response));
        if * { return false; }
      }
      site := None;
      done := true;
    }
  }

  function PayloadOf(intent: Intent, call: Call, bounds: map<Role, Bound>): Payload
    requires call.grant.Some?
  {
    Payload(intent.worker.request, intent.worker.sources, intent.worker.target, intent.specs, bounds,
            call.grant.value.expiresAt, call.grant.value.invitation)
  }

  function ProofOf(h: Host, intent: Intent, call: Call, bounds: map<Role, Bound>, zip: seq<byte>, sealed: Sealed): Proof
    requires call.grant.Some? && |call.artifacts| == 1
  {
    Proof(intent.worker.request, call.run, intent.worker, call.artifacts[0].id, h.world.suite.hash(zip),
          ResponseSha(h.world, sealed), bounds, call.grant.value.expiresAt)
  }

  /** Under the secret, only archives of this call were sealed. */
  predicate OnlyArchives(intent: Intent, call: Call, secret: seq<byte>, sent: set<Sent>) {
    forall x | x in sent && x.secret == secret :: OfCall(intent, call, secret, x)
  }

  predicate Used(sent: set<Sent>, secret: seq<byte>) { exists x :: x in sent && x.secret == secret }

  lemma OnlyArchivesSince(intent: Intent, call: Call, secret: seq<byte>, before: set<Sent>, after: set<Sent>)
    requires OnlyOfCall(intent, call, secret, before, after) && !Used(before, secret)
    ensures OnlyArchives(intent, call, secret, after)
  {
  }

  lemma EverythingAccounted(w: World, intent: Intent, call: Call, recipient: string, sent: set<Sent>, reused: bool,
                            m: Made)
    requires FreshRandomness(call) && m.sender == call.private && m.recipient == recipient
    requires m.nonce == call.responseNonce && m.payload.request == intent.worker.request
    requires Recorded(sent, SecretOf(w, call.private, recipient), intent.worker.request, m.payload.archives, m.plains)
    requires RolesSoFar(intent.specs, m.plains.Keys, 3) && ReadFrom(m.plains, call.retained)
    requires !reused ==> OnlyArchives(intent, call, SecretOf(w, call.private, recipient), sent)
    ensures
      var x := Response(SecretOf(w, call.private, recipient), intent.worker.request, m.nonce, m.payload);
      Accounted(w, sent + {x}, reused, m)
  {
    var secret := SecretOf(w, call.private, recipient);
    var x := Response(secret, intent.worker.request, m.nonce, m.payload);
    assert Recorded(sent + {x}, secret, intent.worker.request, m.payload.archives, m.plains);
    if !reused { AloneAfterwards(intent, call, secret, sent, x, m); }
  }

  lemma AloneAfterwards(intent: Intent, call: Call, secret: seq<byte>, sent: set<Sent>, x: Sent, m: Made)
    requires FreshRandomness(call) && m.nonce == call.responseNonce && m.payload.request == intent.worker.request
    requires x == Response(secret, intent.worker.request, m.nonce, m.payload)
    requires RolesSoFar(intent.specs, m.plains.Keys, 3) && ReadFrom(m.plains, call.retained)
    requires OnlyArchives(intent, call, secret, sent)
    ensures Alone(sent + {x}, secret, m)
  {
    forall y | y in sent && y.secret == secret ensures y.role in m.plains && |y.nonce| == 8 {
      assert OfCall(intent, call, secret, y) && Place(y.role) < 3;
    }
    forall y, z | y in sent + {x} && z in sent + {x} && y.secret == z.secret == secret && PurposeOf(y) == PurposeOf(z)
      ensures y == z
    {
      assert y in sent ==> OfCall(intent, call, secret, y);
      assert z in sent ==> OfCall(intent, call, secret, z);
      PurposesApart(y, z);
    }
  }

  lemma PurposesApart(x: Sent, y: Sent)
    requires PurposeOf(x) == PurposeOf(y)
    ensures x.Response? == y.Response? && (x.Archive? ==> x.role == y.role)
  {
    PurposesDiffer(x, PurposeOf(y));
    PurposesDiffer(y, PurposeOf(x));
  }

  /** Every requested archive is still the one that was frozen. */
  predicate Retained(w: World, intent: Intent, call: Call) {
    forall role | role in intent.specs :: Unchanged(w, intent, call, role)
  }

  lemma PlacesAreDistinct(i: nat)
    requires i < 3
    ensures forall role: Role :: Place(role) == i <==> role == ORDER[i]
  {
  }

  ghost predicate RetainedSoFar(w: World, intent: Intent, call: Call, i: nat) {
    forall role | role in intent.specs && Place(role) < i :: Unchanged(w, intent, call, role)
  }

  lemma RetainedNext(w: World, intent: Intent, call: Call, i: nat)
    requires i < 3 && RetainedSoFar(w, intent, call, i)
    ensures (ORDER[i] in intent.specs ==> Unchanged(w, intent, call, ORDER[i])) ==>
      RetainedSoFar(w, intent, call, i + 1)
    ensures !(ORDER[i] in intent.specs ==> Unchanged(w, intent, call, ORDER[i])) ==> !Retained(w, intent, call)
  {
    PlacesAreDistinct(i);
  }

  lemma RetainedAll(w: World, intent: Intent, call: Call)
    requires RetainedSoFar(w, intent, call, 3)
    ensures Retained(w, intent, call)
  {
    forall role: Role ensures Place(role) < 3 {}
  }

  lemma SealedFirst(w: World, call: Call, recipient: string, intent: Intent)
    ensures Progress(w, call, recipient, intent, map[], map[], map[], 0)
  {
  }

  datatype Turn<T> = Cut | Bad | More(value: T)

  lemma EncryptionSeals(w: World, intent: Intent, call: Call, recipient: string, role: Role)
    requires LawfulWorld(w) && FreshRandomness(call) && role in intent.specs && role in call.retained
    requires KeyFor(w, call.private, recipient, intent.worker.request, Purpose(role)).Some?
    requires
      var k := KeyFor(w, call.private, recipient, intent.worker.request, Purpose(role)).value;
      Encryption(w.suite, call.retained[role], k, intent.worker.request, Purpose(role), intent.specs[role],
                 call.nonces[role]).Some?
    ensures
      var k := KeyFor(w, call.private, recipient, intent.worker.request, Purpose(role)).value;
      var (b, data) := Encryption(w.suite, call.retained[role], k, intent.worker.request, Purpose(role),
                                  intent.specs[role], call.nonces[role]).value;
      b.nonce == Base64Url.Encode(call.nonces[role]) && Base64Url.Decode(b.nonce, 8) == Some(call.nonces[role])
      && b.size == |call.retained[role]| && b.sha256 == intent.specs[role]
      && SealedRole(w, call.private, recipient, intent.worker.request, role, intent.specs[role], b, data,
                    call.retained[role])
  {
    Base64Url.RoundTrip(call.nonces[role]);
    var k := KeyFor(w, call.private, recipient, intent.worker.request, Purpose(role)).value;
    EncryptionIsSound(w.suite, call.retained[role], k, intent.worker.request, Purpose(role), intent.specs[role],
                      call.nonces[role]);
  }

  lemma SealedMore(w: World, sender: seq<byte>, recipient: string, intent: Intent, bounds: map<Role, Bound>,
                   archives: map<Role, seq<byte>>, plains: map<Role, seq<byte>>, i: nat, b: Bound, data: seq<byte>,
                   plain: seq<byte>)
    requires i < 3 && ORDER[i] in intent.specs && SealedSoFar(w, sender, recipient, intent, bounds, archives, plains, i)
    requires SealedRole(w, sender, recipient, intent.worker.request, ORDER[i], intent.specs[ORDER[i]], b, data, plain)
    ensures SealedSoFar(w, sender, recipient, intent, bounds[ORDER[i] := b], archives[ORDER[i] := data],
                        plains[ORDER[i] := plain], i + 1)
  {
    var role := ORDER[i];
    RolesMore(intent.specs, bounds.Keys, i);
    KeysMore(bounds, role, b);
    KeysMore(archives, role, data);
    KeysMore(plains, role, plain);
  }

  lemma KeysMore<T>(m: map<Role, T>, role: Role, value: T)
    ensures (m[role := value]).Keys == m.Keys + {role}
  {
  }

  lemma RolesMore(specs: map<Role, string>, roles: set<Role>, i: nat)
    requires i < 3 && ORDER[i] in specs && RolesSoFar(specs, roles, i)
    ensures RolesSoFar(specs, roles + {ORDER[i]}, i + 1)
  {
    PlacesAreDistinct(i);
  }

  lemma SealedNext(w: World, call: Call, recipient: string, intent: Intent, bounds: map<Role, Bound>,
                   archives: map<Role, seq<byte>>, plains: map<Role, seq<byte>>, i: nat, b: Bound, data: seq<byte>)
    requires i < 3 && ORDER[i] in intent.specs && ORDER[i] in call.retained
    requires Progress(w, call, recipient, intent, bounds, archives, plains, i)
    requires SealedRole(w, call.private, recipient, intent.worker.request, ORDER[i], intent.specs[ORDER[i]], b, data,
                        call.retained[ORDER[i]])
    ensures Progress(w, call, recipient, intent, bounds[ORDER[i] := b], archives[ORDER[i] := data],
                     plains[ORDER[i] := call.retained[ORDER[i]]], i + 1)
  {
    SealedMore(w, call.private, recipient, intent, bounds, archives, plains, i, b, data, call.retained[ORDER[i]]);
  }

  lemma SealedSkip(w: World, call: Call, recipient: string, intent: Intent, bounds: map<Role, Bound>,
                   archives: map<Role, seq<byte>>, plains: map<Role, seq<byte>>, i: nat)
    requires i < 3 && ORDER[i] !in intent.specs && Progress(w, call, recipient, intent, bounds, archives, plains, i)
    ensures Progress(w, call, recipient, intent, bounds, archives, plains, i + 1)
  {
    PlacesAreDistinct(i);
  }

  /** The retained archive of a role is still the one that was frozen. */
  predicate Unchanged(w: World, intent: Intent, call: Call, role: Role)
    requires role in intent.specs
  {
    && role in call.retained && 0 < |call.retained[role]| <= MAXIMUM
    && w.suite.hash(call.retained[role]) == intent.specs[role]
  }
}
