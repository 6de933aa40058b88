/**
 A whole delivery: calls of `ready` and `cleanup` in any order, each possibly cut off,
 interleaved with the fetches of one receiver.
 */
module EndToEnd {
  import opened Common
  import Base64Url
  import opened ArchiveCodec
  import Authenticity
  import opened Delivery
  import opened Transcript
  import opened Coordinator

  datatype Step = Try(call: Call) | Clean

  predicate FreshSteps(steps: seq<Step>) {
    forall i | 0 <= i < |steps| && steps[i].Try? :: FreshRandomness(steps[i].call)
  }

  ghost predicate Agree(a: map<Role, seq<byte>>, b: map<Role, seq<byte>>) {
    forall role | role in a && role in b :: a[role] == b[role]
  }

  /** Whatever a call reads from a retained archive is the original. */
  ghost predicate Unaltered(steps: seq<Step>, originals: map<Role, seq<byte>>) {
    forall i | 0 <= i < |steps| && steps[i].Try? :: Agree(steps[i].call.retained, originals)
  }

  /** A delivery that has been made carries the originals. */
  ghost predicate Carries(c: Sender, originals: map<Role, seq<byte>>) reads c {
    c.marker.Some? ==> Agree(c.made.plains, originals)
  }

  /** A call that had asked for a grant and then was cut off or not granted anything. */
  predicate Wasteful(step: Step) {
    step.Try? && step.call.inProgress && !(step.call.uncut && Granted(step.call))
  }

  /** A marker has been left. */
  predicate Left(before: Option<Proof>, after: Option<Proof>) { before.None? && after.Some? }

  /** One step of a run, and whether it wasted a grant. */
  method Advance(c: Sender, step: Step, ghost originals: map<Role, seq<byte>>) returns (wasted: bool)
    requires c.Valid() && LawfulWorld(c.host.world) && (step.Try? ==> FreshRandomness(step.call))
    modifies c
    ensures c.Valid() && c.Settled()
    ensures c.issued == old(c.issued) + (if wasted then 1 else 0) + (if Left(old(c.marker), c.marker) then 1 else 0)
    ensures wasted ==> Wasteful(step) && old(c.marker).None? && c.marker.None?
    ensures old(Carries(c, originals)) && (step.Try? ==> Agree(step.call.retained, originals)) ==> Carries(c, originals)
  {
    wasted := false;
    match step {
      case Try(call) =>
        var before := c.issued;
        var outcome := c.Ready(call);
        wasted := c.issued != before && c.marker.None?;
      case Clean =>
        var done := c.Cleanup();
    }
  }

  /** Any run of the coordinator. `wasted` counts the calls of `ready` that asked for a
      grant and ended without a marker: every grant was asked for by one of them or by the
      call that left the marker. */
  method Run(c: Sender, steps: seq<Step>, ghost originals: map<Role, seq<byte>>) returns (wasted: nat)
    requires c.Valid() && LawfulWorld(c.host.world) && FreshSteps(steps)
    modifies c
    ensures c.Valid() && c.Settled()
    ensures c.issued == old(c.issued) + wasted + (if Left(old(c.marker), c.marker) then 1 else 0)
    ensures wasted <= |Wastefuls(steps)| && (old(c.marker).Some? ==> wasted == 0)
    ensures old(Carries(c, originals)) && Unaltered(steps, originals) ==> Carries(c, originals)
  {
    wasted := 0;
    for i := 0 to |steps|
      invariant c.Valid() && c.Settled()
      invariant c.issued == old(c.issued) + wasted + (if Left(old(c.marker), c.marker) then 1 else 0)
      invariant wasted <= |Wastefuls(steps[..i])| && (old(c.marker).Some? ==> wasted == 0)
      invariant old(Carries(c, originals)) && Unaltered(steps, originals) ==> Carries(c, originals)
    {
      OneMore(steps, i);
      var waste := Advance(c, steps[i], originals);
      if waste { wasted := wasted + 1; }
    }
    assert steps[..|steps|] == steps;
  }

  /** The wasteful ones of the steps. */
  function Wastefuls(steps: seq<Step>): seq<Step> {
    if steps == [] then []
    else
      var last := steps[|steps| - 1];
      Wastefuls(steps[..|steps| - 1]) + (if Wasteful(last) then [last] else [])
  }

  lemma OneMore(steps: seq<Step>, i: nat)
    requires i < |steps|
    ensures |Wastefuls(steps[..i + 1])| == |Wastefuls(steps[..i])| + if Wasteful(steps[i]) then 1 else 0
  {
    assert steps[..i + 1][..i] == steps[..i];
  }

  function OrderOf(intent: Intent): Order {
    Order(intent.worker.request, intent.worker.sources, intent.worker.target, intent.specs)
  }

  /** An archive sealed for a recipient passes every check the recipient makes, and
      decrypts to the bytes it was made from and to no others. */
  lemma SealedIsAccepted(w: World, intent: Intent, m: Made, sealed: Sealed, private: seq<byte>, role: Role,
                         served: map<Role, seq<byte>>, plain: seq<byte>)
    requires LawfulWorld(w) && Answers(w, intent, m, sealed) && m.recipient == Public(w, private)
    requires role in intent.specs && role in m.payload.archives && role in served && role in m.plains
    requires SealedRole(w, m.sender, m.recipient, intent.worker.request, role, intent.specs[role],
                        m.payload.archives[role], served[role], m.plains[role])
    ensures RoleAccepted(w, sealed, m.payload, private, OrderOf(intent), role, served)
    ensures GoodCopy(w, sealed, m.payload, private, OrderOf(intent), role, served, plain) <==> plain == m.plains[role]
  {
    KeyAgreement(w, m.sender, private, intent.worker.request, Purpose(role));
    var k := KeyFor(w, m.sender, m.recipient, intent.worker.request, Purpose(role)).value;
    AcceptanceIsEncryption(w.suite, SessionOf(k, intent.worker.request, Purpose(role), m.payload.archives[role]),
                           served[role]);
  }

  /** Of a delivery's archives, what is left serves its recipient exactly if none that was
      requested is missing. */
  lemma SealedAreDeliverable(w: World, intent: Intent, m: Made, sealed: Sealed, private: seq<byte>,
                             served: map<Role, seq<byte>>)
    requires LawfulWorld(w) && Answers(w, intent, m, sealed) && m.recipient == Public(w, private)
    requires Beside(w, intent, m) && Among(served, m.archives)
    ensures Deliverable(w, sealed, m.payload, private, OrderOf(intent), served)
      <==> DistinctArchives(intent.specs) && intent.specs.Keys <= served.Keys
  {
    forall role | role in intent.specs
      ensures RoleAccepted(w, sealed, m.payload, private, OrderOf(intent), role, served) <==> role in served
    {
      assert Place(role) < 3;
      if role in served { SealedIsAccepted(w, intent, m, sealed, private, role, served, m.plains[role]); }
    }
  }

  lemma AnswerOpens(w: World, intent: Intent, m: Made, sealed: Sealed, private: seq<byte>)
    requires LawfulWorld(w) && Answers(w, intent, m, sealed) && m.recipient == Public(w, private)
    ensures Unseal(w, sealed, private, intent.worker.request)
      == if |sealed.ciphertext| <= RESPONSE_LIMIT then Some(m.payload) else None
  {
    UnsealOpensSealed(w, m.payload, m.sender, private, intent.worker.request, m.nonce);
  }

  /** Completeness: whoever announced the key gets through exactly when the response is
      small enough to be read, the grant has not expired, no two roles share an archive and
      every requested archive is still served. */
  lemma RecipientGetsThrough(w: World, intent: Intent, m: Made, sealed: Sealed, private: seq<byte>,
                             served: map<Role, seq<byte>>, now: int)
    requires LawfulWorld(w) && Answers(w, intent, m, sealed) && m.recipient == Public(w, private)
    requires Beside(w, intent, m) && Among(served, m.archives)
    ensures Acceptable(w, private, OrderOf(intent), sealed, served, now) <==>
      && |w.encodeResponse(sealed)| <= RESPONSE_LIMIT && m.payload.expiresAt > now
      && DistinctArchives(intent.specs) && intent.specs.Keys <= served.Keys
  {
    AnswerOpens(w, intent, m, sealed, private);
    SealedAreDeliverable(w, intent, m, sealed, private, served);
  }

  /** The archive of each requested role, as frozen in the intent. */
  ghost predicate Originals(s: Suite, intent: Intent, originals: map<Role, seq<byte>>) {
    && originals.Keys == intent.specs.Keys
    && forall role | role in originals :: s.hash(originals[role]) == intent.specs[role]
  }

  /** No file that was recovered shares its digest with an original it is not. */
  predicate CollisionFree(s: Suite, originals: map<Role, seq<byte>>, files: map<Path, seq<byte>>) {
    forall role, path | role in originals && path in files && s.hash(files[path]) == s.hash(originals[role]) ::
      files[path] == originals[role]
  }

  /** Exactly the originals, each at the path of its archive. */
  ghost predicate HoldsOriginals(intent: Intent, originals: map<Role, seq<byte>>, files: map<Path, seq<byte>>) {
    && files.Keys == Paths(intent.specs) && originals.Keys == intent.specs.Keys
    && forall role | role in intent.specs :: files[ArchivePath(intent.specs[role])] == originals[role]
  }

  /** Safety: whatever was served, a receiver that gets through holds the originals. */
  lemma RecoveredAreOriginals(w: World, intent: Intent, sealed: Sealed, value: Payload, private: seq<byte>,
                              served: map<Role, seq<byte>>, originals: map<Role, seq<byte>>,
                              files: map<Path, seq<byte>>)
    requires Originals(w.suite, intent, originals) && CollisionFree(w.suite, originals, files)
    requires Holds(Good(w, sealed, value, private, OrderOf(intent), served), intent.specs, intent.specs, files)
    ensures HoldsOriginals(intent, originals, files)
  {
    forall role | role in intent.specs
      ensures files[ArchivePath(intent.specs[role])] == originals[role]
    {
      var plain := files[ArchivePath(intent.specs[role])];
      assert GoodCopy(w, sealed, value, private, OrderOf(intent), role, served, plain);
      assert w.suite.hash(plain) == intent.specs[role];
    }
  }

  lemma SealedPlains(w: World, intent: Intent, m: Made, sealed: Sealed, private: seq<byte>, role: Role,
                     served: map<Role, seq<byte>>)
    requires LawfulWorld(w) && Answers(w, intent, m, sealed) && m.recipient == Public(w, private)
    requires Beside(w, intent, m) && Among(served, m.archives) && role in intent.specs
    ensures role in m.plains
    ensures forall plain ::
      GoodCopy(w, sealed, m.payload, private, OrderOf(intent), role, served, plain) ==> plain == m.plains[role]
  {
    assert Place(role) < 3;
    forall plain
      ensures GoodCopy(w, sealed, m.payload, private, OrderOf(intent), role, served, plain) ==> plain == m.plains[role]
    {
      if role in served { SealedIsAccepted(w, intent, m, sealed, private, role, served, plain); }
    }
  }

  /** With no assumption about digests: from the archives of a delivery, the announced
      recipient recovers exactly the bytes that were sealed. */
  lemma RecoveredAreSealed(w: World, intent: Intent, m: Made, sealed: Sealed, private: seq<byte>,
                           served: map<Role, seq<byte>>, files: map<Path, seq<byte>>)
    requires LawfulWorld(w) && Answers(w, intent, m, sealed) && m.recipient == Public(w, private)
    requires Beside(w, intent, m) && Among(served, m.archives)
    requires Holds(Good(w, sealed, m.payload, private, OrderOf(intent), served), intent.specs, intent.specs, files)
    ensures HoldsOriginals(intent, m.plains, files)
  {
    forall role | role in intent.specs
      ensures role in m.plains && files[ArchivePath(intent.specs[role])] == m.plains[role]
    {
      SealedPlains(w, intent, m, sealed, private, role, served);
      assert Good(w, sealed, m.payload, private, OrderOf(intent), served)(role, files[ArchivePath(intent.specs[role])]);
    }
  }

  /** Under the secret of a delivery, which its sender makes afresh, nothing was sealed as an
      archive but what the delivery carries. */
  predicate OnlyThisDelivery(sent: set<Sent>, secret: seq<byte>, m: Made) {
    forall x | x in sent && x.Archive? && x.secret == secret && x.request == m.payload.request ::
      x.role in m.plains && x.plain == m.plains[x.role] && x.size == |x.plain|
  }

  /** What was served as a role's archive is no forgery in the session of its description. */
  ghost predicate UnforgedArchive(w: World, sent: set<Sent>, secret: seq<byte>, request: string, role: Role,
                                  archives: map<Role, Bound>, served: map<Role, seq<byte>>)
  {
    role in served && role in archives && ArchiveBound(archives[role]) ==>
      Authenticity.Unforged(w.suite, Uses(w, sent), SessionUnder(w, secret, request, role, archives[role]),
                            served[role])
  }

  /** Whatever is served in place of an archive, the recipient gets the bytes that were
      sealed for this request and role, or nothing. */
  lemma AnyCopyIsOriginal(w: World, sent: set<Sent>, secret: seq<byte>, intent: Intent, m: Made, sealed: Sealed,
                          private: seq<byte>, role: Role, served: map<Role, seq<byte>>, plain: seq<byte>)
    requires LawfulWorld(w) && m.payload.request == intent.worker.request
    requires Agreed(w, private, sealed.publicKey) == Some(secret)
    requires OwnNonceEach(sent, secret) && KeyApart(w, sent, secret, intent.worker.request, Purpose(role))
    requires OnlyThisDelivery(sent, secret, m)
    requires UnforgedArchive(w, sent, secret, intent.worker.request, role, m.payload.archives, served)
    requires GoodCopy(w, sealed, m.payload, private, OrderOf(intent), role, served, plain)
    ensures role in m.plains && plain == m.plains[role]
  {
    var b := m.payload.archives[role];
    var original := ArchiveWasSent(w, sent, secret, intent.worker.request, role, b, served[role], plain);
    var x := Archive(secret, intent.worker.request, role, Base64Url.Decode(b.nonce, 8).value, b.size, b.sha256,
                     original);
    assert x in sent && x.Archive?;
  }

  /** So a site that serves anything at all cannot make the recipient keep anything but the
      originals, whatever collisions the digest may have. */
  lemma TamperedSiteIsHarmless(w: World, sent: set<Sent>, secret: seq<byte>, intent: Intent, m: Made, sealed: Sealed,
                               private: seq<byte>, served: map<Role, seq<byte>>, files: map<Path, seq<byte>>)
    requires LawfulWorld(w) && m.payload.request == intent.worker.request
    requires Agreed(w, private, sealed.publicKey) == Some(secret)
    requires OwnNonceEach(sent, secret) && OnlyThisDelivery(sent, secret, m)
    requires forall role: Role :: KeyApart(w, sent, secret, intent.worker.request, Purpose(role))
    requires forall role: Role ::
      UnforgedArchive(w, sent, secret, intent.worker.request, role, m.payload.archives, served)
    requires Holds(Good(w, sealed, m.payload, private, OrderOf(intent), served), intent.specs, intent.specs, files)
    requires m.plains.Keys <= intent.specs.Keys
    ensures HoldsOriginals(intent, m.plains, files)
  {
    forall role | role in intent.specs
      ensures role in m.plains && files[ArchivePath(intent.specs[role])] == m.plains[role]
    {
      var plain := files[ArchivePath(intent.specs[role])];
      assert Good(w, sealed, m.payload, private, OrderOf(intent), served)(role, plain);
      AnyCopyIsOriginal(w, sent, secret, intent, m, sealed, private, role, served, plain);
    }
  }

  /** Of a delivery's archives, some of the first `i` roles have been fetched, */
  predicate FetchedOf(archives: map<Role, seq<byte>>, served: map<Role, seq<byte>>, i: nat) {
    Among(served, archives) && forall role | role in served :: Place(role) < i
  }

  /** and all of these. */
  predicate FetchedAllOf(archives: map<Role, seq<byte>>, served: map<Role, seq<byte>>, i: nat) {
    forall role | role in archives && Place(role) < i :: role in served
  }

  lemma FetchedAll(archives: map<Role, seq<byte>>, served: map<Role, seq<byte>>)
    requires FetchedOf(archives, served, 3) && FetchedAllOf(archives, served, 3)
    ensures served == archives
  {
    forall role: Role ensures Place(role) < 3 {}
  }

  /** One more, from a site with some of the archives. */
  function FetchedFrom(site: map<Role, seq<byte>>, served: map<Role, seq<byte>>, role: Role): map<Role, seq<byte>> {
    if role in site then served[role := site[role]] else served
  }

  lemma FetchedOne(archives: map<Role, seq<byte>>, site: map<Role, seq<byte>>, served: map<Role, seq<byte>>, i: nat)
    requires i < 3 && Among(site, archives) && FetchedOf(archives, served, i)
    ensures FetchedOf(archives, FetchedFrom(site, served, ORDER[i]), i + 1)
    ensures FetchedAllOf(archives, served, i) && site == archives ==>
      FetchedAllOf(archives, FetchedFrom(site, served, ORDER[i]), i + 1)
  {
    PlacesAreDistinct(i);
  }

  /** The receiver fetches one archive, if it is there, after the coordinator has run. */
  method Fetch(c: Sender, steps: seq<Step>, i: nat, served: map<Role, seq<byte>>) returns (more: map<Role, seq<byte>>)
    requires c.Valid() && c.marker.Some? && LawfulWorld(c.host.world) && FreshSteps(steps)
    requires i < 3 && FetchedOf(c.made.archives, served, i)
    requires !c.cleaned ==> FetchedAllOf(c.made.archives, served, i)
    modifies c
    ensures c.Valid() && c.Settled()
    ensures FetchedOf(c.made.archives, more, i + 1)
    ensures !c.cleaned ==> FetchedAllOf(c.made.archives, more, i + 1)
  {
    var wasted := Run(c, steps, map[]);
    var site := if c.site.Some? then c.site.value.archives else map[];
    FetchedOne(c.made.archives, site, served, i);
    more := FetchedFrom(site, served, ORDER[i]);
  }

  /** The fetches of all three roles. They see archives of the delivery, and all of them as
      long as there was no `cleanup`. */
  method FetchAll(c: Sender, meanwhile: seq<seq<Step>>) returns (served: map<Role, seq<byte>>)
    requires c.Valid() && LawfulWorld(c.host.world) && c.marker.Some? && c.site.Some?
    requires |meanwhile| == 4 && forall i | 0 <= i < 4 :: FreshSteps(meanwhile[i])
    modifies c
    ensures c.Valid() && c.Settled()
    ensures Among(served, c.made.archives) && (!c.cleaned ==> served == c.made.archives)
  {
    served := map[];
    for i := 0 to 3
      invariant c.Valid() && c.Settled()
      invariant FetchedOf(c.made.archives, served, i)
      invariant !c.cleaned ==> FetchedAllOf(c.made.archives, served, i)
    {
      served := Fetch(c, meanwhile[i + 1], i, served);
    }
    if !c.cleaned { FetchedAll(c.made.archives, served); }
  }

  lemma PlainsAreOriginals(intent: Intent, plains: map<Role, seq<byte>>, originals: map<Role, seq<byte>>,
                           files: map<Path, seq<byte>>)
    requires HoldsOriginals(intent, plains, files) && Agree(plains, originals) && originals.Keys == intent.specs.Keys
    ensures HoldsOriginals(intent, originals, files)
  {
  }

  /** The response and the archives at hand are of a delivery made for this recipient. */
  ghost predicate MadeFor(w: World, intent: Intent, m: Made, sealed: Sealed, private: seq<byte>,
                          served: map<Role, seq<byte>>) {
    && Answers(w, intent, m, sealed) && m.recipient == Public(w, private)
    && Beside(w, intent, m) && Among(served, m.archives)
  }

  lemma Concluded(w: World, intent: Intent, m: Made, sealed: Sealed, private: seq<byte>, served: map<Role, seq<byte>>,
                  now: int, originals: map<Role, seq<byte>>, files: map<Path, seq<byte>>)
    requires LawfulWorld(w) && MadeFor(w, intent, m, sealed, private, served) && originals.Keys == intent.specs.Keys
    ensures Acceptable(w, private, OrderOf(intent), sealed, served, now) <==>
      && |w.encodeResponse(sealed)| <= RESPONSE_LIMIT && m.payload.expiresAt > now
      && DistinctArchives(intent.specs) && intent.specs.Keys <= served.Keys
    ensures
      && Agree(m.plains, originals) && Acceptable(w, private, OrderOf(intent), sealed, served, now)
      && Holds(Good(w, sealed, Unseal(w, sealed, private, intent.worker.request).value, private, OrderOf(intent),
                    served),
               intent.specs, intent.specs, files)
      ==> HoldsOriginals(intent, originals, files)
  {
    RecipientGetsThrough(w, intent, m, sealed, private, served, now);
    AnswerOpens(w, intent, m, sealed, private);
    if && Agree(m.plains, originals) && Acceptable(w, private, OrderOf(intent), sealed, served, now)
       && Holds(Good(w, sealed, m.payload, private, OrderOf(intent), served), intent.specs, intent.specs, files)
    {
      RecoveredAreSealed(w, intent, m, sealed, private, served, files);
      PlainsAreOriginals(intent, m.plains, originals, files);
    }
  }

  /** The receiver's side of the exchange. */
  method Open(w: World, disk: Disk<Path>, private: seq<byte>, intent: Intent, sealed: Sealed,
              served: map<Role, seq<byte>>, now: int, ghost m: Made, ghost originals: map<Role, seq<byte>>)
    returns (recovered: Option<map<Role, string>>)
    requires LawfulWorld(w) && disk.files == map[] && Originals(w.suite, intent, originals)
    modifies disk
    ensures recovered.Some? <==> Acceptable(w, private, OrderOf(intent), sealed, served, now)
    ensures recovered.Some? ==> recovered.value == intent.specs
    ensures recovered.Some? && CollisionFree(w.suite, originals, disk.files) ==>
      HoldsOriginals(intent, originals, disk.files)
    ensures MadeFor(w, intent, m, sealed, private, served) ==>
      (recovered.Some? <==>
        && |w.encodeResponse(sealed)| <= RESPONSE_LIMIT && m.payload.expiresAt > now
        && DistinctArchives(intent.specs) && intent.specs.Keys <= served.Keys)
    ensures MadeFor(w, intent, m, sealed, private, served) && Agree(m.plains, originals) && recovered.Some? ==>
      HoldsOriginals(intent, originals, disk.files)
  {
    recovered := Receive(w, disk, private, OrderOf(intent), sealed, served, now);
    if recovered.Some? && CollisionFree(w.suite, originals, disk.files) {
      RecoveredAreOriginals(w, intent, sealed, Unseal(w, sealed, private, intent.worker.request).value,
                            private, served, originals, disk.files);
    }
    if MadeFor(w, intent, m, sealed, private, served) {
      Concluded(w, intent, m, sealed, private, served, now, originals, disk.files);
    }
  }

  /** The receiver holds the private half of the key in the announcement. */
  predicate Announced(c: Sender, private: seq<byte>) reads c {
    && c.archive.Some? && c.host.announcement(c.archive.value).Some?
    && Public(c.host.world, private) == c.host.announcement(c.archive.value).value.publicKey
  }

  /** The response is the one in the journal that the marker names, and the archives are
      those of the delivery, all of them unless there was a `cleanup`. */
  ghost predicate Fetched(c: Sender, sealed: Option<Sealed>, served: map<Role, seq<byte>>) reads c {
    && sealed.Some? && c.marker.Some? && c.journal == sealed
    && ResponseSha(c.host.world, sealed.value) == c.marker.value.responseSha
    && Among(served, c.made.archives) && (!c.cleaned ==> c.intent.specs.Keys <= served.Keys)
  }

  /** What the receiver fetches: the response, if there is one, and then the archives. */
  method FetchEverything(c: Sender, meanwhile: seq<seq<Step>>, ghost originals: map<Role, seq<byte>>)
    returns (sealed: Option<Sealed>, served: map<Role, seq<byte>>)
    requires c.Valid() && LawfulWorld(c.host.world)
    requires |meanwhile| == 4 && forall i | 0 <= i < 4 :: FreshSteps(meanwhile[i])
    modifies c
    ensures c.Valid() && c.Settled()
    ensures sealed.Some? ==> Fetched(c, sealed, served)
    ensures sealed.Some? && old(Carries(c, originals)) && Unaltered(meanwhile[0], originals) ==> Carries(c, originals)
  {
    var wasted := Run(c, meanwhile[0], originals);
    if c.site.None? || c.site.value.response.None? { return None, map[]; }
    sealed := c.site.value.response;
    served := FetchAll(c, meanwhile);
    NothingMissing(c.host.world, c.intent, c.made);
  }

  /** The whole exchange. `meanwhile` is what the coordinator does before the response is
      fetched and before each archive is fetched. A receiver that gets through holds the
      originals, by their digests alone or, when it announced the key, by the encryption;
      and the one that announced the key does get through exactly when nothing it requested
      was missing, as nothing is before `cleanup`. */
  method Exchange(c: Sender, disk: Disk<Path>, private: seq<byte>, meanwhile: seq<seq<Step>>, now: int,
                  ghost originals: map<Role, seq<byte>>)
    returns (sealed: Option<Sealed>, served: map<Role, seq<byte>>, recovered: Option<map<Role, string>>)
    requires c.Valid() && LawfulWorld(c.host.world) && disk.files == map[]
    requires |meanwhile| == 4 && forall i | 0 <= i < 4 :: FreshSteps(meanwhile[i])
    requires Originals(c.host.world.suite, c.intent, originals)
    modifies c, disk
    ensures c.Valid() && c.Settled()
    ensures sealed.Some? ==> Fetched(c, sealed, served)
    ensures recovered.Some? ==> sealed.Some? && recovered.value == c.intent.specs
    ensures recovered.Some? && CollisionFree(c.host.world.suite, originals, disk.files) ==>
      HoldsOriginals(c.intent, originals, disk.files)
    ensures recovered.Some? && Announced(c, private) && old(Carries(c, originals)) ==>
      Unaltered(meanwhile[0], originals) ==> HoldsOriginals(c.intent, originals, disk.files)
    ensures sealed.Some? && Announced(c, private) ==>
      (recovered.Some? <==>
        && |c.host.world.encodeResponse(sealed.value)| <= RESPONSE_LIMIT && c.marker.value.expiresAt > now
        && DistinctArchives(c.intent.specs) && c.intent.specs.Keys <= served.Keys)
  {
    sealed, served := FetchEverything(c, meanwhile, originals);
    recovered := None;
    if sealed.Some? {
      recovered := Open(c.host.world, disk, private, c.intent, sealed.value, served, now, c.made, originals);
    }
  }

  lemma NothingMissing(w: World, intent: Intent, m: Made)
    requires Beside(w, intent, m)
    ensures m.archives.Keys == intent.specs.Keys
  {
    AllRoles(intent.specs, m.archives.Keys);
  }

  lemma AllRoles(specs: map<Role, string>, roles: set<Role>)
    requires RolesSoFar(specs, roles, 3)
    ensures roles == specs.Keys
  {
    forall role: Role ensures Place(role) < 3 {}
  }

  /** What the sender has sealed, and others under other secrets. */
  ghost function AllSent(c: Sender, others: set<Sent>): set<Sent> reads c { c.sent + others }

  /** What is assumed of what a site serves: the response bears the sender's key, nothing in
      it or beside it is a forgery, and neither the sender nor anyone else has used the
      secret of the delivery for anything else. */
  ghost predicate Protected(c: Sender, private: seq<byte>, sealed: Sealed, served: map<Role, seq<byte>>,
                            others: set<Sent>) reads c
  {
    c.marker.Some? && !c.reused && Announced(c, private)
    && Guarded(c.host.world, c.intent.worker.request, c.made, sealed, served, AllSent(c, others), others)
  }

  ghost predicate Guarded(w: World, request: string, m: Made, sealed: Sealed, served: map<Role, seq<byte>>,
                          sent: set<Sent>, others: set<Sent>)
  {
    var secret := SecretOf(w, m.sender, m.recipient);
    && sealed.publicKey == Public(w, m.sender) && (forall x | x in others :: x.secret != secret)
    && KeyApart(w, sent, secret, request, "response") && UnforgedResponse(w, sent, secret, request, sealed)
    && (forall role: Role :: KeyApart(w, sent, secret, request, Purpose(role)))
    && forall role: Role :: UnforgedArchive(w, sent, secret, request, role, m.payload.archives, served)
  }

  lemma BothAgree(w: World, sender: seq<byte>, private: seq<byte>)
    requires LawfulWorld(w)
    ensures Agreed(w, private, Public(w, sender)) == Some(SecretOf(w, sender, Public(w, private)))
  {
    Base64Url.RoundTrip(w.publicOf(sender));
    Base64Url.RoundTrip(w.publicOf(private));
    assert |w.publicOf(sender)| == 32 && |w.publicOf(private)| == 32;
    assert w.exchange(private, w.publicOf(sender)) == w.exchange(sender, w.publicOf(private));
  }

  lemma StillAlone(sent: set<Sent>, others: set<Sent>, secret: seq<byte>, m: Made)
    requires Alone(sent, secret, m) && forall x | x in others :: x.secret != secret
    ensures OwnNonceEach(sent + others, secret) && OnlyThisDelivery(sent + others, secret, m)
    ensures forall nonce, value | Response(secret, m.payload.request, nonce, value) in sent + others ::
      value == m.payload
  {
  }

  /** Whatever response is served, if it opens it says what the delivery says. */
  lemma AnyResponseIsOriginal(w: World, intent: Intent, m: Made, sealed: Sealed, private: seq<byte>,
                              served: map<Role, seq<byte>>, sent: set<Sent>, others: set<Sent>)
    requires LawfulWorld(w) && m.recipient == Public(w, private) && m.payload.request == intent.worker.request
    requires Alone(sent, SecretOf(w, m.sender, m.recipient), m)
    requires Guarded(w, intent.worker.request, m, sealed, served, sent + others, others)
    requires Unseal(w, sealed, private, intent.worker.request).Some?
    ensures Unseal(w, sealed, private, intent.worker.request) == Some(m.payload)
  {
    var secret := SecretOf(w, m.sender, m.recipient);
    var value := Unseal(w, sealed, private, intent.worker.request).value;
    BothAgree(w, m.sender, private);
    StillAlone(sent, others, secret, m);
    UnsealedWasSent(w, sent + others, sealed, private, secret, intent.worker.request, value);
    var nonce :| IsResponse(w, sent + others, secret, intent.worker.request, sealed, value, nonce);
  }

  lemma AnythingServed(w: World, intent: Intent, m: Made, sealed: Sealed, private: seq<byte>,
                       served: map<Role, seq<byte>>, sent: set<Sent>, others: set<Sent>, files: map<Path, seq<byte>>)
    requires LawfulWorld(w) && m.recipient == Public(w, private) && m.payload.request == intent.worker.request
    requires Alone(sent, SecretOf(w, m.sender, m.recipient), m) && m.plains.Keys <= intent.specs.Keys
    requires Guarded(w, intent.worker.request, m, sealed, served, sent + others, others)
    requires Unseal(w, sealed, private, intent.worker.request).Some?
    requires Holds(Good(w, sealed, Unseal(w, sealed, private, intent.worker.request).value, private, OrderOf(intent),
                        served),
                   intent.specs, intent.specs, files)
    ensures HoldsOriginals(intent, m.plains, files)
  {
    var secret := SecretOf(w, m.sender, m.recipient);
    AnyResponseIsOriginal(w, intent, m, sealed, private, served, sent, others);
    BothAgree(w, m.sender, private);
    StillAlone(sent, others, secret, m);
    TamperedSiteIsHarmless(w, sent + others, secret, intent, m, sealed, private, served, files);
  }

  /** The exchange with a site that serves anything at all, after the coordinator has run
      with any crashes. A receiver that gets through holds the bytes that the coordinator
      sealed, whatever collisions the digest may have, if nothing was forged and no secret
      was used twice; and these are the originals if the retained archives were. */
  method ExchangeAnything(c: Sender, disk: Disk<Path>, private: seq<byte>, steps: seq<Step>, sealed: Sealed,
                          served: map<Role, seq<byte>>, now: int, ghost others: set<Sent>,
                          ghost originals: map<Role, seq<byte>>)
    returns (recovered: Option<map<Role, string>>)
    requires c.Valid() && LawfulWorld(c.host.world) && disk.files == map[] && FreshSteps(steps)
    modifies c, disk
    ensures c.Valid() && c.Settled()
    ensures recovered.Some? ==> recovered.value == c.intent.specs
    ensures recovered.Some? && Protected(c, private, sealed, served, others) ==>
      && HoldsOriginals(c.intent, c.made.plains, disk.files)
      && (old(Carries(c, originals)) && Unaltered(steps, originals) && originals.Keys == c.intent.specs.Keys ==>
           HoldsOriginals(c.intent, originals, disk.files))
  {
    var wasted := Run(c, steps, originals);
    recovered := OpenAnything(c.host.world, disk, private, c.intent, sealed, served, now, c.made, c.sent, others);
    if recovered.Some? && Protected(c, private, sealed, served, others) {
      NothingMissing(c.host.world, c.intent, c.made);
      if Agree(c.made.plains, originals) && originals.Keys == c.intent.specs.Keys {
        PlainsAreOriginals(c.intent, c.made.plains, originals, disk.files);
      }
    }
  }

  method OpenAnything(w: World, disk: Disk<Path>, private: seq<byte>, intent: Intent, sealed: Sealed,
                      served: map<Role, seq<byte>>, now: int, ghost m: Made, ghost sent: set<Sent>,
                      ghost others: set<Sent>)
    returns (recovered: Option<map<Role, string>>)
    requires LawfulWorld(w) && disk.files == map[]
    modifies disk
    ensures recovered.Some? ==> recovered.value == intent.specs
    ensures
      && recovered.Some? && m.recipient == Public(w, private) && m.payload.request == intent.worker.request
      && Alone(sent, SecretOf(w, m.sender, m.recipient), m) && m.plains.Keys <= intent.specs.Keys
      && Guarded(w, intent.worker.request, m, sealed, served, sent + others, others)
      ==> HoldsOriginals(intent, m.plains, disk.files)
  {
    recovered := Receive(w, disk, private, OrderOf(intent), sealed, served, now);
    if && recovered.Some? && m.recipient == Public(w, private) && m.payload.request == intent.worker.request
       && Alone(sent, SecretOf(w, m.sender, m.recipient), m) && m.plains.Keys <= intent.specs.Keys
       && Guarded(w, intent.worker.request, m, sealed, served, sent + others, others)
    {
      AnythingServed(w, intent, m, sealed, private, served, sent, others, disk.files);
    }
  }
}
