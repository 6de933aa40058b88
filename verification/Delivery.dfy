/**
 The sealed response and the receiver of scripts/acceptance_delivery.py: key agreement
 per request and purpose, `seal`/`unseal`, and the archive loop of `receive`.
 */
module Delivery {
  import opened Common
  import opened Base64Url
  import opened ArchiveCodec

  datatype Role = Current | Baseline | Peer

  function Purpose(role: Role): string {
    match role case Current => "current" case Baseline => "baseline" case Peer => "peer"
  }

  const PROTOCOL := "gchat-acceptance-delivery-1"
  const RESPONSE_LIMIT := 262144

  /** The decrypted response. `inputs` maps each requested role to the digest of its
      frozen archive; `invitation` is the UTF-8 text of the grant. */
  datatype Payload = Payload(request: string, sources: string, target: string, inputs: map<Role, string>,
                             archives: map<Role, Bound>, expiresAt: int, invitation: seq<byte>)

  datatype Sealed = Sealed(schema: int, protocol: string, request: string, publicKey: string,
                           nonce: string, ciphertext: string)

  /** The primitives of a delivery: the archive suite, X25519, HKDF and the canonical
      JSON of a payload and of a sealed response. */
  datatype World = World(
    suite: Suite,
    publicOf: seq<byte> -> seq<byte>,
    exchange: (seq<byte>, seq<byte>) -> Option<seq<byte>>,
    derive: (seq<byte>, string, string) -> seq<byte>,
    canonical: Payload -> seq<byte>,
    parse: seq<byte> -> Option<Payload>,
    encodeResponse: Sealed -> seq<byte>)

  /** RFC 7748 section 6.1: both parties compute the same secret, and the exchange
      refuses no public key of a generated private key. Parsing inverts `canonical`, and
      the text of a response contains its ciphertext. */
  ghost predicate LawfulWorld(w: World) {
    && Lawful(w.suite)
    && (forall a :: |w.publicOf(a)| == 32)
    && (forall a, b :: w.exchange(a, w.publicOf(b)) == w.exchange(b, w.publicOf(a)))
    && (forall a, b :: w.exchange(a, w.publicOf(b)).Some?)
    && (forall p :: w.parse(w.canonical(p)) == Some(p))
    && (forall sealed: Sealed :: |sealed.ciphertext| <= |w.encodeResponse(sealed)|)
  }

  /** `key`: None where it raises. */
  function KeyFor(w: World, private: seq<byte>, public: string, request: string, purpose: string): Option<seq<byte>> {
    if !Hex64(request) then None
    else match Decode(public, 32)
      case None => None
      case Some(raw) =>
        match w.exchange(private, raw)
        case None => None
        case Some(shared) => Some(w.derive(shared, request, PROTOCOL + "/" + purpose))
  }

  function Public(w: World, private: seq<byte>): string { Encode(w.publicOf(private)) }

  /** Both sides derive the same key for every request and purpose. */
  lemma KeyAgreement(w: World, a: seq<byte>, b: seq<byte>, request: string, purpose: string)
    requires LawfulWorld(w)
    ensures KeyFor(w, a, Public(w, b), request, purpose) == KeyFor(w, b, Public(w, a), request, purpose)
    ensures KeyFor(w, a, Public(w, b), request, purpose).Some? <==> Hex64(request)
  {
    RoundTrip(w.publicOf(a));
    RoundTrip(w.publicOf(b));
    assert |w.publicOf(a)| == 32 && |w.publicOf(b)| == 32;
    assert w.exchange(a, w.publicOf(b)) == w.exchange(b, w.publicOf(a)) && w.exchange(a, w.publicOf(b)).Some?;
  }

  function ResponseContext(request: string): Context { Context(Identity(request, "response", 0, ""), 0) }

  /** `seal`, with the random nonce as a parameter. */
  function Seal(w: World, value: Payload, private: seq<byte>, recipient: string, request: string, nonce: seq<byte>)
    : Option<Sealed>
  {
    match KeyFor(w, private, recipient, request, "response")
    case None => None
    case Some(k) =>
      Some(Sealed(1, PROTOCOL, request, Public(w, private), Encode(nonce),
                  Encode(w.suite.seal(k, nonce, w.canonical(value), ResponseContext(request)))))
  }

  /** `unseal`: None where it raises. */
  function Unseal(w: World, value: Sealed, private: seq<byte>, request: string): Option<Payload> {
    if value.schema != 1 || value.protocol != PROTOCOL || value.request != request
       || |value.ciphertext| > RESPONSE_LIMIT then None
    else match Decode(value.nonce, 12)
      case None => None
      case Some(nonce) =>
        match Canonical(value.ciphertext)
        case None => None
        case Some(raw) =>
          match KeyFor(w, private, value.publicKey, request, "response")
          case None => None
          case Some(k) =>
            match w.suite.open(k, nonce, raw, ResponseContext(request))
            case None => None
            case Some(bytes) => w.parse(bytes)
  }

  /** A response opens with the recipient's key, up to the size the receiver reads. */
  lemma UnsealOpensSealed(w: World, value: Payload, a: seq<byte>, b: seq<byte>, request: string, nonce: seq<byte>)
    requires LawfulWorld(w) && |nonce| == 12 && Hex64(request)
    ensures Seal(w, value, a, Public(w, b), request, nonce).Some?
    ensures
      var s := Seal(w, value, a, Public(w, b), request, nonce).value;
      Unseal(w, s, b, request) == if |s.ciphertext| <= RESPONSE_LIMIT then Some(value) else None
  {
    KeyAgreement(w, a, b, request, "response");
    RoundTrip(nonce);
    var k := KeyFor(w, a, Public(w, b), request, "response").value;
    var sealed := w.suite.seal(k, nonce, w.canonical(value), ResponseContext(request));
    CanonicalExact(Encode(sealed), sealed);
    assert w.suite.open(k, nonce, sealed, ResponseContext(request)) == Some(w.canonical(value));
  }

  /** Whatever opens was sealed for this request: its text is the one spelling of the
      encryption, under the agreed key, of bytes that parse to the payload. */
  lemma UnsealIsAuthentic(w: World, s: Sealed, private: seq<byte>, request: string)
    requires LawfulWorld(w) && Unseal(w, s, private, request).Some?
    ensures s.request == request
    ensures KeyFor(w, private, s.publicKey, request, "response").Some?
    ensures
      var k := KeyFor(w, private, s.publicKey, request, "response").value;
      exists nonce, bytes :: (
        && |nonce| == 12 && s.nonce == Encode(nonce)
        && s.ciphertext == Encode(w.suite.seal(k, nonce, bytes, ResponseContext(request)))
        && w.parse(bytes) == Unseal(w, s, private, request))
  {
    var nonce := Decode(s.nonce, 12).value;
    var raw := Canonical(s.ciphertext).value;
    var k := KeyFor(w, private, s.publicKey, request, "response").value;
    var bytes := w.suite.open(k, nonce, raw, ResponseContext(request)).value;
    DecodeExact(s.nonce, 12, nonce);
    CanonicalExact(s.ciphertext, raw);
    assert w.suite.seal(k, nonce, bytes, ResponseContext(request)) == raw;
  }

  /** What the receiver was started with. */
  datatype Order = Order(request: string, sources: string, target: string, specs: map<Role, string>)

  /** The checks on the opened response before any archive is fetched. */
  predicate Authorised(o: Order, value: Payload, now: int) {
    && value.request == o.request && value.inputs == o.specs
    && value.sources == o.sources && value.target == o.target
    && value.expiresAt > now && 0 < |value.invitation| <= 48000
  }

  /** The receiver's files: a downloaded ciphertext and a decrypted archive. */
  datatype Path = SealedPath(role: Role) | ArchivePath(sha: string)

  /** The session in which the receiver decrypts the archive of a role; None where the
      archive's description, its digest or the key is refused. */
  function SessionFor(w: World, sealed: Sealed, value: Payload, private: seq<byte>, o: Order,
                      role: Role): Option<Session> {
    if role !in o.specs || role !in value.archives then None
    else
      var b := value.archives[role];
      if !ArchiveBound(b) || b.sha256 != o.specs[role] then None
      else match KeyFor(w, private, sealed.publicKey, o.request, Purpose(role))
        case None => None
        case Some(k) => Some(SessionOf(k, o.request, Purpose(role), b))
  }

  /** One archive of the response, as served, passes every check of the loop. */
  ghost predicate RoleAccepted(w: World, sealed: Sealed, value: Payload, private: seq<byte>, o: Order, role: Role,
                               served: map<Role, seq<byte>>)
  {
    var session := SessionFor(w, sealed, value, private, o, role);
    && session.Some? && role in served && Matches(w.suite, value.archives[role], served[role])
    && Decryptable(w.suite, session.value, served[role])
  }

  /** Two roles that name the same archive would collide in the receiver's directory. */
  predicate DistinctArchives(specs: map<Role, string>) {
    forall a, b | a in specs && b in specs && specs[a] == specs[b] :: a == b
  }

  /** `plain` is the decryption of what was served for an accepted role. */
  ghost predicate GoodCopy(w: World, sealed: Sealed, value: Payload, private: seq<byte>, o: Order, role: Role,
                           served: map<Role, seq<byte>>, plain: seq<byte>)
  {
    && RoleAccepted(w, sealed, value, private, o, role, served)
    && Encrypts(w.suite, SessionFor(w, sealed, value, private, o, role).value, served[role], plain)
  }

  /** One turn of the archive loop; false where it raises. */
  method ReceiveRole(w: World, disk: Disk<Path>, private: seq<byte>, o: Order, sealed: Sealed, value: Payload,
                     role: Role, served: map<Role, seq<byte>>)
    returns (ok: bool)
    requires LawfulWorld(w) && role in o.specs && SealedPath(role) !in disk.files
    modifies disk
    ensures ok
      <==> RoleAccepted(w, sealed, value, private, o, role, served) && ArchivePath(o.specs[role]) !in old(disk.files)
    ensures ok ==>
      && ArchivePath(o.specs[role]) in disk.files
      && GoodCopy(w, sealed, value, private, o, role, served, disk.files[ArchivePath(o.specs[role])])
      && disk.files == old(disk.files)[ArchivePath(o.specs[role]) := disk.files[ArchivePath(o.specs[role])]]
  {
    var session := SessionFor(w, sealed, value, private, o, role);
    if session.None? || role !in served || |served[role]| > value.archives[role].ciphertextSize { return false; }
    disk.files := disk.files[SealedPath(role) := served[role]];
    ok := DecryptArchive(w.suite, disk, SealedPath(role), ArchivePath(o.specs[role]), session.value.key,
                         o.request, Purpose(role), value.archives[role]);
    disk.files := disk.files - {SealedPath(role)};
  }

  /** The receiver holds exactly the archives in `done`, each a good copy. */
  ghost predicate Holds(good: (Role, seq<byte>) -> bool, specs: map<Role, string>, done: map<Role, string>,
                        files: map<Path, seq<byte>>)
  {
    && files.Keys == Paths(done) && DistinctArchives(done)
    && forall role | role in done ::
         role in specs && done[role] == specs[role] && good(role, files[ArchivePath(done[role])])
  }

  lemma HoldsGrows(good: (Role, seq<byte>) -> bool, specs: map<Role, string>, done: map<Role, string>,
                   before: map<Path, seq<byte>>, role: Role, plain: seq<byte>)
    requires Holds(good, specs, done, before)
    requires role in specs && role !in done && ArchivePath(specs[role]) !in before && good(role, plain)
    ensures Holds(good, specs, done[role := specs[role]], before[ArchivePath(specs[role]) := plain])
  {
    var more := done[role := specs[role]];
    forall other | other in done ensures ArchivePath(done[other]) in before && ArchivePath(done[other]) in Paths(more) {
      assert more[other] == done[other];
    }
    assert more[role] == specs[role];
    assert before.Keys + {ArchivePath(specs[role])} == Paths(more);
  }

  lemma Collides(good: (Role, seq<byte>) -> bool, specs: map<Role, string>, done: map<Role, string>,
                 files: map<Path, seq<byte>>, role: Role)
    requires Holds(good, specs, done, files) && role in specs && role !in done && ArchivePath(specs[role]) in files
    ensures !DistinctArchives(specs)
  {
    var other :| other in done && ArchivePath(done[other]) == ArchivePath(specs[role]);
    assert specs[other] == specs[role];
  }

  /** Every requested archive of a response can be served, and no two are the same. */
  ghost predicate Deliverable(w: World, sealed: Sealed, value: Payload, private: seq<byte>, o: Order,
                              served: map<Role, seq<byte>>) {
    && DistinctArchives(o.specs)
    && forall role | role in o.specs :: RoleAccepted(w, sealed, value, private, o, role, served)
  }

  const ORDER := [Current, Baseline, Peer]

  function Place(role: Role): nat { match role case Current => 0 case Baseline => 1 case Peer => 2 }

  /** The requested ones of the first `i` roles have been fetched. */
  ghost predicate Fetched(specs: map<Role, string>, done: map<Role, string>, i: nat) {
    && (forall role | role in done :: role in specs && done[role] == specs[role])
    && forall role | role in specs :: role in done <==> Place(role) < i
  }

  lemma FetchedNext(specs: map<Role, string>, done: map<Role, string>, i: nat)
    requires Fetched(specs, done, i) && i < 3
    ensures ORDER[i] !in done
    ensures Fetched(specs, if ORDER[i] in specs then done[ORDER[i] := specs[ORDER[i]]] else done, i + 1)
  {
    assert Place(ORDER[i]) == i;
    forall role ensures Place(role) == i <==> role == ORDER[i] {}
  }

  /** The archive loop stands before its turn `i`. */
  ghost predicate Stage(w: World, sealed: Sealed, value: Payload, private: seq<byte>, o: Order,
                        served: map<Role, seq<byte>>, done: map<Role, string>, files: map<Path, seq<byte>>, i: nat)
  {
    Fetched(o.specs, done, i) && Holds(Good(w, sealed, value, private, o, served), o.specs, done, files)
  }

  /** One turn of the archive loop, with the `recovered` dictionary; None where it raises. */
  method ReceiveNext(w: World, disk: Disk<Path>, private: seq<byte>, o: Order, sealed: Sealed, value: Payload,
                     served: map<Role, seq<byte>>, done: map<Role, string>, i: nat)
    returns (recovered: Option<map<Role, string>>)
    requires LawfulWorld(w) && i < 3 && Stage(w, sealed, value, private, o, served, done, disk.files, i)
    modifies disk
    ensures recovered.None? ==> !Deliverable(w, sealed, value, private, o, served)
    ensures recovered.Some? ==> Stage(w, sealed, value, private, o, served, recovered.value, disk.files, i + 1)
  {
    var role := ORDER[i];
    FetchedNext(o.specs, done, i);
    if role !in o.specs { return Some(done); }
    ghost var before, good := disk.files, Good(w, sealed, value, private, o, served);
    assert SealedPath(role) !in disk.files by { assert SealedPath(role) !in Paths(done); }
    var ok := ReceiveRole(w, disk, private, o, sealed, value, role, served);
    if !ok {
      if ArchivePath(o.specs[role]) in before { Collides(good, o.specs, done, before, role); }
      return None;
    }
    HoldsGrows(good, o.specs, done, before, role, disk.files[ArchivePath(o.specs[role])]);
    recovered := Some(done[role := o.specs[role]]);
  }

  lemma FetchedAll(specs: map<Role, string>, done: map<Role, string>)
    requires Fetched(specs, done, 3)
    ensures done == specs
  {
  }

  lemma StageFirst(w: World, sealed: Sealed, value: Payload, private: seq<byte>, o: Order, served: map<Role, seq<byte>>)
    ensures Stage(w, sealed, value, private, o, served, map[], map[], 0)
  {
  }

  lemma StageLast(w: World, sealed: Sealed, value: Payload, private: seq<byte>, o: Order, served: map<Role, seq<byte>>,
                  done: map<Role, string>, files: map<Path, seq<byte>>)
    requires Stage(w, sealed, value, private, o, served, done, files, 3)
    ensures done == o.specs && Deliverable(w, sealed, value, private, o, served)
    ensures Holds(Good(w, sealed, value, private, o, served), o.specs, o.specs, files)
  {
    FetchedAll(o.specs, done);
    forall role | role in o.specs ensures RoleAccepted(w, sealed, value, private, o, role, served) {
      assert Good(w, sealed, value, private, o, served)(role, files[ArchivePath(o.specs[role])]);
    }
  }

  /** The archive loop of `receive`; None where it raises. */
  method ReceiveArchives(w: World, disk: Disk<Path>, private: seq<byte>, o: Order, sealed: Sealed, value: Payload,
                         served: map<Role, seq<byte>>)
    returns (recovered: Option<map<Role, string>>)
    requires LawfulWorld(w) && disk.files == map[]
    modifies disk
    ensures recovered.Some? <==> Deliverable(w, sealed, value, private, o, served)
    ensures recovered.Some? ==>
      recovered.value == o.specs && Holds(Good(w, sealed, value, private, o, served), o.specs, o.specs, disk.files)
  {
    recovered := Some(map[]);
    StageFirst(w, sealed, value, private, o, served);
    for i := 0 to 3
      invariant recovered.Some? && Stage(w, sealed, value, private, o, served, recovered.value, disk.files, i)
    {
      recovered := ReceiveNext(w, disk, private, o, sealed, value, served, recovered.value, i);
      if recovered.None? { return; }
    }
    StageLast(w, sealed, value, private, o, served, recovered.value, disk.files);
  }

  ghost function Good(w: World, sealed: Sealed, value: Payload, private: seq<byte>, o: Order,
                      served: map<Role, seq<byte>>)
    : (Role, seq<byte>) -> bool
  {
    (role, plain) => GoodCopy(w, sealed, value, private, o, role, served, plain)
  }

  /** `receive` up to the end of its archive loop, with the fetched response and the
      fetched archives as parameters. None where it raises. */
  method Receive(w: World, disk: Disk<Path>, private: seq<byte>, o: Order, sealed: Sealed, served: map<Role, seq<byte>>,
                 now: int)
    returns (recovered: Option<map<Role, string>>)
    requires LawfulWorld(w) && disk.files == map[]
    modifies disk
    ensures recovered.Some? <==> Acceptable(w, private, o, sealed, served, now)
    ensures recovered.Some? ==>
      && recovered.value == o.specs
      && Holds(Good(w, sealed, Unseal(w, sealed, private, o.request).value, private, o, served), o.specs, o.specs,
               disk.files)
  {
    if |w.encodeResponse(sealed)| > RESPONSE_LIMIT { return None; }
    var answer := Unseal(w, sealed, private, o.request);
    if answer.None? || !Authorised(o, answer.value, now) { return None; }
    recovered := ReceiveArchives(w, disk, private, o, sealed, answer.value, served);
  }

  function Paths(done: map<Role, string>): set<Path> { set role | role in done :: ArchivePath(done[role]) }

  /** Exactly when a response and the served archives get a receiver through. */
  ghost predicate Acceptable(w: World, private: seq<byte>, o: Order, sealed: Sealed, served: map<Role, seq<byte>>,
                             now: int) {
    && |w.encodeResponse(sealed)| <= RESPONSE_LIMIT && Unseal(w, sealed, private, o.request).Some?
    && Authorised(o, Unseal(w, sealed, private, o.request).value, now)
    && Deliverable(w, sealed, Unseal(w, sealed, private, o.request).value, private, o, served)
  }
}
