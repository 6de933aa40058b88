/**
 Which delivery a ciphertext belongs to: a response or an archive opens only under the
 secret, for the request and in the purpose it was sealed for.
 */
module Transcript {
  import opened Common
  import opened Base64Url
  import opened ArchiveCodec
  import opened Authenticity
  import opened Delivery

  /** Everything that was ever sealed, by whoever has the secret: responses, and archives
      as they were read, whether or not their size and digest turned out to be right. */
  datatype Sent =
    | Response(secret: seq<byte>, request: string, nonce: seq<byte>, value: Payload)
    | Archive(secret: seq<byte>, request: string, role: Role, nonce: seq<byte>, size: nat, sha: string,
              plain: seq<byte>)

  function PurposeOf(x: Sent): string { if x.Response? then "response" else Purpose(x.role) }

  function Info(purpose: string): string { PROTOCOL + "/" + purpose }

  function KeyOf(w: World, x: Sent): seq<byte> { w.derive(x.secret, x.request, Info(PurposeOf(x))) }

  function ArchivedOf(w: World, x: Sent): Archived
    requires x.Archive?
  {
    Archived(Session(KeyOf(w, x), x.nonce, Identity(x.request, Purpose(x.role), x.size, x.sha)), x.plain)
  }

  ghost predicate UseOf(w: World, x: Sent, e: Entry) {
    match x
    case Response(_, request, nonce, value) =>
      e == Entry(KeyOf(w, x), nonce, ResponseContext(request), w.canonical(value))
    case Archive(_, _, _, _, _, _, _) => exists i :: FrameOf(ArchivedOf(w, x), i, e)
  }

  /** The uses of the cipher that these were. */
  ghost function Uses(w: World, sent: set<Sent>): Log { e => exists x :: x in sent && UseOf(w, x, e) }

  /** Fresh nonces under this secret: of the right length, and none twice for the same
      request and purpose. */
  predicate OwnNonceEach(sent: set<Sent>, secret: seq<byte>) {
    && (forall x | x in sent && x.secret == secret :: |x.nonce| == if x.Response? then 12 else 8)
    && forall x, y | x in sent && y in sent && x.secret == y.secret == secret && x.request == y.request
         && PurposeOf(x) == PurposeOf(y) && x.nonce == y.nonce :: x == y
  }

  /** No two of the values in play are derived to one key. */
  predicate KeyApart(w: World, sent: set<Sent>, secret: seq<byte>, request: string, purpose: string) {
    forall x | x in sent && KeyOf(w, x) == w.derive(secret, request, Info(purpose)) ::
      x.secret == secret && x.request == request && Info(PurposeOf(x)) == Info(purpose)
  }

  lemma PurposesDiffer(x: Sent, purpose: string)
    requires Info(PurposeOf(x)) == Info(purpose)
    ensures PurposeOf(x) == purpose
    ensures purpose == "response" ==> x.Response?
    ensures forall role :: purpose == Purpose(role) ==> x.Archive? && x.role == role
  {
    var n := |PROTOCOL + "/"|;
    assert Info(PurposeOf(x))[n..] == PurposeOf(x) && Info(purpose)[n..] == purpose;
    var marks := ["response"[0], "current"[0], "baseline"[0], "peer"[0]];
    assert marks == ['r', 'c', 'b', 'p'];
    assert purpose[0] == PurposeOf(x)[0];
  }

  /** The shared secret, None where the exchange refuses the public key. */
  function Agreed(w: World, private: seq<byte>, public: string): Option<seq<byte>> {
    match Decode(public, 32) case None => None case Some(raw) => w.exchange(private, raw)
  }

  /** `value` was sealed for this request under this secret, and this is what came of it. */
  ghost predicate WasSent(w: World, sent: set<Sent>, secret: seq<byte>, request: string, s: Sealed, value: Payload) {
    exists nonce :: IsResponse(w, sent, secret, request, s, value, nonce)
  }

  ghost predicate IsResponse(w: World, sent: set<Sent>, secret: seq<byte>, request: string, s: Sealed, value: Payload,
                             nonce: seq<byte>)
  {
    && Response(secret, request, nonce, value) in sent && s.nonce == Encode(nonce)
    && s.ciphertext == Encode(w.suite.seal(w.derive(secret, request, Info("response")), nonce, w.canonical(value),
                                           ResponseContext(request)))
  }

  /** What `unseal` checks without a key. */
  predicate Addressed(s: Sealed, request: string) {
    && s.schema == 1 && s.protocol == PROTOCOL && s.request == request
    && |s.ciphertext| <= RESPONSE_LIMIT && Hex64(request)
  }

  /** The response is no forgery: its one ciphertext does not open under its one nonce and
      for its context unless it was sealed so. */
  ghost predicate UnforgedResponse(w: World, sent: set<Sent>, secret: seq<byte>, request: string, s: Sealed) {
    Decode(s.nonce, 12).Some? && Canonical(s.ciphertext).Some? ==>
      UnforgedText(w, sent, w.derive(secret, request, Info("response")), request, Decode(s.nonce, 12).value,
                   Canonical(s.ciphertext).value)
  }

  ghost predicate UnforgedText(w: World, sent: set<Sent>, key: seq<byte>, request: string, nonce: seq<byte>,
                               raw: seq<byte>)
  {
    Respecting(Uses(w, sent), key) ==>
      OpensOnlySealed(w.suite, Uses(w, sent), key, nonce, raw, ResponseContext(request))
  }

  lemma ResponsesRespectNonces(w: World, sent: set<Sent>, secret: seq<byte>, request: string)
    requires OwnNonceEach(sent, secret) && KeyApart(w, sent, secret, request, "response")
    ensures Respecting(Uses(w, sent), w.derive(secret, request, Info("response")))
  {
    var log, k := Uses(w, sent), w.derive(secret, request, Info("response"));
    forall e, f | log(e) && log(f) && e.key == k && f.key == k && e.nonce == f.nonce ensures e == f {
      var x :| x in sent && UseOf(w, x, e);
      var y :| y in sent && UseOf(w, y, f);
      UseHasKey(w, x, e);
      UseHasKey(w, y, f);
      PurposesDiffer(x, "response");
      PurposesDiffer(y, "response");
      assert x == y;
    }
  }

  lemma UseHasKey(w: World, x: Sent, e: Entry)
    requires UseOf(w, x, e)
    ensures e.key == KeyOf(w, x)
  {
  }

  /** The context alone binds a response to its request and purpose, even if keys were
      shared between requests or purposes. */
  lemma ContextBindsResponse(w: World, sent: set<Sent>, key: seq<byte>, request: string, nonce: seq<byte>,
                             raw: seq<byte>)
    returns (x: Sent)
    requires LawfulWorld(w) && Respecting(Uses(w, sent), key) && UnforgedText(w, sent, key, request, nonce, raw)
    requires w.suite.open(key, nonce, raw, ResponseContext(request)).Some?
    ensures x in sent && x.Response? && x.request == request && x.nonce == nonce && KeyOf(w, x) == key
    ensures w.suite.open(key, nonce, raw, ResponseContext(request)) == Some(w.canonical(x.value))
  {
    var e := Entry(key, nonce, ResponseContext(request), w.suite.open(key, nonce, raw, ResponseContext(request)).value);
    x :| x in sent && UseOf(w, x, e);
    UseHasKey(w, x, e);
    assert forall role: Role :: Purpose(role) != "response";
  }

  /** What opens as a response was sealed as one. */
  lemma OpenedWasSent(w: World, sent: set<Sent>, secret: seq<byte>, request: string, nonce: seq<byte>, raw: seq<byte>)
    returns (value: Payload)
    requires LawfulWorld(w) && OwnNonceEach(sent, secret) && KeyApart(w, sent, secret, request, "response")
    requires UnforgedText(w, sent, w.derive(secret, request, Info("response")), request, nonce, raw)
    requires w.suite.open(w.derive(secret, request, Info("response")), nonce, raw, ResponseContext(request)).Some?
    ensures Response(secret, request, nonce, value) in sent
    ensures w.suite.open(w.derive(secret, request, Info("response")), nonce, raw, ResponseContext(request))
      == Some(w.canonical(value))
  {
    ResponsesRespectNonces(w, sent, secret, request);
    var x := ContextBindsResponse(w, sent, w.derive(secret, request, Info("response")), request, nonce, raw);
    value := x.value;
  }

  /** Exact acceptance of a response: it opens exactly when it is the one spelling of what
      was sealed under the agreed secret, for this very request and as a response. */
  lemma UnsealedWasSent(w: World, sent: set<Sent>, s: Sealed, private: seq<byte>, secret: seq<byte>, request: string,
                        value: Payload)
    requires LawfulWorld(w) && OwnNonceEach(sent, secret) && Agreed(w, private, s.publicKey) == Some(secret)
    requires KeyApart(w, sent, secret, request, "response") && UnforgedResponse(w, sent, secret, request, s)
    ensures Unseal(w, s, private, request) == Some(value)
      <==> Addressed(s, request) && WasSent(w, sent, secret, request, s, value)
  {
    var k := w.derive(secret, request, Info("response"));
    if Unseal(w, s, private, request) == Some(value) {
      var nonce, raw := Decode(s.nonce, 12).value, Canonical(s.ciphertext).value;
      DecodeExact(s.nonce, 12, nonce);
      CanonicalExact(s.ciphertext, raw);
      var found := OpenedWasSent(w, sent, secret, request, nonce, raw);
      assert w.parse(w.canonical(found)) == Some(found);
      assert w.suite.seal(k, nonce, w.canonical(found), ResponseContext(request)) == raw;
      assert IsResponse(w, sent, secret, request, s, value, nonce);
    }
    if Addressed(s, request) && WasSent(w, sent, secret, request, s, value) {
      var nonce :| IsResponse(w, sent, secret, request, s, value, nonce);
      SentOpens(w, s, private, secret, request, nonce, value);
    }
  }

  lemma SentOpens(w: World, s: Sealed, private: seq<byte>, secret: seq<byte>, request: string, nonce: seq<byte>,
                  value: Payload)
    requires LawfulWorld(w) && |nonce| == 12 && Addressed(s, request) && Agreed(w, private, s.publicKey) == Some(secret)
    requires s.nonce == Encode(nonce)
    requires s.ciphertext == Encode(w.suite.seal(w.derive(secret, request, Info("response")), nonce, w.canonical(value),
                                                 ResponseContext(request)))
    ensures Unseal(w, s, private, request) == Some(value)
  {
    var k := w.derive(secret, request, Info("response"));
    var sealed := w.suite.seal(k, nonce, w.canonical(value), ResponseContext(request));
    RoundTrip(nonce);
    CanonicalExact(Encode(sealed), sealed);
    assert w.suite.open(k, nonce, sealed, ResponseContext(request)) == Some(w.canonical(value));
  }

  /** Where nothing was sealed as a response under this secret and for this request, no
      response opens: not one for another request, and no frame of an archive. */
  lemma OtherRequestsAreRefused(w: World, sent: set<Sent>, s: Sealed, private: seq<byte>, secret: seq<byte>,
                                request: string)
    requires LawfulWorld(w) && OwnNonceEach(sent, secret) && Agreed(w, private, s.publicKey) == Some(secret)
    requires KeyApart(w, sent, secret, request, "response") && UnforgedResponse(w, sent, secret, request, s)
    requires forall x | x in sent && x.Response? :: x.secret != secret || x.request != request
    ensures Unseal(w, s, private, request).None?
  {
    var answer := Unseal(w, s, private, request);
    if answer.Some? {
      UnsealedWasSent(w, sent, s, private, secret, request, answer.value);
    }
  }

  /** The archives that were sealed under a key. */
  ghost function Archives(w: World, sent: set<Sent>, key: seq<byte>): set<Archived> {
    set x | x in sent && x.Archive? && KeyOf(w, x) == key :: ArchivedOf(w, x)
  }

  lemma ArchivesKeepRules(w: World, sent: set<Sent>, secret: seq<byte>, request: string, role: Role)
    requires OwnNonceEach(sent, secret) && KeyApart(w, sent, secret, request, Purpose(role))
    ensures
      var key := w.derive(secret, request, Info(Purpose(role)));
      OnlyArchives(Uses(w, sent), key, Archives(w, sent, key)) && OwnNonces(Archives(w, sent, key))
  {
    var key := w.derive(secret, request, Info(Purpose(role)));
    var history := Archives(w, sent, key);
    forall e | Uses(w, sent)(e) && e.key == key ensures exists a, i :: a in history && FrameOf(a, i, e) {
      var x :| x in sent && UseOf(w, x, e);
      UseHasKey(w, x, e);
      PurposesDiffer(x, Purpose(role));
      var i :| FrameOf(ArchivedOf(w, x), i, e);
      assert ArchivedOf(w, x) in history;
    }
    forall a, b | a in history && b in history && SameNonce(a, b) ensures a == b {
      var x := Source(w, sent, secret, request, role, a);
      var y := Source(w, sent, secret, request, role, b);
      assert x == y;
    }
  }

  lemma Source(w: World, sent: set<Sent>, secret: seq<byte>, request: string, role: Role, a: Archived) returns (x: Sent)
    requires KeyApart(w, sent, secret, request, Purpose(role))
    requires a in Archives(w, sent, w.derive(secret, request, Info(Purpose(role))))
    ensures x in sent && x.Archive? && a == ArchivedOf(w, x)
    ensures x.secret == secret && x.request == request && x.role == role
  {
    var key := w.derive(secret, request, Info(Purpose(role)));
    x :| x in sent && x.Archive? && KeyOf(w, x) == key && a == ArchivedOf(w, x);
    PurposesDiffer(x, Purpose(role));
  }

  /** The session both sides use for an archive of the delivery. */
  function SessionUnder(w: World, secret: seq<byte>, request: string, role: Role, b: Bound): Session
    requires ArchiveBound(b)
  {
    SessionOf(w.derive(secret, request, Info(Purpose(role))), request, Purpose(role), b)
  }

  /** Whatever decrypts as the archive of a role was sealed for this request and role
      under this secret, with this nonce, size and digest; and it is all of it, unless the
      source had changed while it was read. */
  lemma ArchiveWasSent(w: World, sent: set<Sent>, secret: seq<byte>, request: string, role: Role, b: Bound,
                       stream: seq<byte>, plain: seq<byte>)
    returns (original: seq<byte>)
    requires LawfulWorld(w) && OwnNonceEach(sent, secret) && KeyApart(w, sent, secret, request, Purpose(role))
    requires ArchiveBound(b)
    requires Unforged(w.suite, Uses(w, sent), SessionUnder(w, secret, request, role, b), stream)
    requires Encrypts(w.suite, SessionUnder(w, secret, request, role, b), stream, plain)
    ensures Archive(secret, request, role, Decode(b.nonce, 8).value, b.size, b.sha256, original) in sent
    ensures plain <= original && (|original| == b.size ==> plain == original)
  {
    var session := SessionUnder(w, secret, request, role, b);
    ArchivesKeepRules(w, sent, secret, request, role);
    AcceptanceIsEncryption(w.suite, session, stream);
    DecodeExact(b.nonce, 8, session.nonce);
    var a := OnlyWhatWasSealed(w.suite, Uses(w, sent), Archives(w, sent, session.key), session, stream);
    var x := Source(w, sent, secret, request, role, a);
    original := x.plain;
  }

  /** Exact acceptance of an archive that was sealed: of all streams that are no forgery
      its own frames decrypt, if it has the digest that was promised, and no others. */
  lemma ArchiveExactly(w: World, sent: set<Sent>, secret: seq<byte>, request: string, role: Role, b: Bound,
                       stream: seq<byte>, original: seq<byte>)
    requires LawfulWorld(w) && OwnNonceEach(sent, secret) && KeyApart(w, sent, secret, request, Purpose(role))
    requires ArchiveBound(b)
    requires Unforged(w.suite, Uses(w, sent), SessionUnder(w, secret, request, role, b), stream)
    requires Archive(secret, request, role, Decode(b.nonce, 8).value, b.size, b.sha256, original) in sent
    requires |original| == b.size
    ensures Count(b.size) <= 3072
    ensures Decryptable(w.suite, SessionUnder(w, secret, request, role, b), stream) <==>
      && stream == Frames(w.suite, SessionUnder(w, secret, request, role, b), original, 0)
      && w.suite.hash(original) == b.sha256
  {
    var x := Archive(secret, request, role, Decode(b.nonce, 8).value, b.size, b.sha256, original);
    var session := SessionUnder(w, secret, request, role, b);
    CountBound(b.size);
    ArchivesKeepRules(w, sent, secret, request, role);
    assert KeyOf(w, x) == session.key && ArchivedOf(w, x) == Archived(session, original);
    assert ArchivedOf(w, x) in Archives(w, sent, session.key);
    ExactAcceptance(w.suite, Uses(w, sent), Archives(w, sent, session.key), session, original, stream);
  }
}
