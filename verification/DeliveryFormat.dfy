/**
 The sealed response field by field, and which deliveries a receiver accepts: exactly the
 ones that are put together as the sender does it.
 */
module DeliveryFormat {
  import opened Common
  import opened Base64Url
  import opened ArchiveCodec
  import opened ArchiveFormat
  import opened Delivery

  /** Digests and request numbers are 64 lower-case hexadecimal digits. */
  lemma Hex64Exactly(s: string)
    ensures Hex64(s) <==> |s| == 64 && forall i | 0 <= i < |s| :: s[i] in "0123456789abcdef"
  {
    var digits := "0123456789abcdef";
    assert digits[0] == '0' && digits[1] == '1' && digits[2] == '2' && digits[3] == '3' && digits[4] == '4';
    assert digits[5] == '5' && digits[6] == '6' && digits[7] == '7' && digits[8] == '8' && digits[9] == '9';
    assert digits[10] == 'a' && digits[11] == 'b' && digits[12] == 'c' && digits[13] == 'd' && digits[14] == 'e';
    assert digits[15] == 'f';
  }

  /** `k` is derived for the request under the name from the secret shared with the owner of
      the encoded public key. */
  ghost predicate Derived(w: World, private: seq<byte>, public: string, request: string, name: string, k: seq<byte>) {
    exists raw: seq<byte> :: (
      && |raw| == 32 && public == Encode(raw) && w.exchange(private, raw).Some?
      && k == w.derive(w.exchange(private, raw).value, request, "gchat-acceptance-delivery-1/" + name))
  }

  lemma InfoIs(name: string)
    ensures PROTOCOL + "/" + name == "gchat-acceptance-delivery-1/" + name
  {
    assert PROTOCOL + "/" == "gchat-acceptance-delivery-1/";
  }

  lemma KeyExactly(w: World, private: seq<byte>, public: string, request: string, name: string, k: seq<byte>)
    ensures KeyFor(w, private, public, request, name) == Some(k)
      <==> Hex64(request) && Derived(w, private, public, request, name, k)
  {
    InfoIs(name);
    forall raw: seq<byte> | |raw| == 32 ensures Decode(public, 32) == Some(raw) <==> public == Encode(raw) {
      EncodeIsUnpadded(raw);
      DecodeExact(public, 32, raw);
    }
    assert Decode(public, 32).Some? ==> |Decode(public, 32).value| == 32;
  }

  /** The response is the encryption of `value` for the request. */
  ghost predicate Says(w: World, s: Sealed, private: seq<byte>, request: string, value: Payload) {
    && s.schema == 1 && s.protocol == "gchat-acceptance-delivery-1" && s.request == request && Hex64(request)
    && |s.ciphertext| <= 262144
    && exists k, nonce, bytes :: SaysBy(w, s, private, request, value, k, nonce, bytes)
  }

  ghost predicate SaysBy(w: World, s: Sealed, private: seq<byte>, request: string, value: Payload, k: seq<byte>,
                         nonce: seq<byte>, bytes: seq<byte>)
  {
    && Derived(w, private, s.publicKey, request, "response", k) && |nonce| == 12 && s.nonce == Encode(nonce)
    && s.ciphertext == Encode(w.suite.seal(k, nonce, bytes, Context(Identity(request, "response", 0, ""), 0)))
    && w.parse(bytes) == Some(value)
  }

  /** A response opens exactly to what it is the encryption of. */
  lemma UnsealExactly(w: World, s: Sealed, private: seq<byte>, request: string, value: Payload)
    requires LawfulWorld(w)
    ensures Unseal(w, s, private, request) == Some(value) <==> Says(w, s, private, request, value)
  {
    if Unseal(w, s, private, request) == Some(value) {
      UnsealedSays(w, s, private, request, value);
    }
    if Says(w, s, private, request, value) {
      var k, nonce, bytes :| SaysBy(w, s, private, request, value, k, nonce, bytes);
      SaidOpens(w, s, private, request, value, k, nonce, bytes);
    }
  }

  lemma UnsealedSays(w: World, s: Sealed, private: seq<byte>, request: string, value: Payload)
    requires LawfulWorld(w) && Unseal(w, s, private, request) == Some(value)
    ensures Says(w, s, private, request, value)
  {
    var nonce, raw := Decode(s.nonce, 12).value, Canonical(s.ciphertext).value;
    var k := KeyFor(w, private, s.publicKey, request, "response").value;
    var bytes := w.suite.open(k, nonce, raw, ResponseContext(request)).value;
    DecodeExact(s.nonce, 12, nonce);
    CanonicalExact(s.ciphertext, raw);
    KeyExactly(w, private, s.publicKey, request, "response", k);
    assert SaysBy(w, s, private, request, value, k, nonce, bytes);
  }

  lemma SaidOpens(w: World, s: Sealed, private: seq<byte>, request: string, value: Payload, k: seq<byte>,
                  nonce: seq<byte>, bytes: seq<byte>)
    requires LawfulWorld(w) && Says(w, s, private, request, value)
    requires SaysBy(w, s, private, request, value, k, nonce, bytes)
    ensures Unseal(w, s, private, request) == Some(value)
  {
    var raw := w.suite.seal(k, nonce, bytes, ResponseContext(request));
    EncodeIsUnpadded(nonce);
    DecodeExact(s.nonce, 12, nonce);
    CanonicalExact(s.ciphertext, raw);
    KeyExactly(w, private, s.publicKey, request, "response", k);
    assert w.suite.open(k, nonce, raw, ResponseContext(request)) == Some(bytes);
  }

  /** The stream and its description are the encryption of an archive with the digest `sha`
      for this request and name. */
  ghost predicate Carries(w: World, public: string, private: seq<byte>, request: string, name: string, sha: string,
                          b: Bound, stream: seq<byte>)
  {
    exists k, plain, nonce :: CarriesBy(w, public, private, request, name, sha, b, stream, k, plain, nonce)
  }

  ghost predicate CarriesBy(w: World, public: string, private: seq<byte>, request: string, name: string, sha: string,
                            b: Bound, stream: seq<byte>, k: seq<byte>, plain: seq<byte>, nonce: seq<byte>)
  {
    && Derived(w, private, public, request, name, k) && |nonce| == 8 && w.suite.hash(plain) == sha
    && Encryption(w.suite, plain, k, request, name, sha, nonce) == Some((b, stream))
  }

  function NameOf(role: Role): string {
    match role case Current => "current" case Baseline => "baseline" case Peer => "peer"
  }

  lemma RoleExactly(w: World, sealed: Sealed, value: Payload, private: seq<byte>, o: Order, role: Role,
                    served: map<Role, seq<byte>>)
    requires LawfulWorld(w) && role in o.specs && Hex64(o.request)
    ensures RoleAccepted(w, sealed, value, private, o, role, served) <==>
      && role in value.archives && role in served
      && Carries(w, sealed.publicKey, private, o.request, NameOf(role), o.specs[role], value.archives[role],
                 served[role])
  {
    if role in value.archives && role in served {
      var b, stream, name := value.archives[role], served[role], Purpose(role);
      if RoleAccepted(w, sealed, value, private, o, role, served) {
        RoleCarries(w, sealed.publicKey, private, o.request, name, o.specs[role], b, stream);
      }
      if Carries(w, sealed.publicKey, private, o.request, name, o.specs[role], b, stream) {
        CarriedIsAccepted(w, sealed.publicKey, private, o.request, name, o.specs[role], b, stream);
      }
    }
  }

  lemma RoleCarries(w: World, public: string, private: seq<byte>, request: string, name: string, sha: string, b: Bound,
                    stream: seq<byte>)
    requires LawfulWorld(w) && KeyFor(w, private, public, request, name).Some? && b.sha256 == sha
    requires Accepted(w.suite, KeyFor(w, private, public, request, name).value, request, name, b, stream)
    ensures Carries(w, public, private, request, name, sha, b, stream)
  {
    var k := KeyFor(w, private, public, request, name).value;
    KeyExactly(w, private, public, request, name, k);
    AcceptedExactly(w.suite, k, request, name, b, stream);
    var plain, nonce :| (
      && |nonce| == 8
      && Encryption(w.suite, plain, k, request, name, w.suite.hash(plain), nonce) == Some((b, stream)));
    assert CarriesBy(w, public, private, request, name, sha, b, stream, k, plain, nonce);
  }

  lemma CarriedIsAccepted(w: World, public: string, private: seq<byte>, request: string, name: string, sha: string,
                          b: Bound, stream: seq<byte>)
    requires LawfulWorld(w) && Hex64(request) && Carries(w, public, private, request, name, sha, b, stream)
    ensures KeyFor(w, private, public, request, name).Some? && b.sha256 == sha
    ensures Accepted(w.suite, KeyFor(w, private, public, request, name).value, request, name, b, stream)
  {
    var k, plain, nonce :| CarriesBy(w, public, private, request, name, sha, b, stream, k, plain, nonce);
    KeyExactly(w, private, public, request, name, k);
    AcceptedExactly(w.suite, k, request, name, b, stream);
  }

  /** What a delivery is, for a receiver with its order at a time. */
  ghost predicate Delivers(w: World, private: seq<byte>, o: Order, sealed: Sealed, served: map<Role, seq<byte>>,
                           now: int, value: Payload)
  {
    && Says(w, sealed, private, o.request, value)
    && value.request == o.request && value.inputs == o.specs && value.sources == o.sources && value.target == o.target
    && now < value.expiresAt && 0 < |value.invitation| <= 48000
    && forall role | role in o.specs ::
         && role in value.archives && role in served
         && Carries(w, sealed.publicKey, private, o.request, NameOf(role), o.specs[role], value.archives[role],
                    served[role])
  }

  /** A receiver gets through exactly with a response of at most 262144 octets that delivers
      what was ordered, no two roles with one archive. */
  lemma AcceptableExactly(w: World, private: seq<byte>, o: Order, sealed: Sealed, served: map<Role, seq<byte>>,
                          now: int)
    requires LawfulWorld(w)
    ensures Acceptable(w, private, o, sealed, served, now) <==>
      && |w.encodeResponse(sealed)| <= 262144
      && (forall a, b | a in o.specs && b in o.specs && a != b :: o.specs[a] != o.specs[b])
      && exists value :: Delivers(w, private, o, sealed, served, now, value)
  {
    var answer := Unseal(w, sealed, private, o.request);
    forall value ensures Delivers(w, private, o, sealed, served, now, value) ==> answer == Some(value) {
      UnsealExactly(w, sealed, private, o.request, value);
    }
    if answer.Some? { OpenedDelivers(w, private, o, sealed, served, now, answer.value); }
    DistinctExactly(o.specs);
  }

  lemma DistinctExactly(specs: map<Role, string>)
    ensures DistinctArchives(specs) <==> forall a, b | a in specs && b in specs && a != b :: specs[a] != specs[b]
  {
  }

  lemma OpenedDelivers(w: World, private: seq<byte>, o: Order, sealed: Sealed, served: map<Role, seq<byte>>, now: int,
                       value: Payload)
    requires LawfulWorld(w) && Unseal(w, sealed, private, o.request) == Some(value)
    ensures Delivers(w, private, o, sealed, served, now, value) <==>
      && Authorised(o, value, now)
      && forall role | role in o.specs :: RoleAccepted(w, sealed, value, private, o, role, served)
  {
    UnsealExactly(w, sealed, private, o.request, value);
    forall role | role in o.specs { RoleExactly(w, sealed, value, private, o, role, served); }
  }
}
