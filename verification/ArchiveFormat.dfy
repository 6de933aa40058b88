/**
 The encrypted archive octet by octet, and which descriptions and streams are accepted:
 exactly the ones that the encryption produces.
 */
module ArchiveFormat {
  import opened Common
  import opened Base64Url
  import opened ArchiveCodec
  import opened Authenticity

  lemma Packed(k: nat, a: byte, b: byte, c: byte, d: byte)
    requires k == a * 16777216 + b * 65536 + c * 256 + d
    ensures k < 0x1_0000_0000 && Pack32(k) == [a, b, c, d]
  {
    LowestOctet(a * 65536 + b * 256 + c, d);
    LowestOctet(a * 256 + b, c);
    LowestOctet(a, b);
  }

  lemma LowestOctet(high: nat, low: byte)
    ensures (high * 256 + low) / 256 == high && (high * 256 + low) % 256 == low
  {
  }

  /** What frame `k` seals: 4 MiB of the archive, or what is left of it. */
  function Part(data: seq<byte>, k: nat): seq<byte>
    requires k * 4194304 <= |data|
  {
    if k * 4194304 + 4194304 <= |data| then data[k * 4194304..k * 4194304 + 4194304] else data[k * 4194304..]
  }

  lemma PartOfRest(data: seq<byte>, k: nat)
    requires |data| >= 4194304 && k * 4194304 <= |data| - 4194304
    ensures Part(data[4194304..], k) == Part(data, k + 1)
  {
  }

  lemma {:induction false} ChunkIsPart(data: seq<byte>, k: nat)
    requires k * 4194304 < |data|
    ensures k < Count(|data|) && Chunk(data, k) == Part(data, k)
    decreases k
  {
    if k > 0 {
      ChunkIsPart(data[4194304..], k - 1);
      PartOfRest(data, k - 1);
    }
  }

  /** Frame `k` begins at octet 4194320`k`. It is the encryption of the `k`-th 4 MiB under
      the archive's key, with the archive's nonce and the number `k` in four octets, highest
      first, and for the archive's identity and `k`. */
  lemma FrameIs(s: Suite, w: Session, data: seq<byte>, k: nat, a: byte, b: byte, c: byte, d: byte)
    requires Lawful(s) && |data| <= 12884901888 && k * 4194304 < |data|
    requires k == a * 16777216 + b * 65536 + c * 256 + d
    ensures Count(|data|) <= 3072
    ensures Stands(Frames(s, w, data, 0), k * 4194320,
                   s.seal(w.key, w.nonce + [a, b, c, d], Part(data, k), Context(w.id, k)))
  {
    CountBound(|data|);
    ChunkIsPart(data, k);
    FrameStands(s, w, data, 0, k);
    Packed(k, a, b, c, d);
  }

  /** And the frames are all there is: 16 octets for each begun 4 MiB. */
  lemma StreamLength(s: Suite, w: Session, data: seq<byte>)
    requires Lawful(s) && Count(|data|) <= 0x1_0000_0000
    ensures |Frames(s, w, data, 0)| == |data| + 16 * ((|data| + 4194303) / 4194304)
  {
    FramesSize(s, w, data, 0);
    CountIsCeiling(|data|);
  }

  /** When an archive is produced, and what its description says. */
  lemma DescriptionExactly(s: Suite, r: Reading, secret: seq<byte>, request: string, purpose: string, expected: string,
                           nonce: seq<byte>, b: Bound, stream: seq<byte>)
    requires Count(|r.seen|) <= 0x1_0000_0000
    ensures Sealing(s, r, secret, request, purpose, expected, nonce) == Some((b, stream)) <==>
      && 0 < r.size <= 12884901888 && s.hash(r.seen) == expected && r.sizeAfter == r.size
      && stream == Frames(s, Session(secret, nonce, Identity(request, purpose, r.size, expected)), r.seen, 0)
      && b.nonce == Encode(nonce) && b.size == r.size && b.sha256 == expected
      && b.ciphertextSize == |stream| && b.ciphertextSha256 == s.hash(stream)
  {
  }

  /** The recipient's three checks of an archive. */
  ghost predicate Accepted(s: Suite, key: seq<byte>, request: string, purpose: string, b: Bound, stream: seq<byte>) {
    ArchiveBound(b) && Matches(s, b, stream) && Decryptable(s, SessionOf(key, request, purpose, b), stream)
  }

  /** They let through exactly what the encryption of some archive produces. */
  lemma AcceptedExactly(s: Suite, key: seq<byte>, request: string, purpose: string, b: Bound, stream: seq<byte>)
    requires Lawful(s)
    ensures Accepted(s, key, request, purpose, b, stream) <==>
      exists plain, nonce ::
        && |nonce| == 8
        && Encryption(s, plain, key, request, purpose, s.hash(plain), nonce) == Some((b, stream))
  {
    if Accepted(s, key, request, purpose, b, stream) {
      var plain :| Encrypts(s, SessionOf(key, request, purpose, b), stream, plain);
      AcceptedIsProduced(s, key, request, purpose, b, stream, plain);
    }
    if plain, nonce :| (
      && |nonce| == 8
      && Encryption(s, plain, key, request, purpose, s.hash(plain), nonce) == Some((b, stream)))
    {
      EncryptionIsSound(s, plain, key, request, purpose, s.hash(plain), nonce);
    }
  }

  lemma AcceptedIsProduced(s: Suite, key: seq<byte>, request: string, purpose: string, b: Bound, stream: seq<byte>,
                           plain: seq<byte>)
    requires Lawful(s) && ArchiveBound(b) && Matches(s, b, stream)
    requires Encrypts(s, SessionOf(key, request, purpose, b), stream, plain)
    ensures |Decode(b.nonce, 8).value| == 8
    ensures Encryption(s, plain, key, request, purpose, s.hash(plain), Decode(b.nonce, 8).value) == Some((b, stream))
  {
    var nonce := Decode(b.nonce, 8).value;
    DecodeExact(b.nonce, 8, nonce);
    DescriptionExactly(s, Steady(plain), key, request, purpose, s.hash(plain), nonce, b, stream);
  }
}
