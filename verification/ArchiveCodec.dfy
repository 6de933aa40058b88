/**
 The chunked authenticated encryption of scripts/acceptance_delivery.py: frames of at
 most 4 MiB, a counter in the nonce, and the archive's identity and the frame index
 as associated data.
 */
module ArchiveCodec {
  import opened Common
  import opened Base64Url

  const CHUNK: nat := 4 * 1024 * 1024
  const MAXIMUM: nat := 12 * 1024 * 1024 * 1024
  const TAG: nat := 16

  /** What every frame of an archive is bound to besides its index. */
  datatype Identity = Identity(request: string, purpose: string, size: nat, sha: string)

  /** The associated data: `canonical` is an injective encoding of this list. */
  datatype Context = Context(id: Identity, index: nat)

  /** The primitives, known only by their laws. */
  datatype Suite = Suite(
    seal: (seq<byte>, seq<byte>, seq<byte>, Context) -> seq<byte>,
    open: (seq<byte>, seq<byte>, seq<byte>, Context) -> Option<seq<byte>>,
    hash: seq<byte> -> string)

  /** AES-GCM as RFC 5116 sections 2.1, 2.2 and 5.2 describe it: the ciphertext is 16
      octets longer than the plaintext, decryption inverts encryption, and since
      encryption is deterministic for given key, nonce and associated data, nothing
      but the encryption of a plaintext decrypts to it. Digests are 64 hex digits. */
  ghost predicate Lawful(s: Suite) {
    && (forall k, n, p, c :: |s.seal(k, n, p, c)| == |p| + TAG)
    && (forall k, n, p, c :: s.open(k, n, s.seal(k, n, p, c), c) == Some(p))
    && (forall k, n, x, c :: s.open(k, n, x, c).Some? ==> s.seal(k, n, s.open(k, n, x, c).value, c) == x)
    && (forall d :: Hex64(s.hash(d)))
  }

  predicate Hex64(s: string) {
    |s| == 64 && forall i | 0 <= i < 64 :: '0' <= s[i] <= '9' || 'a' <= s[i] <= 'f'
  }

  /** The laws can be met: seal by appending 16 zero octets. */
  lemma LawsAreConsistent()
    ensures exists s: Suite :: Lawful(s)
  {
    var zeros := seq(TAG, i => 0 as byte);
    var s := Suite(
      (k, n, p, c) => p + zeros,
      (k, n, x, c) => if |x| >= TAG && x[|x| - TAG..] == zeros then Some(x[..|x| - TAG]) else None,
      d => seq(64, i => '0'));
    forall k, n, p, c ensures s.open(k, n, s.seal(k, n, p, c), c) == Some(p) {
      assert (p + zeros)[|p|..] == zeros && (p + zeros)[..|p|] == p;
    }
    assert Lawful(s);
  }

  function Min(a: nat, b: nat): nat { if a < b then a else b }

  /** How many frames `n` octets take. */
  function Count(n: nat): nat { if n == 0 then 0 else 1 + Count(n - Min(CHUNK, n)) }

  lemma {:induction false} CountIsCeiling(n: nat)
    ensures Count(n) == (n + CHUNK - 1) / CHUNK
  {
    if n > CHUNK {
      CountIsCeiling(n - CHUNK);
      assert (n + CHUNK - 1) / CHUNK == (n - CHUNK + CHUNK - 1) / CHUNK + 1;
    } else if n > 0 {
      assert Count(n) == 1 + Count(0);
    }
  }

  lemma CountBound(n: nat)
    requires n <= MAXIMUM
    ensures Count(n) <= 3072
  {
    CountIsCeiling(n);
  }

  /** struct.pack('>I', index), which fails from 2^32 on. */
  function Pack32(index: nat): (r: seq<byte>)
    requires index < 0x1_0000_0000
    ensures |r| == 4
  {
    [index / 256 / 256 / 256, index / 256 / 256 % 256, index / 256 % 256, index % 256]
  }

  /** Everything that fixes the ciphertext of an archive besides its bytes. */
  datatype Session = Session(key: seq<byte>, nonce: seq<byte>, id: Identity)

  /** The nonce of a frame: the archive's, and a counter. */
  function FrameNonce(w: Session, index: nat): seq<byte>
    requires index < 0x1_0000_0000
  {
    w.nonce + Pack32(index)
  }

  /** `context`: what a frame is bound to. */
  function FrameContext(w: Session, index: nat): Context { Context(w.id, index) }

  function SealFrame(s: Suite, w: Session, data: seq<byte>, index: nat): seq<byte>
    requires index < 0x1_0000_0000
  {
    s.seal(w.key, FrameNonce(w, index), data, FrameContext(w, index))
  }

  function OpenFrame(s: Suite, w: Session, frame: seq<byte>, index: nat): Option<seq<byte>>
    requires index < 0x1_0000_0000
  {
    s.open(w.key, FrameNonce(w, index), frame, FrameContext(w, index))
  }

  /** The encryption of `data` as frames `index`, `index` + 1, ... of an archive. */
  function Frames(s: Suite, w: Session, data: seq<byte>, index: nat): seq<byte>
    requires index + Count(|data|) <= 0x1_0000_0000
    decreases |data|
  {
    if data == [] then []
    else
      var n := Min(CHUNK, |data|);
      SealFrame(s, w, data[..n], index) + Frames(s, w, data[n..], index + 1)
  }

  function Prefixed(head: seq<byte>, rest: Option<seq<byte>>): Option<seq<byte>> {
    match rest case None => None case Some(tail) => Some(head + tail)
  }

  /** What the decryption loop makes of a stream from which `remaining` octets of
      plaintext are still expected. */
  function Unframe(s: Suite, w: Session, stream: seq<byte>, remaining: nat, index: nat): Option<seq<byte>>
    requires index + Count(remaining) <= 0x1_0000_0000
    decreases remaining
  {
    if remaining == 0 then
      if stream == [] then Some([]) else None
    else
      var count := Min(CHUNK, remaining);
      var read := Min(count + TAG, |stream|);
      match OpenFrame(s, w, stream[..read], index)
      case None => None
      case Some(data) =>
        if |data| != count then None
        else Prefixed(data, Unframe(s, w, stream[read..], remaining - count, index + 1))
  }

  /** The exact size equation that `archive_bound` demands. */
  lemma {:induction false} FramesSize(s: Suite, w: Session, data: seq<byte>, index: nat)
    requires Lawful(s) && index + Count(|data|) <= 0x1_0000_0000
    ensures |Frames(s, w, data, index)| == |data| + 16 * Count(|data|)
    decreases |data|
  {
    if data != [] { FramesSize(s, w, data[Min(CHUNK, |data|)..], index + 1); }
  }

  /** A whole frame at the head of the stream opens, and the loop goes on behind it. */
  lemma UnframeHead(s: Suite, w: Session, chunk: seq<byte>, rest: seq<byte>, remaining: nat, index: nat)
    requires Lawful(s) && remaining > 0 && |chunk| == Min(CHUNK, remaining)
    requires index + Count(remaining) <= 0x1_0000_0000
    ensures Unframe(s, w, SealFrame(s, w, chunk, index) + rest, remaining, index)
      == Prefixed(chunk, Unframe(s, w, rest, remaining - |chunk|, index + 1))
  {
    var frame := SealFrame(s, w, chunk, index);
    assert |frame| == |chunk| + TAG;
    assert (frame + rest)[..|frame|] == frame && (frame + rest)[|frame|..] == rest;
    assert OpenFrame(s, w, frame, index) == Some(chunk);
  }

  lemma {:induction false} UnframeFrames(s: Suite, w: Session, data: seq<byte>, index: nat)
    requires Lawful(s) && index + Count(|data|) <= 0x1_0000_0000
    ensures Unframe(s, w, Frames(s, w, data, index), |data|, index) == Some(data)
    decreases |data|
  {
    if data != [] {
      var n := Min(CHUNK, |data|);
      UnframeFrames(s, w, data[n..], index + 1);
      UnframeMore(s, w, data[..n], data[n..], index);
      assert data == data[..n] + data[n..];
    }
  }

  lemma UnframeMore(s: Suite, w: Session, chunk: seq<byte>, rest: seq<byte>, index: nat)
    requires Lawful(s) && 0 < |chunk| == Min(CHUNK, |chunk| + |rest|)
    requires index + Count(|chunk| + |rest|) <= 0x1_0000_0000 && index + 1 + Count(|rest|) <= 0x1_0000_0000
    requires Unframe(s, w, Frames(s, w, rest, index + 1), |rest|, index + 1) == Some(rest)
    ensures Unframe(s, w, Frames(s, w, chunk + rest, index), |chunk + rest|, index) == Some(chunk + rest)
  {
    var data := chunk + rest;
    assert data[..|chunk|] == chunk && data[|chunk|..] == rest;
    assert Frames(s, w, data, index) == SealFrame(s, w, chunk, index) + Frames(s, w, rest, index + 1);
    UnframeHead(s, w, chunk, Frames(s, w, rest, index + 1), |data|, index);
  }

  /** A frame that opens is the encryption of what it opens to. */
  lemma FramesHead(s: Suite, w: Session, stream: seq<byte>, read: nat, data: seq<byte>, rest: seq<byte>, index: nat)
    requires Lawful(s) && read <= |stream| && 0 < |data| && |data| == Min(CHUNK, |data| + |rest|)
    requires index + Count(|data| + |rest|) <= 0x1_0000_0000 && index + 1 + Count(|rest|) <= 0x1_0000_0000
    requires OpenFrame(s, w, stream[..read], index) == Some(data) && stream[read..] == Frames(s, w, rest, index + 1)
    ensures stream == Frames(s, w, data + rest, index)
  {
    assert SealFrame(s, w, data, index) == stream[..read];
    assert (data + rest)[..|data|] == data && (data + rest)[|data|..] == rest;
    assert stream == stream[..read] + stream[read..];
  }

  /** What an accepted stream begins with, and what follows. */
  lemma UnframeSplit(s: Suite, w: Session, stream: seq<byte>, remaining: nat, index: nat)
    returns (data: seq<byte>, rest: seq<byte>)
    requires remaining > 0 && index + Count(remaining) <= 0x1_0000_0000
    requires Unframe(s, w, stream, remaining, index).Some?
    ensures
      var count := Min(CHUNK, remaining);
      var read := Min(count + TAG, |stream|);
      && |data| == count && index + 1 + Count(remaining - count) <= 0x1_0000_0000
      && OpenFrame(s, w, stream[..read], index) == Some(data)
      && Unframe(s, w, stream[read..], remaining - count, index + 1) == Some(rest)
      && Unframe(s, w, stream, remaining, index) == Some(data + rest)
  {
    var count := Min(CHUNK, remaining);
    var read := Min(count + TAG, |stream|);
    data := OpenFrame(s, w, stream[..read], index).value;
    rest := Unframe(s, w, stream[read..], remaining - count, index + 1).value;
  }

  lemma {:induction false} FramesUnframe(s: Suite, w: Session, stream: seq<byte>, remaining: nat, index: nat)
    requires Lawful(s) && index + Count(remaining) <= 0x1_0000_0000
    requires Unframe(s, w, stream, remaining, index).Some?
    ensures
      var plain := Unframe(s, w, stream, remaining, index).value;
      |plain| == remaining && stream == Frames(s, w, plain, index)
    decreases remaining
  {
    if remaining > 0 {
      var data, rest := UnframeSplit(s, w, stream, remaining, index);
      var read := Min(|data| + TAG, |stream|);
      FramesUnframe(s, w, stream[read..], remaining - |data|, index + 1);
      FramesHead(s, w, stream, read, data, rest, index);
    }
  }

  /** The loop accepts exactly the complete, in-order frames of one plaintext of the
      expected length, and returns that plaintext. */
  lemma UnframeExact(s: Suite, w: Session, stream: seq<byte>, plain: seq<byte>, remaining: nat)
    requires Lawful(s) && Count(remaining) <= 0x1_0000_0000
    ensures Unframe(s, w, stream, remaining, 0) == Some(plain)
      <==> |plain| == remaining && stream == Frames(s, w, plain, 0)
  {
    if |plain| == remaining { UnframeFrames(s, w, plain, 0); }
    if Unframe(s, w, stream, remaining, 0).Some? { FramesUnframe(s, w, stream, remaining, 0); }
  }

  /** At most 3072 frames, so that the counter fits four octets. */
  lemma CounterFits(size: nat, index: nat)
    requires 0 < size <= MAXIMUM && index < Count(size)
    ensures index < 3072 < 0x1_0000_0000
  {
    CountBound(size);
  }

  /** Frames have the same nonce only where the archives do and the counters agree. */
  lemma NoncesAreDistinct(a: Session, b: Session, i: nat, j: nat)
    requires |a.nonce| == |b.nonce| && i < 0x1_0000_0000 && j < 0x1_0000_0000
    ensures FrameNonce(a, i) == FrameNonce(b, j) <==> a.nonce == b.nonce && i == j
  {
    var x, y := FrameNonce(a, i), FrameNonce(b, j);
    if x == y {
      assert a.nonce == x[..|a.nonce|] == y[..|b.nonce|] == b.nonce;
      assert Pack32(i) == x[|a.nonce|..] == y[|b.nonce|..] == Pack32(j);
      Pack32IsInjective(i, j);
    }
  }

  lemma Pack32IsInjective(i: nat, j: nat)
    requires i < 0x1_0000_0000 && j < 0x1_0000_0000 && Pack32(i) == Pack32(j)
    ensures i == j
  {
    var p, q := Pack32(i), Pack32(j);
    assert p[0] == q[0] && p[1] == q[1];
    assert p[2] == q[2];
    assert p[3] == q[3];
  }

  /** `archive_bound`: the description of an encrypted archive in the response. */
  datatype Bound = Bound(nonce: string, size: int, sha256: string, ciphertextSize: int, ciphertextSha256: string)

  predicate ArchiveBound(b: Bound) {
    && 0 < b.size <= MAXIMUM && Hex64(b.sha256)
    && b.ciphertextSize == b.size + 16 * ((b.size + CHUNK - 1) / CHUNK)
    && Hex64(b.ciphertextSha256)
    && Decode(b.nonce, 8).Some?
  }

  /** The parameters both sides derive for an archive. */
  function SessionOf(key: seq<byte>, request: string, purpose: string, b: Bound): Session
    requires ArchiveBound(b)
  {
    Session(key, Decode(b.nonce, 8).value, Identity(request, purpose, b.size, b.sha256))
  }

  /** `stream` is the encryption of `plain` in session `w`, and `plain` is what the
      session says it is. */
  ghost predicate Encrypts(s: Suite, w: Session, stream: seq<byte>, plain: seq<byte>) {
    && |plain| == w.id.size && Count(|plain|) <= 3072 && s.hash(plain) == w.id.sha
    && stream == Frames(s, w, plain, 0)
  }

  /** `stream` is the complete encryption of some plaintext the session describes. */
  ghost predicate Decryptable(s: Suite, w: Session, stream: seq<byte>) {
    exists plain :: Encrypts(s, w, stream, plain)
  }

  /** What a call of `encrypt_archive` finds: the size of the source, what it then reads,
      and the size of the source afterwards. */
  datatype Reading = Reading(size: nat, seen: seq<byte>, sizeAfter: nat)

  /** A source that does not change. */
  function Steady(plain: seq<byte>): Reading { Reading(|plain|, plain, |plain|) }

  /** The archive a call of `encrypt_archive` produces, None where it refuses. */
  function Sealing(s: Suite, r: Reading, secret: seq<byte>, request: string, purpose: string, expected: string,
                   nonce: seq<byte>): Option<(Bound, seq<byte>)>
    requires Count(|r.seen|) <= 0x1_0000_0000
  {
    if !(0 < r.size <= MAXIMUM) || s.hash(r.seen) != expected || r.sizeAfter != r.size then None
    else
      var sealed := Frames(s, Session(secret, nonce, Identity(request, purpose, r.size, expected)), r.seen, 0);
      Some((Bound(Encode(nonce), r.size, expected, |sealed|, s.hash(sealed)), sealed))
  }

  /** The same for a source that does not change. */
  function Encryption(s: Suite, plain: seq<byte>, secret: seq<byte>, request: string, purpose: string,
                      expected: string, nonce: seq<byte>): (r: Option<(Bound, seq<byte>)>)
    ensures r.Some? <==> 0 < |plain| <= MAXIMUM && s.hash(plain) == expected
  {
    if |plain| > MAXIMUM then None
    else
      CountBound(|plain|);
      Sealing(s, Steady(plain), secret, request, purpose, expected, nonce)
  }

  /** Both looks at the size may agree and differ from what was read between them. The
      checks then pass, and exactly then the recipient refuses the description; otherwise the
      archive is sealed as if the source had never changed. */
  lemma SealedSizeExactly(s: Suite, r: Reading, secret: seq<byte>, request: string, purpose: string, expected: string,
                          nonce: seq<byte>)
    requires Lawful(s) && |nonce| == 8 && Count(|r.seen|) <= 0x1_0000_0000
    requires Sealing(s, r, secret, request, purpose, expected, nonce).Some?
    ensures ArchiveBound(Sealing(s, r, secret, request, purpose, expected, nonce).value.0) <==> |r.seen| == r.size
    ensures |r.seen| == r.size ==>
      Sealing(s, r, secret, request, purpose, expected, nonce)
      == Encryption(s, r.seen, secret, request, purpose, expected, nonce)
  {
    var b := SealedBound(s, r, secret, request, purpose, expected, nonce);
    RoundTrip(nonce);
    SameCiphertextSize(r.seen, r.size);
  }

  lemma SealedBound(s: Suite, r: Reading, secret: seq<byte>, request: string, purpose: string, expected: string,
                    nonce: seq<byte>) returns (b: Bound)
    requires Lawful(s) && Count(|r.seen|) <= 0x1_0000_0000
    requires Sealing(s, r, secret, request, purpose, expected, nonce).Some?
    ensures b == Sealing(s, r, secret, request, purpose, expected, nonce).value.0
    ensures 0 < b.size == r.size <= MAXIMUM && Hex64(b.sha256) && Hex64(b.ciphertextSha256) && b.nonce == Encode(nonce)
    ensures b.ciphertextSize == |r.seen| + 16 * Count(|r.seen|)
  {
    b := Sealing(s, r, secret, request, purpose, expected, nonce).value.0;
    FramesSize(s, Session(secret, nonce, Identity(request, purpose, r.size, expected)), r.seen, 0);
  }

  lemma SameCiphertextSize(seen: seq<byte>, size: nat)
    ensures |seen| + 16 * Count(|seen|) == size + 16 * ((size + CHUNK - 1) / CHUNK) <==> |seen| == size
  {
    CountIsCeiling(|seen|);
    if |seen| <= size { CeilingGrows(|seen|, size); } else { CeilingGrows(size, |seen|); }
  }

  lemma CeilingGrows(a: nat, b: nat)
    requires a <= b
    ensures (a + CHUNK - 1) / CHUNK <= (b + CHUNK - 1) / CHUNK
  {
  }

  /** What `encrypt_archive` produces passes `archive_bound`, matches its description
      and is, in the session both sides derive from it, the encryption of the source. */
  lemma EncryptionIsSound(s: Suite, plain: seq<byte>, secret: seq<byte>, request: string, purpose: string,
                          expected: string, nonce: seq<byte>)
    requires Lawful(s) && |nonce| == 8
    requires Encryption(s, plain, secret, request, purpose, expected, nonce).Some?
    ensures
      var (b, sealed) := Encryption(s, plain, secret, request, purpose, expected, nonce).value;
      && ArchiveBound(b) && b.sha256 == expected && Matches(s, b, sealed)
      && SessionOf(secret, request, purpose, b) == Session(secret, nonce, Identity(request, purpose, |plain|, expected))
      && Encrypts(s, SessionOf(secret, request, purpose, b), sealed, plain)
  {
    var w := Session(secret, nonce, Identity(request, purpose, |plain|, expected));
    CountBound(|plain|);
    CountIsCeiling(|plain|);
    FramesSize(s, w, plain, 0);
    RoundTrip(nonce);
  }

  /** The ciphertext has the size and digest the description gives. */
  predicate Matches(s: Suite, b: Bound, sealed: seq<byte>) {
    |sealed| == b.ciphertextSize && s.hash(sealed) == b.ciphertextSha256
  }

  /** Files by path. */
  class Disk<P(==)> {
    var files: map<P, seq<byte>>

    constructor ()
      ensures files == map[]
    {
      files := map[];
    }
  }

  /** The loop of `encrypt_archive` over the open source and destination. */
  method WriteFrames<P(==)>(s: Suite, disk: Disk<P>, w: Session, origin: seq<byte>, destination: P)
    returns (actual: seq<byte>)
    requires Count(|origin|) <= 0x1_0000_0000 && destination in disk.files && disk.files[destination] == []
    modifies disk
    ensures disk.files == old(disk.files)[destination := Frames(s, w, origin, 0)] && actual == origin
  {
    ghost var before := disk.files;
    var unread, index, written := origin, 0, [];
    actual := [];
    assert [] + Frames(s, w, origin, 0) == Frames(s, w, origin, 0);
    while unread != []
      invariant actual + unread == origin
      invariant index + Count(|unread|) == Count(|origin|)
      invariant disk.files == before[destination := written]
      invariant written + Frames(s, w, unread, index) == Frames(s, w, origin, 0)
      decreases |unread|
    {
      var n := Min(CHUNK, |unread|);
      var data := unread[..n];
      FramesStep(s, w, unread, index, written, actual);
      actual := actual + data;
      written := written + SealFrame(s, w, data, index);
      disk.files := disk.files[destination := written];
      unread, index := unread[n..], index + 1;
    }
    assert written + [] == written && actual + [] == actual;
  }

  lemma FramesStep(s: Suite, w: Session, unread: seq<byte>, index: nat, written: seq<byte>, done: seq<byte>)
    requires unread != [] && index + Count(|unread|) <= 0x1_0000_0000
    ensures
      var n := Min(CHUNK, |unread|);
      && Count(|unread|) == 1 + Count(|unread[n..]|)
      && done + unread == (done + unread[..n]) + unread[n..]
      && written + Frames(s, w, unread, index)
        == (written + SealFrame(s, w, unread[..n], index)) + Frames(s, w, unread[n..], index + 1)
  {
    var n := Min(CHUNK, |unread|);
    var frame, rest := SealFrame(s, w, unread[..n], index), Frames(s, w, unread[n..], index + 1);
    assert Frames(s, w, unread, index) == frame + rest;
    assert written + (frame + rest) == (written + frame) + rest;
  }

  /** `encrypt_archive`, with the random nonce, whether the source is a symbolic link, what
      is read from it and its size afterwards as parameters. None where the original raises. */
  method EncryptArchive<P(==)>(s: Suite, disk: Disk<P>, source: P, destination: P, symlink: bool, seen: seq<byte>,
                        sizeAfter: nat, secret: seq<byte>, request: string, purpose: string, expected: string,
                        nonce: seq<byte>)
    returns (r: Option<Bound>)
    requires Count(|seen|) <= 0x1_0000_0000
    modifies disk
    ensures r.Some? <==>
      && !symlink && source in old(disk.files) && destination !in old(disk.files)
      && Sealing(s, Reading(|old(disk.files)[source]|, seen, sizeAfter), secret, request, purpose, expected,
                 nonce).Some?
    ensures r.None? ==> disk.files == old(disk.files)
    ensures r.Some? ==>
      var reading := Reading(|old(disk.files)[source]|, seen, sizeAfter);
      var (b, sealed) := Sealing(s, reading, secret, request, purpose, expected, nonce).value;
      r.value == b && disk.files == old(disk.files)[destination := sealed]
  {
    if symlink || source !in disk.files || !(0 < |disk.files[source]| <= MAXIMUM) { return None; }
    var size := |disk.files[source]|;
    if destination in disk.files { return None; }
    var w := Session(secret, nonce, Identity(request, purpose, size, expected));
    disk.files := disk.files[destination := []];
    var actual := WriteFrames(s, disk, w, seen, destination);
    if s.hash(actual) != expected || sizeAfter != size {
      disk.files := disk.files - {destination};
      assert disk.files == old(disk.files);
      return None;
    }
    var sealed := disk.files[destination];
    r := Some(Bound(Encode(nonce), size, expected, |sealed|, s.hash(sealed)));
  }

  /** The loop of `decrypt_archive`: what it wrote, and None where it raises. */
  method ReadFrames<P(==)>(s: Suite, disk: Disk<P>, w: Session, origin: seq<byte>, destination: P)
    returns (actual: Option<seq<byte>>)
    requires Count(w.id.size) <= 3072 && destination in disk.files && disk.files[destination] == []
    modifies disk
    ensures actual == Unframe(s, w, origin, w.id.size, 0)
    ensures destination in disk.files && disk.files == old(disk.files)[destination := disk.files[destination]]
    ensures actual.Some? ==> disk.files[destination] == actual.value
  {
    ghost var before := disk.files;
    var remaining, index, unread, written := w.id.size, 0, origin, [];
    PrefixedNothing(Unframe(s, w, origin, remaining, 0));
    while remaining > 0
      invariant remaining >= 0 && index + Count(remaining) == Count(w.id.size)
      invariant disk.files == before[destination := written]
      invariant Unframe(s, w, origin, w.id.size, 0) == Prefixed(written, Unframe(s, w, unread, remaining, index))
    {
      var count := Min(CHUNK, remaining);
      var read := Min(count + TAG, |unread|);
      var data := OpenFrame(s, w, unread[..read], index);
      if data.None? || |data.value| != count { return None; }
      UnframeStep(s, w, unread, remaining, index, written);
      written := written + data.value;
      disk.files := disk.files[destination := written];
      remaining, index, unread := remaining - count, index + 1, unread[read..];
    }
    if unread != [] { return None; }
    assert written + [] == written;
    actual := Some(written);
  }

  lemma UnframeStep(s: Suite, w: Session, stream: seq<byte>, remaining: nat, index: nat, written: seq<byte>)
    requires remaining > 0 && index + Count(remaining) <= 0x1_0000_0000
    ensures
      var count := Min(CHUNK, remaining);
      var read := Min(count + TAG, |stream|);
      var data := OpenFrame(s, w, stream[..read], index);
      Prefixed(written, Unframe(s, w, stream, remaining, index)) ==
        if data.None? || |data.value| != count then None
        else Prefixed(written + data.value, Unframe(s, w, stream[read..], remaining - count, index + 1))
  {
    var count := Min(CHUNK, remaining);
    var read := Min(count + TAG, |stream|);
    var data := OpenFrame(s, w, stream[..read], index);
    if data.Some? && |data.value| == count {
      var rest := Unframe(s, w, stream[read..], remaining - count, index + 1);
      PrefixedTwice(written, data.value, rest);
      assert Unframe(s, w, stream, remaining, index) == Prefixed(data.value, rest);
    }
  }

  /** The guarded block of `decrypt_archive`: on any failure the destination it created
      is removed again. */
  method DecryptFrames<P(==)>(s: Suite, disk: Disk<P>, w: Session, origin: seq<byte>, destination: P) returns (ok: bool)
    requires Lawful(s) && Count(w.id.size) <= 3072
    modifies disk
    ensures ok <==> destination !in old(disk.files) && Decryptable(s, w, origin)
    ensures ok ==>
      && destination in disk.files && Encrypts(s, w, origin, disk.files[destination])
      && disk.files == old(disk.files)[destination := disk.files[destination]]
    ensures !ok ==> disk.files == old(disk.files)
  {
    if destination in disk.files { return false; }
    disk.files := disk.files[destination := []];
    var actual := ReadFrames(s, disk, w, origin, destination);
    AcceptanceIsEncryption(s, w, origin);
    ok := actual.Some? && s.hash(actual.value) == w.id.sha;
    if !ok {
      disk.files := disk.files - {destination};
      assert disk.files == old(disk.files);
    }
  }

  /** `decrypt_archive`; false where the original raises. */
  method DecryptArchive<P(==)>(s: Suite, disk: Disk<P>, source: P, destination: P, secret: seq<byte>,
                        request: string, purpose: string, bound: Bound)
    returns (ok: bool)
    requires Lawful(s)
    modifies disk
    ensures ok <==>
      && ArchiveBound(bound) && source in old(disk.files) && destination !in old(disk.files)
      && Matches(s, bound, old(disk.files)[source])
      && Decryptable(s, SessionOf(secret, request, purpose, bound), old(disk.files)[source])
    ensures ok ==>
      && destination in disk.files
      && Encrypts(s, SessionOf(secret, request, purpose, bound), old(disk.files)[source], disk.files[destination])
      && disk.files == old(disk.files)[destination := disk.files[destination]]
    ensures !ok ==> disk.files == old(disk.files)
  {
    if !ArchiveBound(bound) || source !in disk.files || !Matches(s, bound, disk.files[source]) { return false; }
    CountBound(bound.size);
    ok := DecryptFrames(s, disk, SessionOf(secret, request, purpose, bound), disk.files[source], destination);
  }

  lemma PrefixedNothing(rest: Option<seq<byte>>)
    ensures Prefixed([], rest) == rest
  {
    if rest.Some? { assert [] + rest.value == rest.value; }
  }

  lemma PrefixedTwice(a: seq<byte>, b: seq<byte>, rest: Option<seq<byte>>)
    ensures Prefixed(a, Prefixed(b, rest)) == Prefixed(a + b, rest)
  {
    if rest.Some? { assert a + (b + rest.value) == a + b + rest.value; }
  }

  lemma AcceptanceIsEncryption(s: Suite, w: Session, stream: seq<byte>)
    requires Lawful(s) && Count(w.id.size) <= 3072
    ensures Decryptable(s, w, stream) <==>
      var r := Unframe(s, w, stream, w.id.size, 0); r.Some? && s.hash(r.value) == w.id.sha
    ensures forall p :: Encrypts(s, w, stream, p) ==> Unframe(s, w, stream, w.id.size, 0) == Some(p)
    ensures
      var r := Unframe(s, w, stream, w.id.size, 0);
      r.Some? && s.hash(r.value) == w.id.sha ==> Encrypts(s, w, stream, r.value)
  {
    forall p ensures Encrypts(s, w, stream, p) ==> Unframe(s, w, stream, w.id.size, 0) == Some(p) {
      UnframeExact(s, w, stream, p, w.id.size);
    }
    var r := Unframe(s, w, stream, w.id.size, 0);
    if r.Some? && s.hash(r.value) == w.id.sha {
      UnframeExact(s, w, stream, r.value, w.id.size);
      assert Encrypts(s, w, stream, r.value);
    }
  }

  /** By the digest alone, whatever the framing is worth: unless a stream unframes to
      something else with the original's digest, it decrypts in a session made for the
      original exactly when it is the original's own encryption. */
  lemma OnlyTheOriginalStream(s: Suite, w: Session, stream: seq<byte>, original: seq<byte>)
    requires Lawful(s) && Count(w.id.size) <= 3072
    requires w.id.sha == s.hash(original) && w.id.size == |original|
    requires
      var r := Unframe(s, w, stream, w.id.size, 0);
      r.Some? && s.hash(r.value) == s.hash(original) ==> r.value == original
    ensures Decryptable(s, w, stream) <==> stream == Frames(s, w, original, 0)
    ensures forall p :: Encrypts(s, w, stream, p) ==> p == original
  {
    AcceptanceIsEncryption(s, w, stream);
    if stream == Frames(s, w, original, 0) { assert Encrypts(s, w, stream, original); }
  }

  /** Round trip: what `encrypt_archive` wrote decrypts, and only to the source, with no
      assumption about the digest. */
  lemma DecryptionReturnsTheSource(s: Suite, plain: seq<byte>, secret: seq<byte>, request: string, purpose: string,
                                   expected: string, nonce: seq<byte>, other: seq<byte>)
    requires Lawful(s) && |nonce| == 8
    requires Encryption(s, plain, secret, request, purpose, expected, nonce).Some?
    ensures
      var (b, sealed) := Encryption(s, plain, secret, request, purpose, expected, nonce).value;
      ArchiveBound(b) && Matches(s, b, sealed)
      && (Encrypts(s, SessionOf(secret, request, purpose, b), sealed, other) <==> other == plain)
  {
    EncryptionIsSound(s, plain, secret, request, purpose, expected, nonce);
    var (b, sealed) := Encryption(s, plain, secret, request, purpose, expected, nonce).value;
    AcceptanceIsEncryption(s, SessionOf(secret, request, purpose, b), sealed);
  }

  /** In one session, different originals of one size have different streams. */
  lemma FramesAreInjective(s: Suite, w: Session, a: seq<byte>, b: seq<byte>)
    requires Lawful(s) && Count(|a|) <= 3072 && |a| == |b|
    ensures Frames(s, w, a, 0) == Frames(s, w, b, 0) <==> a == b
  {
    UnframeFrames(s, w, a, 0);
    UnframeFrames(s, w, b, 0);
  }
}
