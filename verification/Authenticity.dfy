/**
 What the counter in the nonce and the bound context of a frame are for: against whoever
 can put any bytes in place of an archive, exactly the archive that was sealed under this
 nonce and for this identity decrypts.
 */
module Authenticity {
  import opened Common
  import opened ArchiveCodec

  /** One use of the cipher. */
  datatype Entry = Entry(key: seq<byte>, nonce: seq<byte>, context: Context, plain: seq<byte>)

  /** All uses of the cipher, whoever made them. */
  type Log = Entry -> bool

  /** No nonce serves twice under the key, without which AES-GCM promises nothing (RFC
      5116 section 5.1.1). */
  ghost predicate Respecting(log: Log, key: seq<byte>) {
    forall x, y | log(x) && log(y) && x.key == key && y.key == key && x.nonce == y.nonce :: x == y
  }

  /** If the bytes open at all under this nonce and for this context, they were sealed so. */
  ghost predicate OpensOnlySealed(s: Suite, log: Log, key: seq<byte>, n: seq<byte>, x: seq<byte>, c: Context) {
    s.open(key, n, x, c).Some? ==> log(Entry(key, n, c, s.open(key, n, x, c).value))
  }

  /** No part of these bytes is a forged frame of the session: none opens at any of the
      places the session has unless it was sealed for that place. Nothing is asked of
      other nonces and contexts. */
  ghost predicate AllSealed(s: Suite, log: Log, w: Session, bytes: seq<byte>) {
    forall i, j, place | 0 <= i <= j <= |bytes| && 0 <= place < 3072 ::
      OpensOnlySealed(s, log, w.key, FrameNonce(w, place), bytes[i..j], FrameContext(w, place))
  }

  /** The bytes at hand are no forgery: the promise of authenticated encryption, on the
      bytes in play and for keys whose nonces are respected. */
  ghost predicate Unforged(s: Suite, log: Log, w: Session, bytes: seq<byte>) {
    Respecting(log, w.key) ==> AllSealed(s, log, w, bytes)
  }

  /** An archive as it was sealed: what was read, under which parameters. */
  datatype Archived = Archived(session: Session, plain: seq<byte>)

  /** The plaintext of frame `i`. */
  function Chunk(data: seq<byte>, i: nat): seq<byte>
    requires i < Count(|data|)
  {
    var n := Min(CHUNK, |data|);
    if i == 0 then data[..n] else Chunk(data[n..], i - 1)
  }

  predicate FrameOf(a: Archived, i: nat, e: Entry) {
    && i < Count(|a.plain|) && i < 0x1_0000_0000
    && e == Entry(a.session.key, FrameNonce(a.session, i), FrameContext(a.session, i), Chunk(a.plain, i))
  }

  /** Under this key only archives were sealed, for whatever identities, and these. */
  ghost predicate OnlyArchives(log: Log, key: seq<byte>, history: set<Archived>) {
    forall e | log(e) && e.key == key :: exists a, i :: a in history && FrameOf(a, i, e)
  }

  predicate SameNonce(a: Archived, b: Archived) {
    a.session.key == b.session.key && a.session.nonce == b.session.nonce
  }

  /** Each had a nonce of eight octets that no other archive of its key has. */
  predicate OwnNonces(history: set<Archived>) {
    && (forall a | a in history :: |a.session.nonce| == 8)
    && forall a, b | a in history && b in history && SameNonce(a, b) :: a == b
  }

  /** The counter keeps the frames of one archive apart, and the archive's nonce those of
      different archives. */
  lemma CountersRespectNonces(log: Log, key: seq<byte>, history: set<Archived>)
    requires OnlyArchives(log, key, history) && OwnNonces(history)
    ensures Respecting(log, key)
  {
    forall x, y | log(x) && log(y) && x.key == key && y.key == key && x.nonce == y.nonce ensures x == y {
      var a, i :| a in history && FrameOf(a, i, x);
      var b, j :| b in history && FrameOf(b, j, y);
      NoncesAreDistinct(a.session, b.session, i, j);
    }
  }

  lemma SealedTail(s: Suite, log: Log, w: Session, bytes: seq<byte>, read: nat)
    requires AllSealed(s, log, w, bytes) && read <= |bytes|
    ensures AllSealed(s, log, w, bytes[read..])
  {
    var tail := bytes[read..];
    forall i, j, place | 0 <= i <= j <= |tail| && 0 <= place < 3072
      ensures OpensOnlySealed(s, log, w.key, FrameNonce(w, place), tail[i..j], FrameContext(w, place))
    {
      assert tail[i..j] == bytes[read + i..read + j];
    }
  }

  lemma ChunksOf(data: seq<byte>, rest: seq<byte>, i: nat)
    requires data != [] && |data| == Min(CHUNK, |data + rest|) && i < Count(|data + rest|)
    ensures i > 0 ==> i - 1 < Count(|rest|)
    ensures Chunk(data + rest, i) == if i == 0 then data else Chunk(rest, i - 1)
  {
    assert (data + rest)[..|data|] == data && (data + rest)[|data|..] == rest;
  }

  /** Every frame that the loop opened had been sealed at this very place. */
  lemma {:induction false} FramesWereSealed(s: Suite, log: Log, w: Session, stream: seq<byte>, plain: seq<byte>,
                                            index: nat, place: nat)
    requires Lawful(s) && index + Count(|plain|) <= 3072 && AllSealed(s, log, w, stream)
    requires Unframe(s, w, stream, |plain|, index) == Some(plain) && index <= place < index + Count(|plain|)
    ensures log(Entry(w.key, FrameNonce(w, place), FrameContext(w, place), Chunk(plain, place - index)))
    decreases |plain|
  {
    var read := Min(Min(CHUNK, |plain|) + TAG, |stream|);
    var data, rest := UnframeSplit(s, w, stream, |plain|, index);
    ChunksOf(data, rest, place - index);
    if place == index {
      HeadWasSealed(s, log, w, stream, read, data, index);
    } else {
      SealedTail(s, log, w, stream, read);
      FramesWereSealed(s, log, w, stream[read..], rest, index + 1, place);
    }
  }

  lemma HeadWasSealed(s: Suite, log: Log, w: Session, stream: seq<byte>, read: nat, data: seq<byte>, index: nat)
    requires AllSealed(s, log, w, stream) && read <= |stream| && index < 3072
    requires OpenFrame(s, w, stream[..read], index) == Some(data)
    ensures log(Entry(w.key, FrameNonce(w, index), FrameContext(w, index), data))
  {
    assert stream[0..read] == stream[..read];
    assert OpensOnlySealed(s, log, w.key, FrameNonce(w, index), stream[0..read], FrameContext(w, index));
  }

  predicate SameChunk(p: seq<byte>, q: seq<byte>, i: nat) {
    i < Count(|p|) ==> i < Count(|q|) && Chunk(p, i) == Chunk(q, i)
  }

  /** Texts with the same first frames: one is the beginning of the other. */
  lemma {:induction false} SameChunks(p: seq<byte>, q: seq<byte>)
    requires forall i: nat :: SameChunk(p, q, i)
    ensures p <= q
    decreases |p|
  {
    if p != [] {
      var n, m := Min(CHUNK, |p|), Min(CHUNK, |q|);
      assert SameChunk(p, q, 0);
      assert p[..n] == q[..m] && |p[..n]| == n && |q[..m]| == m;
      forall i: nat ensures SameChunk(p[n..], q[n..], i) { assert SameChunk(p, q, i + 1); }
      SameChunks(p[n..], q[n..]);
      assert p == p[..n] + p[n..] && q == q[..n] + q[n..];
    }
  }

  /** Whatever the loop accepts is the beginning of an archive that was sealed under this
      key and nonce for this identity. */
  lemma OnlyWhatWasSealed(s: Suite, log: Log, history: set<Archived>, w: Session, stream: seq<byte>)
    returns (a: Archived)
    requires Lawful(s) && Unforged(s, log, w, stream) && |w.nonce| == 8
    requires OnlyArchives(log, w.key, history) && OwnNonces(history)
    requires 0 < w.id.size && Count(w.id.size) <= 3072 && Unframe(s, w, stream, w.id.size, 0).Some?
    ensures a in history && a.session == w && Unframe(s, w, stream, w.id.size, 0).value <= a.plain
  {
    CountersRespectNonces(log, w.key, history);
    var plain := Unframe(s, w, stream, w.id.size, 0).value;
    a := Sealer(s, log, history, w, stream, 0);
    FramesUnframe(s, w, stream, w.id.size, 0);
    forall i: nat ensures SameChunk(plain, a.plain, i) {
      if i < Count(w.id.size) {
        var b := Sealer(s, log, history, w, stream, i);
        assert b == a;
      }
    }
    SameChunks(plain, a.plain);
  }

  lemma Sealer(s: Suite, log: Log, history: set<Archived>, w: Session, stream: seq<byte>, i: nat) returns (a: Archived)
    requires Lawful(s) && AllSealed(s, log, w, stream) && |w.nonce| == 8
    requires OnlyArchives(log, w.key, history) && OwnNonces(history)
    requires Count(w.id.size) <= 3072 && Unframe(s, w, stream, w.id.size, 0).Some? && i < Count(w.id.size)
    ensures a in history && a.session == w && i < Count(|a.plain|)
    ensures
      var plain := Unframe(s, w, stream, w.id.size, 0).value;
      |plain| == w.id.size && Chunk(plain, i) == Chunk(a.plain, i)
  {
    var plain := Unframe(s, w, stream, w.id.size, 0).value;
    FramesUnframe(s, w, stream, w.id.size, 0);
    FramesWereSealed(s, log, w, stream, plain, 0, i);
    var e := Entry(w.key, FrameNonce(w, i), FrameContext(w, i), Chunk(plain, i));
    var b, j :| b in history && FrameOf(b, j, e);
    NoncesAreDistinct(w, b.session, i, j);
    a := b;
  }

  /** The archive was sealed in this session, and whoever seals keeps to the rules. */
  ghost predicate SealedOnce(log: Log, history: set<Archived>, w: Session, original: seq<byte>) {
    && Archived(w, original) in history && |original| == w.id.size && 0 < w.id.size && Count(w.id.size) <= 3072
    && OnlyArchives(log, w.key, history) && OwnNonces(history)
  }

  /** Exact acceptance: of all byte strings that are no forgery, the loop accepts the
      complete frames of the original in their order, and nothing else. Nothing is
      assumed of the digest. */
  lemma ExactAcceptance(s: Suite, log: Log, history: set<Archived>, w: Session, original: seq<byte>, stream: seq<byte>)
    requires Lawful(s) && Unforged(s, log, w, stream) && SealedOnce(log, history, w, original)
    ensures Unframe(s, w, stream, w.id.size, 0).Some? <==> stream == Frames(s, w, original, 0)
    ensures Unframe(s, w, stream, w.id.size, 0).Some? ==> Unframe(s, w, stream, w.id.size, 0) == Some(original)
    ensures Decryptable(s, w, stream) <==> stream == Frames(s, w, original, 0) && s.hash(original) == w.id.sha
  {
    if stream == Frames(s, w, original, 0) { UnframeFrames(s, w, original, 0); }
    if Unframe(s, w, stream, w.id.size, 0).Some? {
      var a := OnlyWhatWasSealed(s, log, history, w, stream);
      FramesUnframe(s, w, stream, w.id.size, 0);
      assert a == Archived(w, original);
      assert Unframe(s, w, stream, w.id.size, 0).value == original;
    }
    AcceptanceIsEncryption(s, w, stream);
  }

  lemma Refused(s: Suite, log: Log, history: set<Archived>, w: Session, original: seq<byte>, stream: seq<byte>)
    requires Lawful(s) && Unforged(s, log, w, stream) && SealedOnce(log, history, w, original)
    requires stream != Frames(s, w, original, 0)
    ensures Unframe(s, w, stream, w.id.size, 0).None? && !Decryptable(s, w, stream)
  {
    ExactAcceptance(s, log, history, w, original, stream);
  }

  function Inserted(bytes: seq<byte>, at: nat, more: seq<byte>): (r: seq<byte>)
    requires at <= |bytes|
    ensures |r| == |bytes| + |more|
  {
    bytes[..at] + more + bytes[at..]
  }

  function Overwritten(bytes: seq<byte>, at: nat, other: seq<byte>): seq<byte> {
    if at + |other| <= |bytes| then bytes[..at] + other + bytes[at + |other|..] else bytes
  }

  lemma OverwrittenDiffers(bytes: seq<byte>, at: nat, part: seq<byte>, other: seq<byte>)
    requires Stands(bytes, at, part) && |other| == |part| && other != part
    ensures Stands(Overwritten(bytes, at, other), at, other) && Overwritten(bytes, at, other) != bytes
  {
    var r := Overwritten(bytes, at, other);
    assert r[at..at + |other|] == other;
  }

  /** Two parts of the same length exchanged. */
  function Exchanged(bytes: seq<byte>, at: nat, x: seq<byte>, at': nat, y: seq<byte>): seq<byte> {
    Overwritten(Overwritten(bytes, at, y), at', x)
  }

  lemma ExchangedDiffers(bytes: seq<byte>, at: nat, x: seq<byte>, at': nat, y: seq<byte>)
    requires Stands(bytes, at, x) && Stands(bytes, at', y) && |x| == |y| && x != y
    ensures Exchanged(bytes, at, x, at', y) != bytes
  {
    var r := Exchanged(bytes, at, x, at', y);
    assert r[at'..at' + |x|] == x;
  }

  /** Where frame `i` stands in the stream, and what it is. */
  function Position(i: nat): nat { i * (CHUNK + TAG) }

  function Frame(s: Suite, w: Session, data: seq<byte>, i: nat): seq<byte>
    requires i < Count(|data|) <= 3072
  {
    SealFrame(s, w, Chunk(data, i), i)
  }

  predicate Stands(bytes: seq<byte>, at: nat, part: seq<byte>) {
    at + |part| <= |bytes| && bytes[at..at + |part|] == part
  }

  lemma StandsBehind(head: seq<byte>, tail: seq<byte>, at: nat, part: seq<byte>)
    ensures Stands(head + tail, 0, head)
    ensures Stands(tail, at, part) ==> Stands(head + tail, |head| + at, part)
  {
    assert (head + tail)[0..|head|] == head;
    if Stands(tail, at, part) { assert (head + tail)[|head| + at..|head| + at + |part|] == tail[at..at + |part|]; }
  }

  /** A stream is its first frame and the frames of what follows. */
  lemma FramesSplit(s: Suite, w: Session, data: seq<byte>, index: nat, at: nat, part: seq<byte>)
    requires Lawful(s) && index + Count(|data|) <= 3072 && data != []
    ensures Stands(Frames(s, w, data, index), 0, SealFrame(s, w, data[..Min(CHUNK, |data|)], index))
    ensures |data| > CHUNK && Stands(Frames(s, w, data[CHUNK..], index + 1), at, part) ==>
      Stands(Frames(s, w, data, index), CHUNK + TAG + at, part)
  {
    var n := Min(CHUNK, |data|);
    StandsBehind(SealFrame(s, w, data[..n], index), Frames(s, w, data[n..], index + 1), at, part);
  }

  lemma {:induction false} FrameStands(s: Suite, w: Session, data: seq<byte>, index: nat, place: nat)
    requires Lawful(s) && index + Count(|data|) <= 3072 && index <= place < index + Count(|data|)
    ensures Stands(Frames(s, w, data, index), Position(place - index),
                   SealFrame(s, w, Chunk(data, place - index), place))
    decreases |data|
  {
    if place == index {
      FramesSplit(s, w, data, index, 0, []);
    } else {
      assert |data| > CHUNK;
      FrameStands(s, w, data[CHUNK..], index + 1, place);
      FramesSplit(s, w, data, index, Position(place - index - 1), SealFrame(s, w, Chunk(data, place - index), place));
    }
  }

  /** An archive cut short anywhere is refused, */
  lemma Truncated(s: Suite, log: Log, history: set<Archived>, w: Session, original: seq<byte>, kept: nat)
    requires Lawful(s) && SealedOnce(log, history, w, original) && kept < |Frames(s, w, original, 0)|
    requires Unforged(s, log, w, Frames(s, w, original, 0)[..kept])
    ensures Unframe(s, w, Frames(s, w, original, 0)[..kept], w.id.size, 0).None?
  {
    Refused(s, log, history, w, original, Frames(s, w, original, 0)[..kept]);
  }

  /** so is one with anything put in anywhere, or behind its end, */
  lemma Extended(s: Suite, log: Log, history: set<Archived>, w: Session, original: seq<byte>, at: nat, more: seq<byte>)
    requires Lawful(s) && SealedOnce(log, history, w, original) && at <= |Frames(s, w, original, 0)| && more != []
    requires Unforged(s, log, w, Inserted(Frames(s, w, original, 0), at, more))
    ensures Unframe(s, w, Inserted(Frames(s, w, original, 0), at, more), w.id.size, 0).None?
  {
    Refused(s, log, history, w, original, Inserted(Frames(s, w, original, 0), at, more));
  }

  /** one with a frame repeated at any place, */
  lemma Repeated(s: Suite, log: Log, history: set<Archived>, w: Session, original: seq<byte>, i: nat, at: nat)
    requires Lawful(s) && SealedOnce(log, history, w, original)
    requires i < Count(|original|) && at <= |Frames(s, w, original, 0)|
    requires Unforged(s, log, w, Inserted(Frames(s, w, original, 0), at, Frame(s, w, original, i)))
    ensures Unframe(s, w, Inserted(Frames(s, w, original, 0), at, Frame(s, w, original, i)), w.id.size, 0).None?
  {
    FrameStands(s, w, original, 0, i);
    Extended(s, log, history, w, original, at, Frame(s, w, original, i));
  }

  /** one in which a frame was replaced by other bytes: one of another archive, of another
      place of this one, or nothing that was ever sealed, */
  lemma Spliced(s: Suite, log: Log, history: set<Archived>, w: Session, original: seq<byte>, i: nat, other: seq<byte>)
    requires Lawful(s) && SealedOnce(log, history, w, original) && i < Count(|original|)
    requires |other| == |Frame(s, w, original, i)| && other != Frame(s, w, original, i)
    requires Unforged(s, log, w, Overwritten(Frames(s, w, original, 0), Position(i), other))
    ensures Unframe(s, w, Overwritten(Frames(s, w, original, 0), Position(i), other), w.id.size, 0).None?
  {
    FrameStands(s, w, original, 0, i);
    OverwrittenDiffers(Frames(s, w, original, 0), Position(i), Frame(s, w, original, i), other);
    Refused(s, log, history, w, original, Overwritten(Frames(s, w, original, 0), Position(i), other));
  }

  /** The stream with frames `i` and `j` exchanged. */
  function Swapped(s: Suite, w: Session, original: seq<byte>, i: nat, j: nat): seq<byte>
    requires i < j < Count(|original|) <= 3072
  {
    Exchanged(Frames(s, w, original, 0), Position(i), Frame(s, w, original, i), Position(j), Frame(s, w, original, j))
  }

  /** and one with two frames exchanged. */
  lemma Reordered(s: Suite, log: Log, history: set<Archived>, w: Session, original: seq<byte>, i: nat, j: nat)
    requires Lawful(s) && SealedOnce(log, history, w, original) && i < j < Count(|original|)
    requires |Frame(s, w, original, i)| == |Frame(s, w, original, j)|
    requires Frame(s, w, original, i) != Frame(s, w, original, j)
    requires Unforged(s, log, w, Swapped(s, w, original, i, j))
    ensures Unframe(s, w, Swapped(s, w, original, i, j), w.id.size, 0).None?
  {
    FrameStands(s, w, original, 0, i);
    FrameStands(s, w, original, 0, j);
    ExchangedDiffers(Frames(s, w, original, 0), Position(i), Frame(s, w, original, i), Position(j),
                     Frame(s, w, original, j));
    Refused(s, log, history, w, original, Swapped(s, w, original, i, j));
  }

  /** A cipher for a given log: what is in the log is sealed with one tag, everything else
      with a tag of octets `mark`. The digest tells the originals from all other texts. */
  function Marked(log: Log, mark: byte, originals: seq<seq<byte>>): Suite
    requires |originals| < 10
  {
    Suite((k, n, p, c) => p + Tag(log, mark, Entry(k, n, c, p)), (k, n, x, c) => Untagged(log, mark, k, n, x, c),
          d => Digest(originals, d))
  }

  function Tag(log: Log, mark: byte, e: Entry): (tag: seq<byte>)
    ensures |tag| == TAG
  {
    var octet: byte := if !log(e) then mark else if mark == 0 then 1 else 0;
    seq(TAG, i => octet)
  }

  function Untagged(log: Log, mark: byte, k: seq<byte>, n: seq<byte>, x: seq<byte>, c: Context): Option<seq<byte>> {
    if |x| >= TAG && x[|x| - TAG..] == Tag(log, mark, Entry(k, n, c, x[..|x| - TAG]))
    then Some(x[..|x| - TAG]) else None
  }

  function Rank(originals: seq<seq<byte>>, d: seq<byte>): (i: nat)
    ensures i <= |originals| && (i < |originals| ==> originals[i] == d)
    ensures d in originals ==> i < |originals|
  {
    if originals == [] || originals[0] == d then 0 else 1 + Rank(originals[1..], d)
  }

  function Digest(originals: seq<seq<byte>>, d: seq<byte>): (h: string)
    requires |originals| < 10
    ensures |h| == 64 && h[0] as int == '0' as int + Rank(originals, d)
  {
    var digit := ('0' as int + Rank(originals, d)) as char;
    seq(64, i => digit)
  }

  lemma MarkedIsLawful(log: Log, mark: byte, originals: seq<seq<byte>>)
    requires |originals| < 10
    ensures Lawful(Marked(log, mark, originals))
  {
    var s := Marked(log, mark, originals);
    forall k, n, p, c ensures s.open(k, n, s.seal(k, n, p, c), c) == Some(p) {
      var tag := Tag(log, mark, Entry(k, n, c, p));
      assert (p + tag)[|p|..] == tag && (p + tag)[..|p|] == p;
    }
    forall d ensures Hex64(s.hash(d)) {}
  }

  lemma MarkedIsUnforged(log: Log, mark: byte, originals: seq<seq<byte>>, key: seq<byte>, n: seq<byte>, x: seq<byte>,
                         c: Context)
    requires |originals| < 10 && mark !in x
    ensures OpensOnlySealed(Marked(log, mark, originals), log, key, n, x, c)
  {
    var s := Marked(log, mark, originals);
    if s.open(key, n, x, c).Some? {
      var e := Entry(key, n, c, x[..|x| - TAG]);
      assert x[|x| - 1] == x[|x| - TAG..][TAG - 1] == Tag(log, mark, e)[TAG - 1];
    }
  }

  /** Bytes without forged parts hold no forged frame of any session. */
  lemma NothingForged(s: Suite, log: Log, w: Session, bytes: seq<byte>)
    requires forall n, x, c | (forall i | 0 <= i < |x| :: x[i] in bytes) :: OpensOnlySealed(s, log, w.key, n, x, c)
    ensures AllSealed(s, log, w, bytes)
  {
    forall i, j, place | 0 <= i <= j <= |bytes| && 0 <= place < 3072
      ensures OpensOnlySealed(s, log, w.key, FrameNonce(w, place), bytes[i..j], FrameContext(w, place))
    {
      var x := bytes[i..j];
      assert forall k | 0 <= k < |x| :: x[k] == bytes[i + k] && x[k] in bytes;
    }
  }

  /** The assumptions can be met at once, whatever is sealed by whomever: there is a lawful
      suite without a collision for the originals in which no byte string that lacks some
      octet is a forgery. Streams that were sealed are among these. */
  lemma AssumptionsAreConsistent(log: Log, mark: byte, originals: seq<seq<byte>>) returns (s: Suite)
    requires |originals| < 10
    ensures Lawful(s)
    ensures forall d, o | o in originals && s.hash(d) == s.hash(o) :: d == o
    ensures forall key, n, x, c | mark !in x :: OpensOnlySealed(s, log, key, n, x, c)
    ensures forall w, bytes | mark !in bytes :: AllSealed(s, log, w, bytes)
    ensures forall w, data | Count(|data|) <= 3072 && mark !in data && WasSealed(log, w, data, 0) ::
      mark !in Frames(s, w, data, 0)
  {
    s := Marked(log, mark, originals);
    MarkedIsLawful(log, mark, originals);
    forall key, n, x, c | mark !in x ensures OpensOnlySealed(s, log, key, n, x, c) {
      MarkedIsUnforged(log, mark, originals, key, n, x, c);
    }
    forall w, bytes | mark !in bytes ensures AllSealed(s, log, w, bytes) { NothingForged(s, log, w, bytes); }
    forall w, data | Count(|data|) <= 3072 && mark !in data && WasSealed(log, w, data, 0)
      ensures mark !in Frames(s, w, data, 0)
    {
      SealedAreUnmarked(log, mark, originals, w, data, 0);
    }
  }

  function FrameEntry(w: Session, data: seq<byte>, index: nat, place: nat): Entry
    requires index <= place < index + Count(|data|) <= 3072
  {
    Entry(w.key, FrameNonce(w, place), FrameContext(w, place), Chunk(data, place - index))
  }

  predicate WasSealed(log: Log, w: Session, data: seq<byte>, index: nat)
    requires index + Count(|data|) <= 3072
  {
    forall place | index <= place < index + Count(|data|) :: log(FrameEntry(w, data, index, place))
  }

  lemma RestWasSealed(log: Log, w: Session, data: seq<byte>, index: nat)
    requires index + Count(|data|) <= 3072 && WasSealed(log, w, data, index) && |data| > CHUNK
    ensures index + 1 + Count(|data[CHUNK..]|) <= 3072 && WasSealed(log, w, data[CHUNK..], index + 1)
  {
    var rest, next := data[CHUNK..], index + 1;
    forall place | next <= place < next + Count(|rest|) ensures log(FrameEntry(w, rest, next, place)) {
      assert FrameEntry(w, rest, next, place) == FrameEntry(w, data, index, place);
    }
  }

  lemma FirstIsUnmarked(log: Log, mark: byte, originals: seq<seq<byte>>, w: Session, data: seq<byte>, index: nat)
    requires |originals| < 10 && mark !in data && index + Count(|data|) <= 3072 && data != []
    requires WasSealed(log, w, data, index)
    ensures mark !in SealFrame(Marked(log, mark, originals), w, data[..Min(CHUNK, |data|)], index)
  {
    assert log(FrameEntry(w, data, index, index));
  }

  lemma OctetsOfFrames(s: Suite, w: Session, data: seq<byte>, index: nat, octet: byte)
    requires index + Count(|data|) <= 3072 && data != [] && octet in Frames(s, w, data, index)
    ensures octet in SealFrame(s, w, data[..Min(CHUNK, |data|)], index)
      || (|data| > CHUNK && octet in Frames(s, w, data[CHUNK..], index + 1))
  {
  }

  lemma {:induction false} SealedAreUnmarked(log: Log, mark: byte, originals: seq<seq<byte>>, w: Session,
                                             data: seq<byte>, index: nat)
    requires |originals| < 10 && mark !in data && index + Count(|data|) <= 3072 && WasSealed(log, w, data, index)
    ensures mark !in Frames(Marked(log, mark, originals), w, data, index)
    decreases |data|
  {
    if data != [] && mark in Frames(Marked(log, mark, originals), w, data, index) {
      OctetsOfFrames(Marked(log, mark, originals), w, data, index, mark);
      FirstIsUnmarked(log, mark, originals, w, data, index);
      RestWasSealed(log, w, data, index);
      SealedAreUnmarked(log, mark, originals, w, data[CHUNK..], index + 1);
    }
  }
}
