/**
 A writer of ELF64 files with any program headers, and what the reader of
 scripts/android-build.py makes of them.
 */
module ElfWriter {
  import opened Common
  import opened LittleEndian
  import opened Layout
  import opened ElfAlignment

  /** A program header, with all its fields and what is left of its entry. */
  datatype ProgramHeader = ProgramHeader(kind: nat, flags: seq<byte>, offset: nat, address: nat, physical: nat,
                                         inFile: nat, inMemory: nat, alignment: nat, rest: seq<byte>)

  /** A library: `ident`, `machine`, `sections` and `between` are what the reader does not
      look at, in front of the program headers, and `tail` what follows them. */
  datatype Library = Library(ident: seq<byte>, machine: seq<byte>, sections: seq<byte>, between: seq<byte>,
                             size: nat, headers: seq<ProgramHeader>, tail: seq<byte>)

  predicate WritableHeader(h: ProgramHeader, size: nat) {
    && Small(h.kind) && |h.flags| == 4 && Wide(h.offset) && Wide(h.address) && Wide(h.physical) && Wide(h.inFile)
    && Wide(h.inMemory) && Wide(h.alignment) && 56 + |h.rest| == size
  }

  predicate Writable(x: Library) {
    && |x.ident| == 10 && |x.machine| == 16 && |x.sections| == 14 && Wide(58 + |x.between|)
    && x.size < 0x1_0000 && |x.headers| < 0x1_0000
    && forall i | 0 <= i < |x.headers| :: WritableHeader(x.headers[i], x.size)
  }

  function Parts(h: ProgramHeader): seq<seq<byte>>
    requires exists size :: WritableHeader(h, size)
  {
    [Word(h.kind), h.flags, Long(h.offset), Long(h.address), Long(h.physical), Long(h.inFile), Long(h.inMemory),
     Long(h.alignment), h.rest]
  }

  function HeaderList(x: Library): (r: seq<seq<byte>>)
    requires Writable(x)
    ensures |r| == |x.headers| && forall i | 0 <= i < |x.headers| :: r[i] == Flat(Parts(x.headers[i]))
  {
    seq(|x.headers|, i requires 0 <= i < |x.headers| => Flat(Parts(x.headers[i])))
  }

  /** "\x7fELF", the class of 64 bits, the least significant octet first. */
  function Magic(): seq<byte> { [0x7f, 69, 76, 70, 2, 1] }

  function HeadParts(x: Library): seq<seq<byte>>
    requires Writable(x)
  {
    [Magic(), x.ident, x.machine, Long(58 + |x.between|), x.sections, Half(x.size), Half(|x.headers|), x.between]
  }

  function Written(x: Library): seq<byte>
    requires Writable(x)
  {
    Flat(HeadParts(x)) + Flat(HeaderList(x)) + x.tail
  }

  /** What is read of an entry of the table. */
  predicate PartSeen(part: seq<byte>, size: nat, h: ProgramHeader) {
    |part| == size >= 56 && U32(part, 0) == h.kind && U64(part, 48) == h.alignment
  }

  lemma HeaderFields(h: ProgramHeader, size: nat)
    requires WritableHeader(h, size)
    ensures PartSeen(Flat(Parts(h)), size, h)
  {
    var p := Parts(h);
    Next(p, 0); Next(p, 1); Next(p, 2); Next(p, 3); Next(p, 4); Next(p, 5); Next(p, 6); Next(p, 7); Next(p, 8);
    WholeLength(p);
    WordAt(p, 0, h.kind);
    LongAt(p, 7, h.alignment);
  }

  /** What the reader sees in front of the program headers. */
  predicate HeadSeen(data: seq<byte>, offset: nat, size: nat, count: nat) {
    && |data| >= 58 && data[..4] == [0x7f, 69, 76, 70] && data[4] == 2 && data[5] == 1
    && U64(data, 32) == offset && U16(data, 54) == size && U16(data, 56) == count
  }

  lemma HeadFields(x: Library)
    requires Writable(x)
    ensures |Flat(HeadParts(x))| == 58 + |x.between|
    ensures HeadSeen(Flat(HeadParts(x)), 58 + |x.between|, x.size, |x.headers|)
  {
    var p := HeadParts(x);
    Next(p, 0); Next(p, 1); Next(p, 2); Next(p, 3); Next(p, 4); Next(p, 5); Next(p, 6); Next(p, 7);
    WholeLength(p);
    PartAt(p, 0);
    LongAt(p, 3, 58 + |x.between|);
    HalfAt(p, 5, x.size);
    HalfAt(p, 6, |x.headers|);
    MagicSeen(Flat(p));
  }

  lemma MagicSeen(data: seq<byte>)
    requires |data| >= 6 && data[0..6] == Magic()
    ensures data[..4] == [0x7f, 69, 76, 70] && data[4] == 2 && data[5] == 1
  {
    assert data[..4] == data[0..6][..4];
    assert data[4] == data[0..6][4] && data[5] == data[0..6][5];
  }

  lemma HeadWithin(data: seq<byte>, head: seq<byte>, offset: nat, size: nat, count: nat)
    requires HeadSeen(head, offset, size, count) && Holds(data, 0, head)
    ensures HeadSeen(data, offset, size, count)
  {
    SliceWithin(data, 0, head, 0, 4);
    SliceWithin(data, 0, head, 4, 1);
    SliceWithin(data, 0, head, 5, 1);
    FieldWithin(data, 0, head, 32, 32, 8);
    FieldWithin(data, 0, head, 54, 54, 2);
    FieldWithin(data, 0, head, 56, 56, 2);
    assert data[..4] == head[..4];
    assert data[4..5] == head[4..5] && data[5..6] == head[5..6];
    assert data[4] == data[4..5][0] && data[5] == data[5..6][0];
  }

  /** Parts of equal length. */
  lemma {:induction false} EqualParts(parts: seq<seq<byte>>, k: nat, size: nat)
    requires k <= |parts| && forall i | 0 <= i < |parts| :: |parts[i]| == size
    ensures Begin(parts, k) == k * size
  {
    if k > 0 {
      EqualParts(parts, k - 1, size);
      assert (k - 1) * size + size == k * size;
    }
  }

  lemma TableLength(parts: seq<seq<byte>>, size: nat)
    requires forall i | 0 <= i < |parts| :: |parts[i]| == size
    ensures |Flat(parts)| == |parts| * size
  {
    WholeLength(parts);
    EqualParts(parts, |parts|, size);
  }

  /** Entry `i` of the table. */
  lemma EntryHolds(data: seq<byte>, at: nat, parts: seq<seq<byte>>, i: nat, size: nat, place: nat)
    requires Holds(data, at, Flat(parts)) && i < |parts| && forall k | 0 <= k < |parts| :: |parts[k]| == size
    requires place == at + i * size
    ensures Holds(data, place, parts[i])
  {
    EqualParts(parts, i, size);
    PartHolds(parts, i);
    HoldsWithin(data, at, Flat(parts), Begin(parts, i), parts[i]);
  }

  lemma EntryAssembled(data: seq<byte>, at: nat, parts: seq<seq<byte>>, i: nat, size: nat, place: nat,
                       h: ProgramHeader)
    requires Holds(data, at, Flat(parts)) && i < |parts| && forall k | 0 <= k < |parts| :: |parts[k]| == size
    requires place == at + i * size && PartSeen(parts[i], size, h)
    ensures EntrySeen(data, place, h)
  {
    EntryHolds(data, at, parts, i, size, place);
    EntryIsSeen(data, place, parts[i], h);
  }

  predicate EntrySeen(data: seq<byte>, place: nat, h: ProgramHeader) {
    place + 56 <= |data| && U32(data, place) == h.kind && U64(data, place + 48) == h.alignment
  }

  lemma EntryIsSeen(data: seq<byte>, place: nat, part: seq<byte>, h: ProgramHeader)
    requires Holds(data, place, part) && PartSeen(part, |part|, h)
    ensures EntrySeen(data, place, h)
  {
    FieldWithin(data, place, part, 0, place, 4);
    FieldWithin(data, place, part, 48, place + 48, 8);
  }

  predicate AllSeen(data: seq<byte>, at: nat, size: nat, headers: seq<ProgramHeader>) {
    forall i | 0 <= i < |headers| :: SeenAt(data, at, size, headers, i)
  }

  predicate SeenAt(data: seq<byte>, at: nat, size: nat, headers: seq<ProgramHeader>, i: nat)
    requires i < |headers|
  {
    EntrySeen(data, at + i * size, headers[i])
  }

  lemma HeaderListFields(x: Library)
    requires Writable(x)
    ensures forall i | 0 <= i < |x.headers| :: PartSeen(HeaderList(x)[i], x.size, x.headers[i])
  {
    forall i | 0 <= i < |x.headers| ensures PartSeen(HeaderList(x)[i], x.size, x.headers[i]) {
      HeaderFields(x.headers[i], x.size);
    }
  }

  lemma EntriesAssembled(data: seq<byte>, at: nat, parts: seq<seq<byte>>, size: nat, headers: seq<ProgramHeader>)
    requires Holds(data, at, Flat(parts)) && |parts| == |headers|
    requires forall i | 0 <= i < |parts| :: PartSeen(parts[i], size, headers[i])
    ensures AllSeen(data, at, size, headers)
  {
    PartSizes(parts, size, headers);
    forall i | 0 <= i < |headers| ensures SeenAt(data, at, size, headers, i) {
      OneAssembled(data, at, parts, size, headers, i);
    }
  }

  lemma OneAssembled(data: seq<byte>, at: nat, parts: seq<seq<byte>>, size: nat, headers: seq<ProgramHeader>, i: nat)
    requires Holds(data, at, Flat(parts)) && i < |parts| == |headers| && PartSeen(parts[i], size, headers[i])
    requires forall k | 0 <= k < |parts| :: |parts[k]| == size
    ensures SeenAt(data, at, size, headers, i)
  {
    var place := at + i * size;
    EntryAssembled(data, at, parts, i, size, place, headers[i]);
  }

  lemma PartSizes(parts: seq<seq<byte>>, size: nat, headers: seq<ProgramHeader>)
    requires |parts| == |headers| && forall i | 0 <= i < |parts| :: PartSeen(parts[i], size, headers[i])
    ensures forall i | 0 <= i < |parts| :: |parts[i]| == size
  {
  }

  lemma Assembled(x: Library, head: seq<byte>, parts: seq<seq<byte>>)
    requires |parts| == |x.headers| && forall i | 0 <= i < |parts| :: PartSeen(parts[i], x.size, x.headers[i])
    requires HeadSeen(head, |head|, x.size, |x.headers|)
    ensures
      var data := head + Flat(parts) + x.tail;
      && |data| == |head| + |x.headers| * x.size + |x.tail| && HeadSeen(data, |head|, x.size, |x.headers|)
      && AllSeen(data, |head|, x.size, x.headers)
  {
    var data := head + Flat(parts) + x.tail;
    Three(head, Flat(parts), x.tail);
    HeadWithin(data, head, |head|, x.size, |x.headers|);
    TableLength(parts, x.size);
    EntriesAssembled(data, |head|, parts, x.size, x.headers);
  }

  lemma WrittenIsSeen(x: Library)
    requires Writable(x)
    ensures
      && |Written(x)| == 58 + |x.between| + |x.headers| * x.size + |x.tail|
      && HeadSeen(Written(x), 58 + |x.between|, x.size, |x.headers|)
      && AllSeen(Written(x), 58 + |x.between|, x.size, x.headers)
  {
    HeadFields(x);
    HeaderListFields(x);
    Assembled(x, Flat(HeadParts(x)), HeaderList(x));
  }

  /** The alignments of the segments that are loaded, which have type 1, in order. */
  function Alignments(headers: seq<ProgramHeader>): seq<nat> {
    if headers == [] then []
    else
      var last := headers[|headers| - 1];
      Alignments(headers[..|headers| - 1]) + if last.kind == 1 then [last.alignment] else []
  }

  lemma ReaderSees(data: seq<byte>, offset: nat, size: nat, headers: seq<ProgramHeader>)
    requires HeadSeen(data, offset, size, |headers|) && AllSeen(data, offset, size, headers) && |headers| > 0
    requires offset + |headers| * size <= |data| && size >= 56
    ensures Header(data)
    ensures forall i | 0 <= i < |headers| ::
      Kind(data, i) == headers[i].kind && Alignment(data, i) == headers[i].alignment
  {
    assert size * |headers| == |headers| * size;
    forall i | 0 <= i < |headers|
      ensures Kind(data, i) == headers[i].kind && Alignment(data, i) == headers[i].alignment
    {
      assert SeenAt(data, offset, size, headers, i);
    }
  }

  lemma {:induction false} LoadsAre(data: seq<byte>, headers: seq<ProgramHeader>, n: nat)
    requires Header(data) && n <= |headers| == U16(data, 56)
    requires forall i | 0 <= i < |headers| ::
      Kind(data, i) == headers[i].kind && Alignment(data, i) == headers[i].alignment
    ensures Loads(data, n) == Alignments(headers[..n])
  {
    if n > 0 {
      LoadsAre(data, headers, n - 1);
      assert headers[..n][..n - 1] == headers[..n - 1];
    }
  }

  /** A power of two that is at least 16384. */
  ghost predicate WholePageSize(n: nat) { exists k: nat :: k >= 14 && n == Pow2(k) }

  lemma PageSizes(n: nat)
    ensures WholePageSize(n) <==> n >= 16384 && IsPowerOfTwo(n)
  {
    if WholePageSize(n) {
      var k: nat :| k >= 14 && n == Pow2(k);
      FourteenDoublings();
      PowersIncrease(14, k);
    }
    if n >= 16384 && IsPowerOfTwo(n) {
      var k: nat :| n == Pow2(k);
      WholePages(k);
    }
  }

  lemma FourteenDoublings()
    ensures Pow2(14) == 16384
  {
    assert Pow2(4) == 16;
    assert Pow2(8) == 256;
    assert Pow2(12) == 4096;
  }

  /** The reader run on what the writer wrote: it accepts exactly the libraries with a load
      segment whose load segments are all aligned to a power of two of at least 16 KiB, and
      it returns the alignments of these. */
  method ReadBack(x: Library) returns (r: Option<seq<nat>>)
    requires Writable(x)
    ensures r.Some? <==>
      && (exists i | 0 <= i < |x.headers| :: x.headers[i].kind == 1)
      && forall i | 0 <= i < |x.headers| && x.headers[i].kind == 1 :: WholePageSize(x.headers[i].alignment)
    ensures r.Some? ==> r.value == Alignments(x.headers)
  {
    r := VerifyAlignment(Written(x));
    WrittenIsSeen(x);
    if x.headers != [] { SuitableExactly(x); }
  }

  lemma SuitableExactly(x: Library)
    requires Writable(x) && x.headers != []
    ensures Suitable(Written(x)) <==>
      && (exists i | 0 <= i < |x.headers| :: x.headers[i].kind == 1)
      && forall i | 0 <= i < |x.headers| && x.headers[i].kind == 1 :: WholePageSize(x.headers[i].alignment)
    ensures Suitable(Written(x)) ==> Loads(Written(x), U16(Written(x), 56)) == Alignments(x.headers)
  {
    WrittenIsSeen(x);
    assert WritableHeader(x.headers[0], x.size);
    SuitableMeans(Written(x), 58 + |x.between|, x.size, x.headers);
  }

  lemma SuitableMeans(data: seq<byte>, offset: nat, size: nat, headers: seq<ProgramHeader>)
    requires HeadSeen(data, offset, size, |headers|) && AllSeen(data, offset, size, headers) && |headers| > 0
    requires offset + |headers| * size <= |data| && size >= 56
    ensures Suitable(data) <==>
      && (exists i | 0 <= i < |headers| :: headers[i].kind == 1)
      && forall i | 0 <= i < |headers| && headers[i].kind == 1 :: WholePageSize(headers[i].alignment)
    ensures Header(data) && Loads(data, U16(data, 56)) == Alignments(headers)
  {
    ReaderSees(data, offset, size, headers);
    LoadsAre(data, headers, |headers|);
    assert headers[..|headers|] == headers;
    forall i | 0 <= i < |headers| ensures PageAligned(data, i) <==> WholePageSize(headers[i].alignment) {
      PageSizes(headers[i].alignment);
    }
    if i: nat :| i < |headers| && headers[i].kind == 1 { assert Kind(data, i) == LOAD; }
  }
}
