/**
 A writer of Mach-O files with any list of load commands, and what the reader of
 scripts/ios-build.py makes of them.
 */
module MachOWriter {
  import opened Common
  import opened LittleEndian
  import opened Layout
  import opened MachO

  lemma NameWithin(data: seq<byte>, at: nat, part: seq<byte>, offset: nat, place: nat)
    requires at + |part| <= |data| && data[at..at + |part|] == part && offset + 16 <= |part| && place == at + offset
    ensures Name(data, place) == Name(part, offset)
  {
    SliceWithin(data, at, part, offset, 16);
  }

  function Zeros(n: nat): (r: seq<byte>)
    ensures |r| == n
  {
    if n == 0 then [] else Zeros(n - 1) + [0]
  }

  /** A name field of 16 bytes. */
  function Padded(name: seq<byte>): (r: seq<byte>)
    requires |name| <= 16
    ensures |r| == 16
  {
    name + Zeros(16 - |name|)
  }

  lemma {:induction false} StrippedZeros(name: seq<byte>, n: nat)
    requires name == [] || name[|name| - 1] != 0
    ensures Stripped(name + Zeros(n)) == name
    decreases n
  {
    if n == 0 {
      assert name + [] == name;
    } else {
      StrippedZeros(name, n - 1);
      assert (name + Zeros(n))[..|name + Zeros(n)| - 1] == name + Zeros(n - 1);
    }
  }

  /** A name that fits its field and does not end in a zero octet. */
  predicate Nameable(name: seq<byte>) { |name| <= 16 && (name == [] || name[|name| - 1] != 0) }

  /** A section header; `address` and `rest` are the fields that are not read. */
  datatype SectionHeader = SectionHeader(name: seq<byte>, segment: seq<byte>, address: seq<byte>, length: nat,
                                         offset: nat, rest: seq<byte>)

  /** A load command: a segment with its sections, or any other. `from` and `size` are the
      segment's part of the file; `address`, `protection`, `flags` and what is left behind
      the sections are not read. */
  datatype Command =
    | Other(tag: nat, body: seq<byte>)
    | Segment(name: seq<byte>, address: seq<byte>, from: nat, size: nat, protection: seq<byte>,
              sections: seq<SectionHeader>, flags: seq<byte>, padding: seq<byte>)

  /** A file: `subtype` and `flags` are header fields that are not read, `tail` is what
      follows the commands. */
  datatype Image = Image(subtype: seq<byte>, flags: seq<byte>, commands: seq<Command>, tail: seq<byte>)

  predicate WritableSection(h: SectionHeader) {
    Nameable(h.name) && Nameable(h.segment) && |h.address| == 8 && Wide(h.length) && Small(h.offset) && |h.rest| == 28
  }

  function SizeOf(c: Command): nat {
    match c
    case Other(_, body) => 8 + |body|
    case Segment(_, _, _, _, _, sections, _, padding) => 72 + 80 * |sections| + |padding|
  }

  predicate WritableCommand(c: Command) {
    Small(SizeOf(c)) && match c
      case Other(tag, _) => Small(tag) && tag != 0x19
      case Segment(name, address, from, size, protection, sections, flags, _) =>
        && Nameable(name) && |address| == 16 && Wide(from) && Wide(size) && |protection| == 8
        && |sections| <= 1024 && |flags| == 4 && forall i | 0 <= i < |sections| :: WritableSection(sections[i])
  }

  function SectionParts(h: SectionHeader): seq<seq<byte>>
    requires WritableSection(h)
  {
    [Padded(h.name), Padded(h.segment), h.address, Long(h.length), Word(h.offset), h.rest]
  }

  function SegmentParts(c: Command): seq<seq<byte>>
    requires WritableCommand(c) && c.Segment?
  {
    [Word(0x19), Word(SizeOf(c)), Padded(c.name), c.address, Long(c.from), Long(c.size), c.protection,
     Word(|c.sections|), c.flags]
  }

  function OtherParts(c: Command): seq<seq<byte>>
    requires WritableCommand(c) && c.Other?
  {
    [Word(c.tag), Word(SizeOf(c)), c.body]
  }

  function HeadParts(x: Image, size: nat): seq<seq<byte>>
    requires |x.subtype| == 4 && |x.flags| == 8 && Small(|x.commands|) && Small(size)
  {
    [Word(0xfeedfacf), Word(0x100000c), x.subtype, Word(2), Word(|x.commands|), Word(size), x.flags]
  }

  function SectionList(sections: seq<SectionHeader>): (r: seq<seq<byte>>)
    requires forall i | 0 <= i < |sections| :: WritableSection(sections[i])
    ensures |r| == |sections| && forall i | 0 <= i < |sections| :: r[i] == Flat(SectionParts(sections[i]))
  {
    seq(|sections|, i requires 0 <= i < |sections| => Flat(SectionParts(sections[i])))
  }

  function Encoded(c: Command): seq<byte>
    requires WritableCommand(c)
  {
    if c.Other? then Flat(OtherParts(c)) else Flat(SegmentParts(c)) + Flat(SectionList(c.sections)) + c.padding
  }

  function CommandList(commands: seq<Command>): (r: seq<seq<byte>>)
    requires forall k | 0 <= k < |commands| :: WritableCommand(commands[k])
    ensures |r| == |commands| && forall k | 0 <= k < |commands| :: r[k] == Encoded(commands[k])
  {
    seq(|commands|, k requires 0 <= k < |commands| => Encoded(commands[k]))
  }

  lemma NameAt(parts: seq<seq<byte>>, k: nat, name: seq<byte>)
    requires k < |parts| && Nameable(name) && parts[k] == Padded(name)
    ensures Begin(parts, k) + 16 <= |Flat(parts)| && Name(Flat(parts), Begin(parts, k)) == name
  {
    PartAt(parts, k);
    StrippedZeros(name, 16 - |name|);
  }

  predicate HeadSeen(data: seq<byte>, count: nat, size: nat) {
    && |data| >= 32 && U32(data, 0) == 0xfeedfacf && U32(data, 4) == 0x100000c && U32(data, 12) == 2
    && U32(data, 16) == count && U32(data, 20) == size
  }

  predicate SectionSeen(data: seq<byte>, at: nat, h: SectionHeader) {
    && at + 80 <= |data| && Name(data, at) == h.name && Name(data, at + 16) == h.segment
    && U64(data, at + 40) == h.length && U32(data, at + 48) == h.offset
  }

  predicate SegmentSeen(data: seq<byte>, p: nat, c: Command)
    requires c.Segment?
  {
    && p + 72 <= |data| && U32(data, p) == SEGMENT && U32(data, p + 4) == SizeOf(c) && Name(data, p + 8) == c.name
    && U64(data, p + 40) == c.from && U64(data, p + 48) == c.size && U32(data, p + 64) == |c.sections|
  }

  predicate OtherSeen(data: seq<byte>, p: nat, c: Command)
    requires c.Other?
  {
    p + 8 <= |data| && U32(data, p) == c.tag && U32(data, p + 4) == SizeOf(c)
  }

  lemma HeadFields(x: Image, size: nat)
    requires |x.subtype| == 4 && |x.flags| == 8 && Small(|x.commands|) && Small(size)
    ensures |Flat(HeadParts(x, size))| == 32 && HeadSeen(Flat(HeadParts(x, size)), |x.commands|, size)
  {
    var p := HeadParts(x, size);
    Next(p, 0); Next(p, 1); Next(p, 2); Next(p, 3); Next(p, 4); Next(p, 5); Next(p, 6);
    WholeLength(p);
    WordAt(p, 0, 0xfeedfacf);
    WordAt(p, 1, 0x100000c);
    WordAt(p, 3, 2);
    WordAt(p, 4, |x.commands|);
    WordAt(p, 5, size);
  }

  lemma SectionFields(h: SectionHeader)
    requires WritableSection(h)
    ensures |Flat(SectionParts(h))| == 80 && SectionSeen(Flat(SectionParts(h)), 0, h)
  {
    var p := SectionParts(h);
    Next(p, 0); Next(p, 1); Next(p, 2); Next(p, 3); Next(p, 4); Next(p, 5);
    WholeLength(p);
    NameAt(p, 0, h.name);
    NameAt(p, 1, h.segment);
    LongAt(p, 3, h.length);
    WordAt(p, 4, h.offset);
  }

  lemma SegmentFields(c: Command)
    requires WritableCommand(c) && c.Segment?
    ensures |Flat(SegmentParts(c))| == 72 && SegmentSeen(Flat(SegmentParts(c)), 0, c)
  {
    var p := SegmentParts(c);
    Next(p, 0); Next(p, 1); Next(p, 2); Next(p, 3); Next(p, 4); Next(p, 5); Next(p, 6); Next(p, 7); Next(p, 8);
    WholeLength(p);
    WordAt(p, 0, 0x19);
    WordAt(p, 1, SizeOf(c));
    NameAt(p, 2, c.name);
    LongAt(p, 4, c.from);
    LongAt(p, 5, c.size);
    WordAt(p, 7, |c.sections|);
  }

  lemma OtherFields(c: Command)
    requires WritableCommand(c) && c.Other?
    ensures |Flat(OtherParts(c))| == SizeOf(c) && OtherSeen(Flat(OtherParts(c)), 0, c)
  {
    var p := OtherParts(c);
    Next(p, 0); Next(p, 1); Next(p, 2);
    WholeLength(p);
    WordAt(p, 0, c.tag);
    WordAt(p, 1, SizeOf(c));
  }

  lemma HeadWithin(data: seq<byte>, h: seq<byte>, count: nat, size: nat)
    requires HeadSeen(h, count, size) && Holds(data, 0, h)
    ensures HeadSeen(data, count, size)
  {
    FieldWithin(data, 0, h, 0, 0, 4);
    FieldWithin(data, 0, h, 4, 4, 4);
    FieldWithin(data, 0, h, 12, 12, 4);
    FieldWithin(data, 0, h, 16, 16, 4);
    FieldWithin(data, 0, h, 20, 20, 4);
  }

  /** What is seen in a part is seen in the whole. */
  lemma SegmentWithin(data: seq<byte>, p: nat, part: seq<byte>, c: Command)
    requires c.Segment? && SegmentSeen(part, 0, c) && Holds(data, p, part)
    ensures SegmentSeen(data, p, c)
  {
    FieldWithin(data, p, part, 0, p, 4);
    FieldWithin(data, p, part, 4, p + 4, 4);
    NameWithin(data, p, part, 8, p + 8);
    FieldWithin(data, p, part, 40, p + 40, 8);
    FieldWithin(data, p, part, 48, p + 48, 8);
    FieldWithin(data, p, part, 64, p + 64, 4);
  }

  lemma OtherWithin(data: seq<byte>, p: nat, part: seq<byte>, c: Command)
    requires c.Other? && OtherSeen(part, 0, c) && Holds(data, p, part)
    ensures OtherSeen(data, p, c)
  {
    FieldWithin(data, p, part, 0, p, 4);
    FieldWithin(data, p, part, 4, p + 4, 4);
  }

  lemma SectionWithin(data: seq<byte>, at: nat, part: seq<byte>, offset: nat, place: nat, h: SectionHeader)
    requires SectionSeen(part, offset, h) && Holds(data, at, part) && place == at + offset
    ensures SectionSeen(data, place, h)
  {
    NamesWithin(data, at, part, offset, place);
    NumbersWithin(data, at, part, offset, place);
  }

  lemma NamesWithin(data: seq<byte>, at: nat, part: seq<byte>, offset: nat, place: nat)
    requires Holds(data, at, part) && place == at + offset && offset + 32 <= |part|
    ensures place + 32 <= |data|
    ensures Name(data, place) == Name(part, offset) && Name(data, place + 16) == Name(part, offset + 16)
  {
    NameWithin(data, at, part, offset, place);
    NameWithin(data, at, part, offset + 16, place + 16);
  }

  lemma NumbersWithin(data: seq<byte>, at: nat, part: seq<byte>, offset: nat, place: nat)
    requires Holds(data, at, part) && place == at + offset && offset + 52 <= |part|
    ensures place + 52 <= |data|
    ensures U64(data, place + 40) == U64(part, offset + 40) && U32(data, place + 48) == U32(part, offset + 48)
  {
    FieldWithin(data, at, part, offset + 40, place + 40, 8);
    FieldWithin(data, at, part, offset + 48, place + 48, 4);
  }

  predicate SectionsSeen(data: seq<byte>, at: nat, sections: seq<SectionHeader>) {
    forall i | 0 <= i < |sections| :: SectionSeen(data, at + 80 * i, sections[i])
  }

  lemma SectionsWithin(data: seq<byte>, at: nat, part: seq<byte>, offset: nat, sections: seq<SectionHeader>)
    requires SectionsSeen(part, offset, sections) && Holds(data, at, part)
    ensures SectionsSeen(data, at + offset, sections)
  {
    forall i | 0 <= i < |sections| ensures SectionSeen(data, at + offset + 80 * i, sections[i]) {
      SectionWithin(data, at, part, offset + 80 * i, at + offset + 80 * i, sections[i]);
    }
  }

  /** Parts of 80 octets each. */
  lemma {:induction false} EqualParts(parts: seq<seq<byte>>, k: nat)
    requires k <= |parts| && forall i | 0 <= i < |parts| :: |parts[i]| == 80
    ensures Begin(parts, k) == 80 * k
  {
    if k > 0 { EqualParts(parts, k - 1); }
  }

  lemma SectionsAssembled(sections: seq<SectionHeader>, parts: seq<seq<byte>>)
    requires |parts| == |sections|
    requires forall i | 0 <= i < |sections| :: |parts[i]| == 80 && SectionSeen(parts[i], 0, sections[i])
    ensures |Flat(parts)| == 80 * |sections| && SectionsSeen(Flat(parts), 0, sections)
  {
    WholeLength(parts);
    EqualParts(parts, |parts|);
    forall i | 0 <= i < |sections| ensures SectionSeen(Flat(parts), 80 * i, sections[i]) {
      SectionAssembled(parts, i, sections[i]);
    }
  }

  lemma SectionAssembled(parts: seq<seq<byte>>, i: nat, h: SectionHeader)
    requires i < |parts| && SectionSeen(parts[i], 0, h) && forall j | 0 <= j < |parts| :: |parts[j]| == 80
    ensures SectionSeen(Flat(parts), 80 * i, h)
  {
    PartHolds(parts, i);
    EqualParts(parts, i);
    SectionWithin(Flat(parts), 80 * i, parts[i], 0, 80 * i, h);
  }

  /** What the reader sees of a command. */
  predicate CommandSeen(data: seq<byte>, p: nat, c: Command) {
    && p + SizeOf(c) <= |data|
    && if c.Other? then OtherSeen(data, p, c) else SegmentSeen(data, p, c) && SectionsSeen(data, p + 72, c.sections)
  }

  lemma CommandWithin(data: seq<byte>, p: nat, part: seq<byte>, c: Command)
    requires CommandSeen(part, 0, c) && Holds(data, p, part)
    ensures CommandSeen(data, p, c)
  {
    if c.Other? {
      OtherWithin(data, p, part, c);
    } else {
      SegmentCommandWithin(data, p, part, c);
    }
  }

  lemma SegmentCommandWithin(data: seq<byte>, p: nat, part: seq<byte>, c: Command)
    requires c.Segment? && CommandSeen(part, 0, c) && Holds(data, p, part)
    ensures SegmentSeen(data, p, c) && SectionsSeen(data, p + 72, c.sections)
  {
    assert SegmentSeen(data, p, c) by { SegmentWithin(data, p, part, c); }
    assert SectionsSeen(data, p + 72, c.sections) by { SectionsWithin(data, p, part, 72, c.sections); }
  }

  lemma SegmentAssembled(c: Command, first: seq<byte>, middle: seq<byte>)
    requires c.Segment? && |first| == 72 && SegmentSeen(first, 0, c)
    requires |middle| == 80 * |c.sections| && SectionsSeen(middle, 0, c.sections)
    ensures |first + middle + c.padding| == SizeOf(c) && CommandSeen(first + middle + c.padding, 0, c)
  {
    var whole := first + middle + c.padding;
    Three(first, middle, c.padding);
    assert SegmentSeen(whole, 0, c) by { SegmentWithin(whole, 0, first, c); }
    assert SectionsSeen(whole, 72, c.sections) by { SectionsWithin(whole, 72, middle, 0, c.sections); }
  }

  lemma SectionListSeen(sections: seq<SectionHeader>)
    requires forall i | 0 <= i < |sections| :: WritableSection(sections[i])
    ensures forall i | 0 <= i < |sections| ::
      |SectionList(sections)[i]| == 80 && SectionSeen(SectionList(sections)[i], 0, sections[i])
  {
    forall i | 0 <= i < |sections|
      ensures |SectionList(sections)[i]| == 80 && SectionSeen(SectionList(sections)[i], 0, sections[i])
    {
      SectionFields(sections[i]);
    }
  }

  lemma EncodedIsSeen(c: Command)
    requires WritableCommand(c)
    ensures |Encoded(c)| == SizeOf(c) && CommandSeen(Encoded(c), 0, c)
  {
    if c.Other? {
      OtherFields(c);
    } else {
      SegmentFields(c);
      SectionListSeen(c.sections);
      SectionsAssembled(c.sections, SectionList(c.sections));
      SegmentAssembled(c, Flat(SegmentParts(c)), Flat(SectionList(c.sections)));
    }
  }

  /** The length of the first `k` commands. */
  function Sum(commands: seq<Command>, k: nat): nat
    requires k <= |commands|
  {
    if k == 0 then 0 else Sum(commands, k - 1) + SizeOf(commands[k - 1])
  }

  /** Where command `k` starts. */
  function Start(commands: seq<Command>, k: nat): nat
    requires k <= |commands|
  {
    32 + Sum(commands, k)
  }

  function Starts(commands: seq<Command>): (r: seq<nat>)
    ensures |r| == |commands| + 1 && forall k | 0 <= k <= |commands| :: r[k] == Start(commands, k)
  {
    seq(|commands| + 1, k requires 0 <= k <= |commands| => Start(commands, k))
  }

  function Ending(x: Image): nat { Start(x.commands, |x.commands|) }

  /** The reader's own bounds on number, length and size. */
  predicate Writable(x: Image) {
    && |x.subtype| == 4 && |x.flags| == 8 && |x.commands| <= 4096
    && Ending(x) + |x.tail| <= 256 * 1024 * 1024
    && forall k | 0 <= k < |x.commands| :: WritableCommand(x.commands[k])
  }

  lemma {:induction false} SumIsBegin(commands: seq<Command>, parts: seq<seq<byte>>, k: nat)
    requires k <= |commands| == |parts| && forall j | 0 <= j < |commands| :: |parts[j]| == SizeOf(commands[j])
    ensures Sum(commands, k) == Begin(parts, k)
  {
    if k > 0 { SumIsBegin(commands, parts, k - 1); }
  }

  predicate CommandsSeen(data: seq<byte>, commands: seq<Command>) {
    forall k | 0 <= k < |commands| :: SeenAt(data, commands, k)
  }

  predicate SeenAt(data: seq<byte>, commands: seq<Command>, k: nat)
    requires k < |commands|
  {
    CommandSeen(data, Start(commands, k), commands[k])
  }

  lemma CommandsAssembled(data: seq<byte>, commands: seq<Command>, parts: seq<seq<byte>>)
    requires |parts| == |commands| && Holds(data, 32, Flat(parts))
    requires forall k | 0 <= k < |commands| ::
      |parts[k]| == SizeOf(commands[k]) && CommandSeen(parts[k], 0, commands[k])
    ensures |Flat(parts)| == Sum(commands, |commands|) && CommandsSeen(data, commands)
  {
    WholeLength(parts);
    SumIsBegin(commands, parts, |commands|);
    forall k | 0 <= k < |commands| ensures SeenAt(data, commands, k) {
      SumIsBegin(commands, parts, k);
      CommandAssembled(data, parts, k, Start(commands, k), commands[k]);
    }
  }

  lemma CommandAssembled(data: seq<byte>, parts: seq<seq<byte>>, k: nat, at: nat, c: Command)
    requires k < |parts| && Holds(data, 32, Flat(parts)) && CommandSeen(parts[k], 0, c) && at == 32 + Begin(parts, k)
    ensures CommandSeen(data, at, c)
  {
    PartHolds(parts, k);
    HoldsWithin(data, 32, Flat(parts), Begin(parts, k), parts[k]);
    CommandWithin(data, at, parts[k], c);
  }

  lemma CommandListSeen(commands: seq<Command>)
    requires forall k | 0 <= k < |commands| :: WritableCommand(commands[k])
    ensures forall k | 0 <= k < |commands| ::
      |CommandList(commands)[k]| == SizeOf(commands[k]) && CommandSeen(CommandList(commands)[k], 0, commands[k])
  {
    forall k | 0 <= k < |commands|
      ensures |CommandList(commands)[k]| == SizeOf(commands[k]) && CommandSeen(CommandList(commands)[k], 0, commands[k])
    {
      EncodedIsSeen(commands[k]);
    }
  }

  /** The file: header, commands, and the rest. */
  function Written(x: Image): seq<byte>
    requires Writable(x)
  {
    Flat(HeadParts(x, Sum(x.commands, |x.commands|))) + Flat(CommandList(x.commands)) + x.tail
  }

  /** What the reader will find in a file. */
  predicate FileSeen(data: seq<byte>, x: Image) {
    && |data| == Ending(x) + |x.tail| && HeadSeen(data, |x.commands|, Sum(x.commands, |x.commands|))
    && CommandsSeen(data, x.commands) && Holds(data, Ending(x), x.tail)
  }

  lemma FileAssembled(x: Image, head: seq<byte>, parts: seq<seq<byte>>)
    requires |head| == 32 && HeadSeen(head, |x.commands|, Sum(x.commands, |x.commands|)) && |parts| == |x.commands|
    requires forall k | 0 <= k < |x.commands| ::
      |parts[k]| == SizeOf(x.commands[k]) && CommandSeen(parts[k], 0, x.commands[k])
    ensures FileSeen(head + Flat(parts) + x.tail, x)
  {
    var data := head + Flat(parts) + x.tail;
    Three(head, Flat(parts), x.tail);
    HeadWithin(data, head, |x.commands|, Sum(x.commands, |x.commands|));
    CommandsAssembled(data, x.commands, parts);
  }

  lemma WrittenIsSeen(x: Image)
    requires Writable(x)
    ensures FileSeen(Written(x), x)
  {
    HeadFields(x, Sum(x.commands, |x.commands|));
    CommandListSeen(x.commands);
    FileAssembled(x, Flat(HeadParts(x, Sum(x.commands, |x.commands|))), CommandList(x.commands));
  }

  /** A section of the file: section `section` of command `command`. */
  datatype Place = Place(command: nat, section: nat)

  predicate IsPlace(x: Image, q: Place) {
    q.command < |x.commands| && x.commands[q.command].Segment? && q.section < |x.commands[q.command].sections|
  }

  function HeaderAt(x: Image, q: Place): SectionHeader
    requires IsPlace(x, q)
  {
    x.commands[q.command].sections[q.section]
  }

  function RowAt(x: Image, q: Place): Row
    requires IsPlace(x, q)
  {
    Row(Start(x.commands, q.command), Start(x.commands, q.command) + 72 + 80 * q.section)
  }

  /** It is in a __TEXT segment, and its contents in the segment's part of the file. */
  predicate SoundPlace(x: Image, q: Place)
    requires IsPlace(x, q)
  {
    var c, h := x.commands[q.command], HeaderAt(x, q);
    Fits(h.segment, c.name, h.length, h.offset, c.from, c.size, Ending(x) + |x.tail|)
  }

  predicate Fits(segment: seq<byte>, name: seq<byte>, length: nat, offset: nat, from: nat, size: nat, total: nat) {
    && segment == TEXT && name == TEXT && 0 < length <= 65536
    && from <= offset && offset + length <= from + size && offset + length <= total
  }

  predicate IsKind(x: Image, q: Place, kind: MachO.Section) {
    IsPlace(x, q) && Named(HeaderAt(x, q).name) == Some(kind) && SoundPlace(x, q)
  }

  predicate Wanted(x: Image, q: Place) { IsPlace(x, q) && Named(HeaderAt(x, q).name).Some? }

  /** Of all sections of all commands, `e` and `d` are the ones with the wanted names, one
      each, and both are sound. */
  ghost predicate Entitled(x: Image, e: Place, d: Place) {
    && IsKind(x, e, Entitlements) && IsKind(x, d, Der)
    && forall q | Wanted(x, q) :: q == e || q == d
  }

  function Contents(x: Image, q: Place): seq<byte>
    requires Writable(x) && IsPlace(x, q) && SoundPlace(x, q)
  {
    WrittenIsSeen(x);
    Extract(Written(x), HeaderAt(x, q))
  }

  /** The bytes a section header points to. */
  function Extract(data: seq<byte>, h: SectionHeader): seq<byte>
    requires h.offset + h.length <= |data|
  {
    data[h.offset..h.offset + h.length]
  }

  lemma {:induction false} SumGrows(commands: seq<Command>, k: nat, m: nat)
    requires k <= m <= |commands|
    ensures Sum(commands, k) <= Sum(commands, m) && (k < m ==> Sum(commands, k) + 8 <= Sum(commands, m))
    decreases m
  {
    if k < m { SumGrows(commands, k, m - 1); }
  }

  lemma HeaderIsSeen(data: seq<byte>, x: Image)
    requires Writable(x) && FileSeen(data, x)
    ensures Header(data) && End(data) == Ending(x) && U32(data, 16) == |x.commands|
  {
  }

  function Sections(c: Command): nat { if c.Segment? then |c.sections| else 0 }

  lemma CommandIsLinked(data: seq<byte>, x: Image, k: nat)
    requires Writable(x) && FileSeen(data, x) && k < |x.commands| && Header(data)
    ensures Linked(data, Start(x.commands, k), Start(x.commands, k + 1))
    ensures SectionCount(data, Start(x.commands, k)) == Some(Sections(x.commands[k]))
  {
    HeaderIsSeen(data, x);
    SumGrows(x.commands, k + 1, |x.commands|);
    assert SeenAt(data, x.commands, k) && WritableCommand(x.commands[k]);
    LinkSeen(data, Start(x.commands, k), Start(x.commands, k + 1), x.commands[k]);
  }

  lemma LinkSeen(data: seq<byte>, p: nat, next: nat, c: Command)
    requires Header(data) && CommandSeen(data, p, c) && WritableCommand(c) && next == p + SizeOf(c) && next <= End(data)
    ensures Linked(data, p, next) && SectionCount(data, p) == Some(Sections(c))
  {
  }

  lemma CommandsTile(data: seq<byte>, x: Image)
    requires Writable(x) && FileSeen(data, x)
    ensures Header(data) && Tiles(data, Starts(x.commands))
  {
    HeaderIsSeen(data, x);
    var starts := Starts(x.commands);
    forall k | 0 <= k < |starts| - 1 ensures Linked(data, starts[k], starts[k + 1]) { CommandIsLinked(data, x, k); }
  }

  lemma RowIsAmong(data: seq<byte>, x: Image, q: Place)
    requires Writable(x) && FileSeen(data, x) && IsPlace(x, q) && Header(data) && Chained(data, Starts(x.commands))
    ensures Among(data, Starts(x.commands), RowAt(x, q))
  {
    CommandIsLinked(data, x, q.command);
    assert Located(data, Starts(x.commands), RowAt(x, q), q.command, q.section);
  }

  lemma AmongIsRow(data: seq<byte>, x: Image, row: Row) returns (q: Place)
    requires Writable(x) && FileSeen(data, x) && Header(data) && Chained(data, Starts(x.commands))
    requires Among(data, Starts(x.commands), row)
    ensures IsPlace(x, q) && row == RowAt(x, q)
  {
    var k: nat, i: nat :| Located(data, Starts(x.commands), row, k, i);
    CommandIsLinked(data, x, k);
    q := Place(k, i);
  }

  lemma SectionAtPlace(data: seq<byte>, x: Image, q: Place)
    requires CommandsSeen(data, x.commands) && IsPlace(x, q)
    ensures SectionSeen(data, RowAt(x, q).at, HeaderAt(x, q))
    ensures SegmentSeen(data, RowAt(x, q).segment, x.commands[q.command])
  {
    CommandAtPlace(data, x.commands, q.command);
    SectionOfCommand(data, RowAt(x, q), x.commands[q.command], q.section);
  }

  lemma CommandAtPlace(data: seq<byte>, commands: seq<Command>, k: nat)
    requires CommandsSeen(data, commands) && k < |commands|
    ensures CommandSeen(data, Start(commands, k), commands[k])
  {
    assert SeenAt(data, commands, k);
  }

  lemma SectionOfCommand(data: seq<byte>, row: Row, c: Command, i: nat)
    requires CommandSeen(data, row.segment, c) && c.Segment? && i < |c.sections| && row.at == row.segment + 72 + 80 * i
    ensures SegmentSeen(data, row.segment, c) && SectionSeen(data, row.at, c.sections[i])
  {
  }

  /** The reader sees a section for what it is. */
  lemma RowIsSeen(data: seq<byte>, x: Image, q: Place)
    requires FileSeen(data, x) && IsPlace(x, q)
    ensures RowIn(data, RowAt(x, q)) && Kind(data, RowAt(x, q)) == Named(HeaderAt(x, q).name)
    ensures Sound(data, RowAt(x, q)) <==> SoundPlace(x, q)
    ensures Offset(data, RowAt(x, q)) == HeaderAt(x, q).offset && Length(data, RowAt(x, q)) == HeaderAt(x, q).length
  {
    SectionAtPlace(data, x, q);
    ViewIsSound(data, RowAt(x, q), x.commands[q.command], HeaderAt(x, q));
  }

  lemma ViewIsSound(data: seq<byte>, row: Row, c: Command, h: SectionHeader)
    requires c.Segment? && SectionSeen(data, row.at, h) && SegmentSeen(data, row.segment, c)
    requires row.segment + 72 <= row.at
    ensures RowIn(data, row) && Kind(data, row) == Named(h.name) && Offset(data, row) == h.offset
    ensures Length(data, row) == h.length
    ensures Sound(data, row) <==> Fits(h.segment, c.name, h.length, h.offset, c.from, c.size, |data|)
  {
    SoundIs(data, row);
  }

  lemma SoundIs(data: seq<byte>, row: Row)
    requires RowIn(data, row)
    ensures Sound(data, row)
      <==> Fits(Name(data, row.at + 16), Name(data, row.segment + 8), Length(data, row), Offset(data, row),
                                       U64(data, row.segment + 40), U64(data, row.segment + 48), |data|)
  {
  }

  lemma RowsDiffer(x: Image, q: Place, r: Place)
    requires IsPlace(x, q) && IsPlace(x, r) && RowAt(x, q) == RowAt(x, r)
    ensures q == r
  {
    if q.command < r.command { SumGrows(x.commands, q.command, r.command); }
    if r.command < q.command { SumGrows(x.commands, r.command, q.command); }
  }

  lemma PlaceIs(data: seq<byte>, x: Image, q: Place, kind: MachO.Section)
    requires Writable(x) && FileSeen(data, x) && IsKind(x, q, kind) && Header(data) && Chained(data, Starts(x.commands))
    ensures Among(data, Starts(x.commands), RowAt(x, q)) && Is(data, RowAt(x, q), kind)
  {
    RowIsAmong(data, x, q);
    RowIsSeen(data, x, q);
  }

  lemma WantedRow(data: seq<byte>, x: Image, e: Place, d: Place, row: Row)
    requires Writable(x) && FileSeen(data, x) && Entitled(x, e, d) && Header(data) && Chained(data, Starts(x.commands))
    requires Among(data, Starts(x.commands), row) && RowIn(data, row) && Kind(data, row).Some?
    ensures row == RowAt(x, e) || row == RowAt(x, d)
  {
    var q := AmongIsRow(data, x, row);
    RowIsSeen(data, x, q);
    assert Wanted(x, q);
  }

  /** A file is accepted for the two sections that a maker put in, */
  lemma EntitledIsAcceptable(data: seq<byte>, x: Image, e: Place, d: Place)
    requires Writable(x) && FileSeen(data, x) && Entitled(x, e, d)
    ensures Acceptable(data, Starts(x.commands), RowAt(x, e), RowAt(x, d))
  {
    var starts, a, b := Starts(x.commands), RowAt(x, e), RowAt(x, d);
    CommandsTile(data, x);
    assert Among(data, starts, a) && Is(data, a, Entitlements) by { PlaceIs(data, x, e, Entitlements); }
    assert Among(data, starts, b) && Is(data, b, Der) by { PlaceIs(data, x, d, Der); }
    assert forall row | Among(data, starts, row) && RowIn(data, row) && Kind(data, row).Some? ::
      row == a || row == b by {
      forall row | Among(data, starts, row) && RowIn(data, row) && Kind(data, row).Some? ensures row == a || row == b {
        WantedRow(data, x, e, d, row);
      }
    }
  }

  /** and for no others. */
  lemma AcceptableIsEntitled(data: seq<byte>, x: Image, starts: seq<nat>, a: Row, b: Row) returns (e: Place, d: Place)
    requires Writable(x) && FileSeen(data, x) && Acceptable(data, starts, a, b)
    ensures Entitled(x, e, d) && a == RowAt(x, e) && b == RowAt(x, d)
  {
    CommandsTile(data, x);
    TilingIsUnique(data, starts, Starts(x.commands));
    e := AmongIsRow(data, x, a);
    d := AmongIsRow(data, x, b);
    RowIsSeen(data, x, e);
    RowIsSeen(data, x, d);
    forall q | Wanted(x, q) ensures q == e || q == d {
      RowIsAmong(data, x, q);
      RowIsSeen(data, x, q);
      assert RowAt(x, q) == a || RowAt(x, q) == b;
      if RowAt(x, q) == a { RowsDiffer(x, q, e); } else { RowsDiffer(x, q, d); }
    }
  }

  lemma SliceIsExtract(data: seq<byte>, x: Image, q: Place)
    requires FileSeen(data, x) && IsPlace(x, q) && SoundPlace(x, q)
    ensures RowIn(data, RowAt(x, q)) && Sound(data, RowAt(x, q))
    ensures Slice(data, RowAt(x, q)) == Extract(data, HeaderAt(x, q))
  {
    RowIsSeen(data, x, q);
  }

  /** The file with the two sections, and their contents. */
  lemma WrittenIsAcceptable(x: Image, e: Place, d: Place)
    requires Writable(x) && Entitled(x, e, d)
    ensures Acceptable(Written(x), Starts(x.commands), RowAt(x, e), RowAt(x, d))
    ensures Slice(Written(x), RowAt(x, e)) == Contents(x, e) && Slice(Written(x), RowAt(x, d)) == Contents(x, d)
  {
    WrittenIsSeen(x);
    EntitledIsAcceptable(Written(x), x, e, d);
    SliceIsExtract(Written(x), x, e);
    SliceIsExtract(Written(x), x, d);
  }

  /** Exact acceptance over all lists of commands: whatever commands, segments and sections
      there are, in whatever order, the reader accepts exactly the files with one sound
      section of each name. */
  lemma WrittenExactly(x: Image)
    requires Writable(x)
    ensures Accepts(Written(x)) <==> exists e, d :: Entitled(x, e, d)
  {
    if e, d :| Entitled(x, e, d) { WrittenIsAcceptable(x, e, d); }
    if Accepts(Written(x)) {
      var starts, a, b :| Acceptable(Written(x), starts, a, b);
      WrittenIsSeen(x);
      var e, d := AcceptableIsEntitled(Written(x), x, starts, a, b);
    }
  }

  /** Contents that were put behind the commands are what a section that points there has. */
  lemma ContentsInTail(x: Image, q: Place, at: nat, contents: seq<byte>)
    requires Writable(x) && IsPlace(x, q) && SoundPlace(x, q) && Holds(x.tail, at, contents)
    requires HeaderAt(x, q).offset == Ending(x) + at && HeaderAt(x, q).length == |contents|
    ensures Contents(x, q) == contents
  {
    WrittenIsSeen(x);
    ExtractWithin(Written(x), x, at, contents, HeaderAt(x, q));
  }

  lemma ExtractWithin(data: seq<byte>, x: Image, at: nat, contents: seq<byte>, h: SectionHeader)
    requires FileSeen(data, x) && Holds(x.tail, at, contents)
    requires h.offset == Ending(x) + at && h.length == |contents|
    ensures Holds(data, h.offset, contents) && Extract(data, h) == contents
  {
    HoldsWithin(data, Ending(x), x.tail, at, contents);
  }

  /** The contents lie in a __TEXT segment's part of the file, and the section says that
      it is one of that segment. */
  predicate InText(x: Image, q: Place)
    requires IsPlace(x, q)
  {
    var c, h := x.commands[q.command], HeaderAt(x, q);
    && h.segment == [95, 95, 84, 69, 88, 84] && c.name == [95, 95, 84, 69, 88, 84]
    && 1 <= h.length <= 65536 && c.from <= h.offset
    && h.offset + h.length <= c.from + c.size && h.offset + h.length <= Ending(x) + |x.tail|
  }

  /** The file has one section called `__entitlements`, at `e`, and one called `__ents_der`,
      at `d`, written out in ASCII. */
  ghost predicate HasBoth(x: Image, e: Place, d: Place) {
    && IsPlace(x, e) && IsPlace(x, d) && InText(x, e) && InText(x, d)
    && HeaderAt(x, e).name == [95, 95, 101, 110, 116, 105, 116, 108, 101, 109, 101, 110, 116, 115]
    && HeaderAt(x, d).name == [95, 95, 101, 110, 116, 115, 95, 100, 101, 114]
    && forall q | IsPlace(x, q) && (HeaderAt(x, q).name == HeaderAt(x, e).name
                                    || HeaderAt(x, q).name == HeaderAt(x, d).name) :: q == e || q == d
  }

  lemma EntitledExactly(x: Image, e: Place, d: Place)
    ensures Entitled(x, e, d) <==> HasBoth(x, e, d)
  {
    if Entitled(x, e, d) {
      forall q | IsPlace(x, q) && (HeaderAt(x, q).name == HeaderAt(x, e).name
                                   || HeaderAt(x, q).name == HeaderAt(x, d).name)
        ensures q == e || q == d
      {
        assert Wanted(x, q);
      }
    }
  }

  /** The reader run on what the writer wrote: it asks about the property list in the section
      called `__entitlements`, and returns that section's contents before the other's. */
  method ReadBack(x: Image, authority: seq<byte> -> bool) returns (r: Option<(seq<byte>, seq<byte>)>)
    requires Writable(x)
    ensures forall e, d | HasBoth(x, e, d) ::
      && SoundPlace(x, e) && SoundPlace(x, d)
      && r == if authority(Stripped(Contents(x, e))) then Some((Contents(x, e), Contents(x, d))) else None
    ensures r.Some? ==> exists e, d :: HasBoth(x, e, d)
  {
    r := LinkedEntitlements(Written(x), authority);
    forall e, d | HasBoth(x, e, d)
      ensures SoundPlace(x, e) && SoundPlace(x, d)
      ensures r == if authority(Stripped(Contents(x, e))) then Some((Contents(x, e), Contents(x, d))) else None
    {
      EntitledExactly(x, e, d);
      WrittenIsAcceptable(x, e, d);
    }
    if r.Some? { var e, d := BothThere(x); }
  }

  lemma BothThere(x: Image) returns (e: Place, d: Place)
    requires Writable(x) && Accepts(Written(x))
    ensures HasBoth(x, e, d)
  {
    WrittenExactly(x);
    e, d :| Entitled(x, e, d);
    EntitledExactly(x, e, d);
  }
}
