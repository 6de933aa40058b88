/**
 The Mach-O reader `simulator_linked_entitlements` of scripts/ios-build.py: load
 commands, segments and the two linked entitlement sections.
 */
module MachO {
  import opened Common
  import opened LittleEndian

  const SEGMENT := 0x19
  const TEXT: seq<byte> := [95, 95, 84, 69, 88, 84] // __TEXT
  const ENTITLEMENTS: seq<byte> :=
    [95, 95, 101, 110, 116, 105, 116, 108, 101, 109, 101, 110, 116, 115] // __entitlements
  const DER: seq<byte> := [95, 95, 101, 110, 116, 115, 95, 100, 101, 114] // __ents_der

  /** `rstrip(b'\0')`. */
  function Stripped(s: seq<byte>): (r: seq<byte>)
    ensures r <= s && (r == [] || r[|r| - 1] != 0) && forall i | |r| <= i < |s| :: s[i] == 0
  {
    if s != [] && s[|s| - 1] == 0 then Stripped(s[..|s| - 1]) else s
  }

  function Name(data: seq<byte>, at: nat): seq<byte>
    requires at + 16 <= |data|
  {
    Stripped(data[at..at + 16])
  }

  /** The end of the load commands. */
  function End(data: seq<byte>): nat requires |data| >= 32 { 32 + U32(data, 20) }

  predicate Header(data: seq<byte>) {
    && 32 <= |data| <= 256 * 1024 * 1024
    && U32(data, 0) == 0xfeedfacf && U32(data, 4) == 0x100000c && U32(data, 12) == 2
    && U32(data, 16) <= 4096 && End(data) <= |data|
  }

  /** A load command at `p` that lies within the commands. */
  predicate CommandAt(data: seq<byte>, p: nat)
    requires Header(data)
  {
    p + 8 <= End(data) && 8 <= U32(data, p + 4) && p + U32(data, p + 4) <= End(data)
  }

  /** How many sections a command has; None when they do not fit into it. */
  function SectionCount(data: seq<byte>, p: nat): (n: Option<nat>)
    requires Header(data) && CommandAt(data, p)
    ensures n.Some? ==> p + 72 + n.value * 80 <= p + U32(data, p + 4) || n.value == 0
  {
    if U32(data, p) != SEGMENT then Some(0)
    else if U32(data, p + 4) < 72 then None
    else
      var count := U32(data, p + 64);
      if count <= 1024 && 72 + count * 80 <= U32(data, p + 4) then Some(count) else None
  }

  /** A section header: its segment command and its own position. */
  datatype Row = Row(segment: nat, at: nat)

  predicate RowIn(data: seq<byte>, row: Row) { row.segment + 72 <= row.at && row.at + 80 <= |data| }

  /** The two sections that are read. */
  datatype Section = Entitlements | Der

  function Named(name: seq<byte>): Option<Section> {
    if name == ENTITLEMENTS then Some(Entitlements) else if name == DER then Some(Der) else None
  }

  /** Which of them a section header describes, if any. */
  function Kind(data: seq<byte>, row: Row): Option<Section>
    requires RowIn(data, row)
  {
    Named(Name(data, row.at))
  }

  function Length(data: seq<byte>, row: Row): nat requires RowIn(data, row) { U64(data, row.at + 40) }
  function Offset(data: seq<byte>, row: Row): nat requires RowIn(data, row) { U32(data, row.at + 48) }

  /** The section lies in a __TEXT segment, inside the segment's part of the file. */
  predicate Sound(data: seq<byte>, row: Row)
    requires RowIn(data, row)
  {
    var from, size := U64(data, row.segment + 40), U64(data, row.segment + 48);
    && Name(data, row.at + 16) == TEXT && Name(data, row.segment + 8) == TEXT
    && 0 < Length(data, row) <= 65536
    && from <= Offset(data, row) && Offset(data, row) + Length(data, row) <= from + size
    && Offset(data, row) + Length(data, row) <= |data|
  }

  function Slice(data: seq<byte>, row: Row): seq<byte>
    requires RowIn(data, row) && Sound(data, row)
  {
    data[Offset(data, row)..Offset(data, row) + Length(data, row)]
  }

  /** `starts` lists where the commands start and where the last one ends: they tile
      exactly the bytes from 32 to the end that the header announces. */
  ghost predicate Tiles(data: seq<byte>, starts: seq<nat>)
    requires Header(data)
  {
    && |starts| == U32(data, 16) + 1 && Chained(data, starts) && starts[|starts| - 1] == End(data)
  }

  /** The first commands, one behind the other, each with room for its sections. */
  ghost predicate Chained(data: seq<byte>, starts: seq<nat>)
    requires Header(data)
  {
    && |starts| > 0 && starts[0] == 32
    && forall k | 0 <= k < |starts| - 1 :: Linked(data, starts[k], starts[k + 1])
  }

  predicate Linked(data: seq<byte>, p: nat, next: nat)
    requires Header(data)
  {
    CommandAt(data, p) && SectionCount(data, p).Some? && next == p + U32(data, p + 4)
  }

  /** `row` is a section header of one of the commands that start at `starts`, but for the
      last entry, where the next command starts. */
  ghost predicate Among(data: seq<byte>, starts: seq<nat>, row: Row)
    requires Header(data) && Chained(data, starts)
  {
    exists k, i: nat :: Located(data, starts, row, k, i)
  }

  ghost predicate Located(data: seq<byte>, starts: seq<nat>, row: Row, k: nat, i: nat)
    requires Header(data) && Chained(data, starts)
  {
    && k < |starts| - 1 && Linked(data, starts[k], starts[k + 1]) && i < SectionCount(data, starts[k]).value
    && row == Row(starts[k], starts[k] + 72 + 80 * i)
  }

  /** The commands tile the announced bytes, and of all their sections exactly `a` and `b`
      bear the two entitlement names, one each, and both are sound. */
  ghost predicate Acceptable(data: seq<byte>, starts: seq<nat>, a: Row, b: Row) {
    && Header(data) && Tiles(data, starts) && Among(data, starts, a) && Among(data, starts, b)
    && Is(data, a, Entitlements) && Is(data, b, Der)
    && forall row | Among(data, starts, row) && RowIn(data, row) && Kind(data, row).Some? :: row == a || row == b
  }

  predicate Is(data: seq<byte>, row: Row, kind: Section) {
    RowIn(data, row) && Kind(data, row) == Some(kind) && Sound(data, row)
  }

  ghost predicate Accepts(data: seq<byte>) { exists starts, a, b :: Acceptable(data, starts, a, b) }

  /** There is only one way to chain a number of commands. */
  lemma {:induction false} ChainsAgree(data: seq<byte>, s: seq<nat>, t: seq<nat>)
    requires Header(data) && Chained(data, s) && Chained(data, t) && |s| <= |t|
    ensures s == t[..|s|]
    decreases |s|
  {
    if |s| > 1 {
      var shorter := s[..|s| - 1];
      forall k | 0 <= k < |shorter| - 1 ensures Linked(data, shorter[k], shorter[k + 1]) {
        assert Linked(data, s[k], s[k + 1]);
      }
      ChainsAgree(data, shorter, t);
      var k := |s| - 2;
      assert t[..|shorter|][k] == shorter[k] == s[k];
      assert Linked(data, s[k], s[k + 1]) && Linked(data, t[k], t[k + 1]);
    }
  }

  lemma AmongGrows(data: seq<byte>, s: seq<nat>, t: seq<nat>, row: Row)
    requires Header(data) && Chained(data, s) && Chained(data, t) && |s| <= |t| && Among(data, s, row)
    ensures Among(data, t, row)
  {
    ChainsAgree(data, s, t);
    var k: nat, i: nat :| Located(data, s, row, k, i);
    assert t[..|s|][k] == t[k] && t[..|s|][k + 1] == t[k + 1];
    assert Located(data, t, row, k, i);
  }

  lemma ChainGoesOn(data: seq<byte>, s: seq<nat>, t: seq<nat>)
    requires Header(data) && Chained(data, s) && Chained(data, t) && |s| < |t|
    ensures Linked(data, s[|s| - 1], t[|s|])
  {
    ChainsAgree(data, s, t);
    assert t[..|s|][|s| - 1] == t[|s| - 1];
  }

  lemma TilingIsUnique(data: seq<byte>, s: seq<nat>, t: seq<nat>)
    requires Header(data) && Chained(data, s) && Chained(data, t) && |s| == |t|
    ensures s == t
  {
    ChainsAgree(data, s, t);
    assert t[..|s|] == t;
  }

  /** A command that does not fit refutes the whole. */
  lemma BadCommand(data: seq<byte>, starts: seq<nat>)
    requires Header(data) && Chained(data, starts) && |starts| <= U32(data, 16)
    requires !(CommandAt(data, starts[|starts| - 1]) && SectionCount(data, starts[|starts| - 1]).Some?)
    ensures !Accepts(data)
  {
    forall t, a, b ensures !Acceptable(data, t, a, b) {
      if Acceptable(data, t, a, b) { ChainGoesOn(data, starts, t); }
    }
  }

  lemma SameEnd(data: seq<byte>, s: seq<nat>, t: seq<nat>)
    requires Header(data) && Chained(data, s) && Tiles(data, t) && |s| == |t|
    ensures s[|s| - 1] == End(data)
  {
    TilingIsUnique(data, s, t);
  }

  /** So does an end that is not the announced one. */
  lemma BadEnd(data: seq<byte>, starts: seq<nat>)
    requires Header(data) && Chained(data, starts) && |starts| == U32(data, 16) + 1 && starts[|starts| - 1] != End(data)
    ensures !Accepts(data)
  {
    forall t, a, b ensures !Acceptable(data, t, a, b) {
      if Acceptable(data, t, a, b) { SameEnd(data, starts, t); }
    }
  }

  /** The sections of an acceptable file are told apart by their names. */
  lemma OneOfEach(data: seq<byte>, t: seq<nat>, a: Row, b: Row, row: Row)
    requires Acceptable(data, t, a, b) && Among(data, t, row) && RowIn(data, row) && Kind(data, row).Some?
    ensures row == if Kind(data, row).value == Entitlements then a else b
  {
  }

  /** A wanted section that is unsound refutes the whole. */
  lemma BadSection(data: seq<byte>, starts: seq<nat>, row: Row)
    requires Header(data) && Chained(data, starts) && |starts| <= U32(data, 16) + 1
    requires Among(data, starts, row) && RowIn(data, row) && Kind(data, row).Some? && !Sound(data, row)
    ensures !Accepts(data)
  {
    forall t, a, b ensures !Acceptable(data, t, a, b) {
      if Acceptable(data, t, a, b) {
        AmongGrows(data, starts, t, row);
        OneOfEach(data, t, a, b, row);
      }
    }
  }

  /** And so does a second one of the same name. */
  lemma SecondSection(data: seq<byte>, starts: seq<nat>, row: Row, other: Row)
    requires Header(data) && Chained(data, starts) && |starts| <= U32(data, 16) + 1 && row != other
    requires Among(data, starts, row) && RowIn(data, row) && Kind(data, row).Some?
    requires Among(data, starts, other) && RowIn(data, other) && Kind(data, other) == Kind(data, row)
    ensures !Accepts(data)
  {
    forall t, a, b ensures !Acceptable(data, t, a, b) {
      if Acceptable(data, t, a, b) {
        AmongGrows(data, starts, t, row);
        AmongGrows(data, starts, t, other);
        OneOfEach(data, t, a, b, row);
        OneOfEach(data, t, a, b, other);
      }
    }
  }

  /** The wanted sections of the first commands, by name. */
  ghost predicate Collected(data: seq<byte>, starts: seq<nat>, rows: map<Section, Row>)
    requires Header(data) && Chained(data, starts)
  {
    && (forall kind | kind in rows :: Among(data, starts, rows[kind]) && Is(data, rows[kind], kind))
    && forall row | Among(data, starts, row) && RowIn(data, row) && Kind(data, row).Some? ::
         Kind(data, row).value in rows && rows[Kind(data, row).value] == row
  }

  lemma Determined(data: seq<byte>, starts: seq<nat>, rows: map<Section, Row>, t: seq<nat>, a: Row, b: Row)
    requires Header(data) && Tiles(data, starts) && Collected(data, starts, rows) && Acceptable(data, t, a, b)
    ensures Entitlements in rows && rows[Entitlements] == a && Der in rows && rows[Der] == b
  {
    TilingIsUnique(data, starts, t);
  }

  lemma Complete(data: seq<byte>, starts: seq<nat>, rows: map<Section, Row>)
    requires Header(data) && Tiles(data, starts) && Collected(data, starts, rows) && Entitlements in rows && Der in rows
    ensures Acceptable(data, starts, rows[Entitlements], rows[Der])
  {
  }

  /** Nothing else is left to refute once every command has been read. */
  lemma Verdict(data: seq<byte>, starts: seq<nat>, rows: map<Section, Row>)
    requires Header(data) && Tiles(data, starts) && Collected(data, starts, rows)
    ensures Accepts(data) <==> Entitlements in rows && Der in rows
    ensures forall t, a, b :: Acceptable(data, t, a, b) ==>
      Entitlements in rows && rows[Entitlements] == a && Der in rows && rows[Der] == b
  {
    forall t, a, b ensures Acceptable(data, t, a, b) ==>
      Entitlements in rows && rows[Entitlements] == a && Der in rows && rows[Der] == b
    {
      if Acceptable(data, t, a, b) { Determined(data, starts, rows, t, a, b); }
    }
    if Entitlements in rows && Der in rows { Complete(data, starts, rows); }
  }

  /** The last command of the chain starts at `p`, and its section header `i` is at hand. */
  ghost predicate At(data: seq<byte>, next: seq<nat>, p: nat, i: nat)
    requires Header(data) && Chained(data, next)
  {
    && |next| >= 2 && next[|next| - 2] == p && Linked(data, p, next[|next| - 1]) && i <= SectionCount(data, p).value
  }

  predicate Before(p: nat, i: nat, row: Row) { row.segment != p || row.at < p + 72 + 80 * i }

  /** The wanted ones among the sections before the one at hand. */
  ghost predicate CollectedBefore(data: seq<byte>, next: seq<nat>, p: nat, i: nat, rows: map<Section, Row>)
    requires Header(data) && Chained(data, next)
  {
    Drawn(data, next, p, i, rows) && Exhaustive(data, next, p, i, rows)
  }

  ghost predicate Drawn(data: seq<byte>, next: seq<nat>, p: nat, i: nat, rows: map<Section, Row>)
    requires Header(data) && Chained(data, next)
  {
    forall kind | kind in rows ::
      Among(data, next, rows[kind]) && Is(data, rows[kind], kind) && Before(p, i, rows[kind])
  }

  ghost predicate Exhaustive(data: seq<byte>, next: seq<nat>, p: nat, i: nat, rows: map<Section, Row>)
    requires Header(data) && Chained(data, next)
  {
    forall row | Among(data, next, row) && Before(p, i, row) && RowIn(data, row) && Kind(data, row).Some? ::
      Kind(data, row).value in rows && rows[Kind(data, row).value] == row
  }

  lemma {:induction false} StartsIncrease(data: seq<byte>, starts: seq<nat>, k: nat, m: nat)
    requires Header(data) && Chained(data, starts) && k < m < |starts|
    ensures starts[k] < starts[m]
    decreases m
  {
    assert Linked(data, starts[m - 1], starts[m]);
    if k < m - 1 { StartsIncrease(data, starts, k, m - 1); }
  }

  lemma EarlierRow(data: seq<byte>, next: seq<nat>, p: nat, row: Row)
    requires Header(data) && Chained(data, next) && At(data, next, p, 0) && Chained(data, next[..|next| - 1])
    requires Among(data, next[..|next| - 1], row)
    ensures row.segment != p && Among(data, next, row)
  {
    var starts := next[..|next| - 1];
    var k: nat, i: nat :| Located(data, starts, row, k, i);
    assert starts[k] == next[k] && starts[k + 1] == next[k + 1];
    StartsIncrease(data, next, k, |next| - 2);
    assert Located(data, next, row, k, i);
  }

  lemma LaterRow(data: seq<byte>, next: seq<nat>, p: nat, row: Row)
    requires Header(data) && Chained(data, next) && At(data, next, p, 0) && Chained(data, next[..|next| - 1])
    requires Among(data, next, row) && !Among(data, next[..|next| - 1], row)
    ensures row.segment == p && exists i: nat :: i < SectionCount(data, p).value && row.at == p + 72 + 80 * i
  {
    var starts := next[..|next| - 1];
    var k: nat, i: nat :| Located(data, next, row, k, i);
    if k < |next| - 2 {
      assert starts[k] == next[k] && starts[k + 1] == next[k + 1];
      assert Located(data, starts, row, k, i);
    }
  }

  /** The sections of the last command are the ones in the segment that starts at `p`. */
  lemma SegmentOfRow(data: seq<byte>, next: seq<nat>, p: nat, row: Row)
    requires Header(data) && Chained(data, next) && At(data, next, p, 0) && Chained(data, next[..|next| - 1])
    ensures row.segment != p ==> (Among(data, next, row) <==> Among(data, next[..|next| - 1], row))
    ensures row.segment == p ==> !Among(data, next[..|next| - 1], row)
    ensures row.segment == p ==>
      (Among(data, next, row) <==> exists i: nat :: i < SectionCount(data, p).value && row.at == p + 72 + 80 * i)
  {
    if Among(data, next[..|next| - 1], row) {
      EarlierRow(data, next, p, row);
    } else if Among(data, next, row) {
      LaterRow(data, next, p, row);
    }
    if row.segment == p && exists i: nat :: i < SectionCount(data, p).value && row.at == p + 72 + 80 * i {
      var i: nat :| i < SectionCount(data, p).value && row.at == p + 72 + 80 * i;
      assert Located(data, next, row, |next| - 2, i);
    }
  }

  lemma BeforeFirst(data: seq<byte>, next: seq<nat>, p: nat, rows: map<Section, Row>)
    requires Header(data) && Chained(data, next) && At(data, next, p, 0) && Chained(data, next[..|next| - 1])
    requires Collected(data, next[..|next| - 1], rows)
    ensures CollectedBefore(data, next, p, 0, rows)
  {
    forall row ensures Among(data, next, row) && Before(p, 0, row) <==> Among(data, next[..|next| - 1], row) {
      SegmentOfRow(data, next, p, row);
    }
  }

  lemma AfterLast(data: seq<byte>, next: seq<nat>, p: nat, n: nat, rows: map<Section, Row>)
    requires Header(data) && Chained(data, next) && At(data, next, p, n) && Chained(data, next[..|next| - 1])
    requires n == SectionCount(data, p).value && CollectedBefore(data, next, p, n, rows)
    ensures Collected(data, next, rows)
  {
    forall row | Among(data, next, row) ensures Before(p, n, row) {
      SegmentOfRow(data, next, p, row);
    }
  }

  /** Between one section header and the next lies that one. */
  lemma BetweenRows(data: seq<byte>, next: seq<nat>, p: nat, i: nat, row: Row)
    requires Header(data) && Chained(data, next) && At(data, next, p, i) && i < SectionCount(data, p).value
    requires Chained(data, next[..|next| - 1])
    ensures Among(data, next, Row(p, p + 72 + 80 * i)) && !Before(p, i, Row(p, p + 72 + 80 * i))
    ensures Among(data, next, row) ==>
      (Before(p, i + 1, row) <==> Before(p, i, row) || row == Row(p, p + 72 + 80 * i))
  {
    SegmentOfRow(data, next, p, row);
    SegmentOfRow(data, next, p, Row(p, p + 72 + 80 * i));
  }

  lemma PassUnwanted(data: seq<byte>, next: seq<nat>, p: nat, i: nat, rows: map<Section, Row>)
    requires Header(data) && Chained(data, next) && At(data, next, p, i) && i < SectionCount(data, p).value
    requires Chained(data, next[..|next| - 1]) && CollectedBefore(data, next, p, i, rows)
    requires RowIn(data, Row(p, p + 72 + 80 * i)) && Kind(data, Row(p, p + 72 + 80 * i)).None?
    ensures CollectedBefore(data, next, p, i + 1, rows)
  {
    forall other | Among(data, next, other)
      ensures Before(p, i + 1, other) <==> Before(p, i, other) || other == Row(p, p + 72 + 80 * i)
    {
      BetweenRows(data, next, p, i, other);
    }
  }

  lemma DrawWanted(data: seq<byte>, next: seq<nat>, p: nat, i: nat, rows: map<Section, Row>, row: Row)
    requires Header(data) && Chained(data, next) && Drawn(data, next, p, i, rows)
    requires row == Row(p, p + 72 + 80 * i) && Among(data, next, row) && RowIn(data, row) && Kind(data, row).Some?
    requires Sound(data, row)
    ensures Drawn(data, next, p, i + 1, rows[Kind(data, row).value := row])
  {
  }

  lemma ExhaustWanted(data: seq<byte>, next: seq<nat>, p: nat, i: nat, rows: map<Section, Row>, row: Row)
    requires Header(data) && Chained(data, next) && Exhaustive(data, next, p, i, rows)
    requires RowIn(data, row) && Kind(data, row).Some? && Kind(data, row).value !in rows
    requires forall other ::
      Among(data, next, other) ==> (Before(p, i + 1, other) <==> Before(p, i, other) || other == row)
    ensures Exhaustive(data, next, p, i + 1, rows[Kind(data, row).value := row])
  {
  }

  lemma TakeWanted(data: seq<byte>, next: seq<nat>, p: nat, i: nat, rows: map<Section, Row>, row: Row)
    requires Header(data) && Chained(data, next) && At(data, next, p, i) && i < SectionCount(data, p).value
    requires Chained(data, next[..|next| - 1]) && CollectedBefore(data, next, p, i, rows)
    requires row == Row(p, p + 72 + 80 * i) && RowIn(data, row) && Kind(data, row).Some? && Sound(data, row)
    requires Kind(data, row).value !in rows
    ensures CollectedBefore(data, next, p, i + 1, rows[Kind(data, row).value := row])
  {
    forall other
      ensures Among(data, next, other) ==> (Before(p, i + 1, other) <==> Before(p, i, other) || other == row)
    {
      BetweenRows(data, next, p, i, other);
    }
    BetweenRows(data, next, p, i, row);
    DrawWanted(data, next, p, i, rows, row);
    ExhaustWanted(data, next, p, i, rows, row);
  }

  lemma RefuseWanted(data: seq<byte>, next: seq<nat>, p: nat, i: nat, rows: map<Section, Row>, row: Row)
    requires Header(data) && Chained(data, next) && At(data, next, p, i) && i < SectionCount(data, p).value
    requires Chained(data, next[..|next| - 1]) && CollectedBefore(data, next, p, i, rows) && |next| <= U32(data, 16) + 1
    requires row == Row(p, p + 72 + 80 * i) && RowIn(data, row) && Kind(data, row).Some?
    requires !Sound(data, row) || Kind(data, row).value in rows
    ensures !Accepts(data)
  {
    BetweenRows(data, next, p, i, row);
    if !Sound(data, row) {
      BadSection(data, next, row);
    } else {
      SecondSection(data, next, row, rows[Kind(data, row).value]);
    }
  }

  /** The `sections` dictionary holds the bytes of these sections. */
  ghost predicate Cut(data: seq<byte>, sections: map<Section, seq<byte>>, rows: map<Section, Row>) {
    && sections.Keys == rows.Keys
    && forall kind | kind in rows ::
         RowIn(data, rows[kind]) && Sound(data, rows[kind]) && sections[kind] == Slice(data, rows[kind])
  }

  lemma CutMore(data: seq<byte>, sections: map<Section, seq<byte>>, rows: map<Section, Row>, row: Row)
    requires Cut(data, sections, rows) && RowIn(data, row) && Kind(data, row).Some? && Sound(data, row)
    ensures Cut(data, sections[Kind(data, row).value := Slice(data, row)], rows[Kind(data, row).value := row])
  {
  }

  /** One turn of the inner loop; None where it raises. */
  method ReadSection(data: seq<byte>, p: nat, i: nat, before: map<Section, seq<byte>>, ghost next: seq<nat>,
                     ghost seen: map<Section, Row>)
    returns (sections: Option<map<Section, seq<byte>>>, ghost rows: map<Section, Row>)
    requires Header(data) && Chained(data, next) && At(data, next, p, i) && i < SectionCount(data, p).value
    requires Chained(data, next[..|next| - 1]) && CollectedBefore(data, next, p, i, seen)
    requires |next| <= U32(data, 16) + 1 && Cut(data, before, seen)
    ensures sections.None? ==> !Accepts(data)
    ensures sections.Some? ==> CollectedBefore(data, next, p, i + 1, rows) && Cut(data, sections.value, rows)
  {
    var row := Row(p, p + 72 + 80 * i);
    sections, rows := Some(before), seen;
    if Kind(data, row).Some? {
      var kind := Kind(data, row).value;
      if kind in before || !Sound(data, row) {
        RefuseWanted(data, next, p, i, rows, row);
        return None, rows;
      }
      TakeWanted(data, next, p, i, rows, row);
      CutMore(data, before, rows, row);
      sections, rows := Some(before[kind := Slice(data, row)]), rows[kind := row];
    } else {
      PassUnwanted(data, next, p, i, rows);
    }
  }

  /** The inner loop over the section headers of the command at `p`; None where it raises. */
  method ReadSections(data: seq<byte>, p: nat, before: map<Section, seq<byte>>, ghost next: seq<nat>,
                      ghost seen: map<Section, Row>)
    returns (sections: Option<map<Section, seq<byte>>>, ghost rows: map<Section, Row>)
    requires Header(data) && Chained(data, next) && At(data, next, p, 0) && Chained(data, next[..|next| - 1])
    requires |next| <= U32(data, 16) + 1 && Collected(data, next[..|next| - 1], seen) && Cut(data, before, seen)
    ensures sections.None? ==> !Accepts(data)
    ensures sections.Some? ==> Collected(data, next, rows) && Cut(data, sections.value, rows)
  {
    sections, rows := Some(before), seen;
    BeforeFirst(data, next, p, rows);
    var n := SectionCount(data, p).value;
    for i := 0 to n
      invariant sections.Some? && CollectedBefore(data, next, p, i, rows) && Cut(data, sections.value, rows)
    {
      sections, rows := ReadSection(data, p, i, sections.value, next, rows);
      if sections.None? { return; }
    }
    AfterLast(data, next, p, n, rows);
  }

  /** What has been read from the first commands. */
  ghost predicate Reading(data: seq<byte>, starts: seq<nat>, rows: map<Section, Row>, sections: map<Section, seq<byte>>)
    requires Header(data)
  {
    Chained(data, starts) && Collected(data, starts, rows) && Cut(data, sections, rows)
  }

  /** One turn of the outer loop; None where it raises. */
  method ReadCommand(data: seq<byte>, position: nat, before: map<Section, seq<byte>>, ghost starts: seq<nat>,
                     ghost seen: map<Section, Row>)
    returns (sections: Option<map<Section, seq<byte>>>, ghost next: seq<nat>, ghost rows: map<Section, Row>)
    requires Header(data) && Reading(data, starts, seen, before) && |starts| <= U32(data, 16)
    requires starts[|starts| - 1] == position
    ensures sections.None? ==> !Accepts(data)
    ensures sections.Some? ==> CommandAt(data, position) && next == starts + [position + U32(data, position + 4)]
    ensures sections.Some? ==> Reading(data, next, rows, sections.value)
  {
    if !CommandAt(data, position) || SectionCount(data, position).None? {
      BadCommand(data, starts);
      return None, starts, seen;
    }
    next := starts + [position + U32(data, position + 4)];
    assert next[..|next| - 1] == starts;
    ChainGrows(data, starts, next);
    sections, rows := ReadSections(data, position, before, next, seen);
  }

  lemma NothingRead(data: seq<byte>)
    requires Header(data)
    ensures Reading(data, [32], map[], map[])
  {
  }

  /** The contents that an acceptable file holds. */
  lemma Conclusion(data: seq<byte>, starts: seq<nat>, rows: map<Section, Row>, sections: map<Section, seq<byte>>)
    requires Header(data) && Tiles(data, starts) && Reading(data, starts, rows, sections)
    ensures Concluded(data, sections)
  {
    Verdict(data, starts, rows);
  }

  /** Everything that was read is what an acceptable file holds. */
  ghost predicate Concluded(data: seq<byte>, sections: map<Section, seq<byte>>) {
    && (Entitlements in sections && Der in sections <==> Accepts(data))
    && forall t, a, b :: Acceptable(data, t, a, b) ==>
         && Entitlements in sections && sections[Entitlements] == Slice(data, a)
         && Der in sections && sections[Der] == Slice(data, b)
  }

  /** The outer loop and the check of its end; None where it raises. */
  method ReadCommands(data: seq<byte>) returns (sections: Option<map<Section, seq<byte>>>)
    requires Header(data)
    ensures sections.None? ==> !Accepts(data)
    ensures sections.Some? ==> Concluded(data, sections.value)
  {
    var position: nat := 32;
    sections := Some(map[]);
    ghost var starts: seq<nat>, rows: map<Section, Row> := [32], map[];
    NothingRead(data);
    for k := 0 to U32(data, 16)
      invariant sections.Some? && |starts| == k + 1 && Reading(data, starts, rows, sections.value)
      invariant starts[k] == position
    {
      sections, starts, rows := ReadCommand(data, position, sections.value, starts, rows);
      if sections.None? { return; }
      position := position + U32(data, position + 4);
    }
    if position != End(data) {
      BadEnd(data, starts);
      return None;
    }
    Conclusion(data, starts, rows, sections.value);
  }

  /** What acceptance means of the octets: the header, every command, and the two sections. */
  lemma AcceptableMeans(data: seq<byte>, starts: seq<nat>, a: Row, b: Row)
    requires Acceptable(data, starts, a, b)
    ensures 32 <= |data| <= 268435456 && U32(data, 0) == 0xfeedfacf && U32(data, 4) == 0x100000c && U32(data, 12) == 2
    ensures |starts| == U32(data, 16) + 1 <= 4097 && starts[0] == 32 && starts[U32(data, 16)] == 32 + U32(data, 20)
    ensures forall k | 0 <= k < |starts| - 1 :: FitsBetween(data, starts[k], starts[k + 1])
    ensures InsideText(data, a)
    ensures Name(data, a.at) == [95, 95, 101, 110, 116, 105, 116, 108, 101, 109, 101, 110, 116, 115]
    ensures InsideText(data, b) && Name(data, b.at) == [95, 95, 101, 110, 116, 115, 95, 100, 101, 114]
  {
    forall k | 0 <= k < |starts| - 1 ensures FitsBetween(data, starts[k], starts[k + 1]) {
      assert Linked(data, starts[k], starts[k + 1]);
    }
  }

  /** A command from `p` to `next`, with room for its sections if it is a segment. */
  predicate FitsBetween(data: seq<byte>, p: nat, next: nat) {
    && p + 8 <= next <= |data| && next == p + U32(data, p + 4)
    && (U32(data, p) == 25 ==> p + 72 <= next && U32(data, p + 64) <= 1024 && p + 72 + 80 * U32(data, p + 64) <= next)
  }

  /** The section and its segment are called `__TEXT`, and its at most 64 KiB lie in the
      segment's part of the file. */
  predicate InsideText(data: seq<byte>, row: Row) {
    && row.segment + 72 <= row.at && row.at + 80 <= |data|
    && Name(data, row.at + 16) == [95, 95, 84, 69, 88, 84] && Name(data, row.segment + 8) == [95, 95, 84, 69, 88, 84]
    && 1 <= U64(data, row.at + 40) <= 65536
    && U64(data, row.segment + 40) <= U32(data, row.at + 48)
    && U32(data, row.at + 48) + U64(data, row.at + 40) <= U64(data, row.segment + 40) + U64(data, row.segment + 48)
    && U32(data, row.at + 48) + U64(data, row.at + 40) <= |data|
  }

  /** `simulator_linked_entitlements`, with the comparison of the property list as a
      parameter: the contents of the two sections, None where it raises. */
  method LinkedEntitlements(data: seq<byte>, authority: seq<byte> -> bool) returns (r: Option<(seq<byte>, seq<byte>)>)
    ensures r.Some? ==> Accepts(data)
    ensures forall starts, a, b :: Acceptable(data, starts, a, b) ==>
      r == if authority(Stripped(Slice(data, a))) then Some((Slice(data, a), Slice(data, b))) else None
  {
    if !Header(data) { return None; }
    var read := ReadCommands(data);
    if read.None? || Entitlements !in read.value || Der !in read.value { return None; }
    var sections := read.value;
    r := if authority(Stripped(sections[Entitlements])) then Some((sections[Entitlements], sections[Der])) else None;
  }

  lemma ChainGrows(data: seq<byte>, starts: seq<nat>, next: seq<nat>)
    requires Header(data) && Chained(data, starts) && |next| == |starts| + 1 && next[..|starts|] == starts
    requires Linked(data, starts[|starts| - 1], next[|starts|])
    ensures Chained(data, next)
  {
    forall k | 0 <= k < |next| - 1 ensures Linked(data, next[k], next[k + 1]) {
      if k < |starts| - 1 { assert next[k] == starts[k] && next[k + 1] == starts[k + 1]; }
    }
  }
}
