/** Files put together from parts, and the numbers that are read back from them. */
module Layout {
  import opened Common
  import opened LittleEndian

  function Flat(parts: seq<seq<byte>>): seq<byte> {
    if parts == [] then [] else parts[0] + Flat(parts[1..])
  }

  /** Where part `k` begins. */
  function Begin(parts: seq<seq<byte>>, k: nat): nat
    requires k <= |parts|
  {
    if k == 0 then 0 else Begin(parts, k - 1) + |parts[k - 1]|
  }

  lemma {:induction false} BeginOfRest(parts: seq<seq<byte>>, k: nat)
    requires 0 < k <= |parts|
    ensures Begin(parts, k) == |parts[0]| + Begin(parts[1..], k - 1)
  {
    if k > 1 {
      BeginOfRest(parts, k - 1);
      assert parts[1..][k - 2] == parts[k - 1];
    }
  }

  /** Each part lies where the parts before it end. */
  lemma {:induction false} PartAt(parts: seq<seq<byte>>, k: nat)
    requires k < |parts|
    ensures Begin(parts, k) + |parts[k]| <= |Flat(parts)|
    ensures Flat(parts)[Begin(parts, k)..Begin(parts, k) + |parts[k]|] == parts[k]
  {
    if k > 0 {
      BeginOfRest(parts, k);
      PartAt(parts[1..], k - 1);
    }
  }

  lemma {:induction false} WholeLength(parts: seq<seq<byte>>)
    ensures |Flat(parts)| == Begin(parts, |parts|)
  {
    if parts != [] {
      WholeLength(parts[1..]);
      BeginOfRest(parts, |parts|);
    }
  }

  lemma PartNumber(parts: seq<seq<byte>>, k: nat)
    requires k < |parts|
    ensures Begin(parts, k) + |parts[k]| <= |Flat(parts)|
    ensures Field(Flat(parts), Begin(parts, k), |parts[k]|) == Number(parts[k])
  {
    PartAt(parts, k);
  }

  /** A part that is a number is read as a field. */
  lemma FieldAt(parts: seq<seq<byte>>, k: nat, n: nat, width: nat)
    requires k < |parts| && n < Power(width) && parts[k] == Bytes(n, width)
    ensures Begin(parts, k) + width <= |Flat(parts)| && Field(Flat(parts), Begin(parts, k), width) == n
  {
    PartNumber(parts, k);
    NumberOfBytes(n, width);
  }

  lemma SliceWithin(data: seq<byte>, at: nat, part: seq<byte>, offset: nat, width: nat)
    requires at + |part| <= |data| && data[at..at + |part|] == part && offset + width <= |part|
    ensures data[at + offset..at + offset + width] == part[offset..offset + width]
  {
    var left, right := data[at + offset..at + offset + width], part[offset..offset + width];
    forall i | 0 <= i < width ensures left[i] == right[i] {
      assert right[i] == data[at..at + |part|][offset + i] == data[at + offset + i];
    }
  }

  /** Fields of a part are fields of the whole. */
  lemma FieldWithin(data: seq<byte>, at: nat, part: seq<byte>, offset: nat, place: nat, width: nat)
    requires at + |part| <= |data| && data[at..at + |part|] == part && offset + width <= |part| && place == at + offset
    ensures Field(data, place, width) == Field(part, offset, width)
  {
    SliceWithin(data, at, part, offset, width);
  }

  predicate Small(n: nat) { n < 0x1_0000_0000 }
  predicate Wide(n: nat) { n < 0x1_0000_0000_0000_0000 }

  lemma Widths()
    ensures Power(4) == 0x1_0000_0000 && Power(8) == 0x1_0000_0000_0000_0000
  {
    assert Power(2) == 0x1_0000;
    assert Power(6) == 0x1_0000 * Power(4);
  }

  function Half(n: nat): (r: seq<byte>)
    requires n < 0x1_0000
    ensures |r| == 2
  {
    assert Power(2) == 0x1_0000;
    Bytes(n, 2)
  }

  function Word(n: nat): (r: seq<byte>)
    requires Small(n)
    ensures |r| == 4
  {
    Widths();
    Bytes(n, 4)
  }

  function Long(n: nat): (r: seq<byte>)
    requires Wide(n)
    ensures |r| == 8
  {
    Widths();
    Bytes(n, 8)
  }

  /** The offset of a part from the one before it. */
  lemma Next(parts: seq<seq<byte>>, k: nat)
    requires k < |parts|
    ensures Begin(parts, k + 1) == Begin(parts, k) + |parts[k]|
  {}

  lemma HalfAt(parts: seq<seq<byte>>, k: nat, n: nat)
    requires k < |parts| && n < 0x1_0000 && parts[k] == Half(n)
    ensures Begin(parts, k) + 2 <= |Flat(parts)| && U16(Flat(parts), Begin(parts, k)) == n
  {
    assert Power(2) == 0x1_0000;
    FieldAt(parts, k, n, 2);
  }

  lemma WordAt(parts: seq<seq<byte>>, k: nat, n: nat)
    requires k < |parts| && Small(n) && parts[k] == Word(n)
    ensures Begin(parts, k) + 4 <= |Flat(parts)| && U32(Flat(parts), Begin(parts, k)) == n
  {
    Widths();
    FieldAt(parts, k, n, 4);
  }

  lemma LongAt(parts: seq<seq<byte>>, k: nat, n: nat)
    requires k < |parts| && Wide(n) && parts[k] == Long(n)
    ensures Begin(parts, k) + 8 <= |Flat(parts)| && U64(Flat(parts), Begin(parts, k)) == n
  {
    Widths();
    FieldAt(parts, k, n, 8);
  }

  /** The bytes stand at a place of the file. */
  predicate Holds(data: seq<byte>, at: nat, part: seq<byte>) { at + |part| <= |data| && data[at..at + |part|] == part }

  lemma PartHolds(p: seq<seq<byte>>, k: nat)
    requires k < |p|
    ensures Holds(Flat(p), Begin(p, k), p[k])
  {
    PartAt(p, k);
  }

  lemma HoldsWithin(data: seq<byte>, at: nat, whole: seq<byte>, offset: nat, part: seq<byte>)
    requires Holds(data, at, whole) && Holds(whole, offset, part)
    ensures Holds(data, at + offset, part)
  {
    SliceWithin(data, at, whole, offset, |part|);
  }

  lemma Three(a: seq<byte>, b: seq<byte>, c: seq<byte>)
    ensures Holds(a + b + c, 0, a) && Holds(a + b + c, |a|, b) && Holds(a + b + c, |a| + |b|, c)
  {
    var data := a + b + c;
    assert data[0..|a|] == a;
    assert data[|a|..|a| + |b|] == b;
    assert data[|a| + |b|..|a| + |b| + |c|] == c;
  }
}
