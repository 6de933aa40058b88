/** The ELF64 reader `verify_elf_alignment` of scripts/android-build.py. */
module ElfAlignment {
  import opened Common
  import opened LittleEndian

  const LOAD := 1
  const PAGE := 16384

  /** The bitwise conjunction of two numbers. */
  function And(x: nat, y: nat): nat {
    if x == 0 || y == 0 then 0 else (x % 2) * (y % 2) + 2 * And(x / 2, y / 2)
  }

  function Pow2(k: nat): (p: nat)
    ensures p > 0
  {
    if k == 0 then 1 else 2 * Pow2(k - 1)
  }

  ghost predicate IsPowerOfTwo(x: nat) { exists k: nat :: x == Pow2(k) }

  lemma {:induction false} AndWithZeroBits(x: nat)
    ensures And(x, x) == x
  {
    if x > 0 { AndWithZeroBits(x / 2); }
  }

  /** The bit trick: clearing the lowest set bit leaves nothing exactly for powers of two. */
  lemma {:induction false} BitTrick(x: nat)
    requires x > 0
    ensures And(x, x - 1) == 0 <==> IsPowerOfTwo(x)
  {
    if x == 1 {
      assert x == Pow2(0);
    } else if x % 2 == 0 {
      BitTrick(x / 2);
      assert (x - 1) / 2 == x / 2 - 1;
      if IsPowerOfTwo(x / 2) {
        var k: nat :| x / 2 == Pow2(k);
        assert x == Pow2(k + 1);
      }
      if IsPowerOfTwo(x) {
        var k: nat :| x == Pow2(k);
        assert x / 2 == Pow2(k - 1);
      }
    } else {
      AndWithZeroBits(x / 2);
      assert (x - 1) / 2 == x / 2 && And(x, x - 1) == 2 * (x / 2);
      forall k: nat ensures x != Pow2(k) { assert k > 0 ==> Pow2(k) == 2 * Pow2(k - 1); }
    }
  }

  /** A power of two that is at least a page is a whole number of pages. */
  lemma {:induction false} WholePages(k: nat)
    requires Pow2(k) >= PAGE
    ensures k >= 14 && Pow2(k) == PAGE * Pow2(k - 14) && Pow2(k) % PAGE == 0
  {
    assert Pow2(14) == PAGE by {
      assert Pow2(4) == 16;
      assert Pow2(8) == 256;
      assert Pow2(12) == 4096;
    }
    if k < 14 {
      PowersIncrease(k, 14);
    } else if k > 14 {
      PowersIncrease(14, k - 1);
      WholePages(k - 1);
    }
  }

  lemma {:induction false} PowersIncrease(a: nat, b: nat)
    ensures a < b ==> Pow2(a) < Pow2(b)
    ensures a <= b ==> Pow2(a) <= Pow2(b)
    decreases b
  {
    if a < b { PowersIncrease(a, b - 1); }
  }

  /** The identification, the fields that locate the program headers, and their room. */
  predicate Header(data: seq<byte>) {
    && |data| >= 58 && data[..4] == [0x7f, 69, 76, 70] && data[4] == 2 && data[5] == 1
    && U16(data, 54) >= 56 && U16(data, 56) > 0
    && U64(data, 32) + U16(data, 54) * U16(data, 56) <= |data|
  }

  /** The position of a program header. */
  function At(data: seq<byte>, index: nat): nat
    requires Header(data)
  {
    U64(data, 32) + index * U16(data, 54)
  }

  /** Every field of every program header lies within the file. */
  lemma HeadersAreInside(data: seq<byte>, index: nat)
    requires Header(data) && index < U16(data, 56)
    ensures At(data, index) + 56 <= |data|
  {
    EntryFits(U64(data, 32), index, U16(data, 54), U16(data, 56), |data|);
  }

  lemma EntryFits(offset: nat, index: nat, size: nat, count: nat, total: nat)
    requires index < count && offset + size * count <= total && size >= 56
    ensures offset + index * size + 56 <= total
  {
    assert index * size + size == (index + 1) * size <= count * size;
  }

  function Kind(data: seq<byte>, index: nat): nat
    requires Header(data) && index < U16(data, 56)
  {
    HeadersAreInside(data, index);
    U32(data, At(data, index))
  }

  function Alignment(data: seq<byte>, index: nat): nat
    requires Header(data) && index < U16(data, 56)
  {
    HeadersAreInside(data, index);
    U64(data, At(data, index) + 48)
  }

  /** The alignments of the load segments among the first `count` headers, in order. */
  function Loads(data: seq<byte>, count: nat): seq<nat>
    requires Header(data) && count <= U16(data, 56)
  {
    if count == 0 then []
    else Loads(data, count - 1) + if Kind(data, count - 1) == LOAD then [Alignment(data, count - 1)] else []
  }

  ghost predicate PageAligned(data: seq<byte>, index: nat)
    requires Header(data) && index < U16(data, 56)
  {
    Alignment(data, index) >= PAGE && IsPowerOfTwo(Alignment(data, index))
  }

  /** What is promised of a library: it has a load segment and all are page aligned. */
  ghost predicate Suitable(data: seq<byte>) {
    && Header(data)
    && (exists i: nat :: i < U16(data, 56) && Kind(data, i) == LOAD)
    && forall i: nat | i < U16(data, 56) && Kind(data, i) == LOAD :: PageAligned(data, i)
  }

  lemma {:induction false} SomeLoad(data: seq<byte>, count: nat)
    requires Header(data) && count <= U16(data, 56)
    ensures Loads(data, count) != [] <==> exists i: nat :: i < count && Kind(data, i) == LOAD
  {
    if count > 0 { SomeLoad(data, count - 1); }
  }

  /** A page aligned segment has an alignment that 16 KiB pages divide. */
  lemma PagesDivide(data: seq<byte>, index: nat)
    requires Suitable(data) && index < U16(data, 56) && Kind(data, index) == LOAD
    ensures Alignment(data, index) % PAGE == 0
  {
    assert PageAligned(data, index);
    var k: nat :| Alignment(data, index) == Pow2(k);
    WholePages(k);
  }

  /** `verify_elf_alignment`: None where it raises, also for want of bytes. */
  method VerifyAlignment(data: seq<byte>) returns (r: Option<seq<nat>>)
    ensures r.Some? <==> Suitable(data)
    ensures r.Some? ==> r.value == Loads(data, U16(data, 56))
  {
    if !Header(data) { return None; }
    var loads := [];
    for index := 0 to U16(data, 56)
      invariant loads == Loads(data, index)
      invariant forall i: nat | i < index && Kind(data, i) == LOAD :: PageAligned(data, i)
    {
      if Kind(data, index) == LOAD {
        var alignment := Alignment(data, index);
        if alignment > 0 { BitTrick(alignment); }
        if alignment < PAGE || And(alignment, alignment - 1) != 0 {
          assert !PageAligned(data, index);
          return None;
        }
        loads := loads + [alignment];
      }
    }
    SomeLoad(data, U16(data, 56));
    r := if loads == [] then None else Some(loads);
  }
}
