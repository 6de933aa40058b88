/** Little-endian fields of a byte string, as `struct` reads and writes them. */
module LittleEndian {
  import opened Common

  function Number(data: seq<byte>): nat {
    if data == [] then 0 else data[0] + 256 * Number(data[1..])
  }

  function Power(n: nat): nat {
    if n == 0 then 1 else 256 * Power(n - 1)
  }

  /** `width` bytes from `at` on. */
  function Field(data: seq<byte>, at: nat, width: nat): (n: nat)
    requires at + width <= |data|
  {
    Number(data[at..at + width])
  }

  function U16(data: seq<byte>, at: nat): nat requires at + 2 <= |data| { Field(data, at, 2) }
  function U32(data: seq<byte>, at: nat): nat requires at + 4 <= |data| { Field(data, at, 4) }
  function U64(data: seq<byte>, at: nat): nat requires at + 8 <= |data| { Field(data, at, 8) }

  function Bytes(n: nat, width: nat): (r: seq<byte>)
    requires n < Power(width)
    ensures |r| == width
  {
    if width == 0 then [] else [n % 256] + Bytes(n / 256, width - 1)
  }

  lemma {:induction false} NumberOfBytes(n: nat, width: nat)
    requires n < Power(width)
    ensures Number(Bytes(n, width)) == n
  {
    if width > 0 {
      NumberOfBytes(n / 256, width - 1);
      assert Bytes(n, width)[1..] == Bytes(n / 256, width - 1);
    }
  }
}
