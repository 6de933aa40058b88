/**
 Unpadded base64url as scripts/acceptance_delivery.py writes and reads it (RFC 4648
 sections 3.2, 3.5 and 5). `Decode` goes through a lenient decoder, the one Python's
 base64 module uses by default, and then insists on the canonical spelling.
 */
module Base64Url {

  import opened Common

  type sextet = x: int | 0 <= x < 64

  function Symbol(x: sextet): (c: char) {
    if x < 26 then 'A' + x as char
    else if x < 52 then 'a' + (x - 26) as char
    else if x < 62 then '0' + (x - 52) as char
    else if x == 62 then '-' else '_'
  }

  /** The value of a symbol. The standard alphabet's '+' and '/' are read as well:
      translating '-' and '_' into them leaves them where they are. */
  function Sextet(c: char): Option<sextet> {
    if 'A' <= c <= 'Z' then Some((c - 'A') as int)
    else if 'a' <= c <= 'z' then Some((c - 'a') as int + 26)
    else if '0' <= c <= '9' then Some((c - '0') as int + 52)
    else if c == '-' || c == '+' then Some(62)
    else if c == '_' || c == '/' then Some(63)
    else None
  }

  /** The four symbols of three bytes. */
  function Group(x: byte, y: byte, z: byte): string {
    [Symbol(x / 4), Symbol(x % 4 * 16 + y / 16), Symbol(y % 16 * 4 + z / 64), Symbol(z % 64)]
  }

  /** Standard padded encoding with the URL-safe alphabet. */
  function Padded(b: seq<byte>): string {
    if b == [] then ""
    else if |b| == 1 then [Symbol(b[0] / 4), Symbol(b[0] % 4 * 16), '=', '=']
    else if |b| == 2 then
      [Symbol(b[0] / 4), Symbol(b[0] % 4 * 16 + b[1] / 16), Symbol(b[1] % 16 * 4), '=']
    else
      Group(b[0], b[1], b[2]) + Padded(b[3..])
  }

  function StripPadding(s: string): string {
    if s != "" && s[|s| - 1] == '=' then StripPadding(s[..|s| - 1]) else s
  }

  function Encode(b: seq<byte>): string { StripPadding(Padded(b)) }

  /** Python's lenient decoder: `quad` symbols of the current group have been read,
      `left` are the bits carried over, `pads` the padding seen since the last symbol.
      Characters outside the alphabet are skipped, complete padding ends the input. */
  function Scan(s: string, quad: int, left: int, pads: nat, out: seq<byte>): Option<seq<byte>>
    requires 0 <= quad < 4
    requires 0 <= left < (if quad == 0 then 1 else if quad == 1 then 64 else if quad == 2 then 16 else 4)
  {
    if s == "" then
      if quad == 0 then Some(out) else None
    else if s[0] == '=' then
      if quad >= 2 && quad + pads + 1 >= 4 then Some(out)
      else Scan(s[1..], quad, left, if quad >= 2 then pads + 1 else pads, out)
    else match Sextet(s[0])
      case None => Scan(s[1..], quad, left, pads, out)
      case Some(x) =>
        if quad == 0 then Scan(s[1..], 1, x, 0, out)
        else if quad == 1 then Scan(s[1..], 2, x % 16, 0, out + [left * 4 + x / 16])
        else if quad == 2 then Scan(s[1..], 3, x % 4, 0, out + [left * 16 + x / 4])
        else Scan(s[1..], 0, 0, 0, out + [left * 64 + x])
  }

  predicate Ascii(s: string) { forall i | 0 <= i < |s| :: s[i] < 128 as char }

  function Padding(n: nat): string {
    if n % 4 == 0 then "" else if n % 4 == 1 then "===" else if n % 4 == 2 then "==" else "="
  }

  /** The bytes a string stands for when it is their canonical spelling. */
  function Canonical(s: string): Option<seq<byte>> {
    if !Ascii(s) then None
    else match Scan(s + Padding(|s|), 0, 0, 0, [])
      case None => None
      case Some(raw) => if Encode(raw) == s then Some(raw) else None
  }

  /** `decode(value, size)`. */
  function Decode(s: string, size: nat): Option<seq<byte>> {
    if |s| > 128 then None
    else match Canonical(s)
      case None => None
      case Some(raw) => if |raw| == size then Some(raw) else None
  }

  lemma SymbolIsRead(x: sextet)
    ensures Sextet(Symbol(x)) == Some(x) && Symbol(x) != '=' && Symbol(x) < 128 as char
  {}

  /** The encoding without its padding. */
  function Unpadded(b: seq<byte>): string {
    if b == [] then ""
    else if |b| == 1 then [Symbol(b[0] / 4), Symbol(b[0] % 4 * 16)]
    else if |b| == 2 then [Symbol(b[0] / 4), Symbol(b[0] % 4 * 16 + b[1] / 16), Symbol(b[1] % 16 * 4)]
    else
      Group(b[0], b[1], b[2]) + Unpadded(b[3..])
  }

  predicate Symbols(s: string) { forall i | 0 <= i < |s| :: s[i] < 128 as char && s[i] != '=' }

  lemma {:induction false} UnpaddedShape(b: seq<byte>)
    ensures |Unpadded(b)| == (4 * |b| + 2) / 3
    ensures Symbols(Unpadded(b))
    decreases |b|
  {
    if |b| >= 3 { UnpaddedShape(b[3..]); }
  }

  lemma PaddingOfMore(n: nat)
    ensures Padding(n + 4) == Padding(n)
  {}

  lemma Regroup(group: string, rest: string, pads: string)
    ensures group + (rest + pads) == group + rest + pads
  {}

  lemma {:induction false} PaddedShape(b: seq<byte>)
    ensures Padded(b) == Unpadded(b) + Padding(|Unpadded(b)|)
    decreases |b|
  {
    if |b| >= 3 {
      PaddedShape(b[3..]);
      PaddingOfMore(|Unpadded(b[3..])|);
      Regroup(Group(b[0], b[1], b[2]), Unpadded(b[3..]), Padding(|Unpadded(b[3..])|));
    } else if |b| == 1 {
      assert Padding(2) == ['=', '='];
    } else if |b| == 2 {
      assert Padding(3) == ['='];
    }
  }

  lemma {:induction false} StripPaddingOnly(s: string, pads: string)
    requires Symbols(s)
    requires forall i | 0 <= i < |pads| :: pads[i] == '='
    ensures StripPadding(s + pads) == s
    decreases |pads|
  {
    if pads == "" {
      assert s + pads == s;
    } else {
      assert (s + pads)[..|s + pads| - 1] == s + pads[..|pads| - 1];
      StripPaddingOnly(s, pads[..|pads| - 1]);
    }
  }

  lemma EncodeIsUnpadded(b: seq<byte>)
    ensures Encode(b) == Unpadded(b) && |Encode(b)| == (4 * |b| + 2) / 3
  {
    UnpaddedShape(b);
    PaddedShape(b);
    StripPaddingOnly(Unpadded(b), Padding(|Unpadded(b)|));
  }

  lemma ScanSymbol(v: sextet, rest: string, quad: int, left: int, pads: nat, out: seq<byte>)
    requires 0 <= quad < 4
    requires 0 <= left < (if quad == 0 then 1 else if quad == 1 then 64 else if quad == 2 then 16 else 4)
    ensures Scan([Symbol(v)] + rest, quad, left, pads, out) ==
      if quad == 0 then Scan(rest, 1, v, 0, out)
      else if quad == 1 then Scan(rest, 2, v % 16, 0, out + [left * 4 + v / 16])
      else if quad == 2 then Scan(rest, 3, v % 4, 0, out + [left * 16 + v / 4])
      else Scan(rest, 0, 0, 0, out + [left * 64 + v])
  {
    SymbolIsRead(v);
    assert ([Symbol(v)] + rest)[1..] == rest;
  }

  /** The first symbols of a group give back its bytes and the bits carried over. */
  lemma ScanFirst(x: byte, low: int, rest: string, out: seq<byte>)
    requires 0 <= low < 16
    ensures Scan([Symbol(x / 4), Symbol(x % 4 * 16 + low)] + rest, 0, 0, 0, out) == Scan(rest, 2, low, 0, out + [x])
  {
    var tail := [Symbol(x % 4 * 16 + low)] + rest;
    assert [Symbol(x / 4), Symbol(x % 4 * 16 + low)] + rest == [Symbol(x / 4)] + tail;
    ScanSymbol(x / 4, tail, 0, 0, 0, out);
    ScanSymbol(x % 4 * 16 + low, rest, 1, x / 4, 0, out);
    assert (x % 4 * 16 + low) % 16 == low && x / 4 * 4 + (x % 4 * 16 + low) / 16 == x;
  }

  lemma ScanSecond(y: byte, low: int, rest: string, out: seq<byte>)
    requires 0 <= low < 4
    ensures Scan([Symbol(y % 16 * 4 + low)] + rest, 2, y / 16, 0, out) == Scan(rest, 3, low, 0, out + [y])
  {
    ScanSymbol(y % 16 * 4 + low, rest, 2, y / 16, 0, out);
    assert (y % 16 * 4 + low) % 4 == low && y / 16 * 16 + (y % 16 * 4 + low) / 4 == y;
  }

  lemma ScanThird(z: byte, rest: string, out: seq<byte>)
    ensures Scan([Symbol(z % 64)] + rest, 3, z / 64, 0, out) == Scan(rest, 0, 0, 0, out + [z])
  {
    ScanSymbol(z % 64, rest, 3, z / 64, 0, out);
    assert z / 64 * 64 + z % 64 == z;
  }

  lemma ScanOneByte(x: byte, out: seq<byte>)
    ensures Scan([Symbol(x / 4), Symbol(x % 4 * 16)] + "==", 0, 0, 0, out) == Some(out + [x])
  {
    ScanFirst(x, 0, "==", out);
    assert "=="[1..] == "=";
    assert Scan("=", 2, 0, 1, out + [x]) == Some(out + [x]);
  }

  lemma ScanTwoBytes(x: byte, y: byte, rest: string, low: int, out: seq<byte>)
    requires 0 <= low < 4
    ensures Scan([Symbol(x / 4), Symbol(x % 4 * 16 + y / 16), Symbol(y % 16 * 4 + low)] + rest, 0, 0, 0, out)
      == Scan(rest, 3, low, 0, out + [x, y])
  {
    var third := [Symbol(y % 16 * 4 + low)] + rest;
    assert [Symbol(x / 4), Symbol(x % 4 * 16 + y / 16), Symbol(y % 16 * 4 + low)] + rest
      == [Symbol(x / 4), Symbol(x % 4 * 16 + y / 16)] + third;
    ScanFirst(x, y / 16, third, out);
    ScanSecond(y, low, rest, out + [x]);
    assert out + [x] + [y] == out + [x, y];
  }

  lemma ScanGroup(x: byte, y: byte, z: byte, rest: string, out: seq<byte>)
    ensures Scan(Group(x, y, z) + rest, 0, 0, 0, out) == Scan(rest, 0, 0, 0, out + [x, y, z])
  {
    var fourth := [Symbol(z % 64)] + rest;
    assert Group(x, y, z) + rest
      == [Symbol(x / 4), Symbol(x % 4 * 16 + y / 16), Symbol(y % 16 * 4 + z / 64)] + fourth;
    ScanTwoBytes(x, y, fourth, z / 64, out);
    ScanThird(z, rest, out + [x, y]);
    assert out + [x, y] + [z] == out + [x, y, z];
  }

  /** The lenient decoder reads back what the encoder wrote. */
  lemma {:induction false} ScanPadded(b: seq<byte>, out: seq<byte>)
    ensures Scan(Padded(b), 0, 0, 0, out) == Some(out + b)
    decreases |b|
  {
    if b == [] {
      assert out + b == out;
    } else if |b| == 1 {
      ScanOneByte(b[0], out);
      assert b == [b[0]];
      assert Padded(b) == [Symbol(b[0] / 4), Symbol(b[0] % 4 * 16)] + "==";
    } else if |b| == 2 {
      ScanTwoBytes(b[0], b[1], "=", 0, out);
      assert b == [b[0], b[1]];
      assert Padded(b) == [Symbol(b[0] / 4), Symbol(b[0] % 4 * 16 + b[1] / 16), Symbol(b[1] % 16 * 4 + 0)] + "=";
      assert Scan("=", 3, 0, 0, out + b) == Some(out + b);
    } else {
      ScanGroup(b[0], b[1], b[2], Padded(b[3..]), out);
      ScanPadded(b[3..], out + [b[0], b[1], b[2]]);
      assert out + [b[0], b[1], b[2]] + b[3..] == out + b;
    }
  }

  /** One spelling for every byte string, and no other string is accepted. */
  lemma CanonicalExact(s: string, b: seq<byte>)
    ensures Canonical(s) == Some(b) <==> s == Encode(b)
  {
    EncodeIsUnpadded(b);
    UnpaddedShape(b);
    PaddedShape(b);
    ScanPadded(b, []);
    assert [] + b == b;
  }

  /** `decode` succeeds with `b` exactly on the canonical spelling of `b`, when the
      length is the one asked for and the spelling is at most 128 characters. */
  lemma DecodeExact(s: string, size: nat, b: seq<byte>)
    ensures Decode(s, size) == Some(b) <==> |s| <= 128 && |b| == size && s == Encode(b)
  {
    CanonicalExact(s, b);
  }

  /** `encode` loses nothing. */
  lemma EncodeInjective(a: seq<byte>, b: seq<byte>)
    ensures Encode(a) == Encode(b) <==> a == b
  {
    CanonicalExact(Encode(a), a);
    CanonicalExact(Encode(a), b);
  }

  /** Every value of at most 96 bytes survives the round trip; longer ones are refused
      because of their length alone. */
  lemma RoundTrip(b: seq<byte>)
    ensures Decode(Encode(b), |b|) == if |b| <= 96 then Some(b) else None
  {
    EncodeIsUnpadded(b);
    DecodeExact(Encode(b), |b|, b);
    if |b| > 96 { assert |Encode(b)| > 128; }
  }

  /** The byte at `k`, or zero behind the end. */
  function Octet(b: seq<byte>, k: nat): byte { if k < |b| then b[k] else 0 }

  /** The six bits from bit 6`i` on, out of the sixteen bits of the two bytes they lie in;
      zeros follow the end. */
  function SixBits(b: seq<byte>, i: nat): sextet {
    var two := 256 * Octet(b, 6 * i / 8) + Octet(b, 6 * i / 8 + 1);
    var from := 6 * i % 8;
    if from == 0 then two / 1024
    else if from == 2 then two / 256 % 64
    else if from == 4 then two / 64 % 64
    else two / 16 % 64
  }

  const UPPER := "ABCDEFGHIJKLMNOPQRSTUVWXYZ"
  const LOWER := "abcdefghijklmnopqrstuvwxyz"
  const DIGITS := "0123456789"

  /** RFC 4648 table 2. */
  const ALPHABET := UPPER + LOWER + DIGITS + "-_"

  lemma UpperCase(x: sextet)
    requires x < 26
    ensures |UPPER| == 26 && UPPER[x] == Symbol(x)
  {}

  lemma LowerCase(x: sextet)
    requires 26 <= x < 52
    ensures |LOWER| == 26 && LOWER[x - 26] == Symbol(x)
  {}

  lemma SymbolIs(x: sextet)
    ensures |ALPHABET| == 64 && ALPHABET[x] == Symbol(x)
  {
    if x < 26 { UpperCase(x); } else if x < 52 { LowerCase(x); }
  }

  lemma SixBitsOfRest(b: seq<byte>, i: nat)
    requires |b| >= 3
    ensures SixBits(b[3..], i) == SixBits(b, i + 4)
  {
    assert 6 * (i + 4) / 8 == 6 * i / 8 + 3;
    forall k: nat ensures Octet(b[3..], k) == Octet(b, k + 3) {}
  }

  lemma OutOfTwo(x: byte, y: byte)
    ensures (256 * x + y) / 1024 == x / 4 && (256 * x + y) / 256 == x
  {
  }

  lemma SixteenApart(x: byte, y: byte)
    ensures (256 * x + y) / 16 % 64 == x % 4 * 16 + y / 16
  {
    assert (256 * x + y) / 16 == 64 * (x / 4) + (x % 4 * 16 + y / 16);
  }

  lemma SixtyFourApart(x: byte, y: byte)
    ensures (256 * x + y) / 64 % 64 == x % 16 * 4 + y / 64
  {
    assert (256 * x + y) / 64 == 64 * (x / 16) + (x % 16 * 4 + y / 64);
  }

  lemma FirstSixBits(b: seq<byte>)
    ensures SixBits(b, 0) == Octet(b, 0) / 4 && SixBits(b, 1) == Octet(b, 0) % 4 * 16 + Octet(b, 1) / 16
    ensures SixBits(b, 2) == Octet(b, 1) % 16 * 4 + Octet(b, 2) / 64 && SixBits(b, 3) == Octet(b, 2) % 64
  {
    OutOfTwo(Octet(b, 0), Octet(b, 1));
    SixteenApart(Octet(b, 0), Octet(b, 1));
    SixtyFourApart(Octet(b, 1), Octet(b, 2));
    OutOfTwo(Octet(b, 2), Octet(b, 3));
  }

  /** The first four sextets by bytes. */
  function Quarter(b: seq<byte>, i: nat): sextet {
    if i == 0 then Octet(b, 0) / 4
    else if i == 1 then Octet(b, 0) % 4 * 16 + Octet(b, 1) / 16
    else if i == 2 then Octet(b, 1) % 16 * 4 + Octet(b, 2) / 64
    else Octet(b, 2) % 64
  }

  lemma UnpaddedQuarter(b: seq<byte>, i: nat)
    requires i < 4 && i < |Unpadded(b)|
    ensures Unpadded(b)[i] == Symbol(Quarter(b, i))
  {
  }

  lemma FirstSymbols(b: seq<byte>, i: nat)
    requires i < 4 && i < |Unpadded(b)|
    ensures Unpadded(b)[i] == Symbol(SixBits(b, i))
  {
    UnpaddedQuarter(b, i);
    FirstSixBits(b);
  }

  lemma {:induction false} UnpaddedSymbol(b: seq<byte>, i: nat)
    requires i < |Unpadded(b)|
    ensures Unpadded(b)[i] == Symbol(SixBits(b, i))
    decreases |b|
  {
    if i < 4 {
      FirstSymbols(b, i);
    } else {
      UnpaddedSymbol(b[3..], i - 4);
      SixBitsOfRest(b, i - 4);
    }
  }

  /** Symbol `i` of an encoding is the one that the table has for the six bits from bit
      6`i` of the bytes on. */
  lemma EncodedSymbol(b: seq<byte>, i: nat)
    requires i < |Encode(b)|
    ensures |ALPHABET| == 64 && Encode(b)[i] == ALPHABET[SixBits(b, i)]
  {
    EncodeIsUnpadded(b);
    UnpaddedSymbol(b, i);
    SymbolIs(SixBits(b, i));
  }
}
