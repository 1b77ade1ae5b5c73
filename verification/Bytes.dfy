/** Byte strings and the 32-bit fields of Python's `struct` module. */
module Bytes {
  type byte = b: int | 0 <= b < 256
  type bytes = seq<byte>

  const U32_LIMIT := 0x1_0000_0000
  type u32 = n: int | 0 <= n < U32_LIMIT

  function Reverse4(b: bytes): (r: bytes)
    requires |b| == 4
    ensures |r| == 4
  {
    [b[3], b[2], b[1], b[0]]
  }

  function LittleEndian(n: u32): (b: bytes)
    ensures |b| == 4
  {
    [n % 256, n / 0x100 % 256, n / 0x1_0000 % 256, n / 0x100_0000]
  }

  /** struct.pack('<I') or struct.pack('>I') of a number in range. */
  function Pack(n: u32, little: bool): (b: bytes)
    ensures |b| == 4
  {
    if little then LittleEndian(n) else Reverse4(LittleEndian(n))
  }

  /** struct.unpack of one 32-bit field. */
  function Unpack(b: bytes, little: bool): u32
    requires |b| == 4
  {
    var d := if little then b else Reverse4(b);
    var b0: int, b1: int, b2: int, b3: int := d[0], d[1], d[2], d[3];
    b0 + 0x100 * b1 + 0x1_0000 * b2 + 0x100_0000 * b3
  }

  lemma LittleEndianDigits(n: u32)
    ensures n == n % 256 + 0x100 * (n / 0x100 % 256) + 0x1_0000 * (n / 0x1_0000 % 256) + 0x100_0000 * (n / 0x100_0000)
  {
    var q1 := n / 0x100;
    var q2 := n / 0x1_0000;
    assert q2 == q1 / 256;
    assert n / 0x100_0000 == q2 / 256;
  }

  lemma UnpackPack(n: u32, little: bool)
    ensures Unpack(Pack(n, little), little) == n
  {
    LittleEndianDigits(n);
  }

  lemma PackUnpack(b: bytes, little: bool)
    requires |b| == 4
    ensures Pack(Unpack(b, little), little) == b
  {
    var d := if little then b else Reverse4(b);
    var n := Unpack(b, little);
    var b0: int, b1: int, b2: int, b3: int := d[0], d[1], d[2], d[3];
    DigitsOf(b0, b1, b2, b3);
    assert LittleEndian(n) == d;
  }

  lemma DigitsOf(b0: byte, b1: byte, b2: byte, b3: byte)
    ensures var n: int := b0 + 0x100 * b1 + 0x1_0000 * b2 + 0x100_0000 * b3;
            && n % 256 == b0 && n / 0x100 % 256 == b1 && n / 0x1_0000 % 256 == b2 && n / 0x100_0000 == b3
  {
    var high: int := b2 + 256 * b3;
    var upper: int := b1 + 256 * high;
    var n: int := b0 + 256 * upper;
    assert n / 256 == upper && n % 256 == b0;
    assert upper / 256 == high && upper % 256 == b1;
    assert n / 0x1_0000 == high;
    assert n / 0x100_0000 == b3;
  }

  /** The number reads the same in both byte orders. */
  predicate Symmetric(n: u32) {
    Pack(n, true) == Pack(n, false)
  }

  lemma SymmetricIff(n: u32, little: bool)
    ensures Symmetric(n) <==> Unpack(Pack(n, !little), little) == n
  {
    var foreign := Pack(n, !little);
    UnpackPack(n, little);
    PackUnpack(foreign, little);
  }
}
