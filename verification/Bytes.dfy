/** Bytes, big-endian integers and exclusive or, shared by the binary formats. */
module Bytes {
  type byte = x: int | 0 <= x < 0x100
  type uint16 = x: int | 0 <= x < 0x1_0000
  type uint32 = x: int | 0 <= x < 0x1_0000_0000

  /** binary.BigEndian.PutUint16. */
  function U16(n: uint16): (b: seq<byte>)
    ensures |b| == 2 && ToU16(b) == n
  {
    [n / 0x100, n % 0x100]
  }

  function ToU16(b: seq<byte>): uint16
    requires |b| == 2
  {
    b[0] as int * 0x100 + b[1] as int
  }

  /** binary.BigEndian.PutUint32. */
  function U32(n: uint32): (b: seq<byte>)
    ensures |b| == 4 && ToU32(b) == n
  {
    U16(n / 0x1_0000) + U16(n % 0x1_0000)
  }

  function ToU32(b: seq<byte>): uint32
    requires |b| == 4
  {
    ToU16(b[..2]) * 0x1_0000 + ToU16(b[2..])
  }

  function Zeros(n: nat): (b: seq<byte>)
    ensures |b| == n && forall i :: 0 <= i < n ==> b[i] == 0
  {
    seq(n, i => 0)
  }

  function Pow2(k: nat): (p: nat)
    ensures p > 0
  {
    if k == 0 then 1 else 2 * Pow2(k - 1)
  }

  /** The bitwise exclusive or of the low `bits` bits of a and b. */
  function Xor(a: nat, b: nat, bits: nat): (x: nat)
    ensures x < Pow2(bits)
  {
    if bits == 0 then 0 else 2 * Xor(a / 2, b / 2, bits - 1) + (a + b) % 2
  }

  lemma LastBit(a: nat, b: nat, y: nat)
    ensures var x := 2 * y + (a + b) % 2; x / 2 == y && (x + b) % 2 == a % 2
  {
  }

  lemma XorStep(a: nat, b: nat, half: nat, bits: nat)
    requires Xor(Xor(a / 2, b / 2, bits), b / 2, bits) == half && half == a / 2
    ensures Xor(Xor(a, b, bits + 1), b, bits + 1) == a
  {
    var x := Xor(a, b, bits + 1);
    LastBit(a, b, Xor(a / 2, b / 2, bits));
    assert x / 2 == Xor(a / 2, b / 2, bits) && (x + b) % 2 == a % 2;
    assert a == 2 * (a / 2) + a % 2;
  }

  lemma {:induction false} XorTwice(a: nat, b: nat, bits: nat)
    requires a < Pow2(bits)
    ensures Xor(Xor(a, b, bits), b, bits) == a
  {
    if bits > 0 {
      assert a / 2 < Pow2(bits - 1);
      XorTwice(a / 2, b / 2, bits - 1);
      XorStep(a, b, a / 2, bits - 1);
    }
  }

  function XorByte(a: byte, b: byte): byte {
    assert Pow2(8) == 0x100;
    Xor(a, b, 8)
  }

  function XorU16(a: uint16, b: uint16): uint16 {
    Pow2Values();
    Xor(a, b, 16)
  }

  function XorU32(a: uint32, b: uint32): uint32 {
    Pow2Values();
    Xor(a, b, 32)
  }

  lemma Pow2Values()
    ensures Pow2(8) == 0x100 && Pow2(16) == 0x1_0000 && Pow2(32) == 0x1_0000_0000
  {
    assert Pow2(8) == 0x100;
    assert Pow2(12) == 0x10 * Pow2(8) && Pow2(16) == 0x10 * Pow2(12);
    assert Pow2(20) == 0x10 * Pow2(16) && Pow2(24) == 0x10 * Pow2(20);
    assert Pow2(28) == 0x10 * Pow2(24) && Pow2(32) == 0x10 * Pow2(28);
  }

  lemma XorByteTwice(a: byte, b: byte)
    ensures XorByte(XorByte(a, b), b) == a
  {
    Pow2Values();
    XorTwice(a, b, 8);
  }

  lemma XorU16Twice(a: uint16, b: uint16)
    ensures XorU16(XorU16(a, b), b) == a
  {
    Pow2Values();
    XorTwice(a, b, 16);
  }

  /** The order of numbers is the order of their bytes, the first byte first. */
  lemma BigEndian(m: uint16, n: uint16)
    ensures m < n <==> U16(m)[0] < U16(n)[0] || (U16(m)[0] == U16(n)[0] && U16(m)[1] < U16(n)[1])
  {
  }

  /** The magic cookie of section 6 of RFC 5389 as it goes over the wire. */
  lemma CookieBytes()
    ensures U16(0x2112) == [0x21, 0x12] && U32(0x2112A442) == [0x21, 0x12, 0xA4, 0x42]
  {
  }

  /** The k-th binary digit, from the right. */
  function Bit(n: nat, k: nat): nat {
    if k == 0 then n % 2 else Bit(n / 2, k - 1)
  }

  /** Each bit of an exclusive or is set exactly when it is set in one of the two. */
  lemma {:induction false} XorBit(a: nat, b: nat, bits: nat, k: nat)
    requires k < bits
    ensures Bit(Xor(a, b, bits), k) == 1 <==> Bit(a, k) != Bit(b, k)
  {
    var half := Xor(a / 2, b / 2, bits - 1);
    LastBit(a, b, half);
    if k > 0 {
      XorBit(a / 2, b / 2, bits - 1, k - 1);
    }
  }
}
