/** Byte strings, exclusive or, little-endian integers and the error values of the wire codec.
    Bytes and words are integers in range; every wrap-around is written out. */
module Bytes {
  type Byte = b: int | 0 <= b < 256
  type Word = w: int | 0 <= w < 0x1_0000_0000

  datatype Error = TeaBadInput | TeaBadPadding | PacketShort | BadMsgKey | BadCrc | GzipUnsupported

  datatype Result<+T> = Ok(value: T) | Err(error: Error)

  // ---------------------------------------------------------------- exclusive or

  /** Exclusive or of two numbers, bit by bit from the lowest. */
  function XorNat(a: nat, b: nat): nat
    decreases a + b
  {
    if a == 0 && b == 0 then 0 else (a + b) % 2 + 2 * XorNat(a / 2, b / 2)
  }

  function Pow2(n: nat): nat {
    if n == 0 then 1 else 2 * Pow2(n - 1)
  }

  lemma {:induction false} XorNatBelow(a: nat, b: nat, n: nat)
    requires a < Pow2(n) && b < Pow2(n)
    ensures XorNat(a, b) < Pow2(n)
  {
    if n > 0 {
      XorNatBelow(a / 2, b / 2, n - 1);
    }
  }

  lemma {:induction false} XorNatCancels(a: nat, b: nat)
    ensures XorNat(XorNat(a, b), b) == a
    decreases a + b
  {
    if a != 0 || b != 0 {
      var y := XorNat(a / 2, b / 2);
      LowBit((a + b) % 2, y);
      Parity(a, b, y);
      if b == 0 {
        XorNatZero(a);
      } else {
        assert XorNat(XorNat(a, b), b) == a % 2 + 2 * XorNat(y, b / 2);
      }
      XorNatCancels(a / 2, b / 2);
    }
  }

  lemma LowBit(r: nat, y: nat)
    requires r < 2
    ensures (r + 2 * y) % 2 == r && (r + 2 * y) / 2 == y
  {}

  lemma Parity(a: nat, b: nat, y: nat)
    ensures ((a + b) % 2 + 2 * y + b) % 2 == a % 2
  {
    LowBit((a + b) % 2, y + b / 2);
  }

  lemma {:induction false} XorNatZero(a: nat)
    ensures XorNat(a, 0) == a
  {
    if a != 0 {
      XorNatZero(a / 2);
    }
  }

  function XorByte(a: Byte, b: Byte): Byte {
    XorByteRange(a, b);
    XorNat(a, b)
  }

  function XorWord(a: Word, b: Word): Word {
    XorWordRange(a, b);
    XorNat(a, b)
  }

  lemma XorByteRange(a: Byte, b: Byte)
    ensures XorNat(a, b) < 0x100
  {
    assert Pow2(8) == 0x100;
    XorNatBelow(a, b, 8);
  }

  lemma XorWordRange(a: Word, b: Word)
    ensures XorNat(a, b) < 0x1_0000_0000
  {
    assert Pow2(8) == 0x100;
    assert Pow2(16) == 0x1_0000;
    assert Pow2(24) == 0x100_0000;
    assert Pow2(32) == 0x1_0000_0000;
    XorNatBelow(a, b, 32);
  }

  function Xor(a: seq<Byte>, b: seq<Byte>): (x: seq<Byte>)
    requires |a| == |b|
    ensures |x| == |a|
  {
    seq(|a|, i requires 0 <= i < |a| => XorByte(a[i], b[i]))
  }

  lemma XorCancels(a: seq<Byte>, b: seq<Byte>)
    requires |a| == |b|
    ensures Xor(Xor(a, b), b) == a
  {
    forall i | 0 <= i < |a| ensures Xor(Xor(a, b), b)[i] == a[i] {
      XorNatCancels(a[i], b[i]);
    }
  }

  function Zeros(n: nat): (z: seq<Byte>)
    ensures |z| == n && forall i :: 0 <= i < n ==> z[i] == 0
  {
    seq(n, _ => 0)
  }

  lemma XorZeros(a: seq<Byte>)
    ensures Xor(a, Zeros(|a|)) == a
  {
    forall i | 0 <= i < |a| ensures Xor(a, Zeros(|a|))[i] == a[i] {
      XorNatZero(a[i]);
    }
  }

  // ---------------------------------------------------------------- 32-bit arithmetic

  function Plus(a: Word, b: Word): Word {
    (a + b) % 0x1_0000_0000
  }

  function Minus(a: Word, b: Word): Word {
    (a - b) % 0x1_0000_0000
  }

  lemma PlusMinus(a: Word, b: Word)
    ensures Minus(Plus(a, b), b) == a && Plus(Minus(a, b), b) == a
  {}

  // ---------------------------------------------------------------- little-endian fields

  function Word32(b: seq<Byte>): Word
    requires |b| == 4
  {
    b[0] as int + 0x100 * (b[1] as int) + 0x1_0000 * (b[2] as int) + 0x100_0000 * (b[3] as int)
  }

  function Bytes32(w: Word): (b: seq<Byte>)
    ensures |b| == 4
  {
    var q1: int, q2: int, q3: int := w / 0x100, w / 0x1_0000, w / 0x100_0000;
    [w % 0x100, q1 % 0x100, q2 % 0x100, q3]
  }

  lemma Word32OfBytes32(w: Word)
    ensures Word32(Bytes32(w)) == w
  {
    var q1, q2 := w / 0x100, w / 0x1_0000;
    assert q1 / 0x100 == q2 && q2 / 0x100 == w / 0x100_0000;
  }

  lemma Bytes32OfWord32(b: seq<Byte>)
    requires |b| == 4
    ensures Bytes32(Word32(b)) == b
  {
    Digits(b[0], b[1], b[2], b[3]);
  }

  lemma LowDigit(r: int, q: int)
    requires 0 <= r < 0x100
    ensures (r + 0x100 * q) % 0x100 == r && (r + 0x100 * q) / 0x100 == q
  {}

  lemma Digits(a: int, b: int, c: int, d: int)
    requires 0 <= a < 256 && 0 <= b < 256 && 0 <= c < 256 && 0 <= d < 256
    ensures var w := a + 0x100 * b + 0x1_0000 * c + 0x100_0000 * d;
            && w % 0x100 == a && w / 0x100 % 0x100 == b && w / 0x1_0000 % 0x100 == c && w / 0x100_0000 == d
  {
    LowDigit(a, b + 0x100 * c + 0x1_0000 * d);
    LowDigit(b, c + 0x100 * d);
    LowDigit(c, d);
    Quotients(a + 0x100 * b + 0x1_0000 * c + 0x100_0000 * d);
  }

  lemma Quotients(w: int)
    ensures w / 0x1_0000 == w / 0x100 / 0x100 && w / 0x100_0000 == w / 0x1_0000 / 0x100
  {}

  /** The low 16 bits of a number, as Go's uint16 conversion keeps them. */
  function Bytes16(n: nat): (b: seq<Byte>)
    ensures |b| == 2
  {
    var q: int := n / 0x100;
    [n % 0x100, q % 0x100]
  }

  function Word16(b: seq<Byte>): (n: nat)
    requires |b| == 2
    ensures n < 0x1_0000
  {
    b[0] as int + 0x100 * (b[1] as int)
  }

  lemma Word16OfBytes16(n: nat)
    ensures Word16(Bytes16(n)) == n % 0x1_0000
  {
    var q, r := n / 0x100, n % 0x100;
    assert n == 0x1_0000 * (q / 0x100) + 0x100 * (q % 0x100) + r;
  }
}
