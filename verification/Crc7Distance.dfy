/** Two flipped bits: the checksum of match-server/crypto/crc7.go misses them exactly when their distance is a
    multiple of 127, which is the order of x modulo x^7 + x^3 + 1. */
module Crc7Distance {
  import opened Bytes
  import opened Crc7

  /** The register moved on over clear bits. */
  function Turn(r: Register, n: nat): Register {
    if n == 0 then r else Shift(Turn(r, n - 1), false)
  }

  lemma {:induction false} TurnAdds(r: Register, a: nat, b: nat)
    ensures Turn(r, a + b) == Turn(Turn(r, a), b)
  {
    hide Shift;
    if b > 0 {
      TurnAdds(r, a, b - 1);
    }
  }

  lemma {:induction false} TurnIsRun(r: Register, n: nat)
    ensures Run(r, Clear(n)) == Turn(r, n)
  {
    hide Shift;
    if n > 0 {
      TurnIsRun(r, n - 1);
      assert Clear(n)[..n - 1] == Clear(n - 1);
    }
  }

  // ---------------------------------------------------------------- the order of x

  lemma TurnOnce(r: Register)
    ensures Turn(r, 1) == Shift(r, false)
  {
    hide Shift;
    assert Turn(r, 0) == r;
  }


  lemma Turn2(r: Register)
    ensures Turn(r, 2) == [r[2], r[3], r[0] != r[4], r[1] != r[5], r[6], r[0], r[1]]
  {
    hide Turn;
    TurnAdds(r, 1, 1);
    TurnOnce(r);
    TurnOnce(Turn(r, 1));
  }

  lemma Turn4(r: Register)
    ensures Turn(r, 4) == [r[0] != r[4], r[1] != r[5], r[2] != r[6], r[0] != r[3], r[1], r[2], r[3]]
  {
    hide Turn;
    TurnAdds(r, 2, 2);
    Turn2(r);
    Turn2(Turn(r, 2));
  }

  lemma Turn8(r: Register)
    ensures Turn(r, 8) == [(r[0] != r[1]) != r[4], (r[1] != r[2]) != r[5], (r[2] != r[3]) != r[6], r[3] != r[4], r[1] != r[5], r[2] != r[6], r[0] != r[3]]
  {
    hide Turn;
    TurnAdds(r, 4, 4);
    Turn4(r);
    Turn4(Turn(r, 4));
  }

  lemma Turn16(r: Register)
    ensures Turn(r, 16) == [((r[0] != r[1]) != r[2]) != r[4], ((r[1] != r[2]) != r[3]) != r[5], (((r[0] != r[2]) != r[3]) != r[4]) != r[6], ((r[1] != r[3]) != r[4]) != r[5], (r[1] != r[5]) != r[6], (r[0] != r[2]) != r[6], (r[0] != r[1]) != r[3]]
  {
    hide Turn;
    TurnAdds(r, 8, 8);
    Turn8(r);
    Turn8(Turn(r, 8));
  }

  lemma Turn32(r: Register)
    ensures Turn(r, 32) == [r[1] != r[2], r[2] != r[3], (r[0] != r[3]) != r[4], ((r[0] != r[1]) != r[4]) != r[5], r[5] != r[6], r[0] != r[6], r[0] != r[1]]
  {
    hide Turn;
    TurnAdds(r, 16, 16);
    Turn16(r);
    Turn16(Turn(r, 16));
  }

  lemma Turn64(r: Register)
    ensures Turn(r, 64) == [(r[0] != r[2]) != r[4], (r[1] != r[3]) != r[5], ((r[0] != r[2]) != r[4]) != r[6], ((r[0] != r[1]) != r[3]) != r[5], r[1] != r[6], r[0] != r[2], r[1] != r[3]]
  {
    hide Turn;
    TurnAdds(r, 32, 32);
    Turn32(r);
    Turn32(Turn(r, 32));
  }

  lemma Turn128(r: Register)
    ensures Turn(r, 128) == [r[1], r[2], r[3], r[0] != r[4], r[5], r[6], r[0]]
  {
    hide Turn;
    TurnAdds(r, 64, 64);
    Turn64(r);
    Turn64(Turn(r, 64));
  }

  lemma ShiftIsInjective(r: Register, s: Register)
    requires Shift(r, false) == Shift(s, false)
    ensures r == s
  {
    var x, y := Shift(r, false), Shift(s, false);
    assert x[0] == y[0] && x[1] == y[1] && x[2] == y[2] && x[3] == y[3] && x[4] == y[4] && x[5] == y[5] && x[6] == y[6];
  }

  /** After 127 clear bits the register is what it was: seven squarings give x^128 = x. */
  lemma FullTurn(r: Register)
    ensures Turn(r, 127) == r
  {
    hide Shift, Turn;
    Turn128(r);
    TurnAdds(r, 127, 1);
    TurnOnce(Turn(r, 127));
    ShiftForm(r);
    ShiftIsInjective(Turn(r, 127), r);
  }

  lemma ShiftForm(r: Register)
    ensures Shift(r, false) == [r[1], r[2], r[3], r[0] != r[4], r[5], r[6], r[0]]
  {}

  /** Only the empty register stays as it is. */
  lemma OneTurn(r: Register)
    requires Turn(r, 1) == r
    ensures r == ZERO
  {
    hide Turn;
    TurnOnce(r);
    var s := Shift(r, false);
    assert s[0] == r[0] && s[1] == r[1] && s[2] == r[2] && s[3] == r[3] && s[4] == r[4] && s[5] == r[5] && s[6] == r[6];
  }

  lemma {:induction false} Periods(r: Register, a: nat, q: nat, c: nat)
    requires Turn(r, a) == r
    ensures Turn(r, a * q + c) == Turn(r, c)
  {
    hide Turn;
    if q > 0 {
      assert a * q + c == a + (a * (q - 1) + c);
      TurnAdds(r, a, a * (q - 1) + c);
      Periods(r, a, q - 1, c);
    }
  }

  /** Periods may be subtracted. */
  lemma Reduce(r: Register, a: nat, b: nat)
    requires a > 0 && Turn(r, a) == r && Turn(r, b) == r
    ensures Turn(r, b % a) == r
  {
    hide Turn;
    assert b == a * (b / a) + b % a;
    Periods(r, a, b / a, b % a);
  }

  /** The greatest common divisor, by Euclid's algorithm. */
  function Gcd(a: nat, b: nat): nat
    decreases b
  {
    if b == 0 then a else Gcd(b, a % b)
  }

  lemma {:induction false} CommonPeriod(r: Register, a: nat, b: nat)
    requires Turn(r, a) == r && Turn(r, b) == r
    ensures Turn(r, Gcd(a, b)) == r
    decreases b
  {
    hide Turn;
    if b > 0 {
      Reduce(r, b, a);
      CommonPeriod(r, b, a % b);
    }
  }

  ghost predicate Divides(g: nat, n: nat) {
    exists q: nat :: g * q == n
  }

  lemma {:induction false} GcdDivides(a: nat, b: nat)
    ensures Divides(Gcd(a, b), a) && Divides(Gcd(a, b), b)
    decreases b
  {
    if b == 0 {
      assert a * 1 == a && a * 0 == 0;
    } else {
      GcdDivides(b, a % b);
      var g := Gcd(b, a % b);
      var p: nat :| g * p == b;
      var q: nat :| g * q == a % b;
      Recombined(g, p, q, a, b);
    }
  }

  lemma Recombined(g: nat, p: nat, q: nat, a: nat, b: nat)
    requires b > 0 && g * p == b && g * q == a % b
    ensures Divides(g, a)
  {
    var k: nat := a / b;
    assert a == b * k + a % b;
    assert g * (p * k + q) == a by {
      assert g * (p * k + q) == (g * p) * k + g * q;
    }
  }

  /** 127 is prime. */
  lemma Prime(g: nat, q: nat)
    requires g * q == 127
    ensures g == 1 || g == 127
  {
    if g <= 11 {
      SmallFactor(g, q);
    } else if q <= 11 {
      SmallFactor(q, g);
    } else {
      LargeProduct(g, q);
    }
  }

  lemma SmallFactor(g: nat, q: nat)
    requires g * q == 127 && g <= 11
    ensures g == 1 && q == 127
  {
    if g == 0 {
    } else if g == 1 {
    } else if g == 2 {
    } else if g == 3 {
    } else if g == 4 {
    } else if g == 5 {
    } else if g == 6 {
    } else if g == 7 {
    } else if g == 8 {
    } else if g == 9 {
    } else if g == 10 {
    } else {
    }
  }

  lemma LargeProduct(g: nat, q: nat)
    requires g >= 12 && q >= 12
    ensures g * q >= 144
  {
    assert g * q >= 12 * q;
  }

  lemma {:induction false} WholeTurns(r: Register, n: nat)
    requires n % 127 == 0
    ensures Turn(r, n) == r
  {
    hide Turn;
    if n > 0 {
      FullTurn(r);
      TurnAdds(r, 127, n - 127);
      WholeTurns(r, n - 127);
    } else {
      NoTurn(r);
    }
  }

  lemma NoTurn(r: Register)
    ensures Turn(r, 0) == r
  {}

  /** The order of x is 127: a register that is not empty comes back after multiples of it, and only then. */
  lemma OrderOfX(r: Register, n: nat)
    requires r != ZERO
    ensures Turn(r, n) == r <==> n % 127 == 0
  {
    hide Turn;
    if n % 127 == 0 {
      WholeTurns(r, n);
    } else if Turn(r, n) == r {
      FullTurn(r);
      Reduce(r, 127, n);
      var d := n % 127;
      CommonPeriod(r, 127, d);
      GcdDivides(127, d);
      CoprimeTo127(d);
      OneTurn(r);
    }
  }

  lemma CoprimeTo127(d: nat)
    requires 0 < d < 127 && Divides(Gcd(127, d), 127) && Divides(Gcd(127, d), d)
    ensures Gcd(127, d) == 1
  {
    hide Gcd;
    var g := Gcd(127, d);
    var q: nat :| g * q == 127;
    var k: nat :| g * k == d;
    Prime(g, q);
    FactorIsLess(g, k, d);
  }

  lemma FactorIsLess(g: nat, k: nat, d: nat)
    requires g * k == d && d > 0
    ensures g <= d
  {
    if k > 0 {
      assert g * k >= g;
    }
  }

  // ---------------------------------------------------------------- two flipped bits

  /** An error in two places. */
  function TwoErrors(n: nat, i: nat, j: nat): (e: Bits)
    requires i < j < n
    ensures |e| == n
  {
    seq(n, k requires 0 <= k < n => k == i || k == j)
  }

  function Flipped(m: Bits, i: nat): (f: Bits)
    requires i < |m|
    ensures |f| == |m|
  {
    m[i := !m[i]]
  }

  lemma TwoErrorsSplit(n: nat, i: nat, j: nat)
    requires i < j < n
    ensures TwoErrors(n, i, j) == Clear(i) + [true] + Clear(j - i - 1) + [true] + Clear(n - j - 1)
  {}

  lemma RunOfTwo(n: nat, i: nat, j: nat)
    requires i < j < n
    ensures Run(ZERO, TwoErrors(n, i, j)) == ZERO <==> (j - i) % 127 == 0
  {
    hide Run, Shift, Turn, TwoErrors, Clear;
    var d: nat := j - i - 1;
    var one := Shift(ZERO, true);
    TwoErrorsSplit(n, i, j);
    RunConcat(ZERO, Clear(i) + [true] + Clear(d) + [true], Clear(n - j - 1));
    RunConcat(ZERO, Clear(i) + [true] + Clear(d), [true]);
    RunConcat(ZERO, Clear(i) + [true], Clear(d));
    RunConcat(ZERO, Clear(i), [true]);
    RunOfClear(ZERO, i);
    RunOfBit(ZERO);
    TurnIsRun(one, d);
    RunOfBit(Turn(one, d));
    RunOfClear(Shift(Turn(one, d), true), n - j - 1);
    OneMoreTurn(one, d);
    SecondBit(Turn(one, d));
    OneIsSomething();
    OrderOfX(one, d + 1);
  }

  lemma RunOfBit(r: Register)
    ensures Run(r, [true]) == Shift(r, true)
  {
    hide Shift;
    assert [true][..0] == [];
    assert Run(r, []) == r;
  }

  lemma OneMoreTurn(r: Register, d: nat)
    ensures Turn(r, d + 1) == Shift(Turn(r, d), false)
  {}

  /** The second bit clears the register exactly when it meets what the first one left. */
  lemma SecondBit(r: Register)
    ensures Shift(r, true) == ZERO <==> Shift(r, false) == Shift(ZERO, true)
  {
    var x, y, u := Shift(r, true), Shift(r, false), Shift(ZERO, true);
    if x == ZERO {
      assert x[0] == x[1] == x[2] == x[3] == x[4] == x[5] == x[6] == false;
    }
    if y == u {
      assert y[0] == u[0] && y[1] == u[1] && y[2] == u[2] && y[3] == u[3] && y[4] == u[4] && y[5] == u[5] && y[6] == u[6];
    }
  }

  lemma OneIsSomething()
    ensures Shift(ZERO, true) != ZERO
  {
    assert Shift(ZERO, true)[6] != ZERO[6];
  }

  /** Two flipped bits go unnoticed exactly when their distance is a multiple of 127. */
  lemma DistanceDetection(r: Register, m: Bits, i: nat, j: nat)
    requires i < j < |m|
    ensures Run(r, Flipped(Flipped(m, i), j)) == Run(r, m) <==> (j - i) % 127 == 0
  {
    hide Run;
    var e := TwoErrors(|m|, i, j);
    assert XorBits(m, e) == Flipped(Flipped(m, i), j);
    NoDifference(r, ZERO);
    RunIsLinear(r, ZERO, m, e);
    NoDifference(Run(r, m), Run(ZERO, e));
    RunOfTwo(|m|, i, j);
  }

  // ---------------------------------------------------------------- bytes

  /** The n-th bit of a byte string, the highest of its byte first. */
  function FlipBit(buf: seq<Byte>, n: nat): (f: seq<Byte>)
    requires n < 8 * |buf|
    ensures |f| == |buf|
  {
    EightBits(n % 8);
    buf[n / 8 := XorByte(buf[n / 8], Pow2(7 - n % 8))]
  }

  lemma EightBits(k: nat)
    requires k < 8
    ensures 0 < Pow2(7 - k) < 256
  {
    SevenBits();
    PowersGrow(7 - k, 7);
  }

  lemma {:induction false} PowersGrow(a: nat, b: nat)
    requires a <= b
    ensures 0 < Pow2(a) <= Pow2(b)
  {
    if a < b {
      PowersGrow(a, b - 1);
    } else if a > 0 {
      PowersGrow(a - 1, b - 1);
    }
  }

  lemma {:induction false} NoBits(width: nat)
    ensures BitsOf(0, width) == Clear(width)
  {
    if width > 0 {
      NoBits(width - 1);
    }
  }

  lemma {:induction false} OneBit(n: nat, width: nat)
    requires n < width
    ensures BitsOf(Pow2(n), width) == Clear(width)[width - 1 - n := true]
  {
    if n == 0 {
      NoBits(width - 1);
      assert BitsOf(1, width) == BitsOf(0, width - 1) + [true];
    } else {
      OneBit(n - 1, width - 1);
      HalfOf(Pow2(n - 1));
      assert BitsOf(Pow2(n), width) == BitsOf(Pow2(n - 1), width - 1) + [false];
    }
  }

  lemma HalfOf(n: nat)
    ensures 2 * n / 2 == n && 2 * n % 2 == 0
  {}

  /** Flipping a bit of the bytes flips that bit of the message. */
  lemma MessageFlipped(buf: seq<Byte>, n: nat)
    requires n < 8 * |buf|
    ensures MessageBits(FlipBit(buf, n)) == Flipped(MessageBits(buf), n)
  {
    hide XorByte, Pow2, MessageBits, Flipped;
    EightBits(n % 8);
    ByteFlipped(buf, n / 8, n % 8);
    assert 8 * (n / 8) + n % 8 == n;
  }

  lemma ByteFlipped(buf: seq<Byte>, i: nat, k: nat)
    requires i < |buf| && k < 8 && 0 < Pow2(7 - k) < 256
    ensures MessageBits(buf[i := XorByte(buf[i], Pow2(7 - k))]) == Flipped(MessageBits(buf), 8 * i + k)
  {
    hide BitsOf, XorNat, Pow2, MessageBits, Flipped, Clear;
    var bad := buf[i := XorByte(buf[i], Pow2(7 - k))];
    MessageAround(buf, i);
    MessageAround(bad, i);
    RestOf(buf, i, XorByte(buf[i], Pow2(7 - k)));
    BitsOfXor(buf[i], Pow2(7 - k), 8);
    OneBit(7 - k, 8);
    XorOneBit(BitsOf(buf[i], 8), k);
    FlippedInside(MessageBits(buf[..i]), ByteBits(buf[i]), MessageBits(buf[i + 1..]), k);
  }

  lemma RestOf(buf: seq<Byte>, i: nat, b: Byte)
    requires i < |buf|
    ensures buf[i := b][..i] == buf[..i] && buf[i := b][i + 1..] == buf[i + 1..] && buf[i := b][i] == b
  {}

  lemma XorOneBit(m: Bits, k: nat)
    requires k < |m|
    ensures XorBits(m, Clear(|m|)[k := true]) == Flipped(m, k)
  {}

  lemma FlippedInside(before: Bits, m: Bits, after: Bits, k: nat)
    requires k < |m|
    ensures Flipped(before + m + after, |before| + k) == before + Flipped(m, k) + after
  {}

  /** Two flipped bits of a byte string keep its checksum exactly when their distance is a multiple of 127. */
  lemma TwoFlips(seed: nat, buf: seq<Byte>, m: nat, n: nat)
    requires seed < 128 && m < n < 8 * |buf|
    ensures Checksum(seed, FlipBit(FlipBit(buf, m), n)) == Checksum(seed, buf) <==> (n - m) % 127 == 0
  {
    hide Run, FlipBit, MessageBits, BitsOf, Checksum;
    MessageFlipped(buf, m);
    MessageFlipped(FlipBit(buf, m), n);
    var bad := FlipBit(FlipBit(buf, m), n);
    DistanceDetection(BitsOf(seed, 7), MessageBits(buf), m, n);
    ChecksumOfRegister(seed, buf);
    ChecksumOfRegister(seed, bad);
    SameChecksum(seed, buf, bad);
  }

  lemma SameChecksum(seed: nat, a: seq<Byte>, b: seq<Byte>)
    requires seed < 128
    ensures Checksum(seed, a) == Checksum(seed, b)
       <==> Run(BitsOf(seed, 7), MessageBits(a)) == Run(BitsOf(seed, 7), MessageBits(b))
  {
    hide BitsOf, Run, MessageBits;
    ChecksumOfRegister(seed, a);
    ChecksumOfRegister(seed, b);
  }
}
