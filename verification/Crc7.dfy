/** match-server/crypto/crc7.go: the table-driven 7-bit checksum, against polynomial division over
    GF(2) by x^7 + x^3 + 1. Bit sequences are written highest bit first. */
module Crc7 {
  import opened Bytes

  type Bits = seq<bool>
  type Register = r: Bits | |r| == 7 witness [false, false, false, false, false, false, false]

  // ---------------------------------------------------------------- numbers and bits

  function BitsOf(n: nat, width: nat): (b: Bits)
    ensures |b| == width
  {
    if width == 0 then [] else BitsOf(n / 2, width - 1) + [n % 2 == 1]
  }

  function NatOf(b: Bits): nat {
    if |b| == 0 then 0 else 2 * NatOf(b[..|b| - 1]) + if b[|b| - 1] then 1 else 0
  }

  lemma {:induction false} NatOfBitsOf(n: nat, width: nat)
    requires n < Pow2(width)
    ensures NatOf(BitsOf(n, width)) == n
  {
    if width > 0 {
      NatOfBitsOf(n / 2, width - 1);
      assert BitsOf(n, width)[..width - 1] == BitsOf(n / 2, width - 1);
    }
  }

  lemma {:induction false} BitsOfNatOf(b: Bits)
    ensures BitsOf(NatOf(b), |b|) == b && NatOf(b) < Pow2(|b|)
  {
    if |b| > 0 {
      var init := b[..|b| - 1];
      BitsOfNatOf(init);
      LowBit(if b[|b| - 1] then 1 else 0, NatOf(init));
      assert b == init + [b[|b| - 1]];
    }
  }

  function XorBits(a: Bits, b: Bits): (x: Bits)
    requires |a| == |b|
    ensures |x| == |a|
  {
    seq(|a|, i requires 0 <= i < |a| => a[i] != b[i])
  }

  lemma {:induction false} BitsOfXor(a: nat, b: nat, width: nat)
    ensures BitsOf(XorNat(a, b), width) == XorBits(BitsOf(a, width), BitsOf(b, width))
  {
    if width > 0 {
      var x := XorNat(a, b);
      LowBit((a + b) % 2, XorNat(a / 2, b / 2));
      OddSum(a, b);
      BitsOfXor(a / 2, b / 2, width - 1);
      assert BitsOf(x, width) == BitsOf(XorNat(a / 2, b / 2), width - 1) + [x % 2 == 1];
    }
  }

  lemma OddSum(a: nat, b: nat)
    ensures ((a + b) % 2 == 1) == ((a % 2 == 1) != (b % 2 == 1))
  {}

  lemma {:induction false} TopBit(n: nat, width: nat)
    requires n < Pow2(width + 1)
    ensures BitsOf(n, width + 1) == [n / Pow2(width) == 1] + BitsOf(n, width)
    ensures BitsOf(n % Pow2(width), width) == BitsOf(n, width) && n % Pow2(width) < Pow2(width)
  {
    if width > 0 {
      TopBit(n / 2, width - 1);
      var p := Pow2(width - 1);
      HalvesOf(n, p);
      assert BitsOf(n, width + 1) == BitsOf(n / 2, width) + [n % 2 == 1];
      assert BitsOf(n, width) == BitsOf(n / 2, width - 1) + [n % 2 == 1];
      assert BitsOf(n % (2 * p), width) == BitsOf(n / 2 % p, width - 1) + [n % 2 == 1];
    }
  }

  lemma HalvesOf(n: nat, p: nat)
    requires p > 0 && n < 4 * p
    ensures n / (2 * p) == n / 2 / p
    ensures n % (2 * p) / 2 == n / 2 % p && n % (2 * p) % 2 == n % 2
  {
    var q := if n < 2 * p then 0 else 1;
    assert n / (2 * p) == q by { if q == 0 { SmallQuotient(n, 2 * p, 0); } else { SmallQuotient(n, 2 * p, 1); } }
    assert n / 2 / p == q by { if q == 0 { SmallQuotient(n / 2, p, 0); } else { SmallQuotient(n / 2, p, 1); } }
  }

  lemma SmallQuotient(n: nat, p: nat, q: nat)
    requires p > 0 && q < 2 && q * p <= n < q * p + p
    ensures n / p == q && n % p == n - q * p
  {
    if q == 0 {
      assert n / p == 0;
    } else {
      assert n / p == 1;
    }
  }

  // ---------------------------------------------------------------- the shift register

  const ZERO: Register := [false, false, false, false, false, false, false]

  /** One bit of the checksum: shift in the feedback and subtract x^3 + 1 when it is set. */
  function Shift(r: Register, bit: bool): Register {
    var t := r[0] != bit;
    [r[1], r[2], r[3], r[4] != t, r[5], r[6], t]
  }

  function Run(r: Register, m: Bits): Register {
    if |m| == 0 then r else Shift(Run(r, m[..|m| - 1]), m[|m| - 1])
  }

  lemma {:induction false} RunConcat(r: Register, m: Bits, n: Bits)
    ensures Run(r, m + n) == Run(Run(r, m), n)
  {
    if |n| == 0 {
      assert m + n == m;
    } else {
      RunConcat(r, m, n[..|n| - 1]);
      assert (m + n)[..|m + n| - 1] == m + n[..|n| - 1];
    }
  }

  // ---------------------------------------------------------------- polynomial division

  /** q(x) * (x^7 + x^3 + 1). */
  function TimesG(q: Bits): (p: Bits)
    ensures |p| == |q| + 7
  {
    seq(|q| + 7, i requires 0 <= i < |q| + 7 => (At(q, i) != At(q, i - 4)) != At(q, i - 7))
  }

  function At(q: Bits, i: int): bool {
    0 <= i < |q| && q[i]
  }

  function Quotient(m: Bits): (q: Bits)
    ensures |q| == |m|
  {
    if |m| == 0 then []
    else
      var init := m[..|m| - 1];
      Quotient(init) + [Run(ZERO, init)[0] != m[|m| - 1]]
  }

  lemma TimesGAt(q: Bits, t: bool, i: nat)
    requires i < |q| + 8
    ensures TimesG(q + [t])[i]
         == if i == |q| + 7 then t else (TimesG(q)[i] != (t && (i == |q| || i == |q| + 4)))
  {
    assert At(q + [t], i) == if i == |q| then t else At(q, i);
    assert At(q + [t], i - 4) == if i - 4 == |q| then t else At(q, i - 4);
    assert At(q + [t], i - 7) == if i - 7 == |q| then t else At(q, i - 7);
  }

  lemma TimesGOneMore(q: Bits, t: bool)
    ensures var n := |q|;
            var p, p' := TimesG(q), TimesG(q + [t]);
            && p'[..n] == p[..n]
            && p'[n..] == [p[n] != t, p[n + 1], p[n + 2], p[n + 3], p[n + 4] != t, p[n + 5], p[n + 6], t]
  {
    hide TimesG;
    var n := |q|;
    var p, p' := TimesG(q), TimesG(q + [t]);
    forall i | 0 <= i < n ensures p'[i] == p[i] {
      TimesGAt(q, t, i);
    }
    TimesGAt(q, t, n); TimesGAt(q, t, n + 1); TimesGAt(q, t, n + 2); TimesGAt(q, t, n + 3);
    TimesGAt(q, t, n + 4); TimesGAt(q, t, n + 5); TimesGAt(q, t, n + 6); TimesGAt(q, t, n + 7);
  }

  lemma ProductOfNothingAt(i: nat)
    requires i < 7
    ensures TimesG([])[i] == false
  {
    var q: Bits := [];
    assert !At(q, i) && !At(q, i - 4) && !At(q, i - 7);
    assert TimesG(q)[i] == ((At(q, i) != At(q, i - 4)) != At(q, i - 7));
  }

  lemma ZeroAt(i: nat)
    requires i < 7
    ensures ZERO[i] == false
  {
    if i == 0 {
    } else if i == 1 {
    } else if i == 2 {
    } else if i == 3 {
    } else if i == 4 {
    } else if i == 5 {
    } else {
      assert i == 6;
    }
  }

  lemma ProductOfNothing()
    ensures TimesG([]) == [] + ZERO
  {
    hide TimesG;
    var p, z: Bits := TimesG([]), ZERO;
    assert |p| == 7 && |z| == 7;
    forall i: nat | i < 7 ensures p[i] == z[i] {
      ProductOfNothingAt(i);
      ZeroAt(i);
    }
    assert p == z;
    assert [] + z == z;
  }

  lemma FeedbackBit(r: Register, d: bool)
    ensures var t := r[0] != d;
            [d] + Shift(r, d) == [r[0] != t, r[1], r[2], r[3], r[4] != t, r[5], r[6], t]
  {}

  /** The register after a message is the remainder of the message times x^7: message and checksum
      together are a multiple of the generator. */
  lemma {:induction false} ChecksumIsRemainder(m: Bits)
    ensures TimesG(Quotient(m)) == m + Run(ZERO, m)
  {
    hide TimesG, Shift;
    if |m| > 0 {
      var init, d := m[..|m| - 1], m[|m| - 1];
      ChecksumIsRemainder(init);
      DivideOneMore(Quotient(init), init, Run(ZERO, init), d);
    } else {
      ProductOfNothing();
    }
  }

  /** One step of long division: the feedback bit is the next quotient bit. */
  lemma DivideOneMore(q: Bits, m: Bits, r: Register, d: bool)
    requires |q| == |m| && TimesG(q) == m + r
    ensures TimesG(q + [r[0] != d]) == m + [d] + Shift(r, d)
  {
    hide TimesG, Shift;
    var t, n := r[0] != d, |m|;
    TimesGOneMore(q, t);
    var p, p' := TimesG(q), TimesG(q + [t]);
    assert p[..n] == m && p[n..] == r;
    FeedbackBit(r, d);
    assert p'[n..] == [d] + Shift(r, d);
    assert p' == p'[..n] + p'[n..];
  }

  /** No other seven bits complete the message to a multiple of the generator. */
  lemma RemainderIsUnique(m: Bits, s: Register, q: Bits)
    requires |q| == |m| && TimesG(q) == m + s
    ensures s == Run(ZERO, m)
  {
    hide Run, TimesG, Quotient;
    ChecksumIsRemainder(m);
    FrontAndBack(m, s);
    FrontAndBack(m, Run(ZERO, m));
    var p, p' := TimesG(q), TimesG(Quotient(m));
    forall i | 0 <= i < |m| ensures p[i] == p'[i] {
      assert p[i] == p[..|m|][i] && p'[i] == p'[..|m|][i];
    }
    SameQuotient(q, Quotient(m), |m|);
    assert q[..|m|] == q && Quotient(m)[..|m|] == Quotient(m);
  }

  lemma FrontAndBack(m: Bits, s: Bits)
    ensures (m + s)[..|m|] == m && (m + s)[|m|..] == s
  {}

  lemma {:induction false} SameQuotient(q: Bits, q': Bits, n: nat)
    requires |q| == |q'| && n <= |q|
    requires forall i :: 0 <= i < n ==> TimesG(q)[i] == TimesG(q')[i]
    ensures q[..n] == q'[..n]
  {
    if n > 0 {
      SameQuotient(q, q', n - 1);
      forall i | 0 <= i < n - 1 ensures q[i] == q'[i] {
        assert q[..n - 1][i] == q'[..n - 1][i];
      }
      assert At(q, n - 5) == At(q', n - 5) && At(q, n - 8) == At(q', n - 8);
      assert TimesG(q)[n - 1] == TimesG(q')[n - 1];
    }
  }

  // ---------------------------------------------------------------- error detection

  lemma ShiftIsLinear(r: Register, s: Register, a: bool, b: bool)
    ensures Shift(XorBits(r, s), a != b) == XorBits(Shift(r, a), Shift(s, b))
  {
    var x, y := Shift(XorBits(r, s), a != b), XorBits(Shift(r, a), Shift(s, b));
    assert x[0] == y[0] && x[1] == y[1] && x[2] == y[2] && x[3] == y[3];
    assert x[4] == y[4] && x[5] == y[5] && x[6] == y[6];
  }

  lemma {:induction false} RunIsLinear(r: Register, s: Register, m: Bits, e: Bits)
    requires |m| == |e|
    ensures Run(XorBits(r, s), XorBits(m, e)) == XorBits(Run(r, m), Run(s, e))
  {
    hide Shift;
    if |m| > 0 {
      var m', e' := m[..|m| - 1], e[..|m| - 1];
      RunIsLinear(r, s, m', e');
      assert XorBits(m, e)[..|m| - 1] == XorBits(m', e');
      ShiftIsLinear(Run(r, m'), Run(s, e'), m[|m| - 1], e[|m| - 1]);
    }
  }

  function Clear(n: nat): Bits {
    seq(n, _ => false)
  }

  lemma {:induction false} RunOfClear(r: Register, n: nat)
    ensures Run(r, Clear(n)) == ZERO <==> r == ZERO
  {
    if n > 0 {
      RunOfClear(r, n - 1);
      assert Clear(n)[..n - 1] == Clear(n - 1);
      var s := Run(r, Clear(n - 1));
      var z := Shift(s, false);
      assert z == ZERO ==> s == ZERO by {
        if z == ZERO {
          assert z[0] == z[1] == z[2] == z[3] == z[4] == z[5] == z[6] == false;
        }
      }
    }
  }

  const GENERATOR: Bits := [true, false, false, false, true, false, false, true]

  lemma RunOfBurst(e: Bits)
    requires |e| == 8
    ensures Run(ZERO, e) == ZERO <==> e == Clear(8) || e == GENERATOR
  {
    hide Run, Shift;
    RunOfEight(e);
    EightShifts(e[0], e[1], e[2], e[3], e[4], e[5], e[6], e[7]);
    Patterns(e);
  }

  lemma Patterns(e: Bits)
    requires |e| == 8
    ensures e == Clear(8) || e == GENERATOR
       <==> !e[1] && !e[2] && !e[3] && !e[5] && !e[6] && (e[0] == e[4] == e[7])
  {
    assert e == [e[0], e[1], e[2], e[3], e[4], e[5], e[6], e[7]];
    assert Clear(8) == [false, false, false, false, false, false, false, false];
  }

  lemma RunOfEight(e: Bits)
    requires |e| == 8
    ensures Run(ZERO, e)
         == Shift(Shift(Shift(Shift(Shift(Shift(Shift(Shift(ZERO, e[0]), e[1]), e[2]), e[3]), e[4]), e[5]), e[6]), e[7])
  {
    hide Run, Shift;
    RunPrefix(e, 0); RunPrefix(e, 1); RunPrefix(e, 2); RunPrefix(e, 3);
    RunPrefix(e, 4); RunPrefix(e, 5); RunPrefix(e, 6); RunPrefix(e, 7);
    RunOfNothing();
    assert e[..8] == e && e[..0] == [];
  }

  lemma RunOfNothing()
    ensures Run(ZERO, []) == ZERO
  {}

  lemma EightShifts(a: bool, b: bool, c: bool, d: bool, e: bool, f: bool, g: bool, h: bool)
    ensures Shift(Shift(Shift(Shift(Shift(Shift(Shift(Shift(ZERO, a), b), c), d), e), f), g), h) == ZERO
       <==> !b && !c && !d && !f && !g && (a == e == h)
  {
  }

  lemma RunPrefix(e: Bits, i: nat)
    requires i < |e|
    ensures Run(ZERO, e[..i + 1]) == Shift(Run(ZERO, e[..i]), e[i])
  {
    assert e[..i + 1][..i] == e[..i];
  }

  /** An error confined to eight consecutive bits, anywhere in the message, goes unnoticed exactly when
      it is empty or is the generator itself; in particular every shorter burst is noticed. */
  lemma BurstDetection(r: Register, before: Bits, burst: Bits, after: Bits, e: Bits)
    requires |burst| == 8 && |e| == 8
    ensures Run(r, before + XorBits(burst, e) + after) == Run(r, before + burst + after)
       <==> e == Clear(8) || e == GENERATOR
  {
    hide Run, Shift;
    var m := before + burst + after;
    var err := Clear(|before|) + e + Clear(|after|);
    PlaceBurst(before, burst, after, e);
    NoDifference(r, ZERO);
    RunIsLinear(r, ZERO, m, err);
    NoDifference(Run(r, m), Run(ZERO, err));
    RunConcat(ZERO, Clear(|before|) + e, Clear(|after|));
    RunConcat(ZERO, Clear(|before|), e);
    RunOfClear(ZERO, |before|);
    RunOfClear(Run(ZERO, e), |after|);
    RunOfBurst(e);
  }

  lemma PlaceBurst(before: Bits, burst: Bits, after: Bits, e: Bits)
    requires |burst| == |e|
    ensures XorBits(before + burst + after, Clear(|before|) + e + Clear(|after|))
         == before + XorBits(burst, e) + after
  {}

  lemma NoDifference(r: Register, d: Register)
    ensures XorBits(r, d) == r <==> d == ZERO
  {
    if XorBits(r, d) == r {
      forall i | 0 <= i < 7 ensures d[i] == ZERO[i] {
        assert XorBits(r, d)[i] == r[i];
      }
    }
  }

  // ---------------------------------------------------------------- bytes

  function ByteBits(b: Byte): (m: Bits)
    ensures |m| == 8
  {
    BitsOf(b, 8)
  }

  function MessageBits(buf: seq<Byte>): (m: Bits)
    ensures |m| == 8 * |buf|
  {
    if |buf| == 0 then [] else MessageBits(buf[..|buf| - 1]) + ByteBits(buf[|buf| - 1])
  }

  lemma MessageBitsLast(b: seq<Byte>)
    requires |b| > 0
    ensures MessageBits(b) == MessageBits(b[..|b| - 1]) + ByteBits(b[|b| - 1])
  {
    hide ByteBits;
  }

  lemma {:induction false} MessageBitsConcat(a: seq<Byte>, b: seq<Byte>)
    ensures MessageBits(a + b) == MessageBits(a) + MessageBits(b)
  {
    if |b| == 0 {
      assert a + b == a;
    } else {
      var init, last := b[..|b| - 1], b[|b| - 1];
      MessageBitsConcat(a, init);
      MessageBitsLast(a + b);
      MessageBitsLast(b);
      assert (a + b)[..|a + b| - 1] == a + init && (a + b)[|a + b| - 1] == last;
      hide MessageBits;
      assert MessageBits(a) + MessageBits(init) + ByteBits(last) == MessageBits(a) + (MessageBits(init) + ByteBits(last));
    }
  }

  /** The checksum of a byte string from a 7-bit seed. */
  function Checksum(seed: nat, buf: seq<Byte>): (c: nat)
    requires seed < 128
    ensures c < 128
  {
    var r := Run(BitsOf(seed, 7), MessageBits(buf));
    BitsOfNatOf(r);
    SevenBits();
    NatOf(r)
  }

  lemma SevenBits()
    ensures Pow2(7) == 128 && Pow2(8) == 256
  {}

  lemma ChecksumOfRegister(seed: nat, buf: seq<Byte>)
    requires seed < 128
    ensures BitsOf(Checksum(seed, buf), 7) == Run(BitsOf(seed, 7), MessageBits(buf))
  {
    BitsOfNatOf(Run(BitsOf(seed, 7), MessageBits(buf)));
  }

  lemma ChecksumConcat(seed: nat, a: seq<Byte>, b: seq<Byte>)
    requires seed < 128
    ensures Checksum(seed, a + b) == Checksum(Checksum(seed, a), b)
  {
    MessageBitsConcat(a, b);
    RunConcat(BitsOf(seed, 7), MessageBits(a), MessageBits(b));
    ChecksumOfRegister(seed, a);
  }

  /** Changing one byte by exclusive or with a mask keeps the checksum exactly for the masks 0 and 0x89. */
  lemma ByteErrorDetection(seed: nat, buf: seq<Byte>, i: nat, mask: Byte)
    requires seed < 128 && i < |buf|
    ensures Checksum(seed, buf[i := XorByte(buf[i], mask)]) == Checksum(seed, buf) <==> mask == 0 || mask == 0x89
  {
    hide Run;
    var bad := buf[i := XorByte(buf[i], mask)];
    var before, after := MessageBits(buf[..i]), MessageBits(buf[i + 1..]);
    MessageAround(buf, i);
    MessageAround(bad, i);
    assert bad[..i] == buf[..i] && bad[i + 1..] == buf[i + 1..];
    BitsOfXor(buf[i], mask, 8);
    BurstDetection(BitsOf(seed, 7), before, ByteBits(buf[i]), after, ByteBits(mask));
    MaskBits(mask);
    ChecksumOfRegister(seed, buf);
    ChecksumOfRegister(seed, bad);
  }

  lemma MessageAround(buf: seq<Byte>, i: nat)
    requires i < |buf|
    ensures MessageBits(buf) == MessageBits(buf[..i]) + ByteBits(buf[i]) + MessageBits(buf[i + 1..])
  {
    hide ByteBits, MessageBits;
    SplitAround(buf, i);
    MessageBitsConcat(buf[..i + 1], buf[i + 1..]);
    MessageBitsLast(buf[..i + 1]);
  }

  lemma SplitAround(buf: seq<Byte>, i: nat)
    requires i < |buf|
    ensures buf == buf[..i + 1] + buf[i + 1..]
    ensures var init := buf[..i + 1]; init[..|init| - 1] == buf[..i] && init[|init| - 1] == buf[i]
  {}

  lemma MaskBits(mask: Byte)
    ensures ByteBits(mask) == Clear(8) <==> mask == 0
    ensures ByteBits(mask) == GENERATOR <==> mask == 0x89
  {
    hide BitsOf, NatOf;
    SevenBits();
    NatOfBitsOf(mask, 8);
    NatOfBitsOf(0, 8);
    NatOfBitsOf(0x89, 8);
    SpecialMasks();
  }

  lemma SpecialMasks()
    ensures BitsOf(0, 8) == Clear(8) == [false, false, false, false, false, false, false, false]
    ensures BitsOf(0x09, 8) == [false, false, false, false, true, false, false, true]
    ensures BitsOf(0x89, 8) == GENERATOR
  {
    hide BitsOf;
    MaskZero();
    MaskNine();
    MaskGenerator();
  }

  lemma MaskZero()
    ensures BitsOf(0, 8) == [false, false, false, false, false, false, false, false]
  {}

  lemma MaskNine()
    ensures BitsOf(0x09, 8) == [false, false, false, false, true, false, false, true]
  {}

  lemma MaskGenerator()
    ensures BitsOf(0x89, 8) == GENERATOR
  {}

  // ---------------------------------------------------------------- the loops of crc7.go

  /** A byte shifted left by one. */
  function Doubled(data: Byte): Byte {
    var d: int := data * 2;
    d % 256
  }

  /** One round of the bit loop in init, on bytes. */
  function BitStep(crc: nat, data: Byte): (c: nat)
    requires crc < 128
  {
    var poly := if (crc / 64 + data / 128) % 2 != 0 then 0x09 else 0;
    XorNat(crc * 2 % 256, poly) % 128
  }

  lemma BitStepShifts(crc: nat, data: Byte)
    requires crc < 128
    ensures BitStep(crc, data) == NatOf(Shift(BitsOf(crc, 7), data / 128 == 1))
  {
    hide BitsOf, NatOf, XorNat;
    SevenBits();
    TopOfSeven(crc);
    var d := data / 128;
    assert d == 0 || d == 1;
    var r, t := BitsOf(crc, 7), (crc / 64 + d) % 2 != 0;
    assert t == (r[0] != (d == 1));
    var poly := if t then 0x09 else 0;
    var y := XorNat(crc * 2 % 256, poly);
    Subtract(crc * 2, poly, t, r);
    assert y % 128 == NatOf(Shift(r, d == 1));
  }

  lemma TopOfSeven(crc: nat)
    requires crc < 128
    ensures BitsOf(crc, 7)[0] == (crc / 64 == 1) && crc / 64 < 2
    ensures BitsOf(crc * 2, 8) == BitsOf(crc, 7) + [false]
  {
    hide BitsOf;
    assert Pow2(6) == 64 && Pow2(7) == 128;
    TopBit(crc, 6);
    DropTop(crc);
  }

  lemma Subtract(x: nat, poly: nat, t: bool, r: Register)
    requires x < 256 && BitsOf(x, 8) == r + [false] && poly == if t then 0x09 else 0
    ensures XorNat(x, poly) % 128 == NatOf([r[1], r[2], r[3], r[4] != t, r[5], r[6], t])
  {
    hide BitsOf, NatOf, XorNat;
    SevenBits();
    var y := XorNat(x, poly);
    XorNatBelow(x, poly, 8);
    TopBit(y, 7);
    NatOfBitsOf(y % 128, 7);
    BitsOfXor(x, poly, 8);
    SpecialMasks();
    assert BitsOf(y, 7) == BitsOf(y, 8)[1..];
    assert BitsOf(y, 8)[1..] == [r[1], r[2], r[3], r[4] != t, r[5], r[6], t];
  }

  /** The table built once by init, and the fold over it. */
  class Crc7Table {
    const table: array2<Byte>

    ghost predicate Filled()
      reads this, table
    {
      && table.Length0 == 128 && table.Length1 == 256
      && forall i, j :: 0 <= i < 128 && 0 <= j < 256 ==> table[i, j] == Checksum(i, [j])
    }

    constructor ()
      ensures Filled() && fresh(table)
    {
      table := new Byte[128, 256];
      new;
      hide Checksum;
      for i := 0 to 128
        invariant forall k, l :: 0 <= k < i && 0 <= l < 256 ==> table[k, l] == Checksum(k, [l])
      {
        for j := 0 to 256
          invariant forall k, l :: 0 <= k < i && 0 <= l < 256 ==> table[k, l] == Checksum(k, [l])
          invariant forall l :: 0 <= l < j ==> table[i, l] == Checksum(i, [l])
        {
          var crc := Entry(i, j);
          table[i, j] := crc;
        }
      }
    }

    static method Entry(i: nat, j: Byte) returns (crc: nat)
      requires i < 128
      ensures crc < 128 && crc == Checksum(i, [j])
    {
      hide Checksum, Run, BitsOf, NatOf, BitStep;
      crc := i;
      var data := j;
      ghost var r, bits := BitsOf(i, 7), ByteBits(j);
      EntryDone(i, j);
      assert bits[..0] == [] && bits[0..] == bits && ByteBits(j)[..8] == ByteBits(j);
      for bit := 0 to 8
        invariant crc < 128 && crc == NatOf(Run(r, bits[..bit]))
        invariant ByteBits(data)[..8 - bit] == bits[bit..]
      {
        EntryStep(r, bits, bit, crc, data);
        crc := BitStep(crc, data);
        data := Doubled(data);
      }
      assert bits[..8] == bits;
    }

    static method CRC7(t: Crc7Table, seed: Byte, buf: seq<Byte>) returns (c: Byte)
      requires t.Filled()
      ensures c == Checksum(seed % 128, buf)
    {
      hide Checksum;
      c := seed % 128;
      ChecksumOfNothing(c);
      assert buf[..0] == [];
      for i := 0 to |buf|
        invariant c < 128 && c == Checksum(seed % 128, buf[..i])
      {
        ChecksumConcat(seed % 128, buf[..i], [buf[i]]);
        assert buf[..i + 1] == buf[..i] + [buf[i]];
        c := t.table[c, buf[i]];
      }
      assert buf[..|buf|] == buf;
      c := c % 128;
    }
  }

  lemma ChecksumOfNothing(c: nat)
    requires c < 128
    ensures Checksum(c, []) == c
  {
    SevenBits();
    NatOfBitsOf(c, 7);
  }

  lemma EntryStep(r: Register, bits: Bits, bit: nat, crc: nat, data: Byte)
    requires |bits| == 8 && bit < 8
    requires crc < 128 && crc == NatOf(Run(r, bits[..bit]))
    requires ByteBits(data)[..8 - bit] == bits[bit..]
    ensures BitStep(crc, data) < 128 && BitStep(crc, data) == NatOf(Run(r, bits[..bit + 1]))
    ensures ByteBits(Doubled(data))[..8 - (bit + 1)] == bits[bit + 1..]
  {
    hide BitStep, Run, BitsOf, NatOf;
    assert ByteBits(data)[..8 - bit][0] == bits[bit];
    ShiftData(data);
    BitsOfNatOf(Run(r, bits[..bit]));
    BitStepShifts(crc, data);
    BitStepRange(crc, data);
    RunOneMore(r, bits, bit);
    assert ByteBits(Doubled(data))[..7 - bit] == ByteBits(data)[..8 - bit][1..];
    assert bits[bit..][1..] == bits[bit + 1..];
  }

  lemma BitStepRange(crc: nat, data: Byte)
    requires crc < 128
    ensures BitStep(crc, data) < 128
  {}

  lemma RunOneMore(r: Register, bits: Bits, bit: nat)
    requires bit < |bits|
    ensures Run(r, bits[..bit + 1]) == Shift(Run(r, bits[..bit]), bits[bit])
  {
    assert bits[..bit + 1][..bit] == bits[..bit];
  }

  lemma ShiftData(data: Byte)
    ensures ByteBits(data)[0] == (data / 128 == 1)
    ensures ByteBits(Doubled(data))[..7] == ByteBits(data)[1..]
  {
    hide BitsOf;
    SevenBits();
    TopBit(data, 7);
    DropTop(data % 128);
    assert Doubled(data) == 2 * (data % 128);
  }

  lemma DropTop(n: nat)
    ensures BitsOf(2 * n, 8) == BitsOf(n, 7) + [false]
  {
    LowBit(0, n);
  }

  lemma EntryDone(i: nat, j: Byte)
    requires i < 128
    ensures Run(BitsOf(i, 7), []) == BitsOf(i, 7) && NatOf(BitsOf(i, 7)) == i
    ensures Checksum(i, [j]) == NatOf(Run(BitsOf(i, 7), ByteBits(j)))
  {
    SevenBits();
    NatOfBitsOf(i, 7);
    assert MessageBits([j]) == MessageBits([]) + ByteBits(j);
    assert MessageBits([j]) == ByteBits(j);
  }
}
