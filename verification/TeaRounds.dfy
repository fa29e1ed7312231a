/** What the cipher of match-server/crypto/tea.go computes: the shifts of the mixing function on bits, the rounds in
    machine words, and one message enciphered round by round. */
module TeaRounds {
  import opened Bytes
  import opened Crc7
  import opened Tea

  // ---------------------------------------------------------------- the mixing function on bits

  /** Four places to the left, what is pushed out is lost. */
  lemma LeftShift(v: Word)
    ensures BitsOf(v * 16 % 0x1_0000_0000, 32) == BitsOf(v, 32)[4..] + Clear(4)
  {
    hide BitsOf;
    DropHigh(v, 28, 4);
    LowBits(v % 0x1000_0000, 28, 4);
    PowersOfTwo();
    assert v * 16 % 0x1_0000_0000 == v % 0x1000_0000 * 16;
  }

  /** Five places to the right. */
  lemma RightShift(v: Word)
    ensures BitsOf(v / 32, 32) == Clear(5) + BitsOf(v, 32)[..27]
  {
    hide BitsOf;
    PowersOfTwo();
    OneBitMore(v, 32);
    OneBitMore(v / 2, 31);
    OneBitMore(v / 4, 30);
    OneBitMore(v / 8, 29);
    OneBitMore(v / 16, 28);
    Shorter(BitsOf(v, 32), 31, 27);
    Shorter(BitsOf(v / 2, 31), 30, 27);
    Shorter(BitsOf(v / 4, 30), 29, 27);
    Shorter(BitsOf(v / 8, 29), 28, 27);
    HighClear(v / 32, 27, 5);
  }

  lemma Shorter(b: Bits, m: nat, n: nat)
    requires n <= m <= |b|
    ensures b[..m][..n] == b[..n]
  {}

  lemma PowersOfTwo()
    ensures Pow2(4) == 16 && Pow2(5) == 32 && Pow2(27) == 0x800_0000 && Pow2(28) == 0x1000_0000
  {
    assert Pow2(4) == 16;
    assert Pow2(9) == 512;
    assert Pow2(14) == 0x4000;
    assert Pow2(19) == 0x8_0000;
    assert Pow2(24) == 0x100_0000;
  }

  lemma OneBitMore(n: nat, width: nat)
    requires width > 0
    ensures BitsOf(n, width)[..width - 1] == BitsOf(n / 2, width - 1)
  {}

  lemma DivDiv(n: nat, p: nat)
    requires p > 0
    ensures n / 2 / p == n / (2 * p)
  {
    var q: nat := n / 2 / p;
    assert n / 2 == p * q + n / 2 % p;
    assert n == 2 * p * q + (2 * (n / 2 % p) + n % 2);
    QuotientIs(n, 2 * p, q, 2 * (n / 2 % p) + n % 2);
  }

  lemma QuotientIs(n: nat, d: nat, q: nat, r: nat)
    requires d > 0 && r < d && n == d * q + r
    ensures n / d == q
  {
    var e: nat := n / d;
    assert n == d * e + n % d;
    if e > q {
      Grows(d, q + 1, e);
      Grows(d, q, q);
    } else if e < q {
      Grows(d, e + 1, q);
      Grows(d, e, e);
    }
  }

  lemma Grows(d: nat, a: nat, b: nat)
    requires a <= b
    ensures d * a <= d * b && d * (a + 1) == d * a + d && d * (b + 1) == d * b + d
  {
    assert d * b - d * a == d * (b - a);
  }

  lemma {:induction false} HighClear(n: nat, width: nat, k: nat)
    requires n < Pow2(width)
    ensures BitsOf(n, k + width) == Clear(k) + BitsOf(n, width)
  {
    if width == 0 {
      ZeroIsClear(k);
      assert n == 0;
    } else {
      HighClear(n / 2, width - 1, k);
    }
  }

  lemma {:induction false} ZeroIsClear(k: nat)
    ensures BitsOf(0, k) == Clear(k)
  {
    if k > 0 {
      ZeroIsClear(k - 1);
    }
  }

  lemma {:induction false} LowBits(n: nat, width: nat, k: nat)
    ensures BitsOf(n * Pow2(k), width + k) == BitsOf(n, width) + Clear(k)
  {
    if k == 0 {
      assert Clear(0) == [];
    } else {
      LowBits(n, width, k - 1);
      assert n * Pow2(k) == 2 * (n * Pow2(k - 1));
      assert Clear(k) == Clear(k - 1) + [false];
    }
  }

  /** The low bits of a number. */
  lemma {:induction false} DropHigh(n: nat, width: nat, k: nat)
    ensures Pow2(width) > 0 && BitsOf(n % Pow2(width), width) == BitsOf(n, k + width)[k..]
  {
    if width > 0 {
      DropHigh(n / 2, width - 1, k);
      ModHalf(n, Pow2(width - 1));
    }
  }

  lemma ModHalf(n: nat, p: nat)
    requires p > 0
    ensures n % (2 * p) / 2 == n / 2 % p && n % (2 * p) % 2 == n % 2
  {
    DivDiv(n, p);
    var q: nat := n / (2 * p);
    assert n == 2 * p * q + n % (2 * p);
    assert n / 2 == p * q + n / 2 % p;
  }

  /** What the half rounds add, bit by bit: the sums of the shifted word and the key words, and of the word
      and the running sum, under exclusive or. */
  lemma MixBits(v: Word, sum: Word, ka: Word, kb: Word)
    ensures var left, right := NatOf(BitsOf(v, 32)[4..] + Clear(4)), NatOf(Clear(5) + BitsOf(v, 32)[..27]);
            BitsOf(Mix(v, sum, ka, kb), 32)
            == XorBits(XorBits(BitsOf((left + ka) % 0x1_0000_0000, 32), BitsOf((v + sum) % 0x1_0000_0000, 32)),
                       BitsOf((right + kb) % 0x1_0000_0000, 32))
  {
    hide BitsOf, NatOf, XorNat;
    LeftShift(v);
    RightShift(v);
    Below32(v * 16 % 0x1_0000_0000);
    Below32(v / 32);
    BitsOfXor(XorWord(Plus(v * 16 % 0x1_0000_0000, ka), Plus(v, sum)), Plus(v / 32, kb), 32);
    BitsOfXor(Plus(v * 16 % 0x1_0000_0000, ka), Plus(v, sum), 32);
  }

  lemma Below32(v: Word)
    ensures NatOf(BitsOf(v, 32)) == v
  {
    hide BitsOf, NatOf;
    PowersOfTwo();
    assert Pow2(32) == 16 * Pow2(28) by { assert Pow2(30) == 4 * Pow2(28); }
    NatOfBitsOf(v, 32);
  }

  // ---------------------------------------------------------------- chaining and layout

  /** The first two blocks of a message: the second is masked with the first ciphertext before, and with the
      first input after the cipher. */
  lemma TwoBlocks(enc: BlockMap, a: Block, b: Block)
    ensures var c := enc(a); Chain(enc, a + b, ZERO_BLOCK, ZERO_BLOCK) == c + Xor(enc(Xor(b, c)), a)
  {
    hide Xor, Chain;
    var c := enc(a);
    XorZeros(a);
    XorZeros(c);
    ChainStep(enc, a + b, ZERO_BLOCK, ZERO_BLOCK);
    FrontAndRest(a, b);
    ChainStep(enc, b, a, c);
    assert b[..8] == b && b[8..] == [];
    NoBlocks(enc, Xor(b, c), Xor(enc(Xor(b, c)), a));
  }

  lemma NoBlocks(enc: BlockMap, x: Block, c: Block)
    ensures Chain(enc, [], x, c) == []
  {}

  /** Where everything is: the filler length, the filler, the salt, the data and seven zeros, in whole blocks
      and with as little filler as that takes. */
  lemma LayoutPlaces(salt: seq<Byte>, plain: seq<Byte>)
    requires |salt| == 2
    ensures var pad := Padding(|plain|);
            var l := Layout(pad, Zeros(pad), salt, plain);
            && |l| % 8 == 0 && |l| == |plain| + 10 + pad && pad < 8
            && l[0] == pad && (forall i :: 1 <= i <= pad ==> l[i] == 0)
            && l[1 + pad] == salt[0] && l[2 + pad] == salt[1] && l[3 + pad..3 + pad + |plain|] == plain
            && forall i :: |l| - 7 <= i < |l| ==> l[i] == 0
  {}

  // ---------------------------------------------------------------- exclusive or on hexadecimal digits

  predicate HasEight(d: nat) {
    d >= 8
  }

  predicate HasFour(d: nat) {
    4 <= d < 8 || d >= 12
  }

  predicate HasTwo(d: nat) {
    d == 2 || d == 3 || d == 6 || d == 7 || d == 10 || d == 11 || d == 14 || d == 15
  }

  predicate HasOne(d: nat) {
    d == 1 || d == 3 || d == 5 || d == 7 || d == 9 || d == 11 || d == 13 || d == 15
  }

  function XorDigit(d: nat, e: nat, f: nat): nat {
    (if (HasEight(d) != HasEight(e)) != HasEight(f) then 8 else 0) + (if (HasFour(d) != HasFour(e)) != HasFour(f) then 4 else 0)
    + (if (HasTwo(d) != HasTwo(e)) != HasTwo(f) then 2 else 0) + (if (HasOne(d) != HasOne(e)) != HasOne(f) then 1 else 0)
  }

  /** One digit of an exclusive or. */
  lemma XorDigits(m: nat, n: nat, o: nat, d: nat, e: nat, f: nat)
    requires d < 16 && e < 16 && f < 16
    ensures Xor3(16 * m + d, 16 * n + e, 16 * o + f) == 16 * Xor3(m, n, o) + XorDigit(d, e, f) && XorDigit(d, e, f) < 16
  {
    hide Xor3, XorDigit, HasEight, HasFour, HasTwo, HasOne, Bit, Four;
    DigitBits(m, d);
    DigitBits(n, e);
    DigitBits(o, f);
    XorFour(m, n, o, HasEight(d), HasFour(d), HasTwo(d), HasOne(d), HasEight(e), HasFour(e), HasTwo(e), HasOne(e),
            HasEight(f), HasFour(f), HasTwo(f), HasOne(f));
    DigitOf(d, e, f);
  }

  /** Four bits more. */
  function Four(m: nat, a: bool, b: bool, c: bool, d: bool): nat {
    Two(Two(m, a, b), c, d)
  }

  lemma XorFour(m: nat, n: nat, o: nat, a: bool, b: bool, c: bool, d: bool, a': bool, b': bool, c': bool, d': bool,
                a'': bool, b'': bool, c'': bool, d'': bool)
    ensures Xor3(Four(m, a, b, c, d), Four(n, a', b', c', d'), Four(o, a'', b'', c'', d''))
         == Four(Xor3(m, n, o), (a != a') != a'', (b != b') != b'', (c != c') != c'', (d != d') != d'')
  {
    hide Xor3, Bit;
    XorTwo(m, n, o, a, b, a', b', a'', b'');
    XorTwo(Two(m, a, b), Two(n, a', b'), Two(o, a'', b''), c, d, c', d', c'', d'');
  }

  function Two(m: nat, a: bool, b: bool): nat {
    2 * (2 * m + Bit(a)) + Bit(b)
  }

  lemma XorTwo(m: nat, n: nat, o: nat, a: bool, b: bool, a': bool, b': bool, a'': bool, b'': bool)
    ensures Xor3(Two(m, a, b), Two(n, a', b'), Two(o, a'', b'')) == Two(Xor3(m, n, o), (a != a') != a'', (b != b') != b'')
  {
    hide Xor3, Bit;
    XorBit(m, n, o, a, a', a'');
    var m1: nat, n1: nat, o1: nat := 2 * m + Bit(a), 2 * n + Bit(a'), 2 * o + Bit(a'');
    XorBit(m1, n1, o1, b, b', b'');
  }

  function Xor3(a: nat, b: nat, c: nat): nat {
    XorNat(XorNat(a, b), c)
  }

  function Bit(b: bool): nat {
    if b then 1 else 0
  }

  lemma DigitBits(m: nat, d: nat)
    requires d < 16
    ensures 16 * m + d == Four(m, HasEight(d), HasFour(d), HasTwo(d), HasOne(d))
  {}

  lemma DigitOf(d: nat, e: nat, f: nat)
    ensures XorDigit(d, e, f) < 16
    ensures forall x: nat :: 16 * x + XorDigit(d, e, f)
                     == Four(x, (HasEight(d) != HasEight(e)) != HasEight(f), (HasFour(d) != HasFour(e)) != HasFour(f),
                             (HasTwo(d) != HasTwo(e)) != HasTwo(f), (HasOne(d) != HasOne(e)) != HasOne(f))
  {
    hide HasEight, HasFour, HasTwo, HasOne;
  }

  lemma XorBit(m: nat, n: nat, o: nat, p: bool, q: bool, r: bool)
    ensures Xor3(2 * m + Bit(p), 2 * n + Bit(q), 2 * o + Bit(r)) == 2 * Xor3(m, n, o) + Bit((p != q) != r)
  {
    hide XorNat;
    XorPair(m, n, p, q);
    XorPair(XorNat(m, n), o, p != q, r);
  }

  lemma XorPair(m: nat, n: nat, p: bool, q: bool)
    ensures XorNat(2 * m + Bit(p), 2 * n + Bit(q)) == 2 * XorNat(m, n) + Bit(p != q)
  {
    hide XorNat;
    Halves2(m, p);
    Halves2(n, q);
    XorStep(2 * m + Bit(p), 2 * n + Bit(q));
    Parity2(m, n, p, q);
  }

  lemma Halves2(m: nat, p: bool)
    ensures (2 * m + Bit(p)) / 2 == m
  {}

  lemma Parity2(m: nat, n: nat, p: bool, q: bool)
    ensures (2 * m + Bit(p) + (2 * n + Bit(q))) % 2 == Bit(p != q)
  {}

  lemma XorStep(a: nat, b: nat)
    ensures XorNat(a, b) == (a + b) % 2 + 2 * XorNat(a / 2, b / 2)
  {
    if a == 0 && b == 0 {
      assert XorNat(0, 0) == 0;
    }
  }

  /** A word in eight digits. */
  datatype Hex = Hex(a: nat, b: nat, c: nat, d: nat, e: nat, f: nat, g: nat, h: nat)

  predicate IsHex(x: Hex) {
    x.a < 16 && x.b < 16 && x.c < 16 && x.d < 16 && x.e < 16 && x.f < 16 && x.g < 16 && x.h < 16
  }

  function Value(x: Hex): nat {
    0x1000_0000 * x.a + 0x100_0000 * x.b + 0x10_0000 * x.c + 0x1_0000 * x.d + 0x1000 * x.e + 0x100 * x.f + 0x10 * x.g + x.h
  }

  /** The digits of an exclusive or of three words. */
  predicate IsXor(x: Hex, y: Hex, z: Hex, m: Hex) {
    && m.a == XorDigit(x.a, y.a, z.a) && m.b == XorDigit(x.b, y.b, z.b) && m.c == XorDigit(x.c, y.c, z.c)
    && m.d == XorDigit(x.d, y.d, z.d) && m.e == XorDigit(x.e, y.e, z.e) && m.f == XorDigit(x.f, y.f, z.f)
    && m.g == XorDigit(x.g, y.g, z.g) && m.h == XorDigit(x.h, y.h, z.h)
  }

  lemma XorHexWord(x: Hex, y: Hex, z: Hex, m: Hex)
    requires IsHex(x) && IsHex(y) && IsHex(z) && IsXor(x, y, z, m)
    ensures Xor3(Value(x), Value(y), Value(z)) == Value(m)
  {
    hide Xor3, XorDigit;
    NoXor();
    XorFourDigits(0, 0, 0, x.a, y.a, z.a, x.b, y.b, z.b, x.c, y.c, z.c, x.d, y.d, z.d);
    XorFourDigits(0x1000 * x.a + 0x100 * x.b + 0x10 * x.c + x.d, 0x1000 * y.a + 0x100 * y.b + 0x10 * y.c + y.d,
                  0x1000 * z.a + 0x100 * z.b + 0x10 * z.c + z.d,
                  x.e, y.e, z.e, x.f, y.f, z.f, x.g, y.g, z.g, x.h, y.h, z.h);
  }

  lemma XorFourDigits(m: nat, n: nat, o: nat, a: nat, b: nat, c: nat, d: nat, e: nat, f: nat,
                      a': nat, b': nat, c': nat, d': nat, e': nat, f': nat)
    requires a < 16 && b < 16 && c < 16 && d < 16 && e < 16 && f < 16
    requires a' < 16 && b' < 16 && c' < 16 && d' < 16 && e' < 16 && f' < 16
    ensures Xor3(0x1_0000 * m + 0x1000 * a + 0x100 * d + 0x10 * a' + d', 0x1_0000 * n + 0x1000 * b + 0x100 * e + 0x10 * b' + e',
                 0x1_0000 * o + 0x1000 * c + 0x100 * f + 0x10 * c' + f')
         == 0x1_0000 * Xor3(m, n, o) + 0x1000 * XorDigit(a, b, c) + 0x100 * XorDigit(d, e, f)
          + 0x10 * XorDigit(a', b', c') + XorDigit(d', e', f')
  {
    hide Xor3, XorDigit;
    XorTwoDigits(m, n, o, a, b, c, d, e, f);
    XorTwoDigits(256 * m + 16 * a + d, 256 * n + 16 * b + e, 256 * o + 16 * c + f, a', b', c', d', e', f');
  }

  lemma XorTwoDigits(m: nat, n: nat, o: nat, a: nat, b: nat, c: nat, d: nat, e: nat, f: nat)
    requires a < 16 && b < 16 && c < 16 && d < 16 && e < 16 && f < 16
    ensures Xor3(256 * m + 16 * a + d, 256 * n + 16 * b + e, 256 * o + 16 * c + f)
         == 256 * Xor3(m, n, o) + 16 * XorDigit(a, b, c) + XorDigit(d, e, f)
  {
    hide Xor3, XorDigit;
    XorDigits(m, n, o, a, b, c);
    XorDigits(16 * m + a, 16 * n + b, 16 * o + c, d, e, f);
  }

  lemma NoXor()
    ensures Xor3(0, 0, 0) == 0
  {}

  // ---------------------------------------------------------------- a block, round by round

  /** The key 00 11 22 .. ff, and its words. */
  const KEY: seq<Byte> := [0x00, 0x11, 0x22, 0x33, 0x44, 0x55, 0x66, 0x77, 0x88, 0x99, 0xaa, 0xbb, 0xcc, 0xdd, 0xee, 0xff]
  const WORDS: KeyWords := [0x33221100, 0x77665544, 0xbbaa9988, 0xffeeddcc]

  const BLOCK: Block := [3, 0, 0, 0, 0x11, 0x22, 0x61, 0x62]

  lemma KeyIsWords()
    ensures KeyWordsOf(KEY) == WORDS && Unpack(BLOCK) == Halves(0x3, 0x62612211)
  {
    assert KEY[0..4] == [0x00, 0x11, 0x22, 0x33] && KEY[4..8] == [0x44, 0x55, 0x66, 0x77];
    assert KEY[8..12] == [0x88, 0x99, 0xaa, 0xbb] && KEY[12..16] == [0xcc, 0xdd, 0xee, 0xff];
    assert BLOCK[0..4] == [3, 0, 0, 0] && BLOCK[4..8] == [0x11, 0x22, 0x61, 0x62];
  }

  /** The three sums of a half round, their exclusive or, in digits, and what it makes of the word. */
  ghost predicate Half(v: nat, w: nat, sum: nat, ka: nat, kb: nat, x: Hex, y: Hex, z: Hex, m: Hex, r: nat) {
    && IsHex(x) && IsHex(y) && IsHex(z) && IsXor(x, y, z, m)
    && Value(x) == (w * 16 + ka) % 0x1_0000_0000 && Value(y) == (w + sum) % 0x1_0000_0000
    && Value(z) == (w / 32 + kb) % 0x1_0000_0000 && r == (v + Value(m)) % 0x1_0000_0000
  }

  lemma HalfIs(v: Word, w: Word, sum: Word, ka: Word, kb: Word, x: Hex, y: Hex, z: Hex, m: Hex, r: nat)
    requires Half(v, w, sum, ka, kb, x, y, z, m, r)
    ensures Plus(v, Mix(w, sum, ka, kb)) == r
  {
    hide Xor3, IsXor, Value, IsHex, Mix;
    XorHexWord(x, y, z, m);
    MixIsXor(w, sum, ka, kb);
  }

  lemma MixIsXor(w: Word, sum: Word, ka: Word, kb: Word)
    ensures Mix(w, sum, ka, kb)
         == Xor3((w * 16 + ka) % 0x1_0000_0000, (w + sum) % 0x1_0000_0000, (w / 32 + kb) % 0x1_0000_0000)
  {
    hide XorNat;
    assert Plus(w * 16 % 0x1_0000_0000, ka) == (w * 16 + ka) % 0x1_0000_0000;
  }

  ghost predicate After(n: nat, v0: nat, v1: nat, sum: nat) {
    var r := EncRounds(WORDS, Halves(0x3, 0x62612211), Schedule(n));
    r.v0 == v0 && r.v1 == v1 && SumBefore(n) == sum
  }

  lemma Round(n: nat, v0: Word, v1: Word, sum: Word, next: Word, x0: Hex, y0: Hex, z0: Hex, m0: Hex,
              w0: Word, x1: Hex, y1: Hex, z1: Hex, m1: Hex, w1: Word)
    requires After(n, v0, v1, sum) && next == (sum + 0x9E3779B9) % 0x1_0000_0000
    requires Half(v0, v1, next, 0x33221100, 0x77665544, x0, y0, z0, m0, w0)
    requires Half(v1, w0, next, 0xbbaa9988, 0xffeeddcc, x1, y1, z1, m1, w1)
    ensures After(n + 1, w0, w1, next)
  {
    hide EncRounds, Schedule, SumBefore, Mix, Half;
    OneRoundMore(n);
    HalfIs(v0, v1, next, 0x33221100, 0x77665544, x0, y0, z0, m0, w0);
    HalfIs(v1, w0, next, 0xbbaa9988, 0xffeeddcc, x1, y1, z1, m1, w1);
  }

  lemma OneRoundMore(n: nat)
    ensures SumBefore(n + 1) == Plus(SumBefore(n), DELTA)
    ensures var h := Halves(0x3, 0x62612211);
            EncRounds(WORDS, h, Schedule(n + 1)) == EncRound(WORDS, EncRounds(WORDS, h, Schedule(n)), SumBefore(n + 1))
  {
    hide EncRound;
    assert Schedule(n + 1)[..n] == Schedule(n) && Schedule(n + 1)[n] == SumBefore(n + 1);
  }

  lemma Round1()
    requires After(0, 0x3, 0x62612211, 0x0)
    ensures After(1, 0x23d5f791, 0x9c6c106b, 0x9e3779b9)
  {
    hide After;
    Round(0, 0x3, 0x62612211, 0x0, 0x9e3779b9,
          Hex(5, 9, 3, 4, 3, 2, 1, 0), Hex(0, 0, 9, 8, 9, 0xb, 0xc, 0xa),
          Hex(7, 0xa, 7, 9, 5, 0xe, 5, 4), Hex(2, 3, 0xd, 5, 0xf, 7, 8, 0xe), 0x23d5f791,
          Hex(0xf, 9, 0, 0xa, 1, 2, 9, 8), Hex(0xc, 2, 0, 0xd, 7, 1, 4, 0xa),
          Hex(0, 1, 0, 0xd, 8, 0xd, 8, 8), Hex(3, 0xa, 0, 0xa, 0xe, 0xe, 5, 0xa), 0x9c6c106b);
  }

  lemma Round2()
    requires After(1, 0x23d5f791, 0x9c6c106b, 0x9e3779b9)
    ensures After(2, 0x8147993b, 0xad7cb6b, 0x3c6ef372)
  {
    hide After;
    Round(1, 0x23d5f791, 0x9c6c106b, 0x9e3779b9, 0x3c6ef372,
          Hex(0xf, 9, 0xe, 3, 1, 7, 0xb, 0), Hex(0xd, 8, 0xd, 0xb, 0, 3, 0xd, 0xd),
          Hex(7, 0xc, 4, 9, 0xb, 5, 0xc, 7), Hex(5, 0xd, 7, 1, 0xa, 1, 0xa, 0xa), 0x8147993b,
          Hex(0xd, 0, 2, 4, 2, 0xd, 3, 8), Hex(0xb, 0xd, 0xb, 6, 8, 0xc, 0xa, 0xd),
          Hex(0, 3, 0xf, 9, 1, 0xa, 9, 5), Hex(6, 0xe, 6, 0xb, 0xb, 0xb, 0, 0), 0xad7cb6b);
  }

  lemma Round3()
    requires After(2, 0x8147993b, 0xad7cb6b, 0x3c6ef372)
    ensures After(3, 0xf3a585f4, 0x4a9ccd97, 0xdaa66d2b)
  {
    hide After;
    Round(2, 0x8147993b, 0xad7cb6b, 0x3c6ef372, 0xdaa66d2b,
          Hex(0xe, 0, 9, 0xe, 0xc, 7, 0xb, 0), Hex(0xe, 5, 7, 0xe, 3, 8, 9, 6),
          Hex(7, 7, 0xb, 0xd, 1, 3, 9, 0xf), Hex(7, 2, 5, 0xd, 0xe, 0xc, 0xb, 9), 0xf3a585f4,
          Hex(0xf, 6, 0, 2, 0xf, 8, 0xc, 8), Hex(0xc, 0xe, 4, 0xb, 0xf, 3, 1, 0xf),
          Hex(0, 7, 8, 0xc, 0, 9, 0xf, 0xb), Hex(3, 0xf, 0xc, 5, 0, 2, 2, 0xc), 0x4a9ccd97);
  }

  lemma Round4()
    requires After(3, 0xf3a585f4, 0x4a9ccd97, 0xdaa66d2b)
    ensures After(4, 0x59d4ebaf, 0xd392d159, 0x78dde6e4)
  {
    hide After;
    Round(3, 0xf3a585f4, 0x4a9ccd97, 0xdaa66d2b, 0x78dde6e4,
          Hex(0xd, 0xc, 0xe, 0xe, 0xe, 0xa, 7, 0), Hex(0xc, 3, 7, 0xa, 0xb, 4, 7, 0xb),
          Hex(7, 9, 0xb, 0xb, 3, 0xb, 0xb, 0), Hex(6, 6, 2, 0xf, 6, 5, 0xb, 0xb), 0x59d4ebaf,
          Hex(5, 8, 0xf, 9, 5, 4, 7, 8), Hex(0xd, 2, 0xb, 2, 0xd, 2, 9, 3),
          Hex(0, 2, 0xb, 0xd, 8, 5, 2, 9), Hex(8, 8, 0xf, 6, 0, 3, 0xc, 2), 0xd392d159);
  }

  lemma Round5()
    requires After(4, 0x59d4ebaf, 0xd392d159, 0x78dde6e4)
    ensures After(5, 0x52bae857, 0x5fa0b45b, 0x1715609d)
  {
    hide After;
    Round(4, 0x59d4ebaf, 0xd392d159, 0x78dde6e4, 0x1715609d,
          Hex(6, 0xc, 4, 0xf, 2, 6, 9, 0), Hex(0xe, 0xa, 0xa, 8, 3, 1, 0xf, 6),
          Hex(7, 0xe, 0, 2, 0xe, 0xb, 0xc, 0xe), Hex(0xf, 8, 0xe, 5, 0xf, 0xc, 0xa, 8), 0x52bae857,
          Hex(0xe, 7, 5, 9, 1, 0xe, 0xf, 8), Hex(6, 9, 0xd, 0, 4, 8, 0xf, 4),
          Hex(0, 2, 8, 4, 0xb, 5, 0, 0xe), Hex(8, 0xc, 0, 0xd, 0xe, 3, 0, 2), 0x5fa0b45b);
  }

  lemma Round6()
    requires After(5, 0x52bae857, 0x5fa0b45b, 0x1715609d)
    ensures After(6, 0x965e6b3e, 0xce3c8e34, 0xb54cda56)
  {
    hide After;
    Round(5, 0x52bae857, 0x5fa0b45b, 0x1715609d, 0xb54cda56,
          Hex(2, 0xd, 2, 0xd, 5, 6, 0xb, 0), Hex(1, 4, 0xe, 0xd, 8, 0xe, 0xb, 1),
          Hex(7, 0xa, 6, 3, 5, 0xa, 0xe, 6), Hex(4, 3, 0xa, 3, 8, 2, 0xe, 7), 0x965e6b3e,
          Hex(2, 1, 9, 1, 4, 0xd, 6, 8), Hex(4, 0xb, 0xa, 0xb, 4, 5, 9, 4),
          Hex(0, 4, 0xa, 1, 0xd, 1, 2, 5), Hex(6, 0xe, 9, 0xb, 0xd, 9, 0xd, 9), 0xce3c8e34);
  }

  lemma Round7()
    requires After(6, 0x965e6b3e, 0xce3c8e34, 0xb54cda56)
    ensures After(7, 0xe1509af4, 0xb0d6539c, 0x5384540f)
  {
    hide After;
    Round(6, 0x965e6b3e, 0xce3c8e34, 0xb54cda56, 0x5384540f,
          Hex(1, 6, 0xe, 0xa, 0xf, 4, 4, 0), Hex(2, 1, 0xc, 0, 0xe, 2, 4, 3),
          Hex(7, 0xd, 0xd, 8, 3, 9, 0xb, 5), Hex(4, 0xa, 0xf, 2, 2, 0xf, 0xb, 6), 0xe1509af4,
          Hex(0xd, 0, 0xb, 4, 4, 8, 0xc, 8), Hex(3, 4, 0xd, 4, 0xe, 0xf, 0, 3),
          Hex(0, 6, 0xf, 9, 6, 2, 0xa, 3), Hex(0xe, 2, 9, 9, 0xc, 5, 6, 8), 0xb0d6539c);
  }

  lemma Round8()
    requires After(7, 0xe1509af4, 0xb0d6539c, 0x5384540f)
    ensures After(8, 0x80490738, 0x62a551a9, 0xf1bbcdc8)
  {
    hide After;
    Round(7, 0xe1509af4, 0xb0d6539c, 0x5384540f, 0xf1bbcdc8,
          Hex(4, 0, 8, 7, 4, 0xa, 0xc, 0), Hex(0xa, 2, 9, 2, 2, 1, 6, 4),
          Hex(7, 0xc, 0xe, 0xd, 0, 7, 0xe, 0), Hex(9, 0xe, 0xf, 8, 6, 0xc, 4, 4), 0x80490738,
          Hex(0xc, 0, 3, 0xb, 0, 0xd, 0, 8), Hex(7, 2, 0, 4, 0xd, 5, 0, 0),
          Hex(0, 3, 0xf, 1, 2, 6, 0, 5), Hex(0xb, 1, 0xc, 0xe, 0xf, 0xe, 0, 0xd), 0x62a551a9);
  }

  lemma Round9()
    requires After(8, 0x80490738, 0x62a551a9, 0xf1bbcdc8)
    ensures After(9, 0x55ddd4a3, 0x61708596, 0x8ff34781)
  {
    hide After;
    Round(8, 0x80490738, 0x62a551a9, 0xf1bbcdc8, 0x8ff34781,
          Hex(5, 0xd, 7, 7, 2, 0xb, 9, 0), Hex(0xf, 2, 9, 8, 9, 9, 2, 0xa),
          Hex(7, 0xa, 7, 0xb, 7, 0xf, 0xd, 1), Hex(0xd, 5, 9, 4, 0xc, 0xd, 6, 0xb), 0x55ddd4a3,
          Hex(1, 9, 8, 7, 0xe, 3, 0xb, 8), Hex(0xe, 5, 0xd, 1, 1, 0xc, 2, 4),
          Hex(0, 2, 9, 0xd, 0xc, 0xc, 7, 1), Hex(0xf, 0xe, 0xc, 0xb, 3, 3, 0xe, 0xd), 0x61708596);
  }

  lemma Round10()
    requires After(9, 0x55ddd4a3, 0x61708596, 0x8ff34781)
    ensures After(10, 0x159eca63, 0xb835e5d0, 0x2e2ac13a)
  {
    hide After;
    Round(9, 0x55ddd4a3, 0x61708596, 0x8ff34781, 0x2e2ac13a,
          Hex(4, 0xa, 2, 0xa, 6, 0xa, 6, 0), Hex(8, 0xf, 9, 0xb, 4, 6, 0xd, 0),
          Hex(7, 0xa, 7, 1, 0xd, 9, 7, 0), Hex(0xb, 0xf, 0xc, 0, 0xf, 5, 0xc, 0), 0x159eca63,
          Hex(1, 5, 9, 7, 3, 0xf, 0xb, 8), Hex(4, 3, 0xc, 9, 8, 0xb, 9, 0xd),
          Hex(0, 0, 9, 0xb, 0xd, 4, 1, 0xf), Hex(5, 6, 0xc, 5, 6, 0, 3, 0xa), 0xb835e5d0);
  }

  lemma Round11()
    requires After(10, 0x159eca63, 0xb835e5d0, 0x2e2ac13a)
    ensures After(11, 0x64cf1514, 0xf2f5d28b, 0xcc623af3)
  {
    hide After;
    Round(10, 0x159eca63, 0xb835e5d0, 0x2e2ac13a, 0xcc623af3,
          Hex(0xb, 6, 8, 0, 6, 0xe, 0, 0), Hex(8, 4, 9, 8, 2, 0, 0xc, 3),
          Hex(7, 0xd, 2, 8, 0, 4, 7, 2), Hex(4, 0xf, 3, 0, 4, 0xa, 0xb, 1), 0x64cf1514,
          Hex(0, 8, 9, 0xb, 0xe, 0xa, 0xc, 8), Hex(3, 1, 3, 1, 5, 0, 0, 7),
          Hex(0, 3, 1, 5, 5, 6, 7, 4), Hex(3, 0xa, 0xb, 0xf, 0xe, 0xc, 0xb, 0xb), 0xf2f5d28b);
  }

  lemma Round12()
    requires After(11, 0x64cf1514, 0xf2f5d28b, 0xcc623af3)
    ensures After(12, 0xa5ddd273, 0xffe35e83, 0x6a99b4ac)
  {
    hide After;
    Round(11, 0x64cf1514, 0xf2f5d28b, 0xcc623af3, 0x6a99b4ac,
          Hex(6, 2, 7, 0xf, 3, 9, 0xb, 0), Hex(5, 0xd, 8, 0xf, 8, 7, 3, 7),
          Hex(7, 0xe, 0xf, 0xe, 0, 3, 0xd, 8), Hex(4, 1, 0, 0xe, 0xb, 0xd, 5, 0xf), 0xa5ddd273,
          Hex(1, 9, 8, 7, 0xc, 0, 0xb, 8), Hex(1, 0, 7, 7, 8, 7, 1, 0xf),
          Hex(0, 5, 1, 0xd, 0xc, 0xc, 5, 0xf), Hex(0, 0xc, 0xe, 0xd, 8, 0xb, 0xf, 8), 0xffe35e83);
  }

  lemma Round13()
    requires After(12, 0xa5ddd273, 0xffe35e83, 0x6a99b4ac)
    ensures After(13, 0xec63d853, 0x73704311, 0x8d12e65)
  {
    hide After;
    Round(12, 0xa5ddd273, 0xffe35e83, 0x6a99b4ac, 0x8d12e65,
          Hex(3, 1, 5, 7, 0xf, 9, 3, 0), Hex(0, 8, 0xb, 4, 8, 0xc, 0xe, 8),
          Hex(7, 0xf, 6, 5, 7, 0, 3, 8), Hex(4, 6, 8, 6, 0, 5, 0xe, 0), 0xec63d853,
          Hex(8, 1, 0xe, 8, 1, 0xe, 0xb, 8), Hex(0xf, 5, 3, 5, 0, 6, 0xb, 8),
          Hex(0, 7, 5, 1, 0xf, 0xc, 8, 0xe), Hex(7, 3, 8, 0xc, 0xe, 4, 8, 0xe), 0x73704311);
  }

  lemma Round14()
    requires After(13, 0xec63d853, 0x73704311, 0x8d12e65)
    ensures After(14, 0xf7c356b6, 0x21f745ce, 0xa708a81e)
  {
    hide After;
    Round(13, 0xec63d853, 0x73704311, 0x8d12e65, 0xa708a81e,
          Hex(6, 0xa, 2, 6, 4, 2, 1, 0), Hex(1, 0xa, 7, 8, 0xe, 0xb, 2, 0xf),
          Hex(7, 0xb, 0, 1, 0xd, 7, 5, 0xc), Hex(0, 0xb, 5, 0xf, 7, 0xe, 6, 3), 0xf7c356b6,
          Hex(3, 7, 0xe, 0, 0, 4, 0xe, 8), Hex(9, 0xe, 0xc, 0xb, 0xf, 0xe, 0xd, 4),
          Hex(0, 7, 0xa, 0xc, 0xf, 8, 8, 1), Hex(0xa, 0xe, 8, 7, 0, 2, 0xb, 0xd), 0x21f745ce);
  }

  lemma Round15()
    requires After(14, 0xf7c356b6, 0x21f745ce, 0xa708a81e)
    ensures After(15, 0x459a5bed, 0xbf88db05, 0x454021d7)
  {
    hide After;
    Round(14, 0xf7c356b6, 0x21f745ce, 0xa708a81e, 0x454021d7,
          Hex(5, 2, 9, 6, 6, 0xd, 0xe, 0), Hex(6, 7, 3, 7, 6, 7, 0xa, 5),
          Hex(7, 8, 7, 6, 0, 0xf, 7, 2), Hex(4, 0xd, 0xd, 7, 0, 5, 3, 7), 0x459a5bed,
          Hex(1, 5, 5, 0, 5, 8, 5, 8), Hex(8, 0xa, 0xd, 0xa, 7, 0xd, 0xc, 4),
          Hex(0, 2, 1, 0xb, 0xb, 0, 0xa, 0xb), Hex(9, 0xd, 9, 1, 9, 5, 3, 7), 0xbf88db05);
  }

  lemma Round16()
    requires After(15, 0x459a5bed, 0xbf88db05, 0x454021d7)
    ensures After(16, 0x3b6787c6, 0x2cbf07b9, 0xe3779b90)
  {
    hide After;
    Round(15, 0x459a5bed, 0xbf88db05, 0x454021d7, 0xe3779b90,
          Hex(2, 0xb, 0xa, 0xf, 0xc, 1, 5, 0), Hex(0xa, 3, 0, 0, 7, 6, 9, 5),
          Hex(7, 0xd, 6, 2, 9, 0xc, 1, 0xc), Hex(0xf, 5, 0xc, 0xd, 2, 0xb, 0xd, 9), 0x3b6787c6,
          Hex(7, 2, 2, 3, 1, 5, 0xe, 8), Hex(1, 0xe, 0xd, 0xf, 2, 3, 5, 6),
          Hex(0, 1, 0xc, 0xa, 1, 0xa, 0, 0xa), Hex(6, 0xd, 3, 6, 2, 0xc, 0xb, 4), 0x2cbf07b9);
  }

  /** The block 03 00 00 00 11 22 61 62 under the key 00 11 22 .. ff. */
  lemma KnownAnswer()
    ensures EncBlock(KeyWordsOf(KEY), BLOCK) == [0xc6, 0x87, 0x67, 0x3b, 0xb9, 0x07, 0xbf, 0x2c]
  {
    hide EncRounds, Schedule, SumBefore, KeyWordsOf, Unpack;
    KeyIsWords();
    NoRounds();
    Round1();
    Round2();
    Round3();
    Round4();
    Round5();
    Round6();
    Round7();
    Round8();
    Round9();
    Round10();
    Round11();
    Round12();
    Round13();
    Round14();
    Round15();
    Round16();
    hide Bytes32;
    LastBytes();
  }

  lemma NoRounds()
    ensures After(0, 0x3, 0x62612211, 0)
  {}

  lemma LastBytes()
    ensures Bytes32(0x3b6787c6) + Bytes32(0x2cbf07b9) == [0xc6, 0x87, 0x67, 0x3b, 0xb9, 0x07, 0xbf, 0x2c]
  {}
}
