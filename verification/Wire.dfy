/** The bytes of a datagram: where every field stands, and one datagram in full. */
module Wire {
  import opened Bytes
  import opened Crc7
  import opened Tea
  import opened Packet

  /** The send options that number a packet, except for the acknowledgement, command 2. */
  predicate Numbered(cmd: nat, sendOption: nat) {
    cmd != 2 && (sendOption == 1 || sendOption == 2 || sendOption == 5)
  }

  /** The bytes behind the two checked ones, low bytes first. */
  function Body(p: Packet, carried: seq<Byte>): seq<Byte> {
    var n: nat, hi: int, seqHi: int, orderHi: int := |carried| % 0x1_0000, p.cmd / 256, p.seqID / 256, p.orderID / 256;
    var high: int := n / 256;
    [p.sendOption, p.cmd % 256, hi]
    + (if Numbered(p.cmd, p.sendOption) then [p.seqID % 256, seqHi, p.orderID % 256, orderHi] else [])
    + [p.flags, n % 256, high] + carried
  }

  /** Every encoded datagram, byte for byte: the key byte, the checksum of all that follows, send option,
      command, the two numbers of a reliable packet, flags, length, and the payload, enciphered when the lowest
      flag is set. A receiver refuses one with the second flag. */
  lemma DatagramBytes(p: Packet, key: seq<Byte>, salt: seq<Byte>)
    requires |salt| == 2
    ensures p.flags % 2 == 0 ==>
              Encoded(p, key, salt) == Ok([0x6C, Checksum(0, Body(p, p.payload))] + Body(p, p.payload))
    ensures p.flags % 2 == 1 && |key| != 16 ==> Encoded(p, key, salt) == Err(TeaBadInput)
    ensures p.flags % 2 == 1 && |key| == 16 ==>
              var c := Enciphered(p.payload, key, salt).value;
              Encoded(p, key, salt) == Ok([0x6C, Checksum(0, Body(p, c))] + Body(p, c))
    ensures p.flags / 2 % 2 == 1 && Encoded(p, key, salt).Ok? ==>
              Decoded(Encoded(p, key, salt).value, key) == Err(GzipUnsupported)
  {
    hide Checksum, Chain, KeyWordsOf, Layout;
    if Encoded(p, key, salt).Ok? {
      var c := Carried(p, key, salt).value;
      HeaderIs(p, c);
      DecodeOfEncode(p, key, salt, c);
    }
  }

  lemma HeaderIs(p: Packet, carried: seq<Byte>)
    ensures Header(p, |carried|) + carried == Body(p, carried)
  {
    LowWord(|carried|);
  }

  lemma LowWord(n: nat)
    ensures n % 0x1_0000 % 256 == n % 256 && n % 0x1_0000 / 256 == n / 256 % 256
  {
    var q, r := n / 0x1_0000, n % 0x1_0000;
    assert n == 256 * (256 * q + r / 256) + r % 256;
    assert n / 256 == 256 * q + r / 256;
  }

  // ---------------------------------------------------------------- one datagram

  lemma EightBits(n: nat)
    ensures BitsOf(n, 8) == [n / 128 % 2 == 1, n / 64 % 2 == 1, n / 32 % 2 == 1, n / 16 % 2 == 1, n / 8 % 2 == 1,
                             n / 4 % 2 == 1, n / 2 % 2 == 1, n % 2 == 1]
  {
    hide BitsOf;
    FourBits(n, 4);
    FourBits(n / 16, 0);
    NoBits(n / 256);
    Sixteenth(n);
    assert BitsOf(n / 16, 4) == [n / 128 % 2 == 1, n / 64 % 2 == 1, n / 32 % 2 == 1, n / 16 % 2 == 1];
  }

  lemma Sixteenth(n: nat)
    ensures n / 16 / 8 == n / 128 && n / 16 / 4 == n / 64 && n / 16 / 2 == n / 32 && n / 16 / 16 == n / 256
  {}

  lemma FourBits(n: nat, width: nat)
    ensures BitsOf(n, width + 4) == BitsOf(n / 16, width) + [n / 8 % 2 == 1, n / 4 % 2 == 1, n / 2 % 2 == 1, n % 2 == 1]
  {
    hide BitsOf;
    OneBit(n, width + 4);
    OneBit(n / 2, width + 3);
    OneBit(n / 4, width + 2);
    OneBit(n / 8, width + 1);
  }

  lemma OneBit(n: nat, width: nat)
    requires width > 0
    ensures BitsOf(n, width) == BitsOf(n / 2, width - 1) + [n % 2 == 1]
  {}

  lemma NoBits(n: nat)
    ensures BitsOf(n, 0) == []
  {}

  /** The register after the bytes. */
  ghost predicate Feeds(buf: seq<Byte>, r: Register) {
    Run(ZERO, MessageBits(buf)) == r
  }

  /** Four bits more. */
  function Fed(r: Register, a: bool, b: bool, c: bool, d: bool): Register {
    Shift(Shift(Shift(Shift(r, a), b), c), d)
  }

  lemma OneByteMore(buf: seq<Byte>, b: Byte, r: Register)
    requires Feeds(buf, r)
    ensures Feeds(buf + [b], Fed(Fed(r, b / 128 % 2 == 1, b / 64 % 2 == 1, b / 32 % 2 == 1, b / 16 % 2 == 1),
                                 b / 8 % 2 == 1, b / 4 % 2 == 1, b / 2 % 2 == 1, b % 2 == 1))
  {
    hide Run, MessageBits, Shift, BitsOf;
    MessageBitsLast(buf + [b]);
    assert (buf + [b])[..|buf|] == buf;
    EightBits(b);
    RunConcat(ZERO, MessageBits(buf), ByteBits(b));
    EightShiftsOf(r, b / 128 % 2 == 1, b / 64 % 2 == 1, b / 32 % 2 == 1, b / 16 % 2 == 1,
                  b / 8 % 2 == 1, b / 4 % 2 == 1, b / 2 % 2 == 1, b % 2 == 1);
  }

  lemma EightShiftsOf(r: Register, a: bool, b: bool, c: bool, d: bool, e: bool, f: bool, g: bool, h: bool)
    ensures Run(r, [a, b, c, d, e, f, g, h]) == Fed(Fed(r, a, b, c, d), e, f, g, h)
  {
    hide Shift;
    FourShifts(r, a, b, c, d);
    FourShifts(Fed(r, a, b, c, d), e, f, g, h);
    RunConcat(r, [a, b, c, d], [e, f, g, h]);
    assert [a, b, c, d] + [e, f, g, h] == [a, b, c, d, e, f, g, h];
  }

  lemma FourShifts(r: Register, a: bool, b: bool, c: bool, d: bool)
    ensures Run(r, [a, b, c, d]) == Fed(r, a, b, c, d)
  {
    hide Shift;
    OneShift(r, [], a);
    OneShift(r, [a], b);
    OneShift(r, [a, b], c);
    OneShift(r, [a, b, c], d);
    assert [] + [a] == [a] && [a] + [b] == [a, b] && [a, b] + [c] == [a, b, c] && [a, b, c] + [d] == [a, b, c, d];
    NoShift(r);
  }

  lemma NoShift(r: Register)
    ensures Run(r, []) == r
  {}

  lemma OneShift(r: Register, m: Bits, bit: bool)
    ensures Run(r, m + [bit]) == Shift(Run(r, m), bit)
  {
    hide Shift;
    assert (m + [bit])[..|m|] == m;
  }

  lemma Byte1()
    requires Feeds([], [false, false, false, false, false, false, false])
    ensures Feeds([2], [false, false, true, false, false, true, false])
  {
    hide Feeds;
    OneByteMore([], 2, [false, false, false, false, false, false, false]);
    assert [] + [2] == [2];
  }

  lemma Byte2()
    requires Feeds([2], [false, false, true, false, false, true, false])
    ensures Feeds([2, 0x34], [false, false, true, true, false, false, true])
  {
    hide Feeds;
    OneByteMore([2], 0x34, [false, false, true, false, false, true, false]);
    assert [2] + [0x34] == [2, 0x34];
  }

  lemma Byte3()
    requires Feeds([2, 0x34], [false, false, true, true, false, false, true])
    ensures Feeds([2, 0x34, 1], [false, true, true, false, false, false, false])
  {
    hide Feeds;
    OneByteMore([2, 0x34], 1, [false, false, true, true, false, false, true]);
    assert [2, 0x34] + [1] == [2, 0x34, 1];
  }

  lemma Byte4()
    requires Feeds([2, 0x34, 1], [false, true, true, false, false, false, false])
    ensures Feeds([2, 0x34, 1, 6], [true, true, false, false, false, false, false])
  {
    hide Feeds;
    OneByteMore([2, 0x34, 1], 6, [false, true, true, false, false, false, false]);
    assert [2, 0x34, 1] + [6] == [2, 0x34, 1, 6];
  }

  lemma Byte5()
    requires Feeds([2, 0x34, 1, 6], [true, true, false, false, false, false, false])
    ensures Feeds([2, 0x34, 1, 6, 5], [false, false, false, true, false, false, false])
  {
    hide Feeds;
    OneByteMore([2, 0x34, 1, 6], 5, [true, true, false, false, false, false, false]);
    assert [2, 0x34, 1, 6] + [5] == [2, 0x34, 1, 6, 5];
  }

  lemma Byte6()
    requires Feeds([2, 0x34, 1, 6, 5], [false, false, false, true, false, false, false])
    ensures Feeds([2, 0x34, 1, 6, 5, 8], [true, false, true, false, false, false, true])
  {
    hide Feeds;
    OneByteMore([2, 0x34, 1, 6, 5], 8, [false, false, false, true, false, false, false]);
    assert [2, 0x34, 1, 6, 5] + [8] == [2, 0x34, 1, 6, 5, 8];
  }

  lemma Byte7()
    requires Feeds([2, 0x34, 1, 6, 5, 8], [true, false, true, false, false, false, true])
    ensures Feeds([2, 0x34, 1, 6, 5, 8, 7], [true, false, true, true, true, true, false])
  {
    hide Feeds;
    OneByteMore([2, 0x34, 1, 6, 5, 8], 7, [true, false, true, false, false, false, true]);
    assert [2, 0x34, 1, 6, 5, 8] + [7] == [2, 0x34, 1, 6, 5, 8, 7];
  }

  lemma Byte8()
    requires Feeds([2, 0x34, 1, 6, 5, 8, 7], [true, false, true, true, true, true, false])
    ensures Feeds([2, 0x34, 1, 6, 5, 8, 7, 0], [false, false, false, false, true, true, false])
  {
    hide Feeds;
    OneByteMore([2, 0x34, 1, 6, 5, 8, 7], 0, [true, false, true, true, true, true, false]);
    assert [2, 0x34, 1, 6, 5, 8, 7] + [0] == [2, 0x34, 1, 6, 5, 8, 7, 0];
  }

  lemma Byte9()
    requires Feeds([2, 0x34, 1, 6, 5, 8, 7, 0], [false, false, false, false, true, true, false])
    ensures Feeds([2, 0x34, 1, 6, 5, 8, 7, 0, 1], [true, true, false, false, true, false, true])
  {
    hide Feeds;
    OneByteMore([2, 0x34, 1, 6, 5, 8, 7, 0], 1, [false, false, false, false, true, true, false]);
    assert [2, 0x34, 1, 6, 5, 8, 7, 0] + [1] == [2, 0x34, 1, 6, 5, 8, 7, 0, 1];
  }

  lemma Byte10()
    requires Feeds([2, 0x34, 1, 6, 5, 8, 7, 0, 1], [true, true, false, false, true, false, true])
    ensures Feeds([2, 0x34, 1, 6, 5, 8, 7, 0, 1, 0], [true, true, true, true, true, true, true])
  {
    hide Feeds;
    OneByteMore([2, 0x34, 1, 6, 5, 8, 7, 0, 1], 0, [true, true, false, false, true, false, true]);
    assert [2, 0x34, 1, 6, 5, 8, 7, 0, 1] + [0] == [2, 0x34, 1, 6, 5, 8, 7, 0, 1, 0];
  }

  lemma Byte11()
    requires Feeds([2, 0x34, 1, 6, 5, 8, 7, 0, 1, 0], [true, true, true, true, true, true, true])
    ensures Feeds([2, 0x34, 1, 6, 5, 8, 7, 0, 1, 0, 0x78], [true, true, true, false, true, true, true])
  {
    hide Feeds;
    OneByteMore([2, 0x34, 1, 6, 5, 8, 7, 0, 1, 0], 0x78, [true, true, true, true, true, true, true]);
    assert [2, 0x34, 1, 6, 5, 8, 7, 0, 1, 0] + [0x78] == [2, 0x34, 1, 6, 5, 8, 7, 0, 1, 0, 0x78];
  }

  lemma NoBytes()
    ensures Feeds([], ZERO)
  {}

  /** The checksum of [2, 0x34, 1, 6, 5, 8, 7, 0, 1, 0, 0x78]. */
  lemma KnownChecksum()
    ensures Checksum(0, [2, 0x34, 1, 6, 5, 8, 7, 0, 1, 0, 0x78]) == 0x77
  {
    hide Run, MessageBits;
    NoBytes();
    Byte1();
    Byte2();
    Byte3();
    Byte4();
    Byte5();
    Byte6();
    Byte7();
    Byte8();
    Byte9();
    Byte10();
    Byte11();
    ZeroSeed();
    SevenBitsOf([true, true, true, false, true, true, true]);
  }

  lemma ZeroSeed()
    ensures BitsOf(0, 7) == ZERO
  {}

  lemma SevenBitsOf(r: Register)
    ensures NatOf(r) == (if r[0] then 64 else 0) + (if r[1] then 32 else 0) + (if r[2] then 16 else 0)
                      + (if r[3] then 8 else 0) + (if r[4] then 4 else 0) + (if r[5] then 2 else 0) + (if r[6] then 1 else 0)
  {
    hide NatOf;
    LastBit(r);
    LastBit(r[..6]);
    LastBit(r[..5]);
    LastBit(r[..4]);
    LastBit(r[..3]);
    LastBit(r[..2]);
    LastBit(r[..1]);
    assert r[..6][..5] == r[..5] && r[..5][..4] == r[..4] && r[..4][..3] == r[..3] && r[..3][..2] == r[..2];
    assert r[..2][..1] == r[..1] && r[..1][..0] == [];
    NoNumber();
  }

  lemma LastBit(b: Bits)
    requires |b| > 0
    ensures NatOf(b) == 2 * NatOf(b[..|b| - 1]) + if b[|b| - 1] then 1 else 0
  {}

  lemma NoNumber()
    ensures NatOf([]) == 0
  {}

  /** Command 308 sent reliably with the numbers 1286 and 1800 and the letter x. */
  lemma KnownDatagram(key: seq<Byte>, salt: seq<Byte>)
    requires |salt| == 2
    ensures Encoded(Packet(2, 308, 1286, 1800, 0, [0x78]), key, salt)
         == Ok([0x6c, 0x77, 2, 0x34, 1, 6, 5, 8, 7, 0, 1, 0, 0x78])
  {
    hide Checksum, Encoded;
    KnownChecksum();
    var p := Packet(2, 308, 1286, 1800, 0, [0x78]);
    DatagramBytes(p, key, salt);
    var b := Body(p, p.payload);
    assert b == [2, 0x34, 1, 6, 5, 8, 7, 0, 1, 0, 0x78];
    assert [0x6C, Checksum(0, b)] + b == [0x6c, 0x77, 2, 0x34, 1, 6, 5, 8, 7, 0, 1, 0, 0x78];
  }
}
