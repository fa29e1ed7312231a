/** match-server/crypto/tea.go: a 16-round TEA block cipher in a chaining mode with two feedback
    vectors, over a padded, salted and zero-terminated layout. */
module Tea {
  import opened Bytes

  const DELTA: Word := 0x9E3779B9
  const SUM_INIT: Word := 0xE3779B90
  const ROUNDS: nat := 16

  type KeyWords = k: seq<Word> | |k| == 4 witness [0, 0, 0, 0]
  type Block = b: seq<Byte> | |b| == 8 witness [0, 0, 0, 0, 0, 0, 0, 0]

  // ---------------------------------------------------------------- block cipher

  datatype Halves = Halves(v0: Word, v1: Word)

  /** The round constants, in encryption order. */
  function Schedule(rounds: nat): (sums: seq<Word>)
    ensures |sums| == rounds
  {
    seq(rounds, i requires 0 <= i < rounds => SumBefore(i + 1))
  }

  /** The running sum before encryption round i, which is also the one after decryption round i. */
  function SumBefore(i: nat): Word {
    if i == 0 then 0 else Plus(SumBefore(i - 1), DELTA)
  }

  /** Adding up from zero, or down from SUM_INIT, both walk the schedule. */
  lemma SumSteps(i: nat)
    ensures Minus(SumBefore(i + 1), DELTA) == SumBefore(i)
  {
    PlusMinus(SumBefore(i), DELTA);
  }

  /** SUM_INIT is sixteen times DELTA modulo 2^32. */
  lemma SumInit()
    ensures SumBefore(ROUNDS) == SUM_INIT
  {
    assert SumBefore(2) == 0x3C6EF372;
    assert SumBefore(4) == 0x78DDE6E4;
    assert SumBefore(6) == 0xB54CDA56;
    assert SumBefore(8) == 0xF1BBCDC8;
    assert SumBefore(10) == 0x2E2AC13A;
    assert SumBefore(12) == 0x6A99B4AC;
    assert SumBefore(14) == 0xA708A81E;
  }

  function Mix(v: Word, sum: Word, ka: Word, kb: Word): Word {
    XorWord(XorWord(Plus(v * 16 % 0x1_0000_0000, ka), Plus(v, sum)), Plus(v / 32, kb))
  }

  function EncRound(k: KeyWords, h: Halves, sum: Word): Halves {
    var v0 := Plus(h.v0, Mix(h.v1, sum, k[0], k[1]));
    Halves(v0, Plus(h.v1, Mix(v0, sum, k[2], k[3])))
  }

  function DecRound(k: KeyWords, h: Halves, sum: Word): Halves {
    var v1 := Minus(h.v1, Mix(h.v0, sum, k[2], k[3]));
    Halves(Minus(h.v0, Mix(v1, sum, k[0], k[1])), v1)
  }

  function EncRounds(k: KeyWords, h: Halves, sums: seq<Word>): Halves {
    if |sums| == 0 then h
    else EncRound(k, EncRounds(k, h, sums[..|sums| - 1]), sums[|sums| - 1])
  }

  /** Decryption runs through the constants backwards. */
  function DecRounds(k: KeyWords, h: Halves, sums: seq<Word>): Halves
    decreases |sums|
  {
    if |sums| == 0 then h
    else DecRounds(k, DecRound(k, h, sums[|sums| - 1]), sums[..|sums| - 1])
  }

  lemma RoundInverse(k: KeyWords, h: Halves, sum: Word)
    ensures DecRound(k, EncRound(k, h, sum), sum) == h
    ensures EncRound(k, DecRound(k, h, sum), sum) == h
  {
    PlusMinus(h.v0, Mix(h.v1, sum, k[0], k[1]));
    PlusMinus(h.v1, Mix(EncRound(k, h, sum).v0, sum, k[2], k[3]));
    PlusMinus(h.v1, Mix(h.v0, sum, k[2], k[3]));
    PlusMinus(h.v0, Mix(DecRound(k, h, sum).v1, sum, k[0], k[1]));
  }

  lemma {:induction false} RoundsInverse(k: KeyWords, h: Halves, sums: seq<Word>)
    ensures DecRounds(k, EncRounds(k, h, sums), sums) == h
    ensures EncRounds(k, DecRounds(k, h, sums), sums) == h
    decreases |sums|
  {
    if |sums| > 0 {
      var init, last := sums[..|sums| - 1], sums[|sums| - 1];
      RoundInverse(k, EncRounds(k, h, init), last);
      RoundsInverse(k, h, init);
      RoundsInverse(k, DecRound(k, h, last), init);
      RoundInverse(k, h, last);
    }
  }

  function Pack(h: Halves): Block {
    Bytes32(h.v0) + Bytes32(h.v1)
  }

  function Unpack(b: Block): Halves {
    Halves(Word32(b[0..4]), Word32(b[4..8]))
  }

  function EncBlock(k: KeyWords, b: Block): Block {
    Pack(EncRounds(k, Unpack(b), Schedule(ROUNDS)))
  }

  function DecBlock(k: KeyWords, b: Block): Block {
    Pack(DecRounds(k, Unpack(b), Schedule(ROUNDS)))
  }

  function Encryptor(k: KeyWords): BlockMap {
    b => EncBlock(k, b)
  }

  function Decryptor(k: KeyWords): BlockMap {
    b => DecBlock(k, b)
  }

  lemma UnpackOfPack(h: Halves)
    ensures Unpack(Pack(h)) == h
  {
    assert Pack(h)[0..4] == Bytes32(h.v0) && Pack(h)[4..8] == Bytes32(h.v1);
    Word32OfBytes32(h.v0);
    Word32OfBytes32(h.v1);
  }

  lemma PackOfUnpack(b: Block)
    ensures Pack(Unpack(b)) == b
  {
    Bytes32OfWord32(b[0..4]);
    Bytes32OfWord32(b[4..8]);
    assert b == b[0..4] + b[4..8];
  }

  lemma BlockInverse(k: KeyWords, b: Block)
    ensures DecBlock(k, EncBlock(k, b)) == b
    ensures EncBlock(k, DecBlock(k, b)) == b
  {
    var h, sums := Unpack(b), Schedule(ROUNDS);
    UnpackOfPack(EncRounds(k, h, sums));
    UnpackOfPack(DecRounds(k, h, sums));
    RoundsInverse(k, h, sums);
    PackOfUnpack(b);
  }

  // ---------------------------------------------------------------- chaining

  type BlockMap = Block -> Block

  lemma BlocksInverse(k: KeyWords)
    ensures Inverse(Decryptor(k), Encryptor(k)) && Inverse(Encryptor(k), Decryptor(k))
  {
    hide EncBlock, DecBlock;
    forall b: Block ensures Decryptor(k)(Encryptor(k)(b)) == b && Encryptor(k)(Decryptor(k)(b)) == b {
      BlockInverse(k, b);
    }
  }

  /** Chained encryption of whole blocks: x is the previous cipher input, c the previous output. */
  function Chain(enc: BlockMap, buf: seq<Byte>, x: Block, c: Block): (out: seq<Byte>)
    requires |buf| % 8 == 0
    ensures |out| == |buf|
  {
    if |buf| == 0 then []
    else
      var x' := Xor(buf[..8], c);
      var c' := Xor(enc(x'), x);
      c' + Chain(enc, buf[8..], x', c')
  }

  function Unchain(dec: BlockMap, cipher: seq<Byte>, x: Block, c: Block): (buf: seq<Byte>)
    requires |cipher| % 8 == 0
    ensures |buf| == |cipher|
  {
    if |cipher| == 0 then []
    else
      var x' := dec(Xor(cipher[..8], x));
      Xor(x', c) + Unchain(dec, cipher[8..], x', cipher[..8])
  }

  ghost predicate Inverse(f: BlockMap, g: BlockMap) {
    forall b: Block :: f(g(b)) == b
  }

  lemma ChainStep(enc: BlockMap, buf: seq<Byte>, x: Block, c: Block)
    requires |buf| % 8 == 0 && |buf| > 0
    ensures var x' := Xor(buf[..8], c);
            var c' := Xor(enc(x'), x);
            Chain(enc, buf, x, c) == c' + Chain(enc, buf[8..], x', c')
  {}

  lemma UnchainStep(dec: BlockMap, buf: seq<Byte>, x: Block, c: Block)
    requires |buf| % 8 == 0 && |buf| > 0
    ensures var x' := dec(Xor(buf[..8], x));
            Unchain(dec, buf, x, c) == Xor(x', c) + Unchain(dec, buf[8..], x', buf[..8])
  {}

  lemma FrontAndRest(a: Block, rest: seq<Byte>)
    ensures (a + rest)[..8] == a && (a + rest)[8..] == rest
  {}

  lemma InBlocks(buf: seq<Byte>)
    requires |buf| >= 8
    ensures buf == buf[..8] + buf[8..]
  {}

  /** The two feedback vectors cancel for any number of blocks and any block permutation. */
  lemma {:induction false} UnchainOfChain(enc: BlockMap, dec: BlockMap, buf: seq<Byte>, x: Block, c: Block)
    requires |buf| % 8 == 0 && Inverse(dec, enc)
    ensures Unchain(dec, Chain(enc, buf, x, c), x, c) == buf
  {
    hide Xor;
    if |buf| > 0 {
      hide Chain, Unchain;
      var x' := Xor(buf[..8], c);
      var c' := Xor(enc(x'), x);
      var rest := Chain(enc, buf[8..], x', c');
      ChainStep(enc, buf, x, c);
      FrontAndRest(c', rest);
      UnchainStep(dec, c' + rest, x, c);
      XorCancels(enc(x'), x);
      assert dec(enc(x')) == x';
      XorCancels(buf[..8], c);
      UnchainOfChain(enc, dec, buf[8..], x', c');
      InBlocks(buf);
    }
  }

  lemma {:induction false} ChainOfUnchain(enc: BlockMap, dec: BlockMap, cipher: seq<Byte>, x: Block, c: Block)
    requires |cipher| % 8 == 0 && Inverse(enc, dec)
    ensures Chain(enc, Unchain(dec, cipher, x, c), x, c) == cipher
  {
    hide Xor;
    if |cipher| > 0 {
      hide Chain, Unchain;
      var y := Xor(cipher[..8], x);
      var front, rest := Xor(dec(y), c), Unchain(dec, cipher[8..], dec(y), cipher[..8]);
      UnchainStep(dec, cipher, x, c);
      FrontAndRest(front, rest);
      ChainStep(enc, front + rest, x, c);
      XorCancels(dec(y), c);
      assert enc(dec(y)) == y;
      XorCancels(cipher[..8], x);
      ChainOfUnchain(enc, dec, cipher[8..], dec(y), cipher[..8]);
      InBlocks(cipher);
    }
  }

  const ZERO_BLOCK: Block := Zeros(8)

  // ---------------------------------------------------------------- messages

  function KeyWordsOf(key: seq<Byte>): KeyWords
    requires |key| == 16
  {
    [Word32(key[0..4]), Word32(key[4..8]), Word32(key[8..12]), Word32(key[12..16])]
  }

  /** Zero bytes put before the salt so that the whole layout fills whole blocks. */
  function Padding(plainLen: nat): (p: nat)
    ensures p < 8 && (plainLen + 10 + p) % 8 == 0
  {
    (8 - (plainLen + 10) % 8) % 8
  }

  /** first byte (low three bits: filler length), filler, two salt bytes, data, seven zeros. */
  function Layout(first: Byte, filler: seq<Byte>, salt: seq<Byte>, plain: seq<Byte>): (buf: seq<Byte>)
    ensures |buf| == |filler| + |salt| + |plain| + 8
  {
    [first] + filler + salt + plain + Zeros(7)
  }

  function Enciphered(plain: seq<Byte>, key: seq<Byte>, salt: seq<Byte>): Result<seq<Byte>>
    requires |salt| == 2
  {
    if |key| != 16 then Err(TeaBadInput)
    else
      var pad := Padding(|plain|);
      Ok(Chain(Encryptor(KeyWordsOf(key)), Layout(pad, Zeros(pad), salt, plain), ZERO_BLOCK, ZERO_BLOCK))
  }

  /** The byte stream that TeaDecrypt walks over. */
  function Stream(cipher: seq<Byte>, key: seq<Byte>): (u: seq<Byte>)
    requires |key| == 16 && |cipher| % 8 == 0
    ensures |u| == |cipher|
  {
    Unchain(Decryptor(KeyWordsOf(key)), cipher, ZERO_BLOCK, ZERO_BLOCK)
  }

  /** The low three bits of the first stream byte. */
  function FillerLength(first: Byte): (n: nat)
    ensures n < 8
  {
    first % 8
  }

  function Deciphered(cipher: seq<Byte>, key: seq<Byte>): Result<seq<Byte>> {
    if |key| != 16 || |cipher| < 16 || |cipher| % 8 != 0 then Err(TeaBadInput)
    else
      var u := Stream(cipher, key);
      var from := 3 + FillerLength(u[0]);
      if |u| - 7 < from then Err(TeaBadInput)
      else if u[|u| - 7..] != Zeros(7) then Err(TeaBadPadding)
      else Ok(u[from..|u| - 7])
  }

  /** What TeaDecrypt accepts, exactly: the chained layouts whose first byte announces the filler,
      with any filler, any salt and any higher bits in the first byte. */
  ghost predicate IsCipherOf(cipher: seq<Byte>, key: seq<Byte>, first: Byte, filler: seq<Byte>,
                             salt: seq<Byte>, plain: seq<Byte>)
  {
    && |key| == 16 && |salt| == 2 && |filler| == FillerLength(first)
    && (|filler| + |plain| + 10) % 8 == 0
    && cipher == Chain(Encryptor(KeyWordsOf(key)), Layout(first, filler, salt, plain), ZERO_BLOCK, ZERO_BLOCK)
  }

  lemma AcceptsLayout(cipher: seq<Byte>, key: seq<Byte>, first: Byte, filler: seq<Byte>,
                      salt: seq<Byte>, plain: seq<Byte>)
    requires IsCipherOf(cipher, key, first, filler, salt, plain)
    ensures Deciphered(cipher, key) == Ok(plain)
  {
    hide Encryptor, Decryptor;
    var buf := Layout(first, filler, salt, plain);
    var k := KeyWordsOf(key);
    BlocksInverse(k);
    UnchainOfChain(Encryptor(k), Decryptor(k), buf, ZERO_BLOCK, ZERO_BLOCK);
    var from := 3 + |filler|;
    assert buf[|buf| - 7..] == Zeros(7);
    assert buf[from..|buf| - 7] == plain;
  }

  lemma DecryptAcceptsExactly(cipher: seq<Byte>, key: seq<Byte>, plain: seq<Byte>)
    ensures Deciphered(cipher, key) == Ok(plain)
       <==> exists first, filler, salt :: IsCipherOf(cipher, key, first, filler, salt, plain)
  {
    hide Encryptor, Decryptor;
    if exists first, filler, salt :: IsCipherOf(cipher, key, first, filler, salt, plain) {
      var first, filler, salt :| IsCipherOf(cipher, key, first, filler, salt, plain);
      AcceptsLayout(cipher, key, first, filler, salt, plain);
    }
    if Deciphered(cipher, key) == Ok(plain) {
      var first, filler, salt := AcceptedIsLayout(cipher, key, plain);
    }
  }

  lemma AcceptedIsLayout(cipher: seq<Byte>, key: seq<Byte>, plain: seq<Byte>)
      returns (first: Byte, filler: seq<Byte>, salt: seq<Byte>)
    requires Deciphered(cipher, key) == Ok(plain)
    ensures IsCipherOf(cipher, key, first, filler, salt, plain)
  {
    hide Encryptor, Decryptor;
    var k := KeyWordsOf(key);
    var u := Stream(cipher, key);
    var n := FillerLength(u[0]);
    first, filler, salt := u[0], u[1..1 + n], u[1 + n..3 + n];
    assert u == [u[0]] + u[1..1 + n] + u[1 + n..3 + n] + u[3 + n..|u| - 7] + u[|u| - 7..];
    assert u == Layout(first, filler, salt, plain);
    BlocksInverse(k);
    ChainOfUnchain(Encryptor(k), Decryptor(k), cipher, ZERO_BLOCK, ZERO_BLOCK);
  }

  /** Decryption undoes encryption for every key, plaintext and salt. */
  lemma DecryptUndoesEncrypt(plain: seq<Byte>, key: seq<Byte>, salt: seq<Byte>)
    requires |salt| == 2
    ensures var c := Enciphered(plain, key, salt);
            if |key| == 16 then c.Ok? && Deciphered(c.value, key) == Ok(plain) else c == Err(TeaBadInput)
  {
    hide Encryptor, Decryptor;
    if |key| == 16 {
      var pad := Padding(|plain|);
      AcceptsLayout(Enciphered(plain, key, salt).value, key, pad, Zeros(pad), salt, plain);
    }
  }

  // ---------------------------------------------------------------- the loops of tea.go

  method ReadKeyWords(key: seq<Byte>) returns (k: KeyWords)
    requires |key| == 16
    ensures k == KeyWordsOf(key)
  {
    var w := new Word[4](_ => 0);
    for i := 0 to 4
      invariant forall j :: 0 <= j < i ==> w[j] == Word32(key[4 * j..4 * j + 4])
    {
      w[i] := Word32(key[4 * i..4 * i + 4]);
    }
    assert w[..] == KeyWordsOf(key);
    k := w[..];
  }

  method EncryptECB(data: array<Byte>, k: KeyWords, out: array<Byte>)
    requires data.Length == 8 && out.Length == 8
    modifies out
    ensures out[..] == Encryptor(k)(old(data[..]))
  {
    hide Mix, Plus, Word32, Bytes32;
    var v0, v1 := Word32(data[0..4]), Word32(data[4..8]);
    var sum: Word := 0;
    ghost var h, sums := Unpack(data[..]), Schedule(ROUNDS);
    assert Halves(v0, v1) == h by {
      assert data[..][0..4] == data[0..4] && data[..][4..8] == data[4..8];
    }
    for i := 0 to ROUNDS
      invariant sum == SumBefore(i)
      invariant Halves(v0, v1) == EncRounds(k, h, sums[..i])
    {
      sum := Plus(sum, DELTA);
      v0 := Plus(v0, Mix(v1, sum, k[0], k[1]));
      v1 := Plus(v1, Mix(v0, sum, k[2], k[3]));
      assert sums[..i + 1][..i] == sums[..i];
    }
    assert sums[..ROUNDS] == sums;
    StoreBlock(v0, v1, out);
  }

  method DecryptECB(data: array<Byte>, k: KeyWords, out: array<Byte>)
    requires data.Length == 8 && out.Length == 8
    modifies out
    ensures out[..] == Decryptor(k)(old(data[..]))
  {
    hide Mix, Plus, Minus, Word32, Bytes32;
    var v0, v1 := Word32(data[0..4]), Word32(data[4..8]);
    var sum := SUM_INIT;
    ghost var h, sums := Unpack(data[..]), Schedule(ROUNDS);
    assert Halves(v0, v1) == h by {
      assert data[..][0..4] == data[0..4] && data[..][4..8] == data[4..8];
    }
    assert sums[..ROUNDS] == sums;
    SumInit();
    for i := 0 to ROUNDS
      invariant sum == SumBefore(ROUNDS - i)
      invariant DecRounds(k, Halves(v0, v1), sums[..ROUNDS - i]) == DecRounds(k, h, sums)
    {
      SumSteps(ROUNDS - i - 1);
      v1 := Minus(v1, Mix(v0, sum, k[2], k[3]));
      v0 := Minus(v0, Mix(v1, sum, k[0], k[1]));
      sum := Minus(sum, DELTA);
      assert sums[..ROUNDS - i][..ROUNDS - i - 1] == sums[..ROUNDS - (i + 1)];
    }
    StoreBlock(v0, v1, out);
  }

  method StoreBlock(v0: Word, v1: Word, out: array<Byte>)
    requires out.Length == 8
    modifies out
    ensures out[..] == Bytes32(v0) + Bytes32(v1)
  {
    var b := Bytes32(v0) + Bytes32(v1);
    forall i | 0 <= i < 8 {
      out[i] := b[i];
    }
  }

  method XorInto(dst: array<Byte>, a: seq<Byte>, b: seq<Byte>)
    requires dst.Length == |a| == |b|
    modifies dst
    ensures dst[..] == Xor(a, b)
  {
    for i := 0 to dst.Length
      invariant forall j :: 0 <= j < i ==> dst[j] == XorByte(a[j], b[j])
    {
      dst[i] := XorByte(a[i], b[i]);
    }
  }

  method TeaEncrypt(plain: seq<Byte>, key: seq<Byte>, salt: seq<Byte>) returns (r: Result<seq<Byte>>)
    requires |salt| == 2
    ensures r == Enciphered(plain, key, salt)
  {
    hide Encryptor, Chain, KeyWordsOf;
    if |key| != 16 {
      return Err(TeaBadInput);
    }
    var k := ReadKeyWords(key);
    var buf := BuildLayout(plain, salt);
    var out := ChainBlocks(buf, k);
    r := Ok(out[..]);
  }

  method Sizes(plainLen: nat) returns (padding: nat, encLen: nat)
    ensures padding == Padding(plainLen) && encLen == plainLen + 10 + padding
  {
    padding := (plainLen + 2 + 7 + 1) % 8;
    if padding != 0 {
      padding := 8 - padding;
    }
    encLen := ((1 + padding + 2 + plainLen + 7) + 7) / 8 * 8;
  }

  method BuildLayout(plain: seq<Byte>, salt: seq<Byte>) returns (buf: array<Byte>)
    requires |salt| == 2
    ensures fresh(buf)
    ensures var pad := Padding(|plain|); buf[..] == Layout(pad, Zeros(pad), salt, plain)
  {
    var plainLen := |plain|;
    var padding, encLen := Sizes(plainLen);
    buf := new Byte[encLen](_ => 0);
    buf[0] := padding;
    var pos := 1 + padding;
    buf[pos], buf[pos + 1] := salt[0], salt[1];
    pos := pos + 2;
    assert buf[..pos] == [padding] + Zeros(padding) + salt;
    assert buf[pos + plainLen..] == Zeros(7);
    CopyInto(buf, pos, plain);
  }

  /** The block loop of TeaEncrypt. */
  method ChainBlocks(buf: array<Byte>, k: KeyWords) returns (out: array<Byte>)
    requires buf.Length % 8 == 0
    ensures fresh(out) && out[..] == Chain(Encryptor(k), buf[..], ZERO_BLOCK, ZERO_BLOCK)
  {
    hide Encryptor, Chain, Xor;
    ghost var enc := Encryptor(k);
    out := new Byte[buf.Length](_ => 0);
    var ivPlain, ivCrypt := new Byte[8](_ => 0), new Byte[8](_ => 0);
    assert ivPlain[..] == ZERO_BLOCK && ivCrypt[..] == ZERO_BLOCK;
    var blk := 0;
    while blk < buf.Length
      invariant 0 <= blk <= buf.Length && blk % 8 == 0
      invariant Chain(enc, buf[..], ZERO_BLOCK, ZERO_BLOCK)
             == out[..blk] + Chain(enc, buf[blk..], ivPlain[..], ivCrypt[..])
      decreases buf.Length - blk
    {
      ChainMore(enc, out[..blk], buf[..], blk, ivPlain[..], ivCrypt[..]);
      ChainOne(buf[blk..blk + 8], k, ivPlain, ivCrypt, out, blk);
      assert out[..blk + 8] == out[..blk] + out[blk..blk + 8];
      blk := blk + 8;
    }
    assert out[..] == out[..blk];
    assert Chain(enc, buf[blk..], ivPlain[..], ivCrypt[..]) == [];
  }

  /** One iteration of the block loop. */
  method ChainOne(plain: Block, k: KeyWords, ivPlain: array<Byte>, ivCrypt: array<Byte>,
                  out: array<Byte>, blk: nat)
    requires ivPlain.Length == 8 && ivCrypt.Length == 8 && blk + 8 <= out.Length
    requires ivPlain != ivCrypt && out != ivPlain && out != ivCrypt
    modifies ivPlain, ivCrypt, out
    ensures ivPlain[..] == Xor(plain, old(ivCrypt[..]))
    ensures ivCrypt[..] == Xor(Encryptor(k)(ivPlain[..]), old(ivPlain[..]))
    ensures out[blk..blk + 8] == ivCrypt[..] && out[..blk] == old(out[..blk])
  {
    hide Encryptor, Xor;
    var blockXored, enc := new Byte[8](_ => 0), new Byte[8](_ => 0);
    XorInto(blockXored, plain, ivCrypt[..]);
    EncryptECB(blockXored, k, enc);
    XorInto(enc, enc[..], ivPlain[..]);
    CopyInto(out, blk, enc[..]);
    CopyInto(ivPlain, 0, blockXored[..]);
    CopyInto(ivCrypt, 0, enc[..]);
    assert ivPlain[..] == blockXored[..] && ivCrypt[..] == enc[..];
  }

  /** The next block of the chain behind what is done. */
  lemma ChainMore(enc: BlockMap, done: seq<Byte>, buf: seq<Byte>, blk: nat, x: Block, c: Block)
    requires blk + 8 <= |buf| && |buf| % 8 == 0 && blk % 8 == 0
    ensures var x' := Xor(buf[blk..blk + 8], c);
            var c' := Xor(enc(x'), x);
            done + Chain(enc, buf[blk..], x, c) == (done + c') + Chain(enc, buf[blk + 8..], x', c')
  {
    hide Chain, Xor;
    ChainStep(enc, buf[blk..], x, c);
    assert buf[blk..][..8] == buf[blk..blk + 8] && buf[blk..][8..] == buf[blk + 8..];
  }

  method CopyInto(dst: array<Byte>, at: nat, src: seq<Byte>)
    requires at + |src| <= dst.Length
    modifies dst
    ensures dst[..] == old(dst[..at]) + src + old(dst[at + |src|..])
  {
    forall i | 0 <= i < |src| {
      dst[at + i] := src[i];
    }
  }

  /** The vectors give the stream around a block boundary. */
  ghost predicate Tied(dec: BlockMap, cipher: seq<Byte>, at: nat, x: Block, pre: Block, c: Block)
    requires |cipher| % 8 == 0 && at % 8 == 0 && 8 <= at <= |cipher|
  {
    var u := Unchain(dec, cipher, ZERO_BLOCK, ZERO_BLOCK);
    u[at - 8..at] == Xor(x, pre) && u[at..] == Unchain(dec, cipher[at..], x, c)
  }

  /** The variables that TeaDecrypt shares with its advance closure. */
  class StreamReader {
    const cipher: seq<Byte>
    const k: KeyWords
    ghost const dec: BlockMap
    const decDest: array<Byte>
    const ivPre: array<Byte>
    const ivCur: array<Byte>
    var cipherPos: nat
    var pos: nat

    ghost predicate Valid()
      reads this, decDest, ivPre, ivCur
    {
      && decDest.Length == ivPre.Length == ivCur.Length == 8
      && decDest != ivPre && decDest != ivCur && ivPre != ivCur
      && |cipher| % 8 == 0 && cipherPos % 8 == 0 && 8 <= cipherPos <= |cipher| && pos <= 8
      && Tied(dec, cipher, cipherPos, decDest[..], ivPre[..], ivCur[..])
    }

    /** Number of stream bytes already walked over. */
    ghost function Consumed(): int
      reads this
    {
      cipherPos - 8 + pos
    }

    constructor (cipher: seq<Byte>, k: KeyWords)
      requires |cipher| >= 8 && |cipher| % 8 == 0
      ensures Valid() && this.cipher == cipher && this.k == k && dec == Decryptor(k) && cipherPos == 8 && pos == 0
      ensures decDest.Length == 8 && decDest[0] == Unchain(dec, cipher, ZERO_BLOCK, ZERO_BLOCK)[0]
      ensures fresh(decDest) && fresh(ivPre) && fresh(ivCur)
    {
      hide Decryptor;
      this.cipher, this.k, dec := cipher, k, Decryptor(k);
      decDest := new Byte[8](i requires 0 <= i < 8 => cipher[i]);
      ivPre := new Byte[8](_ => 0);
      ivCur := new Byte[8](i requires 0 <= i < 8 => cipher[i]);
      cipherPos, pos := 8, 0;
      new;
      assert decDest[..] == cipher[..8] && ivCur[..] == cipher[..8] && ivPre[..] == ZERO_BLOCK;
      XorZeros(cipher[..8]);
      DecryptECB(decDest, k, decDest);
      XorZeros(decDest[..]);
    }

    method Advance() returns (ok: bool)
      requires Valid() && pos >= 8 && dec == Decryptor(k)
      modifies this, decDest, ivPre, ivCur
      ensures Valid() && ok == (old(Consumed()) < |cipher|)
      ensures Consumed() == old(Consumed())
      ensures ok ==> pos == 0
    {
      hide Decryptor, Tied, Xor;
      if cipherPos + 8 > |cipher| {
        return false;
      }
      TiedNext(dec, cipher, cipherPos, decDest[..], ivPre[..], ivCur[..]);
      TakeBlock(cipher[cipherPos..cipherPos + 8]);
      cipherPos := cipherPos + 8;
      pos := 0;
      ok := true;
    }

    /** The next ciphertext block moves through the vectors. */
    method TakeBlock(block: Block)
      requires decDest.Length == ivPre.Length == ivCur.Length == 8 && dec == Decryptor(k)
      requires decDest != ivPre && decDest != ivCur && ivPre != ivCur
      modifies decDest, ivPre, ivCur
      ensures ivPre[..] == old(ivCur[..]) && ivCur[..] == block && decDest[..] == dec(Xor(block, old(decDest[..])))
    {
      hide Decryptor, Xor;
      CopyInto(ivPre, 0, ivCur[..]);
      CopyInto(ivCur, 0, block);
      assert ivPre[..] == old(ivCur[..]) && ivCur[..] == block;
      XorInto(decDest, block, decDest[..]);
      DecryptECB(decDest, k, decDest);
    }

    /** Reads the stream byte at pos. */
    method Next() returns (b: Byte)
      requires Valid() && pos <= 7
      modifies `pos
      ensures Valid() && Consumed() == old(Consumed()) + 1
      ensures b == Unchain(dec, cipher, ZERO_BLOCK, ZERO_BLOCK)[old(Consumed())]
    {
      ghost var u := Unchain(dec, cipher, ZERO_BLOCK, ZERO_BLOCK);
      assert u[cipherPos - 8 + pos] == u[cipherPos - 8..cipherPos][pos];
      b := XorByte(decDest[pos], ivPre[pos]);
      pos := pos + 1;
    }

    /** Starts reading behind the filler of the first block. */
    method SkipFiller(padding: nat)
      requires Valid() && cipherPos == 8 && padding < 8
      modifies `pos
      ensures Valid() && Consumed() == 1 + padding
    {
      hide Unchain, Xor, Tied;
      pos := 1 + padding;
    }

    /** The salt loop of TeaDecrypt. */
    method SkipSalt()
      requires Valid() && dec == Decryptor(k) && Consumed() + 2 <= |cipher|
      modifies this, decDest, ivPre, ivCur
      ensures Valid() && Consumed() == old(Consumed()) + 2
    {
      hide Unchain, Xor, Tied;
      var saltCount := 1;
      while saltCount <= 2
        invariant Valid() && 1 <= saltCount <= 3 && Consumed() == old(Consumed()) + saltCount - 1
        decreases 3 - saltCount, pos
      {
        if pos == 8 {
          var ok := Advance();
          assert ok; // more bytes are needed than were consumed, so the source's error return is unreachable
        } else {
          pos := pos + 1;
          saltCount := saltCount + 1;
        }
      }
    }

    /** The data loop of TeaDecrypt. */
    method ReadData(out: array<Byte>)
      requires Valid() && dec == Decryptor(k) && 0 <= Consumed() && Consumed() + out.Length <= |cipher|
      requires |cipher| % 8 == 0
      requires out != decDest && out != ivPre && out != ivCur
      modifies this, decDest, ivPre, ivCur, out
      ensures Valid() && Consumed() == old(Consumed()) + out.Length
      ensures out[..] == Unchain(dec, cipher, ZERO_BLOCK, ZERO_BLOCK)[old(Consumed())..Consumed()]
    {
      hide Unchain, Xor, Valid;
      ghost var u, from := Unchain(dec, cipher, ZERO_BLOCK, ZERO_BLOCK), Consumed();
      var dataCount := 0;
      while dataCount < out.Length
        invariant Valid() && 0 <= dataCount <= out.Length && Consumed() == from + dataCount
        invariant out[..dataCount] == u[from..from + dataCount]
        decreases out.Length - dataCount, pos
      {
        if pos <= 7 {
          out[dataCount] := Next();
          dataCount := dataCount + 1;
        } else {
          var ok := Advance();
          assert ok;
        }
      }
      assert out[..] == out[..dataCount];
    }

    /** The loop over the seven trailing bytes of TeaDecrypt. */
    method CheckZeros() returns (zero: bool)
      requires Valid() && dec == Decryptor(k) && Consumed() == |cipher| - 7
      modifies this, decDest, ivPre, ivCur
      ensures zero ==> Valid() && Consumed() == |cipher|
      ensures zero == (Unchain(dec, cipher, ZERO_BLOCK, ZERO_BLOCK)[|cipher| - 7..] == Zeros(7))
    {
      hide Unchain, Xor, Tied;
      ghost var u := Unchain(dec, cipher, ZERO_BLOCK, ZERO_BLOCK);
      var zeroCount := 1;
      while zeroCount <= 7
        invariant Valid() && 1 <= zeroCount <= 8 && Consumed() == |cipher| - 8 + zeroCount
        invariant forall j :: |cipher| - 7 <= j < |cipher| - 8 + zeroCount ==> u[j] == 0
        decreases 8 - zeroCount, pos
      {
        if pos <= 7 {
          var b := Next();
          if b != 0 {
            assert u[|u| - 7..][zeroCount - 1] != Zeros(7)[zeroCount - 1];
            return false;
          }
          zeroCount := zeroCount + 1;
        } else {
          assert false; // the trailer lies inside the last block, so no further Advance happens
        }
      }
      zero := true;
    }
  }

  /** One block on, the vectors are tied to the stream again. */
  lemma TiedNext(dec: BlockMap, cipher: seq<Byte>, at: nat, x: Block, pre: Block, c: Block)
    requires |cipher| % 8 == 0 && at % 8 == 0 && 8 <= at && at + 8 <= |cipher| && Tied(dec, cipher, at, x, pre, c)
    ensures Tied(dec, cipher, at + 8, dec(Xor(cipher[at..at + 8], x)), c, cipher[at..at + 8])
  {
    hide Unchain, Xor;
    var x' := dec(Xor(cipher[at..at + 8], x));
    BlockAt(cipher, at);
    UnchainStep(dec, cipher[at..], x, c);
    FrontAndRest(Xor(x', c), Unchain(dec, cipher[at + 8..], x', cipher[at..at + 8]));
    BlockAt(Unchain(dec, cipher, ZERO_BLOCK, ZERO_BLOCK), at);
  }

  lemma BlockAt(buf: seq<Byte>, at: nat)
    requires at + 8 <= |buf|
    ensures buf[at..][..8] == buf[at..at + 8] && buf[at..][8..] == buf[at + 8..]
  {}

  method TeaDecrypt(cipher: seq<Byte>, key: seq<Byte>) returns (r: Result<seq<Byte>>)
    ensures r == Deciphered(cipher, key)
  {
    hide Decryptor, Unchain, KeyWordsOf, Xor, StreamReader.Valid;
    if |key| != 16 {
      return Err(TeaBadInput);
    }
    if |cipher| < 16 || |cipher| % 8 != 0 {
      return Err(TeaBadInput);
    }
    var k := ReadKeyWords(key);
    var d := new StreamReader(cipher, k);
    var padding := FillerLength(d.decDest[0]);
    var plainLen := |cipher| - 1 - padding - 2 - 7;
    if plainLen < 0 {
      return Err(TeaBadInput);
    }
    var out := new Byte[plainLen](_ => 0);
    d.SkipFiller(padding);
    d.SkipSalt();
    d.ReadData(out);
    var zero := d.CheckZeros();
    if !zero {
      return Err(TeaBadPadding);
    }
    r := Ok(out[..]);
  }
}
