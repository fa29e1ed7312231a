/** match-server/packet/packet.go: the datagram framer over the checksum and the cipher. */
module Packet {
  import opened Bytes
  import opened Crc7
  import opened Crc7Distance
  import opened Tea

  const MSG_KEY: Byte := 0x6C

  type UInt16 = n: int | 0 <= n < 0x1_0000

  datatype Packet = Packet(sendOption: Byte, cmd: UInt16, seqID: UInt16, orderID: UInt16, flags: Byte,
                           payload: seq<Byte>)
  {
    predicate Reliable() {
      IsReliable(cmd, sendOption)
    }

    predicate Encrypted() {
      FlagEncrypted(flags)
    }
  }

  predicate IsReliable(cmd: UInt16, sendOption: Byte) {
    cmd != 2 && (sendOption == 1 || sendOption == 2 || sendOption == 5)
  }

  predicate FlagEncrypted(flags: Byte) {
    flags % 2 == 1
  }

  predicate FlagGzip(flags: Byte) {
    flags / 2 % 2 == 1
  }

  // ---------------------------------------------------------------- wire format

  /** send option, command, sequence and order numbers of a reliable packet, flags, payload length. */
  function Header(p: Packet, length: nat): (h: seq<Byte>)
    ensures |h| == if p.Reliable() then 10 else 6
  {
    [p.sendOption] + Bytes16(p.cmd)
    + (if p.Reliable() then Bytes16(p.seqID) + Bytes16(p.orderID) else [])
    + [p.flags] + Bytes16(length)
  }

  /** The payload as it travels. */
  function Carried(p: Packet, key: seq<Byte>, salt: seq<Byte>): Result<seq<Byte>>
    requires |salt| == 2
  {
    if p.Encrypted() then Enciphered(p.payload, key, salt) else Ok(p.payload)
  }

  function Framed(body: seq<Byte>): seq<Byte> {
    [MSG_KEY, Checksum(0, body)] + body
  }

  function Encoded(p: Packet, key: seq<Byte>, salt: seq<Byte>): Result<seq<Byte>>
    requires |salt| == 2
  {
    match Carried(p, key, salt)
    case Err(e) => Err(e)
    case Ok(carried) => Ok(Framed(Header(p, |carried|) + carried))
  }

  function Decoded(buf: seq<Byte>, key: seq<Byte>): Result<Packet> {
    if |buf| < 8 then Err(PacketShort)
    else if buf[0] != MSG_KEY then Err(BadMsgKey)
    else if Checksum(0, buf[2..]) != buf[1] then Err(BadCrc)
    else Parsed(buf[2..], key)
  }

  /** The fields behind the two checked bytes. */
  function Parsed(body: seq<Byte>, key: seq<Byte>): Result<Packet>
    requires |body| >= 6
  {
    var sendOption, cmd := body[0], Word16(body[1..3]);
    var reliable := IsReliable(cmd, sendOption);
    if reliable && |body| < 10 then Err(PacketShort)
    else
      var at := if reliable then 7 else 3;
      var length := Word16(body[at + 1..at + 3]);
      if at + 3 + length > |body| then Err(PacketShort)
      else if FlagGzip(body[at]) then Err(GzipUnsupported)
      else
        var carried := body[at + 3..at + 3 + length];
        var plain := if FlagEncrypted(body[at]) then Deciphered(carried, key) else Ok(carried);
        match plain
        case Err(e) => Err(e)
        case Ok(payload) =>
          Ok(Packet(sendOption, cmd, if reliable then Word16(body[3..5]) else 0,
                    if reliable then Word16(body[5..7]) else 0, body[at], payload))
  }

  // ---------------------------------------------------------------- round trip

  /** The packets that survive the wire: what a sender can check beforehand. */
  predicate Survives(p: Packet, key: seq<Byte>) {
    && !FlagGzip(p.flags)
    && (p.Reliable() || p.seqID == p.orderID == 0)
    && if p.Encrypted() then |key| == 16 && |p.payload| <= 65518 else |p.payload| <= 65535
  }

  lemma HeaderFields(p: Packet, length: nat)
    ensures var h := Header(p, length);
            var at := if p.Reliable() then 7 else 3;
            && h[0] == p.sendOption && Word16(h[1..3]) == p.cmd && h[at] == p.flags
            && (p.Reliable() ==> Word16(h[3..5]) == p.seqID && Word16(h[5..7]) == p.orderID)
            && Word16(h[at + 1..at + 3]) == length % 0x1_0000
  {
    hide Word16, Bytes16;
    var h := Header(p, length);
    Word16OfBytes16(p.cmd);
    Word16OfBytes16(p.seqID);
    Word16OfBytes16(p.orderID);
    Word16OfBytes16(length);
    assert h[1..3] == Bytes16(p.cmd);
    if p.Reliable() {
      assert h[3..5] == Bytes16(p.seqID) && h[5..7] == Bytes16(p.orderID) && h[8..10] == Bytes16(length);
    } else {
      assert h[4..6] == Bytes16(length);
    }
  }

  /** The packet a receiver reports when the bytes kept of the carried payload arrive. */
  function Received(p: Packet, key: seq<Byte>, kept: seq<Byte>): Result<Packet> {
    if FlagGzip(p.flags) then Err(GzipUnsupported)
    else
      var plain := if p.Encrypted() then Deciphered(kept, key) else Ok(kept);
      match plain
      case Err(e) => Err(e)
      case Ok(payload) =>
        Ok(Packet(p.sendOption, p.cmd, if p.Reliable() then p.seqID else 0,
                  if p.Reliable() then p.orderID else 0, p.flags, payload))
  }

  lemma ParsedOfBody(p: Packet, key: seq<Byte>, carried: seq<Byte>)
    ensures Parsed(Header(p, |carried|) + carried, key) == Received(p, key, carried[..|carried| % 0x1_0000])
  {
    hide Header, Word16, Deciphered, FlagGzip, FlagEncrypted;
    var h, n := Header(p, |carried|), |carried| % 0x1_0000;
    var body := h + carried;
    HeaderFields(p, |carried|);
    var at := if p.Reliable() then 7 else 3;
    assert body[1..3] == h[1..3] && body[at + 1..at + 3] == h[at + 1..at + 3];
    if p.Reliable() {
      assert body[3..5] == h[3..5] && body[5..7] == h[5..7];
    }
    assert body[at + 3..at + 3 + n] == carried[..n];
  }

  /** What Decode makes of an encoded packet: the length field keeps only the low 16 bits. */
  lemma DecodeOfEncode(p: Packet, key: seq<Byte>, salt: seq<Byte>, carried: seq<Byte>)
    requires |salt| == 2 && Carried(p, key, salt) == Ok(carried)
    ensures Decoded(Encoded(p, key, salt).value, key) == Received(p, key, carried[..|carried| % 0x1_0000])
  {
    hide Header, Parsed, Received, Carried, Checksum;
    var body := Header(p, |carried|) + carried;
    ParsedOfBody(p, key, carried);
    assert Framed(body)[2..] == body;
  }

  /** Decoding an encoded packet gives the packet back exactly when it survives. */
  lemma RoundTrip(p: Packet, key: seq<Byte>, salt: seq<Byte>)
    requires |salt| == 2
    ensures Encoded(p, key, salt).Ok? && Decoded(Encoded(p, key, salt).value, key) == Ok(p) <==> Survives(p, key)
  {
    hide Header, Chain, Unchain, Parsed, Checksum, KeyWordsOf, Deciphered;
    DecryptUndoesEncrypt(p.payload, key, salt);
    if Carried(p, key, salt).Ok? {
      var carried := Carried(p, key, salt).value;
      DecodeOfEncode(p, key, salt, carried);
      var n := |carried| % 0x1_0000;
      if p.Encrypted() {
        var pad := Padding(|p.payload|);
        assert |carried| == |p.payload| + 10 + pad;
        assert |carried| < 0x1_0000 <==> |p.payload| <= 65518;
        if |carried| < 0x1_0000 {
          assert carried[..n] == carried;
        } else {
          PlaintextIsShorter(carried[..n], key);
        }
      } else if |carried| < 0x1_0000 {
        assert carried[..n] == carried;
      }
    }
  }

  lemma PlaintextIsShorter(cipher: seq<Byte>, key: seq<Byte>)
    ensures Deciphered(cipher, key).Ok? ==> |Deciphered(cipher, key).value| + 10 <= |cipher|
  {
    hide Stream;
  }

  // ---------------------------------------------------------------- error detection

  /** A datagram with one damaged byte is rejected, except for the one damage the generator hides: then
      the checksum still matches. */
  lemma DamagedByte(p: Packet, key: seq<Byte>, salt: seq<Byte>, i: nat, mask: Byte)
    requires |salt| == 2 && Encoded(p, key, salt).Ok?
    requires i < |Encoded(p, key, salt).value| && mask != 0
    ensures var wire := Encoded(p, key, salt).value;
            var r := Decoded(wire[i := XorByte(wire[i], mask)], key);
            && (i == 0 ==> r == Err(BadMsgKey))
            && (i == 1 ==> r == Err(BadCrc))
            && (i >= 2 ==> (r == Err(BadCrc) <==> mask != 0x89))
  {
    hide Header, Carried, Parsed, Checksum, XorByte, XorNat;
    var wire := Encoded(p, key, salt).value;
    var body := wire[2..];
    var bad := wire[i := XorByte(wire[i], mask)];
    assert |wire| >= 8 && wire[0] == MSG_KEY && wire[1] == Checksum(0, body);
    MaskChanges(wire[i], mask);
    if i < 2 {
      assert bad[2..] == body;
    } else {
      assert bad[2..] == body[i - 2 := XorByte(body[i - 2], mask)];
      ByteErrorDetection(0, body, i - 2, mask);
      ParsedIsNoCrcError(bad[2..], key);
    }
  }

  lemma MaskChanges(b: Byte, mask: Byte)
    requires mask != 0
    ensures XorByte(b, mask) != b
  {
    if XorByte(b, mask) == b {
      XorSelf(b);
      XorNatSymmetric(b, mask);
      XorNatCancels(mask, b);
    }
  }

  lemma {:induction false} XorSelf(b: nat)
    ensures XorNat(b, b) == 0
  {
    if b > 0 {
      XorSelf(b / 2);
    }
  }

  lemma {:induction false} XorNatSymmetric(a: nat, b: nat)
    ensures XorNat(a, b) == XorNat(b, a)
    decreases a + b
  {
    if a != 0 || b != 0 {
      XorNatSymmetric(a / 2, b / 2);
    }
  }

  lemma ParsedIsNoCrcError(body: seq<Byte>, key: seq<Byte>)
    requires |body| >= 6
    ensures Parsed(body, key) != Err(BadCrc)
  {
    hide Stream, Word16;
  }

  predicate IsSingleBit(mask: Byte) {
    mask == 1 || mask == 2 || mask == 4 || mask == 8 || mask == 16 || mask == 32 || mask == 64 || mask == 128
  }

  /** Flipping any one bit of any encoded datagram makes Decode fail. */
  lemma FlippedBit(p: Packet, key: seq<Byte>, salt: seq<Byte>, i: nat, mask: Byte)
    requires |salt| == 2 && Encoded(p, key, salt).Ok?
    requires i < |Encoded(p, key, salt).value| && IsSingleBit(mask)
    ensures var wire := Encoded(p, key, salt).value;
            Decoded(wire[i := XorByte(wire[i], mask)], key).Err?
  {
    hide Encoded, Decoded;
    DamagedByte(p, key, salt, i, mask);
  }

  /** Flipping two bits behind the two checked bytes is reported as a wrong checksum, unless their distance
      is a multiple of 127. */
  lemma TwoFlippedBits(p: Packet, key: seq<Byte>, salt: seq<Byte>, m: nat, n: nat)
    requires |salt| == 2 && Encoded(p, key, salt).Ok?
    requires 16 <= m < n < 8 * |Encoded(p, key, salt).value|
    ensures var wire := Encoded(p, key, salt).value;
            Decoded(FlipBit(FlipBit(wire, m), n), key) == Err(BadCrc) <==> (n - m) % 127 != 0
  {
    hide Header, Carried, Parsed, Checksum, FlipBit;
    var wire := Encoded(p, key, salt).value;
    var body := wire[2..];
    var bad := FlipBit(FlipBit(wire, m), n);
    assert |wire| >= 8 && wire[0] == MSG_KEY && wire[1] == Checksum(0, body);
    FlipBehind(wire, m);
    FlipBehind(FlipBit(wire, m), n);
    TwoFlips(0, body, m - 16, n - 16);
    ParsedIsNoCrcError(bad[2..], key);
  }

  lemma FlipBehind(buf: seq<Byte>, n: nat)
    requires |buf| >= 2 && 16 <= n < 8 * |buf|
    ensures FlipBit(buf, n)[2..] == FlipBit(buf[2..], n - 16)
    ensures FlipBit(buf, n)[0] == buf[0] && FlipBit(buf, n)[1] == buf[1]
  {
    hide XorByte, Pow2;
    SameBit(n);
  }

  lemma SameBit(n: nat)
    requires n >= 16
    ensures n / 8 >= 2 && (n - 16) / 8 == n / 8 - 2 && (n - 16) % 8 == n % 8
  {}

  /** Whatever Decode accepts, body and checksum form a multiple of x^7 + x^3 + 1. */
  lemma AcceptedIsMultipleOfGenerator(buf: seq<Byte>, key: seq<Byte>)
    requires Decoded(buf, key).Ok?
    ensures exists q :: TimesG(q) == MessageBits(buf[2..]) + BitsOf(buf[1], 7)
  {
    hide Parsed, Checksum, BitsOf, Run, TimesG;
    ChecksumOfRegister(0, buf[2..]);
    SevenZeros();
    ChecksumIsRemainder(MessageBits(buf[2..]));
  }

  lemma SevenZeros()
    ensures BitsOf(0, 7) == ZERO
  {}

  // ---------------------------------------------------------------- the code of packet.go

  method Encode(p: Packet, key: seq<Byte>, salt: seq<Byte>, t: Crc7Table) returns (r: Result<seq<Byte>>)
    requires |salt| == 2 && t.Filled()
    ensures r == Encoded(p, key, salt)
  {
    hide Enciphered, Checksum, Bytes16;
    var payload := p.payload;
    if FlagEncrypted(p.flags) {
      var enc := TeaEncrypt(payload, key, salt);
      if enc.Err? {
        return Err(enc.error);
      }
      payload := enc.value;
    }
    var body: seq<Byte> := [];
    body := body + [p.sendOption];
    body := body + Bytes16(p.cmd);
    if IsReliable(p.cmd, p.sendOption) {
      body := body + Bytes16(p.seqID);
      body := body + Bytes16(p.orderID);
    }
    body := body + [p.flags];
    body := body + Bytes16(|payload|);
    assert body == Header(p, |payload|);
    body := body + payload;
    var crc := Crc7Table.CRC7(t, 0, body);
    var out := [MSG_KEY, crc];
    out := out + body;
    r := Ok(out);
  }

  /** The two checked bytes come before the body. */
  lemma BodyPart(buf: seq<Byte>, i: nat, j: nat)
    requires 2 <= i <= j <= |buf|
    ensures buf[2..][i - 2..j - 2] == buf[i..j]
  {}

  method Decode(buf: seq<Byte>, key: seq<Byte>, t: Crc7Table) returns (r: Result<Packet>)
    requires t.Filled()
    ensures r == Decoded(buf, key)
  {
    hide Deciphered, Checksum, Word16, FlagGzip, FlagEncrypted;
    if |buf| < 8 {
      return Err(PacketShort);
    }
    if buf[0] != MSG_KEY {
      return Err(BadMsgKey);
    }
    var crc := Crc7Table.CRC7(t, 0, buf[2..]);
    if crc != buf[1] {
      return Err(BadCrc);
    }
    var off := 2;
    var sendOption := buf[off];
    off := off + 1;
    var cmd := Word16(buf[off..off + 2]);
    off := off + 2;
    BodyPart(buf, 3, 5);
    var seqID, orderID := 0, 0;
    if IsReliable(cmd, sendOption) {
      if |buf| < 12 {
        return Err(PacketShort);
      }
      BodyPart(buf, 5, 7);
      BodyPart(buf, 7, 9);
      seqID := Word16(buf[off..off + 2]);
      off := off + 2;
      orderID := Word16(buf[off..off + 2]);
      off := off + 2;
    }
    var flags := buf[off];
    off := off + 1;
    BodyPart(buf, off, off + 2);
    var length := Word16(buf[off..off + 2]);
    off := off + 2;
    if off + length > |buf| {
      return Err(PacketShort);
    }
    var payload := buf[off..off + length];
    BodyPart(buf, off, off + length);
    if FlagGzip(flags) {
      return Err(GzipUnsupported);
    }
    if FlagEncrypted(flags) {
      var dec := TeaDecrypt(payload, key);
      if dec.Err? {
        return Err(dec.error);
      }
      payload := dec.value;
    }
    r := Ok(Packet(sendOption, cmd, seqID, orderID, flags, payload));
  }
}
