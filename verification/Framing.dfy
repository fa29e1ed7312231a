/** src/tcp/framing.js and the receive loop of src/tcp/gateway.js: cutting a byte stream into frames. */
module Framing {
  import opened Bytes

  const HEARTBEAT: Byte := 2

  datatype Option<+T> = None | Some(value: T)

  /** A client frame; only a heartbeat has no payload. */
  datatype Frame = Frame(cmd: Byte, region: Byte, payload: Option<seq<Byte>>)
  {
    predicate WellFormed() {
      if cmd == HEARTBEAT then payload.None? else payload.Some? && |payload.value| < 0x1_0000_0000
    }

    /** The bytes a client sends for the frame. */
    function Serial(): (b: seq<Byte>)
      ensures |b| >= 2
    {
      if payload.None? then [cmd, region]
      else [cmd, region] + BigEndianBytes(|payload.value| % 0x1_0000_0000) + payload.value
    }
  }

  function BigEndian(b: seq<Byte>): Word
    requires |b| == 4
  {
    Word32([b[3], b[2], b[1], b[0]])
  }

  function BigEndianBytes(w: Word): (b: seq<Byte>)
    ensures |b| == 4
  {
    var l := Bytes32(w);
    [l[3], l[2], l[1], l[0]]
  }

  lemma BigEndianInverse(w: Word, b: seq<Byte>)
    requires |b| == 4
    ensures BigEndian(BigEndianBytes(w)) == w && BigEndianBytes(BigEndian(b)) == b
  {
    Word32OfBytes32(w);
    assert Bytes32(w) == [Bytes32(w)[0], Bytes32(w)[1], Bytes32(w)[2], Bytes32(w)[3]];
    Bytes32OfWord32([b[3], b[2], b[1], b[0]]);
  }

  /** The length fields carry the high byte first. */
  lemma BigEndianDigits(w: Word)
    ensures BigEndianBytes(w) == [w / 0x100_0000, w / 0x1_0000 % 0x100, w / 0x100 % 0x100, w % 0x100]
  {}

  /** The bytes of a client frame: command, region, and but for a heartbeat the length and the payload. */
  lemma FrameBytes(f: Frame)
    requires f.WellFormed()
    ensures f.Serial() == [f.cmd, f.region]
              + (if f.cmd == 2 then []
                 else var n: int := |f.payload.value|;
                      [n / 0x100_0000, n / 0x1_0000 % 0x100, n / 0x100 % 0x100, n % 0x100] + f.payload.value)
  {
    hide BigEndianBytes;
    if f.payload.Some? {
      BigEndianDigits(|f.payload.value|);
    }
  }

  // ---------------------------------------------------------------- one frame

  /** The complete frame at the front of the buffer, if there is one. */
  function Front(buf: seq<Byte>): (f: Option<Frame>)
    ensures f.Some? ==> f.value.WellFormed() && |f.value.Serial()| <= |buf|
  {
    if |buf| < 2 then None
    else if buf[0] == HEARTBEAT then Some(Frame(buf[0], buf[1], None))
    else if |buf| < 6 then None
    else
      var len := BigEndian(buf[2..6]);
      if |buf| < 6 + len then None
      else Some(Frame(buf[0], buf[1], Some(buf[6..6 + len])))
  }

  lemma FrontIsPrefix(buf: seq<Byte>)
    requires Front(buf).Some?
    ensures Front(buf).value.Serial() == buf[..|Front(buf).value.Serial()|]
  {
    hide BigEndian, BigEndianBytes;
    var f := Front(buf).value;
    if f.payload.Some? {
      var p, n: nat := f.payload.value, BigEndian(buf[2..6]);
      BigEndianInverse(0, buf[2..6]);
      assert p == buf[6..6 + n] && |p| == n;
      assert f.Serial() == [buf[0], buf[1]] + buf[2..6] + buf[6..6 + n];
      assert buf[..6 + n] == [buf[0], buf[1]] + buf[2..6] + buf[6..6 + n];
    }
  }

  /** A serialised frame is recognised whatever follows it. */
  lemma FrontOfSerial(f: Frame, more: seq<Byte>)
    requires f.WellFormed()
    ensures Front(f.Serial() + more) == Some(f)
  {
    hide BigEndian, BigEndianBytes;
    var buf := f.Serial() + more;
    if f.payload.Some? {
      var n := |f.payload.value|;
      BigEndianInverse(n, [0, 0, 0, 0]);
      assert buf[2..6] == BigEndianBytes(n);
      assert buf[6..6 + n] == f.payload.value;
    }
  }

  // ---------------------------------------------------------------- streams

  datatype Parsed = Parsed(frames: seq<Frame>, rest: seq<Byte>)

  function Parse(buf: seq<Byte>): (p: Parsed)
    decreases |buf|
  {
    match Front(buf)
    case None => Parsed([], buf)
    case Some(f) =>
      var p := Parse(buf[|f.Serial()|..]);
      Parsed([f] + p.frames, p.rest)
  }

  function Serials(frames: seq<Frame>): seq<Byte> {
    if |frames| == 0 then [] else frames[0].Serial() + Serials(frames[1..])
  }

  ghost predicate AllWellFormed(frames: seq<Frame>) {
    forall i :: 0 <= i < |frames| ==> frames[i].WellFormed()
  }

  /** Parsing loses nothing: the frames written back, then the rest, are the input; the rest holds no
      complete frame. */
  lemma {:induction false} ParseIsLossless(buf: seq<Byte>)
    ensures var p := Parse(buf);
            Serials(p.frames) + p.rest == buf && AllWellFormed(p.frames) && Front(p.rest).None?
    decreases |buf|
  {
    hide Front, Frame.Serial, Frame.WellFormed, Serials;
    if Front(buf).Some? {
      var f := Front(buf).value;
      FrontIsPrefix(buf);
      var more := buf[|f.Serial()|..];
      ParseIsLossless(more);
      var p := Parse(more);
      SerialsCons(f, p.frames);
      FrontWellFormed(buf);
      assert buf == f.Serial() + more;
      Assoc(f.Serial(), Serials(p.frames), p.rest);
    } else {
      NoSerials();
    }
  }

  lemma NoSerials()
    ensures Serials([]) == []
  {}

  lemma Assoc(a: seq<Byte>, b: seq<Byte>, c: seq<Byte>)
    ensures a + b + c == a + (b + c)
  {}

  lemma SerialsCons(f: Frame, frames: seq<Frame>)
    ensures Serials([f] + frames) == f.Serial() + Serials(frames)
  {
    assert ([f] + frames)[1..] == frames;
  }

  lemma FrontWellFormed(buf: seq<Byte>)
    ensures Front(buf).Some? ==> Front(buf).value.WellFormed()
  {}

  /** There is only one such way to cut the stream. */
  lemma {:induction false} ParseIsUnique(frames: seq<Frame>, rest: seq<Byte>)
    requires AllWellFormed(frames) && Front(rest).None?
    ensures Parse(Serials(frames) + rest) == Parsed(frames, rest)
  {
    hide Front, Frame.Serial, Frame.WellFormed;
    var buf := Serials(frames) + rest;
    if |frames| == 0 {
      assert buf == rest;
    } else {
      var first, more := frames[0].Serial(), Serials(frames[1..]) + rest;
      assert buf == first + more;
      FrontOfSerial(frames[0], more);
      assert buf[|first|..] == more;
      ParseIsUnique(frames[1..], rest);
    }
  }

  lemma {:induction false} SerialsConcat(a: seq<Frame>, b: seq<Frame>)
    ensures Serials(a + b) == Serials(a) + Serials(b)
  {
    hide Frame.Serial;
    if |a| == 0 {
      assert a + b == b;
    } else {
      SerialsConcat(a[1..], b);
      assert (a + b)[1..] == a[1..] + b && (a + b)[0] == a[0];
      Assoc(a[0].Serial(), Serials(a[1..]), Serials(b));
    }
  }

  /** Parsing may stop anywhere and resume with what was left over. */
  lemma ParseResumes(a: seq<Byte>, b: seq<Byte>)
    ensures var p := Parse(a);
            var q := Parse(p.rest + b);
            Parse(a + b) == Parsed(p.frames + q.frames, q.rest)
  {
    hide Front, Frame.Serial, Frame.WellFormed, Parse, Serials;
    var p := Parse(a);
    var q := Parse(p.rest + b);
    ParseIsLossless(a);
    ParseIsLossless(p.rest + b);
    SerialsConcat(p.frames, q.frames);
    ParseIsUnique(p.frames + q.frames, q.rest);
    Assoc(Serials(p.frames), Serials(q.frames), q.rest);
    Assoc(Serials(p.frames), p.rest, b);
  }

  function Flatten(chunks: seq<seq<Byte>>): seq<Byte> {
    if |chunks| == 0 then [] else Flatten(chunks[..|chunks| - 1]) + chunks[|chunks| - 1]
  }

  /** The receive loop: every chunk is parsed behind the rest of the one before. */
  function Receive(chunks: seq<seq<Byte>>): Parsed {
    if |chunks| == 0 then Parsed([], [])
    else
      var before := Receive(chunks[..|chunks| - 1]);
      var now := Parse(before.rest + chunks[|chunks| - 1]);
      Parsed(before.frames + now.frames, now.rest)
  }

  /** The frames received do not depend on how the stream was cut into chunks. */
  lemma {:induction false} ChunkingDoesNotMatter(chunks: seq<seq<Byte>>)
    ensures Receive(chunks) == Parse(Flatten(chunks))
  {
    hide Parse;
    if |chunks| > 0 {
      var init := chunks[..|chunks| - 1];
      ChunkingDoesNotMatter(init);
      ParseResumes(Flatten(init), chunks[|chunks| - 1]);
    } else {
      ParseStops([]);
    }
  }

  // ---------------------------------------------------------------- the code of framing.js

  lemma ParseStep(frames: seq<Frame>, tail: seq<Byte>, f: Frame)
    requires Front(tail) == Some(f)
    ensures var p, p' := Parse(tail), Parse(tail[|f.Serial()|..]);
            Parsed(frames + p.frames, p.rest) == Parsed(frames + [f] + p'.frames, p'.rest)
  {
    hide Front, Frame.Serial;
  }

  method ParseClientFrames(buf: seq<Byte>) returns (frames: seq<Frame>, rest: seq<Byte>)
    ensures Parsed(frames, rest) == Parse(buf)
  {
    hide Parse, BigEndian, BigEndianBytes;
    frames := [];
    var off := 0;
    while |buf| - off >= 2
      invariant 0 <= off <= |buf|
      invariant Parse(buf) == Parsed(frames + Parse(buf[off..]).frames, Parse(buf[off..]).rest)
      decreases |buf| - off
    {
      ghost var tail := buf[off..];
      var cmd, region := buf[off], buf[off + 1];
      if cmd == HEARTBEAT {
        ParseStep(frames, tail, Frame(cmd, region, None));
        frames := frames + [Frame(cmd, region, None)];
        off := off + 2;
        assert tail[2..] == buf[off..];
        continue;
      }
      if |buf| - off < 6 {
        break;
      }
      assert tail[2..6] == buf[off + 2..off + 6];
      var len: nat := BigEndian(buf[off + 2..off + 6]);
      if |buf| - off < 6 + len {
        break;
      }
      var f := Frame(cmd, region, Some(buf[off + 6..off + 6 + len]));
      assert tail[6..6 + len] == buf[off + 6..off + 6 + len];
      ParseStep(frames, tail, f);
      frames := frames + [f];
      off := off + 6 + len;
      assert tail[6 + len..] == buf[off..];
    }
    rest := buf[off..];
    ParseStops(rest);
  }

  lemma ParseStops(rest: seq<Byte>)
    requires Front(rest).None?
    ensures Parse(rest) == Parsed([], rest)
  {}

  /** One connection of the gateway. */
  class Connection {
    var buf: seq<Byte>
    ghost var chunks: seq<seq<Byte>>
    ghost var frames: seq<Frame>

    ghost predicate Valid()
      reads this
    {
      Parsed(frames, buf) == Parse(Flatten(chunks))
    }

    constructor ()
      ensures Valid() && chunks == []
    {
      buf, chunks, frames := [], [], [];
    }

    method OnData(chunk: seq<Byte>) returns (fs: seq<Frame>)
      requires Valid()
      modifies this
      ensures Valid() && chunks == old(chunks) + [chunk] && frames == old(frames) + fs
    {
      ParseResumes(Flatten(chunks), chunk);
      chunks := chunks + [chunk];
      assert chunks[..|chunks| - 1] == old(chunks);
      buf := buf + chunk;
      fs, buf := ParseClientFrames(buf);
      frames := frames + fs;
    }
  }

  // ---------------------------------------------------------------- server frames

  function ServerFrame(cmd: Byte, payload: seq<Byte>): seq<Byte>
    requires |payload| < 0x1_0000_0000
  {
    if cmd == HEARTBEAT then [HEARTBEAT] else [cmd] + BigEndianBytes(|payload|) + payload
  }

  /** The bytes of a server frame: the command, and but for a heartbeat the length and the payload. */
  lemma ServerFrameBytes(cmd: Byte, payload: seq<Byte>)
    requires |payload| < 0x1_0000_0000
    ensures ServerFrame(cmd, payload) == [cmd]
              + (if cmd == 2 then []
                 else var n: int := |payload|;
                      [n / 0x100_0000, n / 0x1_0000 % 0x100, n / 0x100 % 0x100, n % 0x100] + payload)
  {
    hide BigEndianBytes;
    BigEndianDigits(|payload|);
  }

  /** A client can cut the server's stream in one way only. */
  lemma ServerFramesArePrefixFree(cmd: Byte, payload: seq<Byte>, more: seq<Byte>,
                                  cmd': Byte, payload': seq<Byte>, more': seq<Byte>)
    requires |payload| < 0x1_0000_0000 && |payload'| < 0x1_0000_0000
    requires ServerFrame(cmd, payload) + more == ServerFrame(cmd', payload') + more'
    ensures cmd == cmd' && more == more' && (cmd == HEARTBEAT || payload == payload')
  {
    var b, b' := ServerFrame(cmd, payload) + more, ServerFrame(cmd', payload') + more';
    assert b[0] == cmd && b'[0] == cmd';
    if cmd == HEARTBEAT {
      assert b[1..] == more && b'[1..] == more';
    } else {
      BigEndianInverse(|payload|, [0, 0, 0, 0]);
      BigEndianInverse(|payload'|, [0, 0, 0, 0]);
      assert b[1..5] == BigEndianBytes(|payload|) && b'[1..5] == BigEndianBytes(|payload'|);
      var n := |payload|;
      assert b[5..5 + n] == payload && b'[5..5 + n] == payload';
      assert b[5 + n..] == more && b'[5 + n..] == more';
    }
  }

  method EncodeServerFrame(cmd: Byte, payload: Option<seq<Byte>>) returns (out: array<Byte>)
    requires payload.Some? ==> |payload.value| < 0x1_0000_0000
    ensures out[..] == ServerFrame(cmd, if payload.Some? then payload.value else [])
  {
    if cmd == HEARTBEAT {
      out := new Byte[1](_ => HEARTBEAT);
      return;
    }
    var p := if payload.Some? then payload.value else [];
    out := new Byte[5 + |p|](_ => 0);
    out[0] := cmd;
    var len := BigEndianBytes(|p|);
    forall i | 0 <= i < 4 {
      out[1 + i] := len[i];
    }
    forall i | 0 <= i < |p| {
      out[5 + i] := p[i];
    }
  }
}
