/** match-server/message/joinreq.go and the token reassembly of match-server/handlers.go: a compact
    HS256 token (section 7.1 of RFC 7515, section 3.2 of RFC 7518) that arrives split over two
    datagrams. */
module JoinToken {
  import opened Bytes

  const DOT: Byte := 46
  const MAX_TOKEN_LEN: nat := 4096
  const SIGNATURE_LEN: nat := 43

  /** The base64url form of the fixed token header, as text "eyJhbGciOiJIUzI1NiIsInR5cCI6IkpXVCJ9". */
  const MARKER: seq<Byte> := [101, 121, 74, 104, 98, 71, 99, 105, 79, 105, 74, 73, 85, 122, 73, 49, 78, 105,
                              73, 115, 73, 110, 82, 53, 99, 67, 73, 54, 73, 107, 112, 88, 86, 67, 74, 57]

  predicate IsJWTChar(c: Byte) {
    || 65 <= c <= 90 || 97 <= c <= 122 || 48 <= c <= 57
    || c == DOT || c == 45 || c == 95
  }

  /** The alphabet of section 5 of RFC 4648, and the dot between the parts. */
  lemma TokenAlphabet(c: Byte)
    ensures IsJWTChar(c) <==>
              || 'A' as int <= c <= 'Z' as int || 'a' as int <= c <= 'z' as int || '0' as int <= c <= '9' as int
              || c == '-' as int || c == '_' as int || c == '.' as int
  {}

  predicate AllJWT(b: seq<Byte>) {
    forall i :: 0 <= i < |b| ==> IsJWTChar(b[i])
  }

  predicate NoDot(b: seq<Byte>) {
    forall i :: 0 <= i < |b| ==> b[i] != DOT
  }

  // ---------------------------------------------------------------- scanning for a token

  ghost predicate MarkerAt(b: seq<Byte>, i: int) {
    0 <= i && i + |MARKER| <= |b| && b[i..i + |MARKER|] == MARKER
  }

  /** i is the first place where the marker occurs, or -1 when it does not. */
  ghost predicate FirstMarker(b: seq<Byte>, i: int) {
    if i == -1 then forall j :: !MarkerAt(b, j)
    else MarkerAt(b, i) && forall j :: j < i ==> !MarkerAt(b, j)
  }

  /** The token starting at i is the longest run of token characters from there. */
  ghost predicate RunFrom(b: seq<Byte>, i: nat, j: nat) {
    i <= j <= |b| && AllJWT(b[i..j]) && (j < |b| ==> !IsJWTChar(b[j]))
  }

  ghost predicate Extracted(b: seq<Byte>, tok: seq<Byte>) {
    || (FirstMarker(b, -1) && tok == [])
    || exists i: nat, j: nat :: FirstMarker(b, i) && RunFrom(b, i, j) && tok == b[i..j]
  }

  lemma ExtractedIsUnique(b: seq<Byte>, tok: seq<Byte>, tok': seq<Byte>)
    requires Extracted(b, tok) && Extracted(b, tok')
    ensures tok == tok'
  {
    hide MarkerAt, AllJWT, IsJWTChar;
    if !FirstMarker(b, -1) {
      var i: nat, j: nat :| FirstMarker(b, i) && RunFrom(b, i, j) && tok == b[i..j];
      var i': nat, j': nat :| FirstMarker(b, i') && RunFrom(b, i', j') && tok' == b[i'..j'];
      FirstIsUnique(b, i, i');
      RunIsUnique(b, i, j, j');
    }
  }

  lemma FirstIsUnique(b: seq<Byte>, i: nat, i': nat)
    requires FirstMarker(b, i) && FirstMarker(b, i')
    ensures i == i'
  {
    hide MarkerAt;
  }

  lemma RunIsUnique(b: seq<Byte>, i: nat, j: nat, j': nat)
    requires RunFrom(b, i, j) && RunFrom(b, i, j')
    ensures j == j'
  {
    hide IsJWTChar;
    RunChars(b, i, j);
    RunChars(b, i, j');
  }

  lemma RunChars(b: seq<Byte>, i: nat, j: nat)
    requires i <= j <= |b| && AllJWT(b[i..j])
    ensures forall k :: i <= k < j ==> IsJWTChar(b[k])
  {
    forall k | i <= k < j ensures IsJWTChar(b[k]) {
      assert b[k] == b[i..j][k - i];
    }
  }

  method ExtractJWT(b: seq<Byte>) returns (tok: seq<Byte>)
    ensures Extracted(b, tok)
    ensures tok != [] ==> |tok| >= |MARKER|
  {
    var i := 0;
    while i + |MARKER| <= |b| && b[i..i + |MARKER|] != MARKER
      invariant 0 <= i && forall j :: j < i ==> !MarkerAt(b, j)
      decreases |b| - i
    {
      i := i + 1;
    }
    if i + |MARKER| > |b| {
      return [];
    }
    var j := i;
    while j < |b| && IsJWTChar(b[j])
      invariant i <= j <= |b| && AllJWT(b[i..j])
    {
      assert b[i..j + 1] == b[i..j] + [b[j]];
      j := j + 1;
    }
    MarkerChars(b, i);
    assert RunFrom(b, i, j);
    tok := b[i..j];
  }

  lemma MarkerChars(b: seq<Byte>, i: nat)
    requires MarkerAt(b, i)
    ensures forall k :: i <= k < i + |MARKER| ==> IsJWTChar(b[k])
  {
    hide MARKER;
    MarkerFacts();
    forall k | i <= k < i + |MARKER| ensures IsJWTChar(b[k]) {
      assert b[k] == b[i..i + |MARKER|][k - i];
    }
  }

  lemma MarkerFacts()
    ensures |MARKER| == 36 && AllJWT(MARKER) && NoDot(MARKER)
  {}

  // ---------------------------------------------------------------- completeness

  function Dots(t: seq<Byte>): nat {
    if |t| == 0 then 0 else Dots(t[..|t| - 1]) + if t[|t| - 1] == DOT then 1 else 0
  }

  /** Number of characters behind the last dot. */
  function AfterLastDot(t: seq<Byte>): nat {
    if |t| == 0 || t[|t| - 1] == DOT then 0 else 1 + AfterLastDot(t[..|t| - 1])
  }

  predicate IsCompleteJWT(t: seq<Byte>) {
    Dots(t) == 2 && AfterLastDot(t) >= SIGNATURE_LEN
  }

  method CheckCompleteJWT(t: seq<Byte>) returns (complete: bool)
    ensures complete == IsCompleteJWT(t)
  {
    var count, lastDot := 0, -1;
    for i := 0 to |t|
      invariant count == Dots(t[..i]) && -1 <= lastDot < i
      invariant lastDot >= 0 ==> t[lastDot] == DOT
      invariant forall j :: lastDot < j < i ==> t[j] != DOT
      invariant count == 0 <==> lastDot == -1
    {
      assert t[..i + 1][..i] == t[..i];
      if t[i] == DOT {
        count, lastDot := count + 1, i;
      }
    }
    assert t[..|t|] == t;
    if count != 2 {
      return false;
    }
    LengthAfterDot(t, lastDot);
    complete := |t| - lastDot - 1 >= SIGNATURE_LEN;
  }

  lemma {:induction false} LengthAfterDot(t: seq<Byte>, d: nat)
    requires d < |t| && t[d] == DOT && NoDot(t[d + 1..])
    ensures AfterLastDot(t) == |t| - d - 1
  {
    if d < |t| - 1 {
      assert t[d + 1..][|t| - d - 2] == t[|t| - 1];
      var init := t[..|t| - 1];
      assert init[d + 1..] == t[d + 1..][..|t| - d - 2];
      LengthAfterDot(init, d);
    }
  }

  lemma {:induction false} DotsConcat(a: seq<Byte>, b: seq<Byte>)
    ensures Dots(a + b) == Dots(a) + Dots(b)
  {
    if |b| == 0 {
      assert a + b == a;
    } else {
      DotsConcat(a, b[..|b| - 1]);
      assert (a + b)[..|a + b| - 1] == a + b[..|b| - 1];
    }
  }

  lemma {:induction false} NoDots(b: seq<Byte>)
    requires NoDot(b)
    ensures Dots(b) == 0
  {
    if |b| > 0 {
      NoDots(b[..|b| - 1]);
    }
  }

  // ---------------------------------------------------------------- the tail field

  function FieldLen(b: seq<Byte>, i: int): nat
    requires 0 <= i && i + 4 <= |b|
  {
    Word32(b[i..i + 4])
  }

  /** A length-prefixed field at i whose content is all token characters. */
  predicate IsField(b: seq<Byte>, i: int) {
    && 0 <= i && i + 4 <= |b|
    && 1 <= FieldLen(b, i) <= MAX_TOKEN_LEN && i + 4 + FieldLen(b, i) <= |b|
    && AllJWT(b[i + 4..i + 4 + FieldLen(b, i)])
  }

  function FieldEnd(b: seq<Byte>, i: int): int
    requires IsField(b, i)
  {
    i + 4 + FieldLen(b, i)
  }

  function FieldAt(b: seq<Byte>, i: int): seq<Byte>
    requires IsField(b, i)
  {
    b[i + 4..FieldEnd(b, i)]
  }

  /** Among the fields starting before the bound, i ends latest, and is the first of those that do. */
  ghost predicate EndsLatest(b: seq<Byte>, bound: int, i: int) {
    && IsField(b, i) && i < bound
    && forall j :: j < bound && IsField(b, j) ==>
         (FieldEnd(b, j) < FieldEnd(b, i) || (FieldEnd(b, j) == FieldEnd(b, i) && i <= j))
  }

  ghost predicate LastField(b: seq<Byte>, tail: seq<Byte>) {
    || (tail == [] && forall j :: !IsField(b, j))
    || exists i :: EndsLatest(b, |b|, i) && tail == FieldAt(b, i)
  }

  method LastJWTField(b: seq<Byte>) returns (tail: seq<Byte>)
    ensures LastField(b, tail)
    ensures |tail| <= MAX_TOKEN_LEN
  {
    hide FieldLen;
    var bestEnd, bestStart, bestLen := -1, 0, 0;
    ghost var best := -1;
    var i := 0;
    while i + 4 <= |b|
      invariant 0 <= i <= |b|
      invariant bestEnd < 0 ==> forall j :: j < i ==> !IsField(b, j)
      invariant bestEnd >= 0 ==> EndsLatest(b, i, best) && bestEnd == FieldEnd(b, best)
      invariant bestEnd >= 0 ==> bestStart == best + 4 && bestLen == FieldLen(b, best)
      decreases |b| - i
    {
      assert FieldLen(b, i) == Word32(b[i..i + 4]) by { FieldLenAt(b, i); }
      var n: nat := Word32(b[i..i + 4]);
      if 1 <= n <= MAX_TOKEN_LEN && i + 4 + n <= |b| {
        var allJWT := ScanJWT(b[i + 4..i + 4 + n]);
        if allJWT && i + 4 + n > bestEnd {
          bestEnd, bestStart, bestLen := i + 4 + n, i + 4, n;
          best := i;
        }
      }
      i := i + 1;
    }
    if bestEnd < 0 {
      return [];
    }
    assert EndsLatest(b, |b|, best);
    tail := b[bestStart..bestStart + bestLen];
  }

  lemma FieldLenAt(b: seq<Byte>, i: int)
    requires 0 <= i && i + 4 <= |b|
    ensures FieldLen(b, i) == Word32(b[i..i + 4])
  {}

  method ScanJWT(b: seq<Byte>) returns (all: bool)
    ensures all == AllJWT(b)
  {
    for k := 0 to |b|
      invariant forall j :: 0 <= j < k ==> IsJWTChar(b[j])
    {
      if !IsJWTChar(b[k]) {
        return false;
      }
    }
    all := true;
  }

  /** Behind any metadata the tail is found whole: no overlapping window ends later, and a window that
      ends at the same place but starts earlier would have to cover the zero bytes of the length. */
  lemma TailIsLastField(meta: seq<Byte>, tail: seq<Byte>, found: seq<Byte>)
    requires 1 <= |tail| <= MAX_TOKEN_LEN && AllJWT(tail)
    requires LastField(meta + Bytes32(|tail|) + tail, found)
    ensures found == tail
  {
    hide FieldLen;
    var b, i := meta + Bytes32(|tail|) + tail, |meta|;
    FieldLenAt(b, i);
    assert b[i..i + 4] == Bytes32(|tail|);
    Word32OfBytes32(|tail|);
    assert b[i + 4..i + 4 + |tail|] == tail;
    assert IsField(b, i) && FieldEnd(b, i) == |b|;
    TopLengthByte(|tail|);
    assert b[i + 3] == Bytes32(|tail|)[3] == 0;
    forall j | IsField(b, j) ensures FieldEnd(b, j) < |b| || i <= j {
      RunChars(b, j + 4, FieldEnd(b, j));
    }
    assert EndsLatest(b, |b|, i);
  }

  lemma TopLengthByte(n: nat)
    requires n <= MAX_TOKEN_LEN
    ensures Bytes32(n)[3] == 0 && !IsJWTChar(0)
  {}

  // ---------------------------------------------------------------- reassembly

  /** header.payload.signature with the fixed header and a full signature. */
  ghost predicate IsToken(t: seq<Byte>, payload: seq<Byte>, signature: seq<Byte>) {
    && t == MARKER + [DOT] + payload + [DOT] + signature
    && AllJWT(payload) && NoDot(payload) && AllJWT(signature) && NoDot(signature)
    && |signature| == SIGNATURE_LEN
  }

  /** What the buffer holds after cmd 439. */
  function Buffered(payload439: seq<Byte>): seq<Byte>
    requires |payload439| >= 4
  {
    var declared: int, chunk := Word32(payload439[..4]), payload439[4..];
    if 0 < declared < |chunk| then chunk[..declared] else chunk
  }

  /** What prepareToken makes of a nonempty buffer: tok and tail are what the two scans report. */
  function Joined(prep439: seq<Byte>, tok: seq<Byte>, tail: seq<Byte>): seq<Byte> {
    var tok' := if tok == [] then prep439 else tok;
    if IsCompleteJWT(tok') then tok' else tok' + tail
  }

  lemma PrefixIsIncomplete(t: seq<Byte>, payload: seq<Byte>, signature: seq<Byte>, a: seq<Byte>)
    requires IsToken(t, payload, signature) && a <= t
    ensures IsCompleteJWT(a) <==> a == t
    ensures AllJWT(a)
  {
    hide Dots, AfterLastDot, MARKER;
    MarkerFacts();
    var head := MARKER + [DOT] + payload;
    OneDot(payload);
    if |a| <= |head| {
      assert a == head[..|a|];
      var b := head[|a|..];
      assert head == a + b;
      DotsConcat(a, b);
    } else {
      var s := a[|head| + 1..];
      assert s == signature[..|s|];
      assert a == head + [DOT] + s;
      DotsConcat(head + [DOT], s);
      DotsConcat(head, [DOT]);
      SingleDot();
      NoDots(s);
      LengthAfterDot(a, |head|);
      assert |a| == |t| ==> a == t;
    }
  }

  lemma SingleDot()
    ensures Dots([DOT]) == 1
  {
    assert Dots([]) == 0;
  }

  lemma OneDot(payload: seq<Byte>)
    requires NoDot(payload)
    ensures Dots(MARKER + [DOT] + payload) == 1
  {
    hide Dots, MARKER;
    MarkerFacts();
    DotsConcat(MARKER + [DOT], payload);
    DotsConcat(MARKER, [DOT]);
    SingleDot();
    NoDots(MARKER);
    NoDots(payload);
  }

  /** From any nonempty prefix of a token the scan reports the prefix itself, or nothing when the prefix
      is shorter than the header. */
  lemma ExtractedFromPrefix(t: seq<Byte>, payload: seq<Byte>, signature: seq<Byte>, a: seq<Byte>, tok: seq<Byte>)
    requires IsToken(t, payload, signature) && a <= t && Extracted(a, tok)
    ensures tok == a || tok == []
  {
    hide MARKER, IsCompleteJWT;
    MarkerFacts();
    PrefixIsIncomplete(t, payload, signature, a);
    if |a| >= |MARKER| {
      assert a[0..|MARKER|] == MARKER;
      assert MarkerAt(a, 0);
      assert a[0..|a|] == a;
      assert RunFrom(a, 0, |a|);
      assert FirstMarker(a, 0);
      ExtractedIsUnique(a, tok, a);
    } else {
      assert FirstMarker(a, -1);
      assert tok == [];
    }
  }

  /** A token split into a head a, sent in cmd 439 behind a declared length, and a nonempty tail b, sent
      in cmd 440 behind any metadata, comes back whole exactly when the declared length does not cut
      the head and the tail fits the field limit. */
  lemma SplitTokenComesBack(t: seq<Byte>, payload: seq<Byte>, signature: seq<Byte>, a: seq<Byte>, b: seq<Byte>,
                            declared: Word, meta: seq<Byte>, tok: seq<Byte>, tail: seq<Byte>)
    requires IsToken(t, payload, signature) && t == a + b && |a| > 0 && 0 < |b| < 0x1_0000_0000
    requires var prep := Buffered(Bytes32(declared) + a);
             Extracted(prep, tok) && LastField(meta + Bytes32(|b|) + b, tail)
    ensures Joined(Buffered(Bytes32(declared) + a), tok, tail) == t
       <==> (declared == 0 || declared >= |a|) && |b| <= MAX_TOKEN_LEN
  {
    hide IsCompleteJWT, IsField, Word32, Bytes32, IsToken, Extracted;
    var prep := Buffered(Bytes32(declared) + a);
    Word32OfBytes32(declared);
    assert (Bytes32(declared) + a)[..4] == Bytes32(declared) && (Bytes32(declared) + a)[4..] == a;
    assert prep == if 0 < declared < |a| then a[..declared] else a;
    assert prep <= t && |prep| < |t|;
    PrefixIsIncomplete(t, payload, signature, prep);
    PrefixIsIncomplete(t, payload, signature, t);
    ExtractedFromPrefix(t, payload, signature, prep, tok);
    assert Joined(prep, tok, tail) == prep + tail;
    if |b| <= MAX_TOKEN_LEN {
      SuffixIsJWT(a, b, t);
      TailIsLastField(meta, b, tail);
    } else {
      LastFieldIsShort(meta + Bytes32(|b|) + b, tail);
    }
  }

  lemma SuffixIsJWT(a: seq<Byte>, b: seq<Byte>, t: seq<Byte>)
    requires t == a + b && AllJWT(t)
    ensures AllJWT(b)
  {
    forall i | 0 <= i < |b| ensures IsJWTChar(b[i]) {
      assert b[i] == t[|a| + i];
    }
  }

  lemma LastFieldIsShort(b: seq<Byte>, tail: seq<Byte>)
    requires LastField(b, tail)
    ensures |tail| <= MAX_TOKEN_LEN
  {
    hide FieldLen;
  }

  /** A token that arrives whole in cmd 439 is returned whatever cmd 440 holds. */
  lemma WholeTokenComesBack(t: seq<Byte>, payload: seq<Byte>, signature: seq<Byte>, tok: seq<Byte>, tail: seq<Byte>)
    requires IsToken(t, payload, signature) && Extracted(t, tok)
    ensures Joined(t, tok, tail) == t
  {
    hide IsCompleteJWT, IsToken, Extracted;
    PrefixIsIncomplete(t, payload, signature, t);
    ExtractedFromPrefix(t, payload, signature, t, tok);
  }

  /** A token that travels whole in cmd 440 is found by the scan when the header does not occur before it
      and the run of token characters ends with it. */
  lemma ScannedTokenComesBack(t: seq<Byte>, payload: seq<Byte>, signature: seq<Byte>, before: seq<Byte>,
                              after: seq<Byte>, tok: seq<Byte>)
    requires IsToken(t, payload, signature)
    requires after == [] || !IsJWTChar(after[0])
    requires forall i :: 0 <= i < |before| ==> !MarkerAt(before + t + after, i)
    requires Extracted(before + t + after, tok)
    ensures tok == t
  {
    hide MARKER, IsCompleteJWT;
    var b, i, j := before + t + after, |before|, |before| + |t|;
    MarkerFacts();
    PrefixIsIncomplete(t, payload, signature, t);
    assert b[i..i + |MARKER|] == t[..|MARKER|] == MARKER;
    assert FirstMarker(b, i);
    assert b[i..j] == t && RunFrom(b, i, j);
    ExtractedIsUnique(b, tok, t);
  }

  // ---------------------------------------------------------------- the session

  const JOIN_REQ_HEADER_LEN: nat := 22

  /** ParseJoinMatchReq, as far as the token field. */
  function StructToken(b: seq<Byte>): seq<Byte> {
    if |b| < JOIN_REQ_HEADER_LEN + 4 then []
    else
      var len: int := Word32(b[22..26]);
      if len <= 0 || len > MAX_TOKEN_LEN || 26 + len > |b| then [] else b[26..26 + len]
  }

  class Session {
    var prep439: seq<Byte>

    constructor ()
      ensures prep439 == []
    {
      prep439 := [];
    }

    method HandleJoinMatchPrepare(payload: seq<Byte>)
      modifies this
      ensures prep439 == if |payload| < 4 then old(prep439) else Buffered(payload)
    {
      hide Word32;
      if |payload| < 4 {
        return;
      }
      var chunkLen: int := Word32(payload[..4]);
      var chunk := payload[4..];
      if chunkLen > 0 && chunkLen < |chunk| {
        chunk := chunk[..chunkLen];
      }
      prep439 := chunk;
    }

    method PrepareToken(payload440: seq<Byte>) returns (token: seq<Byte>)
      ensures prep439 != [] ==>
                exists tok, tail :: Extracted(prep439, tok) && LastField(payload440, tail)
                                 && token == Joined(prep439, tok, tail)
      ensures prep439 == [] ==>
                exists tok :: Extracted(payload440, tok)
                           && token == if tok != [] then tok else StructToken(payload440)
    {
      hide Extracted, IsCompleteJWT, Word32;
      if |prep439| > 0 {
        var tok := ExtractJWT(prep439);
        var scanned := tok;
        if tok == [] {
          tok := prep439;
        }
        var complete := CheckCompleteJWT(tok);
        var tail := LastJWTField(payload440);
        if !complete {
          token := tok + tail;
        } else {
          token := tok;
        }
        assert token == Joined(prep439, scanned, tail);
        return;
      }
      var tok := ExtractJWT(payload440);
      if tok != [] {
        return tok;
      }
      token := StructToken(payload440);
    }
  }
}
