/** MSPv1 framing: encoding requests, and the incremental parser of replies. */
module MspFraming {
  import opened Wrappers
  import opened Bytes

  const DOLLAR: byte := 36
  const LETTER_M: byte := 77
  const TO_FC: byte := 60
  const FROM_FC: byte := 62
  const MSP_RC: byte := 105
  const MSP_SET_RAW_RC: byte := 200
  const RC_CHANNELS := 8
  const RC_CHANNEL_MIN_US := 1000
  const RC_CHANNEL_MAX_US := 2000

  /** A payload whose length fits the one-byte size field. */
  type Payload = p: seq<byte> | |p| < 256 witness []

  datatype MspFrame = MspFrame(cmd: byte, payload: Payload)

  /** The running exclusive or of `acc` and the bytes of `s`. */
  function Checksum(acc: byte, s: seq<byte>): byte
    decreases |s|
  {
    if s == [] then acc else Checksum(XorByte(acc, s[0]), s[1..])
  }

  function FrameChecksum(f: MspFrame): byte {
    Checksum(XorByte(|f.payload|, f.cmd), f.payload)
  }

  /** A whole frame in direction `dir`: marker, size, command, payload, checksum. */
  function FrameBytes(dir: byte, f: MspFrame): (b: seq<byte>)
    ensures |b| == 6 + |f.payload|
  {
    [DOLLAR, LETTER_M, dir, |f.payload|, f.cmd] + f.payload + [FrameChecksum(f)]
  }

  // -------------------------------------------------------------------- encoding

  method XorChecksum(buf: seq<byte>) returns (cksum: byte)
    ensures cksum == Checksum(0, buf)
  {
    cksum := 0;
    for i := 0 to |buf|
      invariant Checksum(0, buf) == Checksum(cksum, buf[i..])
    {
      assert buf[i..][1..] == buf[i + 1..];
      cksum := XorByte(cksum, buf[i]);
    }
  }

  /** The first 255 bytes, all that the one-byte size field can announce. */
  function Truncated(payload: seq<byte>): (p: Payload)
    ensures p <= payload && |p| == if |payload| > 255 then 255 else |payload|
  {
    if |payload| > 255 then payload[..255] else payload
  }

  method EncodeRequest(cmd: byte, payload: seq<byte>) returns (frame: seq<byte>)
    ensures frame == FrameBytes(TO_FC, MspFrame(cmd, Truncated(payload)))
  {
    var size: byte := if |payload| > 255 then 255 else |payload|;
    frame := [DOLLAR, LETTER_M, TO_FC, size, cmd];
    var cksum := XorByte(size, cmd);
    ghost var p := Truncated(payload);
    for i := 0 to size
      invariant frame == [DOLLAR, LETTER_M, TO_FC, size, cmd] + p[..i]
      invariant Checksum(XorByte(size, cmd), p) == Checksum(cksum, p[i..])
    {
      assert p[i..][1..] == p[i + 1..];
      frame := frame + [payload[i]];
      cksum := XorByte(cksum, payload[i]);
    }
    assert p[..size] == p;
    frame := frame + [cksum];
  }

  function Clamped(v: nat): (c: nat)
    ensures v < 1000 ==> c == 1000
    ensures 1000 <= v <= 2000 ==> c == v
    ensures v > 2000 ==> c == 2000
  {
    if v < RC_CHANNEL_MIN_US then RC_CHANNEL_MIN_US else if v > RC_CHANNEL_MAX_US then RC_CHANNEL_MAX_US else v
  }

  type Channels = c: seq<nat> | |c| == RC_CHANNELS && forall i | 0 <= i < |c| :: c[i] < 0x10000
    witness [0, 0, 0, 0, 0, 0, 0, 0]

  /** Two bytes a channel, low byte first, every channel clamped. */
  function RcPayload(channels: seq<nat>): (p: seq<byte>)
    ensures |p| == 2 * |channels|
  {
    if channels == [] then []
    else [Clamped(channels[0]) % 256, Clamped(channels[0]) / 256] + RcPayload(channels[1..])
  }

  lemma RcPayloadStep(channels: seq<nat>, i: nat)
    requires i < |channels|
    ensures RcPayload(channels[i..])
         == [Clamped(channels[i]) % 256, Clamped(channels[i]) / 256] + RcPayload(channels[i + 1..])
  {
    assert channels[i..][1..] == channels[i + 1..];
  }

  method EncodeSetRawRc(channels: Channels) returns (frame: seq<byte>)
    ensures frame == FrameBytes(TO_FC, MspFrame(MSP_SET_RAW_RC, RcPayload(channels)))
  {
    hide RcPayload;
    var payload: seq<byte> := [];
    assert channels[0..] == channels;
    for i := 0 to RC_CHANNELS
      invariant |payload| == 2 * i
      invariant payload + RcPayload(channels[i..]) == RcPayload(channels)
    {
      var v := channels[i];
      if v < RC_CHANNEL_MIN_US {
        v := RC_CHANNEL_MIN_US;
      } else if v > RC_CHANNEL_MAX_US {
        v := RC_CHANNEL_MAX_US;
      }
      RcPayloadStep(channels, i);
      ghost var before, rest := payload, RcPayload(channels[i + 1..]);
      payload := payload + [v % 256, v / 256];
      assert payload + rest == before + ([v % 256, v / 256] + rest);
    }
    assert channels[RC_CHANNELS..] == [] && |RcPayload([])| == 0;
    assert payload + RcPayload([]) == payload;
    frame := EncodeRequest(MSP_SET_RAW_RC, payload);
  }

  /** Little-endian 16-bit values, as the receiving side reads them. */
  function RcChannels(payload: seq<byte>): seq<nat> {
    if |payload| < 2 then [] else [payload[0] as int + 256 * payload[1] as int] + RcChannels(payload[2..])
  }

  /** Every channel arrives as it was sent, clamped. */
  lemma {:induction false} RcRoundTrip(channels: seq<nat>)
    ensures |RcChannels(RcPayload(channels))| == |channels|
    ensures forall i | 0 <= i < |channels| :: RcChannels(RcPayload(channels))[i] == Clamped(channels[i])
  {
    if channels != [] {
      RcRoundTrip(channels[1..]);
      assert RcPayload(channels)[2..] == RcPayload(channels[1..]);
    }
  }

  // --------------------------------------------------------------------- parsing

  datatype ParseResult = ParseResult(frame: Option<MspFrame>, consumed: nat, checksumError: bool)

  predicate HeaderAt(buf: seq<byte>, i: nat) {
    i + 3 <= |buf| && buf[i] == DOLLAR && buf[i + 1] == LETTER_M && buf[i + 2] == FROM_FC
  }

  /** The position of the first reply marker, or the first position too close to the end for one. */
  function FirstHeader(buf: seq<byte>): (i: nat)
    ensures i <= |buf| && (|buf| >= 3 ==> i + 2 <= |buf|)
    ensures HeaderAt(buf, i) || i + 3 > |buf|
    ensures forall j | 0 <= j < i :: !HeaderAt(buf, j)
  {
    if |buf| < 3 || HeaderAt(buf, 0) then 0
    else
      var k := FirstHeader(buf[1..]);
      assert forall j | 1 <= j :: HeaderAt(buf, j) <==> HeaderAt(buf[1..], j - 1);
      1 + k
  }

  /** What a buffer that starts with a reply marker gives. */
  function ParseAtHeader(buf: seq<byte>): (r: ParseResult)
    requires HeaderAt(buf, 0)
    ensures r.consumed <= |buf|
    ensures r.frame.Some? || r.checksumError ==> r.consumed >= 6
  {
    if |buf| < 5 || |buf| < 6 + buf[3] as int then ParseResult(None, 0, false)
    else
      var size: int := buf[3];
      var f := MspFrame(buf[4], buf[5..5 + size]);
      if FrameChecksum(f) == buf[5 + size] then ParseResult(Some(f), 6 + size, false)
      else ParseResult(None, 6 + size, true)
  }

  function Moved(k: nat, r: ParseResult): ParseResult {
    ParseResult(r.frame, k + r.consumed, r.checksumError)
  }

  function ParsedResponse(buf: seq<byte>): (r: ParseResult)
    ensures r.consumed <= |buf|
    ensures r.frame.Some? || r.checksumError ==> r.consumed > 0
  {
    if |buf| < 3 then ParseResult(None, 0, false)
    else
      var i := FirstHeader(buf);
      if HeaderAt(buf, i) then Moved(i, ParseAtHeader(buf[i..])) else ParseResult(None, i, false)
  }

  lemma ParsedIs(buf: seq<byte>, i: nat)
    requires |buf| >= 3 && i == FirstHeader(buf)
    ensures HeaderAt(buf, i) ==> HeaderAt(buf[i..], 0)
    ensures ParsedResponse(buf)
         == if HeaderAt(buf, i) then Moved(i, ParseAtHeader(buf[i..])) else ParseResult(None, i, false)
  {
  }

  lemma ChecksumNext(acc: byte, s: seq<byte>, j: nat)
    requires j < |s|
    ensures Checksum(acc, s[j..]) == Checksum(XorByte(acc, s[j]), s[j + 1..])
  {
    assert s[j..][1..] == s[j + 1..];
  }

  lemma ChecksumOfNothing(acc: byte)
    ensures Checksum(acc, []) == acc
  {
  }

  lemma HeaderIsLater(buf: seq<byte>, tail: seq<byte>)
    requires |buf| >= 3 && !HeaderAt(buf, 0) && tail == buf[1..]
    ensures FirstHeader(buf) == 1 + FirstHeader(tail)
  {
  }

  lemma HeaderIsHere(buf: seq<byte>)
    ensures |buf| < 3 || HeaderAt(buf, 0) ==> FirstHeader(buf) == 0
  {
  }

  method ParseResponse(buf: seq<byte>) returns (result: ParseResult)
    ensures result == ParsedResponse(buf)
  {
    hide FirstHeader;
    var n := |buf|;
    result := ParseResult(None, 0, false);
    if n < 3 {
      return;
    }
    var i, foundHeader := 0, false;
    while i + 3 <= n && !foundHeader
      invariant i + 2 <= n
      invariant FirstHeader(buf) == i + FirstHeader(buf[i..])
      invariant foundHeader ==> HeaderAt(buf, i)
      decreases n - i, !foundHeader
    {
      if buf[i] == DOLLAR && buf[i + 1] == LETTER_M && buf[i + 2] == FROM_FC {
        foundHeader := true;
      } else {
        HeaderIsLater(buf[i..], buf[i + 1..]);
        i := i + 1;
      }
    }
    HeaderIsHere(buf[i..]);
    if !foundHeader {
      return ParseResult(None, i, false);
    }
    hide HeaderAt, ParseAtHeader;
    ParsedIs(buf, i);
    result := ParseFrom(buf, i);
  }

  /** The rest of the parser, from the marker it has found at `i` on. */
  method ParseFrom(buf: seq<byte>, i: nat) returns (result: ParseResult)
    requires i <= |buf| && HeaderAt(buf[i..], 0)
    ensures result == Moved(i, ParseAtHeader(buf[i..]))
  {
    hide Checksum;
    var n := |buf|;
    if i + 5 > n {
      return ParseResult(None, i, false);
    }
    var size, cmd := buf[i + 3], buf[i + 4];
    var total: int := 3 + 1 + 1 + size as int + 1;
    if i + total > n {
      return ParseResult(None, i, false);
    }
    ghost var payload := buf[i..][5..5 + size as int];
    var cksum := XorByte(size, cmd);
    for j := 0 to size as int
      invariant Checksum(XorByte(size, cmd), payload) == Checksum(cksum, payload[j..])
    {
      ChecksumNext(cksum, payload, j);
      cksum := XorByte(cksum, buf[i + 5 + j]);
    }
    ChecksumOfNothing(cksum);
    ghost var t := buf[i..];
    assert t[3] == size && t[4] == cmd && t[5 + size as int] == buf[i + 5 + size as int];
    assert FrameChecksum(MspFrame(cmd, payload)) == cksum by { assert payload[size as int..] == []; }
    assert buf[i + 5..i + 5 + size as int] == payload by { Subslice(buf, i, n, 5, 5 + size as int); }
    if cksum != buf[i + 5 + size as int] {
      return ParseResult(None, i + total, true);
    }
    return ParseResult(Some(MspFrame(cmd, buf[i + 5..i + 5 + size as int])), i + total, false);
  }

  // -------------------------------------------------------- what the bytes mean

  /** A whole valid reply is parsed to the frame it was made of, whatever follows. */
  lemma ReplyRoundTrip(f: MspFrame, rest: seq<byte>)
    ensures ParsedResponse(FrameBytes(FROM_FC, f) + rest) == ParseResult(Some(f), 6 + |f.payload|, false)
  {
    var buf := FrameBytes(FROM_FC, f) + rest;
    assert HeaderAt(buf, 0) && FirstHeader(buf) == 0 && buf[0..] == buf;
    assert buf[5..5 + |f.payload|] == f.payload;
    assert MspFrame(buf[4], buf[5..5 + |f.payload|]) == f;
  }

  /** Changing one byte changes the running checksum. */
  lemma {:induction false} ChecksumSeesChange(acc: byte, acc': byte, s: seq<byte>, s': seq<byte>)
    requires |s| == |s'|
    requires || (acc != acc' && s == s')
             || (acc == acc'
                 && exists k | 0 <= k < |s| :: s[k] != s'[k] && s[..k] == s'[..k] && s[k + 1..] == s'[k + 1..])
    ensures Checksum(acc, s) != Checksum(acc', s')
    decreases |s|
  {
    if s != [] {
      if acc != acc' {
        XorCommutes(acc, s[0]);
        XorCommutes(acc', s[0]);
        if Xor(acc, s[0]) == Xor(acc', s[0]) {
          XorInjectiveRight(s[0], acc, acc');
        }
        ChecksumSeesChange(XorByte(acc, s[0]), XorByte(acc', s'[0]), s[1..], s'[1..]);
      } else {
        var k :| 0 <= k < |s| && s[k] != s'[k] && s[..k] == s'[..k] && s[k + 1..] == s'[k + 1..];
        if k == 0 {
          if Xor(acc, s[0]) == Xor(acc', s'[0]) {
            XorInjectiveRight(acc, s[0], s'[0]);
          }
          assert s[1..] == s'[1..];
        } else {
          assert s[0] == s[..k][0] == s'[0];
          assert s[1..][k - 1] != s'[1..][k - 1];
          assert s[1..][..k - 1] == s[..k][1..] == s'[..k][1..] == s'[1..][..k - 1];
          assert s[1..][k..] == s[k + 1..] && s'[1..][k..] == s'[k + 1..];
        }
        ChecksumSeesChange(XorByte(acc, s[0]), XorByte(acc', s'[0]), s[1..], s'[1..]);
      }
    }
  }
}
