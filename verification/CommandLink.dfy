/** The whole command path: print, frame, send in any segments, read, parse. */
module CommandLink {
  import opened Wrappers
  import opened Bytes
  import opened JsonText
  import opened CmdSchema
  import FC = FrameCodec
  import CS = CommandServer
  import CR = CommandReceiver

  /** What goes over the wire for a list of contents; a content too long to frame is not sent. */
  function Sent(contents: seq<Content>): seq<byte> {
    if contents == [] then []
    else
      (match FrameCmdPayload(contents[0]) case Ok(frame) => frame case Err(_) => []) + Sent(contents[1..])
  }

  /** What arrives: the sent commands the receiver's integers can hold, in order. */
  function Arriving(contents: seq<Content>): seq<CR.CommandFrame> {
    if contents == [] then []
    else
      (if FrameCmdPayload(contents[0]).Ok? && Receivable(contents[0]) then [FrameOf(contents[0])] else [])
      + Arriving(contents[1..])
  }

  /** What the sender meant: the same commands with set-points by the dicts' own keys. */
  function Meant(contents: seq<Content>): seq<CR.CommandFrame> {
    if contents == [] then []
    else
      (if FrameCmdPayload(contents[0]).Ok? && Receivable(contents[0]) then [OwnFrame(contents[0])] else [])
      + Meant(contents[1..])
  }

  lemma {:induction false} ArrivingIsMeant(contents: seq<Content>)
    requires forall i | 0 <= i < |contents| :: Unaliased(contents[i])
    ensures Arriving(contents) == Meant(contents)
  {
    hide FrameOf, OwnFrame, Unaliased, Receivable, FrameCmdPayload;
    if contents != [] {
      FrameIsOwn(contents[0]);
      ArrivingIsMeant(contents[1..]);
    }
  }

  lemma FourDigits(n: nat)
    ensures n == n / 0x100_0000 * 0x100_0000 + n / 0x1_0000 % 256 * 0x1_0000 + n / 256 % 256 * 256 + n % 256
  {
    assert n / 0x1_0000 == n / 256 / 256 && n / 0x100_0000 == n / 0x1_0000 / 256;
  }

  lemma LengthRoundTrip(n: nat, rest: seq<byte>)
    requires n < 0x1_0000_0000
    ensures FC.UnpackLength(PackLength(n) + rest) == n
  {
    var b := PackLength(n) + rest;
    FourDigits(n);
    assert b[0] == n / 0x100_0000 && b[1] == n / 0x1_0000 % 256 && b[2] == n / 256 % 256 && b[3] == n % 256;
  }

  lemma TextRoundTrip(t: string)
    requires forall i | 0 <= i < |t| :: t[i] as int < 256
    ensures TextOf(BytesOf(t)) == t
  {
  }

  /** A framed payload at the front of a stream is read back as it was. */
  lemma FrameRoundTrip(raw: seq<byte>, rest: seq<byte>)
    requires 1 <= |raw| <= MAX_PAYLOAD_BYTES
    ensures FC.FrameAt(PackLength(|raw|) + raw + rest, CS.TCP_MAX_FRAME_BYTES) == Some(FC.Frame(raw, rest))
  {
    hide PackLength, FC.UnpackLength;
    var stream := PackLength(|raw|) + raw + rest;
    assert stream == PackLength(|raw|) + (raw + rest);
    LengthRoundTrip(|raw|, raw + rest);
    FourBytes(|raw|);
    assert stream[4..4 + |raw|] == raw && stream[4 + |raw|..] == rest;
  }

  lemma FourBytes(n: nat)
    requires n < 0x1_0000_0000
    ensures |PackLength(n)| == 4
  {
  }

  /**
   Every list of commands comes out of the receiver as it went into the sender: the same
   fields in the same order, whatever follows on the stream. Without aliases the set-points
   are those of the sent dicts' own keys.
   */
  lemma CommandsArrive(contents: seq<Content>, tail: seq<byte>)
    ensures CS.Served(Sent(contents) + tail) == Arriving(contents) + CS.Served(tail)
    ensures (forall i | 0 <= i < |contents| :: Unaliased(contents[i])) ==>
              CS.Served(Sent(contents) + tail) == Meant(contents) + CS.Served(tail)
  {
    hide *;
    ContentsArrive(contents, tail);
    if forall i | 0 <= i < |contents| :: Unaliased(contents[i]) {
      ArrivingIsMeant(contents);
    }
  }

  lemma {:induction false} ContentsArrive(contents: seq<Content>, tail: seq<byte>)
    ensures CS.Served(Sent(contents) + tail) == Arriving(contents) + CS.Served(tail)
  {
    hide FrameOf, Receivable, FrameCmdPayload, PayloadText, PackLength, BytesOf, CS.Served, CS.Parsed;
    if contents == [] {
      assert Sent(contents) + tail == tail;
    } else {
      var c := contents[0];
      var rest := Sent(contents[1..]) + tail;
      ContentsArrive(contents[1..], tail);
      match FrameCmdPayload(c)
      case Err(_) =>
        assert Sent(contents) + tail == rest && Arriving(contents) == Arriving(contents[1..]);
      case Ok(frame) =>
        var raw := BytesOf(PayloadText(c));
        FramedIs(c);
        Associative(frame, Sent(contents[1..]), tail);
        PayloadArrives(c);
        ServedStep(raw, rest);
        Associative(CS.Parsed(raw), Arriving(contents[1..]), CS.Served(tail));
    }
  }

  lemma FramedIs(c: Content)
    requires FrameCmdPayload(c).Ok?
    ensures var raw := BytesOf(PayloadText(c));
            1 <= |raw| <= MAX_PAYLOAD_BYTES && FrameCmdPayload(c).value == PackLength(|raw|) + raw
  {
    hide PackLength, PayloadText, BytesOf;
  }

  lemma ServedStep(raw: seq<byte>, rest: seq<byte>)
    requires 1 <= |raw| <= MAX_PAYLOAD_BYTES
    ensures CS.Served(PackLength(|raw|) + raw + rest) == CS.Parsed(raw) + CS.Served(rest)
  {
    hide FC.FrameAt, PackLength, CS.Parsed;
    FrameRoundTrip(raw, rest);
  }

  lemma PayloadArrives(c: Content)
    ensures CS.Parsed(BytesOf(PayloadText(c))) == if Receivable(c) then [FrameOf(c)] else []
  {
    hide FrameOf, Receivable, CR.ParseCmd, Print;
    TextRoundTrip(PayloadText(c));
    RoundTrip(c);
  }

  /**
   The running server publishes exactly the arriving commands with their receive times, however
   the bytes are cut into segments, and in order of time on a clock that never goes back.
   */
  method Deliver(contents: seq<Content>, segments: seq<seq<byte>>, clock: nat -> real, ghost shown: nat -> real)
    returns (server: CS.CommandServer)
    requires forall i | 0 <= i < |segments| :: segments[i] != []
    requires Flatten(segments) == Sent(contents)
    ensures server.Valid() && server.Commands() == Arriving(contents)
    ensures server.published == CS.Stamped(Arriving(contents), clock, shown)
    ensures (forall i | 0 <= i < |contents| :: Unaliased(contents[i])) ==>
              server.published == CS.Stamped(Meant(contents), clock, shown)
    ensures CS.Forward(clock(0), clock, shown) ==> CS.Sorted(server.published)
  {
    hide CS.Forward, CS.Stamped, CS.LastVisible, CS.Served, Unaliased, Sent, Arriving, Meant, CS.Sorted;
    NothingServed(clock(0));
    server := new CS.CommandServer();
    var sock := new FC.Socket(segments);
    server.ServeConnection(sock, clock, shown);
    CommandsArrive(contents, []);
    assert Sent(contents) + [] == Sent(contents);
    assert Arriving(contents) + [] == Arriving(contents) && Meant(contents) + [] == Meant(contents);
    var all := CS.Stamped(CS.Served(Sent(contents)), clock, shown);
    assert [] + all == all;
  }

  lemma NothingServed(t: real)
    ensures CS.Served([]) == [] && CS.Sorted([]) && CS.LastVisible([], t) == t
  {
  }

  lemma PackUnpack(b: seq<byte>)
    requires |b| == 4
    ensures PackLength(FC.UnpackLength(b)) == b
  {
    var n := FC.UnpackLength(b);
    LowByte(b[0] as int * 0x1_0000 + b[1] as int * 256 + b[2] as int, b[3]);
    LowByte(b[0] as int * 256 + b[1] as int, b[2]);
    LowByte(b[0], b[1]);
    assert n / 0x1_0000 == n / 256 / 256 && n / 0x100_0000 == n / 256 / 256 / 256;
  }

  lemma LowByte(high: nat, low: byte)
    ensures (high * 256 + low as int) / 256 == high && (high * 256 + low as int) % 256 == low
  {
  }

  /**
   The reader takes exactly the streams that start with a payload of 1 to `maxLen` bytes behind its
   length: empty, oversized and cut ones are refused.
   */
  lemma FrameAtIff(stream: seq<byte>, maxLen: nat, payload: seq<byte>, rest: seq<byte>)
    requires maxLen < 0x1_0000_0000
    ensures FC.FrameAt(stream, maxLen) == Some(FC.Frame(payload, rest))
       <==> 1 <= |payload| <= maxLen && stream == PackLength(|payload|) + (payload + rest)
  {
    hide PackLength, FC.UnpackLength;
    if FC.FrameAt(stream, maxLen) == Some(FC.Frame(payload, rest)) {
      FirstFour(stream);
      PackUnpack(stream[..4]);
      assert stream == stream[..4] + stream[4..] && stream[4..] == payload + rest;
    }
    if 1 <= |payload| <= maxLen && stream == PackLength(|payload|) + (payload + rest) {
      LengthRoundTrip(|payload|, payload + rest);
      FourBytes(|payload|);
      assert stream[4..4 + |payload|] == payload && stream[4 + |payload|..] == rest;
    }
  }

  lemma FirstFour(b: seq<byte>)
    requires |b| >= 4
    ensures FC.UnpackLength(b[..4]) == FC.UnpackLength(b)
  {
  }
}
