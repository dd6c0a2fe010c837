/** Reading length-prefixed frames from a socket that delivers its bytes in arbitrary segments. */
module FrameCodec {
  import opened Wrappers
  import opened Bytes

  /** The receiving end of a stream: the segments `recv` will deliver before the peer closes. */
  class Socket {
    var segments: seq<seq<byte>>

    constructor (segments: seq<seq<byte>>)
      requires forall i | 0 <= i < |segments| :: segments[i] != []
      ensures this.segments == segments && Valid()
    {
      this.segments := segments;
    }

    ghost predicate Valid()
      reads this
    {
      forall i | 0 <= i < |segments| :: segments[i] != []
    }

    ghost function Stream(): seq<byte>
      reads this
    {
      Flatten(segments)
    }

    /** Delivers between one and `limit` bytes, or none when the stream has ended. */
    method Recv(limit: nat) returns (data: seq<byte>)
      requires Valid() && limit > 0
      modifies this
      ensures Valid()
      ensures |data| <= limit && (data == [] <==> old(Stream()) == [])
      ensures old(Stream()) == data + Stream()
    {
      if segments == [] {
        return [];
      }
      var first := segments[0];
      assert Stream() == first + Flatten(segments[1..]);
      if |first| <= limit {
        data, segments := first, segments[1..];
      } else {
        data := first[..limit];
        segments := [first[limit..]] + segments[1..];
        assert segments[1..] == old(segments)[1..];
        assert first == data + first[limit..];
      }
    }
  }

  /** Fills `buf[..nbytes]`, whatever the segments are; fails only when the stream is too short. */
  method RecvExact(sock: Socket, buf: array<byte>, nbytes: nat) returns (ok: bool)
    requires sock.Valid() && nbytes <= buf.Length
    modifies sock, buf
    ensures sock.Valid()
    ensures ok == (|old(sock.Stream())| >= nbytes)
    ensures ok ==> old(sock.Stream()) == buf[..nbytes] + sock.Stream()
    ensures buf[nbytes..] == old(buf[nbytes..])
  {
    var got := 0;
    ghost var stream := sock.Stream();
    while got < nbytes
      invariant sock.Valid() && got <= nbytes
      invariant stream == buf[..got] + sock.Stream()
      invariant buf[nbytes..] == old(buf[nbytes..])
    {
      ghost var before := buf[..got];
      ghost var tail := buf[nbytes..];
      var data := sock.Recv(nbytes - got);
      if data == [] {
        assert sock.Stream() == [];
        return false;
      }
      forall i | 0 <= i < |data| {
        buf[got + i] := data[i];
      }
      assert buf[..got + |data|] == before + data;
      assert buf[nbytes..] == tail;
      got := got + |data|;
    }
    return true;
  }

  /** The number in the first four bytes, most significant first. */
  function UnpackLength(b: seq<byte>): (n: nat)
    requires |b| >= 4
    ensures n < 0x1_0000_0000
  {
    b[0] as int * 0x100_0000 + b[1] as int * 0x1_0000 + b[2] as int * 256 + b[3] as int
  }

  datatype Frame = Frame(payload: seq<byte>, rest: seq<byte>)

  /** The frame at the front of a stream, or nothing when it is short, empty or too long. */
  function FrameAt(stream: seq<byte>, maxLen: nat): (r: Option<Frame>)
    ensures r.Some? ==> |r.value.rest| < |stream|
  {
    if |stream| < 4 then None
    else
      var len := UnpackLength(stream);
      if len == 0 || len > maxLen || |stream| < 4 + len then None
      else Some(Frame(stream[4..4 + len], stream[4 + len..]))
  }

  method ReadFrame(sock: Socket, maxLen: nat) returns (r: Option<seq<byte>>)
    requires sock.Valid()
    modifies sock
    ensures sock.Valid()
    ensures match FrameAt(old(sock.Stream()), maxLen)
            case None => r == None
            case Some(Frame(payload, rest)) => r == Some(payload) && sock.Stream() == rest
  {
    ghost var stream := sock.Stream();
    var header := new byte[4];
    var ok := RecvExact(sock, header, 4);
    if !ok {
      return None;
    }
    assert header[..] == header[..4] == stream[..4];
    var len := UnpackLength(header[..]);
    assert len == UnpackLength(stream);
    if len == 0 || len > maxLen {
      return None;
    }
    assert sock.Stream() == stream[4..];
    var payload := new byte[len];
    ok := RecvExact(sock, payload, len);
    if !ok {
      return None;
    }
    assert payload[..] == payload[..len] == stream[4..][..len] == stream[4..4 + len];
    assert sock.Stream() == stream[4..][len..] == stream[4 + len..];
    return Some(payload[..]);
  }
}
