/** The command server: reads frames, parses them, publishes the newest command with its receive time. */
module CommandServer {
  import opened Wrappers
  import opened Bytes
  import opened FrameCodec
  import CR = CommandReceiver

  const TCP_MAX_FRAME_BYTES := 4096

  /** What `seconds_since_last_cmd` reports before the first command. */
  const NEVER := 1000000000.0

  function Parsed(payload: seq<byte>): (r: seq<CR.CommandFrame>)
    ensures |r| <= 1
  {
    match CR.ParseCmd(TextOf(payload))
    case None => []
    case Some(cmd) => [cmd]
  }

  /** The commands published from a stream: up to the first bad frame, without unparsable payloads. */
  function Served(stream: seq<byte>): seq<CR.CommandFrame>
    decreases |stream|
  {
    match FrameAt(stream, TCP_MAX_FRAME_BYTES)
    case None => []
    case Some(Frame(payload, rest)) => Parsed(payload) + Served(rest)
  }

  /**
   A command with the receive time read for it, and the moment from which readers find it: the
   time is read first, and the lock under which both are stored may come later.
   */
  datatype Publication = Publication(cmd: CR.CommandFrame, time: real, visible: real)

  /**
   Commands with their times: `clock(k)` is read for the k-th of them, which is in place for
   readers from `shown(k)` on.
   */
  function Stamped(commands: seq<CR.CommandFrame>, clock: nat -> real, shown: nat -> real): (r: seq<Publication>)
    ensures |r| == |commands| && forall i | 0 <= i < |r| :: r[i] == Publication(commands[i], clock(i), shown(i))
  {
    seq(|commands|, i requires 0 <= i < |commands| => Publication(commands[i], clock(i), shown(i)))
  }

  /** One worker publishes: it reads the next time after it has stored the command before. */
  ghost predicate Sorted(pubs: seq<Publication>) {
    && (forall i | 0 <= i < |pubs| :: pubs[i].time <= pubs[i].visible)
    && (forall i, j | 0 <= i < j < |pubs| :: pubs[i].visible <= pubs[j].time)
  }

  /** A clock that never goes back, read at or after `from`. */
  ghost predicate Forward(from: real, clock: nat -> real, shown: nat -> real) {
    && clock(0) >= from
    && (forall i: nat :: clock(i) <= shown(i))
    && (forall i: nat, j: nat | i < j :: shown(i) <= clock(j))
  }

  function LastVisible(pubs: seq<Publication>, otherwise: real): real {
    if pubs == [] then otherwise else pubs[|pubs| - 1].visible
  }

  /** Publications on a forward clock stay in the order of their times. */
  lemma StampedStaysSorted(pubs: seq<Publication>, commands: seq<CR.CommandFrame>,
                           clock: nat -> real, shown: nat -> real)
    requires Sorted(pubs) && Forward(LastVisible(pubs, clock(0)), clock, shown)
    ensures Sorted(pubs + Stamped(commands, clock, shown))
  {
    var all, n := pubs + Stamped(commands, clock, shown), |pubs|;
    forall i, j | 0 <= i < j < |all| ensures all[i].visible <= all[j].time {
      if j >= n {
        assert clock(0) <= clock(j - n) by {
          if j > n {
            assert clock(0) <= shown(0) <= clock(j - n);
          }
        }
        if i < n - 1 {
          assert pubs[i].visible <= pubs[n - 1].time <= pubs[n - 1].visible;
        }
      }
    }
  }

  // ------------------------------------------------------------ what a reader finds

  /** The publications in place at a time. */
  function SeenAt(pubs: seq<Publication>, t: real): (r: seq<Publication>)
    ensures r <= pubs && (r != [] ==> r[|r| - 1].visible <= t)
  {
    if pubs == [] || pubs[|pubs| - 1].visible <= t then pubs else SeenAt(pubs[..|pubs| - 1], t)
  }

  function NewestCommand(pubs: seq<Publication>): Option<CR.CommandFrame> {
    if pubs == [] then None else Some(pubs[|pubs| - 1].cmd)
  }

  /** What `seconds_since_last_cmd` makes of the newest publication with a later clock reading. */
  function AgeOf(pubs: seq<Publication>, now: real): real {
    if pubs == [] || pubs[|pubs| - 1].time <= 0.0 then NEVER else now - pubs[|pubs| - 1].time
  }

  /** A later reader finds at least as much, and what it finds beyond has come into place in between. */
  lemma {:induction false} SeenLater(pubs: seq<Publication>, t: real, t': real)
    requires t <= t'
    ensures SeenAt(pubs, t) <= SeenAt(pubs, t')
    ensures var r := SeenAt(pubs, t'); r == SeenAt(pubs, t) || r[|r| - 1].visible > t
  {
    if pubs != [] && pubs[|pubs| - 1].visible > t' {
      SeenLater(pubs[..|pubs| - 1], t, t');
    }
  }

  lemma ServedEnd(stream: seq<byte>)
    requires FrameAt(stream, TCP_MAX_FRAME_BYTES) == None
    ensures Served(stream) == []
  {
  }

  lemma ServedFrame(stream: seq<byte>, payload: seq<byte>, rest: seq<byte>)
    requires FrameAt(stream, TCP_MAX_FRAME_BYTES) == Some(Frame(payload, rest))
    ensures Served(stream) == Parsed(payload) + Served(rest)
  {
    hide FrameAt, Parsed;
  }

  function CommandsOf(pubs: seq<Publication>): (r: seq<CR.CommandFrame>)
    ensures |r| == |pubs| && forall i | 0 <= i < |r| :: r[i] == pubs[i].cmd
  {
    seq(|pubs|, i requires 0 <= i < |pubs| => pubs[i].cmd)
  }

  lemma StampedCommands(pubs: seq<Publication>, commands: seq<CR.CommandFrame>,
                        clock: nat -> real, shown: nat -> real)
    ensures CommandsOf(pubs + Stamped(commands, clock, shown)) == CommandsOf(pubs) + commands
  {
  }

  lemma StampedNext(pubs: seq<Publication>, commands: seq<CR.CommandFrame>, cmd: CR.CommandFrame,
                    clock: nat -> real, shown: nat -> real)
    ensures var k := |commands|;
            pubs + Stamped(commands + [cmd], clock, shown)
            == pubs + Stamped(commands, clock, shown) + [Publication(cmd, clock(k), shown(k))]
  {
    var k := |commands|;
    assert Stamped(commands + [cmd], clock, shown)
        == Stamped(commands, clock, shown) + [Publication(cmd, clock(k), shown(k))];
  }

  lemma NothingStamped(pubs: seq<Publication>, clock: nat -> real, shown: nat -> real)
    ensures pubs + Stamped([], clock, shown) == pubs
  {
  }

  lemma OneCommand(payload: seq<byte>)
    ensures Parsed(payload) != [] ==> Parsed(payload) == [Parsed(payload)[0]]
  {
  }

  class CommandServer {
    var hasCmd: bool
    var lastCmd: Option<CR.CommandFrame>
    var lastCmdTime: real
    ghost var published: seq<Publication>

    /** The stored command and time always belong to the same publication, the newest one. */
    ghost predicate Valid()
      reads this
    {
      && hasCmd == (published != [])
      && (hasCmd ==> lastCmd == Some(published[|published| - 1].cmd)
                     && lastCmdTime == published[|published| - 1].time)
      && (!hasCmd ==> lastCmdTime == -1.0)
    }

    ghost function Commands(): seq<CR.CommandFrame>
      reads this
    {
      CommandsOf(published)
    }

    constructor ()
      ensures Valid() && published == []
    {
      hasCmd, lastCmd, lastCmdTime := false, None, -1.0;
      published := [];
    }

    method Publish(cmd: CR.CommandFrame, now: real, ghost visible: real)
      requires Valid()
      modifies this
      ensures Valid()
      ensures published == old(published) + [Publication(cmd, now, visible)]
      ensures Commands() == old(Commands()) + [cmd]
    {
      hasCmd, lastCmd, lastCmdTime := true, Some(cmd), now;
      published := published + [Publication(cmd, now, visible)];
    }

    /** Publishes the command in a received payload; an unparsable payload is dropped. */
    method HandlePayload(payload: seq<byte>, now: real, ghost visible: real) returns (ok: bool)
      requires Valid()
      modifies this
      ensures Valid()
      ensures ok <==> Parsed(payload) != []
      ensures published == old(published) + if ok then [Publication(Parsed(payload)[0], now, visible)] else []
    {
      hide CR.ParseCmd;
      var parsed := CR.ParseCmdFrame(TextOf(payload));
      ok := parsed.Some?;
      if ok {
        Publish(parsed.value, now, visible);
      }
    }

    /**
     One connection, from its first frame to the one that ends it. `clock(k)` is the receive time
     read for its k-th command, stored at `shown(k)`. A forward clock keeps the publications in
     order of time.
     */
    method ServeConnection(sock: Socket, clock: nat -> real, ghost shown: nat -> real)
      requires Valid() && sock.Valid()
      modifies this, sock
      ensures Valid()
      ensures published == old(published) + Stamped(Served(old(sock.Stream())), clock, shown)
      ensures Commands() == old(Commands()) + Served(old(sock.Stream()))
      ensures Sorted(old(published)) && Forward(LastVisible(old(published), clock(0)), clock, shown) ==>
                Sorted(published)
    {
      hide Parsed, FrameAt, Forward, Sorted, Served, Stamped, LastVisible;
      ghost var stream, was := sock.Stream(), published;
      ghost var done: seq<CR.CommandFrame> := [];
      NothingStamped(was, clock, shown);
      var k := 0;
      while true
        invariant Valid() && sock.Valid() && k == |done|
        invariant published == was + Stamped(done, clock, shown)
        invariant done + Served(sock.Stream()) == Served(stream)
        decreases |sock.Stream()|
      {
        ghost var before := sock.Stream();
        var frame := ReadFrame(sock, TCP_MAX_FRAME_BYTES);
        if frame == None {
          ServedEnd(before);
          break;
        }
        ghost var rest := sock.Stream();
        ServedFrame(before, frame.value, rest);
        Associative(done, Parsed(frame.value), Served(rest));
        var ok := HandlePayload(frame.value, clock(k), shown(k));
        if ok {
          OneCommand(frame.value);
          StampedNext(was, done, Parsed(frame.value)[0], clock, shown);
          done := done + Parsed(frame.value);
          k := k + 1;
        }
      }
      assert done == Served(stream);
      StampedCommands(was, done, clock, shown);
      if Sorted(was) && Forward(LastVisible(was, clock(0)), clock, shown) {
        StampedStaysSorted(was, done, clock, shown);
      }
    }

    method LatestCommand() returns (r: Option<CR.CommandFrame>)
      requires Valid()
      ensures r == NewestCommand(published)
    {
      return if hasCmd then lastCmd else None;
    }

    method LatestCommandWithTime() returns (r: Option<(CR.CommandFrame, real)>)
      requires Valid()
      ensures r.Some? <==> published != []
      ensures r.Some? ==> var p := published[|published| - 1]; r.value == (p.cmd, p.time)
    {
      return if hasCmd then Some((lastCmd.value, lastCmdTime)) else None;
    }

    /** The clock is read after the stored time. */
    method SecondsSinceLastCmd(now: real) returns (age: real)
      requires Valid()
      ensures age == AgeOf(published, now)
      ensures age == if published == [] || published[|published| - 1].time <= 0.0 then 1000000000.0
                     else now - published[|published| - 1].time
    {
      return if lastCmdTime <= 0.0 then NEVER else now - lastCmdTime;
    }
  }
}
