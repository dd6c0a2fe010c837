/** The serial sink: writes whole frames with bounded retries, polls the arm switch, fails for good. */
module MspRcSink {
  import opened Wrappers
  import opened Bytes
  import opened MspFraming
  import opened MspDrain
  import opened RcCommand

  const MAX_NO_PROGRESS := 2
  const MAX_TOTAL := 32
  const MSP_RC_POLL_EVERY := 10
  const AUX1_OFFSET := 8
  const ARM_SWITCH_THRESHOLD_US := 1700
  const ARM_SWITCH_STALE_MS := 1000

  /** What one `write` call does: take some bytes, ask to try again, or fail. */
  datatype WriteReply = Wrote(n: nat) | Again | Failed

  /** The operating system's side of the port: the replies still to come, the bytes taken, the calls made. */
  class SerialPort {
    var replies: seq<WriteReply>
    var wire: seq<byte>
    var calls: nat

    constructor (replies: seq<WriteReply>)
      ensures this.replies == replies && wire == []
    {
      this.replies, wire, calls := replies, [], 0;
    }

    method Write(data: seq<byte>) returns (reply: WriteReply)
      modifies this
      ensures reply == if old(replies) == [] then Failed else Taken(old(replies)[0], |data|)
      ensures replies == if old(replies) == [] then [] else old(replies)[1..]
      ensures wire == old(wire) + (if reply.Wrote? then data[..reply.n] else [])
      ensures calls == old(calls) + 1
    {
      calls := calls + 1;
      reply := if replies == [] then Failed else Taken(replies[0], |data|);
      replies := if replies == [] then [] else replies[1..];
      if reply.Wrote? {
        wire := wire + data[..reply.n];
      }
    }
  }

  function Taken(reply: WriteReply, limit: nat): (r: WriteReply)
    ensures r.Wrote? ==> r.n <= limit
  {
    if reply.Wrote? && reply.n > limit then Wrote(limit) else reply
  }

  // -------------------------------------------------------------- sending a frame

  datatype Outcome = Outcome(sent: nat, ok: bool, used: nat) {
    function After(earlier: nat): Outcome {
      this.(used := used + earlier)
    }
  }

  /** The retry loop on a frame of `n` bytes, from `off` bytes sent on. */
  function Sending(n: nat, off: nat, noProgress: nat, attempts: nat, replies: seq<WriteReply>): (r: Outcome)
    requires off <= n && attempts <= MAX_TOTAL
    ensures off <= r.sent <= n && (r.ok <==> r.sent == n)
    ensures r.used <= |replies| && attempts + r.used <= MAX_TOTAL
    decreases |replies|
  {
    if off == n then Outcome(off, true, 0)
    else if attempts == MAX_TOTAL || replies == [] then Outcome(off, false, 0)
    else
      match Taken(replies[0], n - off)
      case Failed => Outcome(off, false, 1)
      case Again =>
        if noProgress + 1 >= MAX_NO_PROGRESS then Outcome(off, false, 1)
        else Sending(n, off, noProgress + 1, attempts + 1, replies[1..]).After(1)
      case Wrote(k) =>
        if k == 0 then Outcome(off, false, 1)
        else Sending(n, off + k, 0, attempts + 1, replies[1..]).After(1)
  }

  lemma SendingStep(n: nat, off: nat, noProgress: nat, attempts: nat, replies: seq<WriteReply>)
    requires off < n && attempts < MAX_TOTAL
    ensures Sending(n, off, noProgress, attempts, replies)
         == if replies == [] then Outcome(off, false, 0)
            else match Taken(replies[0], n - off)
                 case Failed => Outcome(off, false, 1)
                 case Again =>
                   if noProgress + 1 >= MAX_NO_PROGRESS then Outcome(off, false, 1)
                   else Sending(n, off, noProgress + 1, attempts + 1, replies[1..]).After(1)
                 case Wrote(k) =>
                   if k == 0 then Outcome(off, false, 1)
                   else Sending(n, off + k, 0, attempts + 1, replies[1..]).After(1)
  {
  }

  lemma SendingEnds(n: nat, off: nat, noProgress: nat, attempts: nat, replies: seq<WriteReply>)
    requires off <= n && attempts <= MAX_TOTAL && (off == n || attempts == MAX_TOTAL)
    ensures Sending(n, off, noProgress, attempts, replies) == Outcome(off, off == n, 0)
  {
  }

  /** No failure, no write of nothing, and no two transient refusals in a row. */
  predicate Smooth(refused: bool, replies: seq<WriteReply>)
    decreases |replies|
  {
    if replies == [] then true
    else
      match replies[0]
      case Failed => false
      case Again => !refused && Smooth(true, replies[1..])
      case Wrote(k) => k > 0 && Smooth(false, replies[1..])
  }

  function Progress(replies: seq<WriteReply>): nat {
    if replies == [] then 0 else (if replies[0].Wrote? then replies[0].n else 0) + Progress(replies[1..])
  }

  ghost predicate Enough(n: nat, off: nat, refused: bool, budget: nat, replies: seq<WriteReply>) {
    exists k: nat :: k <= budget && k <= |replies| && Smooth(refused, replies[..k]) && off + Progress(replies[..k]) >= n
  }

  lemma PrefixParts(replies: seq<WriteReply>, refused: bool, k: nat)
    requires 0 < k <= |replies|
    ensures Progress(replies[..k]) == (if replies[0].Wrote? then replies[0].n else 0) + Progress(replies[1..][..k - 1])
    ensures Smooth(refused, replies[..k])
         == match replies[0]
            case Failed => false
            case Again => !refused && Smooth(true, replies[1..][..k - 1])
            case Wrote(n) => n > 0 && Smooth(false, replies[1..][..k - 1])
  {
    assert replies[..k][0] == replies[0] && replies[..k][1..] == replies[1..][..k - 1];
  }

  lemma EnoughBy(n: nat, off: nat, refused: bool, budget: nat, replies: seq<WriteReply>, k: nat)
    requires k <= budget && k <= |replies| && Smooth(refused, replies[..k]) && off + Progress(replies[..k]) >= n
    ensures Enough(n, off, refused, budget, replies)
  {
  }

  lemma EnoughStep(n: nat, off: nat, refused: bool, budget: nat, replies: seq<WriteReply>)
    requires off < n && budget > 0 && replies != []
    ensures Enough(n, off, refused, budget, replies)
       <==> match replies[0]
            case Failed => false
            case Again => !refused && Enough(n, off, true, budget - 1, replies[1..])
            case Wrote(k) => k > 0 && Enough(n, off + k, false, budget - 1, replies[1..])
  {
    hide Smooth, Progress;
    var rest := replies[1..];
    var off' := off + if replies[0].Wrote? then replies[0].n else 0;
    NoProgress(replies);
    if Enough(n, off, refused, budget, replies) {
      var k: nat :| k <= budget && k <= |replies| && Smooth(refused, replies[..k]) && off + Progress(replies[..k]) >= n;
      PrefixParts(replies, refused, k);
      EnoughBy(n, off', replies[0].Again?, budget - 1, rest, k - 1);
    }
    if !replies[0].Failed? && Enough(n, off', replies[0].Again?, budget - 1, rest) {
      var k: nat :| k <= budget - 1 && k <= |rest| && Smooth(replies[0].Again?, rest[..k])
                    && off' + Progress(rest[..k]) >= n;
      PrefixParts(replies, refused, k + 1);
      if Smooth(refused, replies[..k + 1]) {
        EnoughBy(n, off, refused, budget, replies, k + 1);
      }
    }
  }

  lemma NoProgress(replies: seq<WriteReply>)
    ensures Progress(replies[..0]) == 0
  {
  }

  /**
   The retry policy, said without the loop: a frame goes out exactly when within the call
   budget enough bytes are taken with no failure and never two refusals in a row.
   */
  lemma {:induction false} SendsIffEnough(n: nat, off: nat, noProgress: nat, attempts: nat, replies: seq<WriteReply>)
    requires off <= n && attempts <= MAX_TOTAL && noProgress < MAX_NO_PROGRESS
    ensures Sending(n, off, noProgress, attempts, replies).ok
       <==> Enough(n, off, noProgress > 0, MAX_TOTAL - attempts, replies)
    decreases |replies|
  {
    if off == n {
      assert replies[..0] == [];
      assert Smooth(noProgress > 0, replies[..0]) && off + Progress(replies[..0]) >= n;
    } else if attempts == MAX_TOTAL || replies == [] {
      assert replies[..0] == [];
    } else {
      EnoughStep(n, off, noProgress > 0, MAX_TOTAL - attempts, replies);
      match replies[0]
      case Failed =>
      case Again =>
        if noProgress == 0 {
          SendsIffEnough(n, off, 1, attempts + 1, replies[1..]);
        }
      case Wrote(k) =>
        var taken := Taken(replies[0], n - off).n;
        if k > 0 {
          SendsIffEnough(n, off + taken, 0, attempts + 1, replies[1..]);
          EnoughBeyond(n, off + taken, off + k, MAX_TOTAL - attempts - 1, replies[1..]);
        }
    }
  }

  lemma EnoughBeyond(n: nat, off: nat, off': nat, budget: nat, replies: seq<WriteReply>)
    requires off <= off' && (off == off' || off == n)
    ensures Enough(n, off, false, budget, replies) <==> Enough(n, off', false, budget, replies)
  {
    if off == n {
      assert replies[..0] == [] && Smooth(false, replies[..0]);
      assert off + Progress(replies[..0]) >= n && off' + Progress(replies[..0]) >= n;
    }
  }

  // ----------------------------------------------------------- what goes on the wire

  function Requests(frames: seq<MspFrame>): seq<byte> {
    if frames == [] then [] else FrameBytes(TO_FC, frames[0]) + Requests(frames[1..])
  }

  lemma {:induction false} RequestsAppend(frames: seq<MspFrame>, f: MspFrame)
    ensures Requests(frames + [f]) == Requests(frames) + FrameBytes(TO_FC, f)
  {
    if frames == [] {
      assert [f][1..] == [];
    } else {
      assert (frames + [f])[1..] == frames[1..] + [f];
      RequestsAppend(frames[1..], f);
    }
  }

  /** Wire order is roll, pitch, throttle, yaw, then the auxiliary channels. */
  function WireOrder(cmd: Command): (c: Channels) {
    [cmd.roll, cmd.pitch, cmd.throttle, cmd.yaw, cmd.aux1, cmd.aux2, cmd.aux3, cmd.aux4]
  }

  const QUERY := MspFrame(MSP_RC, [])

  function RcFrame(cmd: Command): MspFrame {
    var payload := RcPayload(WireOrder(cmd));
    MspFrame(MSP_SET_RAW_RC, payload)
  }

  /** The frames of one tick: the channels, and on every tenth tick the query. */
  function TickFrames(cmd: Command, tick: nat): seq<MspFrame> {
    [RcFrame(cmd)] + (if tick % MSP_RC_POLL_EVERY == 0 then [QUERY] else [])
  }

  /** The frames of a run of ticks. */
  function Planned(cmds: seq<Command>): seq<MspFrame> {
    if cmds == [] then []
    else Planned(cmds[..|cmds| - 1]) + TickFrames(cmds[|cmds| - 1], |cmds| - 1)
  }

  lemma WireGrows(wire: seq<byte>, frame: seq<byte>, off: nat, off': nat)
    requires off <= off' <= |frame|
    ensures wire + frame[..off] + frame[off..off'] == wire + frame[..off']
  {
    assert frame[..off] + frame[off..off'] == frame[..off'];
    Associative(wire, frame[..off], frame[off..off']);
  }

  lemma PlannedAppend(cmds: seq<Command>, cmd: Command)
    ensures Planned(cmds + [cmd]) == Planned(cmds) + TickFrames(cmd, |cmds|)
  {
    assert (cmds + [cmd])[..|cmds|] == cmds;
  }

  // ------------------------------------------------------------------ arm switch

  /** The latched arm switch and the time, in ms, of the reply that set it. */
  datatype ArmLatch = ArmLatch(on: bool, seen: Option<int>)

  function Latched(latch: ArmLatch, f: MspFrame, now: int): ArmLatch {
    if f.cmd == MSP_RC && |f.payload| >= AUX1_OFFSET + 2 then
      ArmLatch(f.payload[AUX1_OFFSET] as int + 256 * f.payload[AUX1_OFFSET + 1] as int >= ARM_SWITCH_THRESHOLD_US,
               Some(now))
    else latch
  }

  function LatchedAll(latch: ArmLatch, frames: seq<MspFrame>, now: int): ArmLatch
    decreases |frames|
  {
    if frames == [] then latch else LatchedAll(Latched(latch, frames[0], now), frames[1..], now)
  }

  function Expired(latch: ArmLatch, now: int): ArmLatch {
    if latch.on && latch.seen.Some? && now - latch.seen.value > ARM_SWITCH_STALE_MS then latch.(on := false) else latch
  }

  // --------------------------------------------------------------------- the sink

  /**
   Wire integrity: the bytes written are whole valid frames, the planned ones in order,
   followed by at most a strict prefix of the next one; and only a closed port has such a prefix.
   */
  predicate WireKept(wire: seq<byte>, isOpen: bool, whole: seq<MspFrame>, broken: MspFrame, partial: seq<byte>,
                     commands: seq<Command>, ticks: nat)
  {
    && wire == Requests(whole) + partial
    && |partial| < |FrameBytes(TO_FC, broken)| && partial <= FrameBytes(TO_FC, broken)
    && whole <= Planned(commands)
    && (isOpen ==> partial == [] && whole == Planned(commands) && ticks == |commands|)
    && (!isOpen ==> whole + [broken] <= Planned(commands))
  }

  lemma OpenWire(wire: seq<byte>, whole: seq<MspFrame>, broken: MspFrame, partial: seq<byte>,
                 commands: seq<Command>, ticks: nat)
    requires WireKept(wire, true, whole, broken, partial, commands, ticks)
    ensures whole == Planned(commands) && ticks == |commands| && wire == Requests(whole) + partial
    ensures partial == [] && |partial| < |FrameBytes(TO_FC, broken)|
  {
  }

  /** One more tick of a plan written so far keeps the wire, whether it is written whole or breaks off. */
  lemma TickKeepsWire(commands: seq<Command>, cmd: Command, before: seq<MspFrame>, ticks: nat, wire: seq<byte>,
                      isOpen: bool, whole: seq<MspFrame>, broken: MspFrame, partial: seq<byte>)
    requires before == Planned(commands) && ticks == |commands|
    requires wire == Requests(whole) + partial && (isOpen ==> partial == [])
    requires |partial| < |FrameBytes(TO_FC, broken)| && partial <= FrameBytes(TO_FC, broken)
    requires if isOpen then whole == before + TickFrames(cmd, ticks)
             else whole + [broken] <= before + TickFrames(cmd, ticks)
    ensures WireKept(wire, isOpen, whole, broken, partial, commands + [cmd], ticks + 1)
  {
    hide Planned, TickFrames, Requests, FrameBytes;
    PlannedAppend(commands, cmd);
    assert whole <= whole + [broken];
  }

  /** The buffer and the error count are what feeding all arrivals to the drain leaves. */
  ghost predicate FedBy(buffer: seq<byte>, errors: nat, arrivals: seq<seq<byte>>) {
    buffer == Feed([], arrivals).leftover && errors == Feed([], arrivals).errors
  }

  class Sink {
    const port: SerialPort
    var isOpen: bool
    var rxBuffer: seq<byte>
    var parseErrors: nat
    var latch: ArmLatch
    var tickCounter: nat

    /** The commands accepted so far, the frames written whole, and the start of the frame that failed. */
    ghost var commands: seq<Command>
    ghost var whole: seq<MspFrame>
    ghost var broken: MspFrame
    ghost var partial: seq<byte>
    /** What has arrived, poll after poll. */
    ghost var arrivals: seq<seq<byte>>

    ghost predicate Valid()
      reads this, port
    {
      && WireKept(port.wire, isOpen, whole, broken, partial, commands, tickCounter)
      && (latch.on ==> latch.seen.Some?)
      && FedBy(rxBuffer, parseErrors, arrivals)
    }

    constructor (port: SerialPort)
      requires port.wire == []
      ensures Valid() && isOpen && this.port == port && commands == [] && arrivals == []
    {
      this.port, isOpen, rxBuffer, parseErrors, tickCounter := port, true, [], 0, 0;
      latch := ArmLatch(false, None);
      commands, whole, broken, partial, arrivals := [], [], QUERY, [], [];
    }

    /** One write call of the retry loop: where the loop goes on, or that it gives up. */
    method WriteOnce(frame: seq<byte>, off: nat, noProgress: nat, ghost attempts: nat)
      returns (failed: bool, off': nat, noProgress': nat)
      requires off < |frame| && attempts < MAX_TOTAL
      modifies port
      ensures port.calls == old(port.calls) + 1
      ensures off <= off' <= |frame| && port.wire == old(port.wire) + frame[off..off']
      ensures noProgress' < MAX_NO_PROGRESS || failed
      ensures |port.replies| <= |old(port.replies)|
      ensures var used, n := |old(port.replies)| - |port.replies|, |frame|;
              Sending(n, off, noProgress, attempts, old(port.replies))
              == if failed then Outcome(off', false, used)
                 else Sending(n, off', noProgress', attempts + 1, port.replies).After(used)
    {
      hide Sending;
      SendingStep(|frame|, off, noProgress, attempts, port.replies);
      failed, off', noProgress' := false, off, 0;
      var reply := port.Write(frame[off..]);
      match reply
      case Wrote(w) =>
        off', failed := off + w, w == 0;
        Subslice(frame, off, |frame|, 0, w);
      case Again =>
        noProgress' := noProgress + 1;
        failed := noProgress' >= MAX_NO_PROGRESS;
      case Failed =>
        failed := true;
    }

    /** Writes one frame. Any failure closes the port for good and leaves what was written. */
    method WriteFrame(frame: seq<byte>) returns (ok: bool)
      modifies this`isOpen, port
      ensures !old(isOpen) ==> !ok && !isOpen && port.wire == old(port.wire) && port.replies == old(port.replies)
      ensures old(isOpen) ==>
                var out := Sending(|frame|, 0, 0, 0, old(port.replies));
                && ok == isOpen == out.ok
                && port.wire == old(port.wire) + frame[..out.sent]
                && |port.replies| == |old(port.replies)| - out.used
      ensures port.calls <= old(port.calls) + 32
    {
      if !isOpen {
        return false;
      }
      hide Sending;
      var off: nat, noProgress: nat, total: nat := 0, 0, 0;
      ghost var out, n := Sending(|frame|, 0, 0, 0, port.replies), |frame|;
      while off < |frame| && total < MAX_TOTAL
        invariant off <= |frame| && total <= MAX_TOTAL && noProgress < MAX_NO_PROGRESS && isOpen
        invariant port.calls == old(port.calls) + total
        invariant |port.replies| <= |old(port.replies)|
        invariant out == Sending(n, off, noProgress, total, port.replies).After(|old(port.replies)| - |port.replies|)
        invariant port.wire == old(port.wire) + frame[..off]
      {
        var failed, off', noProgress' := WriteOnce(frame, off, noProgress, total);
        WireGrows(old(port.wire), frame, off, off');
        total, off, noProgress := total + 1, off', noProgress';
        if failed {
          isOpen := false;
          return false;
        }
      }
      SendingEnds(n, off, noProgress, total, port.replies);
      if off < |frame| {
        isOpen := false;
        return false;
      }
      return true;
    }

    /** Sends the next planned frame and keeps the account of the wire. */
    method Send(f: MspFrame, frame: seq<byte>) returns (ok: bool)
      requires frame == FrameBytes(TO_FC, f)
      requires port.wire == Requests(whole) + partial && (isOpen ==> partial == [])
      modifies this`isOpen, this`whole, this`broken, this`partial, port
      ensures port.wire == Requests(whole) + partial
      ensures ok == isOpen && (isOpen ==> old(isOpen))
      ensures old(isOpen) ==> |partial| < |FrameBytes(TO_FC, broken)| && partial <= FrameBytes(TO_FC, broken)
      ensures ok ==> whole == old(whole) + [f] && partial == []
      ensures !ok ==> whole == old(whole)
      ensures !ok && old(isOpen) ==> broken == f
      ensures !old(isOpen) ==> broken == old(broken) && partial == old(partial) && port.wire == old(port.wire)
    {
      ghost var wasOpen := isOpen;
      hide FrameBytes, Requests, Sending;
      ok := WriteFrame(frame);
      if ok {
        RequestsAppend(whole, f);
        assert frame[..|frame|] == frame;
        whole, partial, broken := whole + [f], [], QUERY;
        assert port.wire == Requests(whole) + [];
      } else if wasOpen {
        ghost var out := Sending(|frame|, 0, 0, 0, old(port.replies));
        assert Requests(whole) + [] + frame[..out.sent] == Requests(whole) + frame[..out.sent];
        broken, partial := f, frame[..out.sent];
      }
    }

    method HandleReply(f: MspFrame, now: int)
      modifies this`latch
      ensures latch == Latched(old(latch), f, now)
    {
      if f.cmd == MSP_RC && |f.payload| >= AUX1_OFFSET + 2 {
        var aux1 := f.payload[AUX1_OFFSET] as int + 256 * f.payload[AUX1_OFFSET + 1] as int;
        latch := ArmLatch(aux1 >= ARM_SWITCH_THRESHOLD_US, Some(now));
      }
    }

    /** Pulls every complete frame out of the receive buffer. */
    method ParseDrain(now: int)
      modifies this`rxBuffer, this`parseErrors, this`latch
      ensures var d := Drain(old(rxBuffer));
              && rxBuffer == d.leftover
              && parseErrors == old(parseErrors) + d.errors
              && latch == LatchedAll(old(latch), d.frames, now)
    {
      hide ParsedResponse, Latched;
      ghost var d := Drain(rxBuffer);
      ghost var frames := d.frames;
      while rxBuffer != []
        invariant d.leftover == Drain(rxBuffer).leftover
        invariant d.errors == parseErrors - old(parseErrors) + Drain(rxBuffer).errors
        invariant LatchedAll(old(latch), d.frames, now) == LatchedAll(latch, Drain(rxBuffer).frames, now)
        decreases |rxBuffer|
      {
        ghost var rest := Drain(rxBuffer);
        var r := ParseResponse(rxBuffer);
        if r.consumed == 0 {
          return;
        }
        rxBuffer := rxBuffer[r.consumed..];
        if r.checksumError {
          parseErrors := parseErrors + 1;
        }
        if r.frame.Some? {
          HandleReply(r.frame.value, now);
          assert rest.frames[0] == r.frame.value && rest.frames[1..] == Drain(rxBuffer).frames;
        } else {
          assert rest.frames == Drain(rxBuffer).frames;
        }
      }
      assert ParsedResponse([]).consumed == 0;
    }

    /** Takes in what has arrived and brings the latched arm switch up to date. */
    method Receive(arrived: seq<byte>, now: int)
      requires latch.on ==> latch.seen.Some?
      requires FedBy(rxBuffer, parseErrors, arrivals)
      modifies this`rxBuffer, this`parseErrors, this`latch, this`arrivals
      ensures FedBy(rxBuffer, parseErrors, arrivals) && arrivals == old(arrivals) + [arrived]
      ensures var d := Drain(old(rxBuffer) + arrived);
              && rxBuffer == d.leftover && parseErrors == old(parseErrors) + d.errors
              && latch == Expired(LatchedAll(old(latch), d.frames, now), now)
      ensures latch.on ==> latch.seen.Some? && now - latch.seen.value <= ARM_SWITCH_STALE_MS
    {
      hide Drain, Feed, LatchedAll;
      FeedNext([], arrivals, arrived);
      arrivals := arrivals + [arrived];
      rxBuffer := rxBuffer + arrived;
      ParseDrain(now);
      LatchKeepsTime(old(latch), Drain(old(rxBuffer) + arrived).frames, now);
      if latch.on && latch.seen.Some? && now - latch.seen.value > ARM_SWITCH_STALE_MS {
        latch := latch.(on := false);
      }
    }

    /** One poll: take in what has arrived, latch the arm switch, ask again. */
    method Poll(arrived: seq<byte>, now: int)
      requires port.wire == Requests(whole) + partial && (isOpen ==> partial == [])
      requires (latch.on ==> latch.seen.Some?) && FedBy(rxBuffer, parseErrors, arrivals)
      modifies this`isOpen, this`whole, this`broken, this`partial, port
      modifies this`rxBuffer, this`parseErrors, this`latch, this`arrivals
      ensures port.wire == Requests(whole) + partial && (isOpen ==> old(isOpen))
      ensures old(isOpen) ==> |partial| < |FrameBytes(TO_FC, broken)| && partial <= FrameBytes(TO_FC, broken)
      ensures isOpen ==> whole == old(whole) + [QUERY] && partial == []
      ensures !isOpen ==> whole == old(whole)
      ensures !isOpen && old(isOpen) ==> broken == QUERY
      ensures !old(isOpen) ==>
                && broken == old(broken) && partial == old(partial) && port.wire == old(port.wire)
                && rxBuffer == old(rxBuffer) && parseErrors == old(parseErrors) && latch == old(latch)
      ensures old(isOpen) ==>
                var d := Drain(old(rxBuffer) + arrived);
                && rxBuffer == d.leftover && parseErrors == old(parseErrors) + d.errors
                && latch == Expired(LatchedAll(old(latch), d.frames, now), now)
                && (latch.on ==> latch.seen.Some? && now - latch.seen.value <= ARM_SWITCH_STALE_MS)
      ensures latch.on ==> latch.seen.Some?
      ensures FedBy(rxBuffer, parseErrors, arrivals)
      ensures arrivals == old(arrivals) + if old(isOpen) then [arrived] else []
    {
      if !isOpen {
        return;
      }
      hide Drain, FrameBytes, FedBy, LatchedAll, Expired, Requests;
      Receive(arrived, now);
      var query := EncodeRequest(MSP_RC, []);
      var ok := Send(QUERY, query);
    }

    /** The frames of one tick, and the poll on every tenth. */
    method WriteTick(cmd: Command, arrived: seq<byte>, now: int)
      requires Valid() && isOpen
      modifies this`isOpen, this`whole, this`broken, this`partial, port
      modifies this`rxBuffer, this`parseErrors, this`latch, this`arrivals
      ensures WireKept(port.wire, isOpen, whole, broken, partial, commands + [cmd], tickCounter + 1)
      ensures latch.on ==> latch.seen.Some?
      ensures FedBy(rxBuffer, parseErrors, arrivals)
      ensures arrivals == old(arrivals) || arrivals == old(arrivals) + [arrived]
      ensures isOpen ==> arrivals == old(arrivals) + if tickCounter % MSP_RC_POLL_EVERY == 0 then [arrived] else []
    {
      hide FrameBytes, Requests, Drain, LatchedAll, RcPayload, Expired, Planned, FedBy, WireKept;
      OpenWire(port.wire, whole, broken, partial, commands, tickCounter);
      var frame := EncodeSetRawRc(WireOrder(cmd));
      var success := Send(RcFrame(cmd), frame);
      if tickCounter % MSP_RC_POLL_EVERY == 0 {
        Poll(arrived, now);
      }
      TickKeepsWire(commands, cmd, old(whole), tickCounter, port.wire, isOpen, whole, broken, partial);
    }

    /** One tick of the control loop's output. A closed sink stays silent and closed. */
    method WriteChannels(cmd: Command, arrived: seq<byte>, now: int)
      requires Valid()
      modifies this, port
      ensures Valid()
      ensures !old(isOpen) ==> !isOpen && port.wire == old(port.wire) && commands == old(commands)
      ensures old(isOpen) ==> commands == old(commands) + [cmd]
      ensures arrivals == old(arrivals) || arrivals == old(arrivals) + [arrived]
      ensures isOpen ==> arrivals == old(arrivals) + if old(tickCounter) % MSP_RC_POLL_EVERY == 0 then [arrived] else []
    {
      if !isOpen {
        return;
      }
      hide FrameBytes, Requests, TickFrames, Planned, FedBy, WireKept;
      WriteTick(cmd, arrived, now);
      tickCounter := tickCounter + 1;
      commands := commands + [cmd];
    }
  }

  lemma {:induction false} LatchKeepsTime(latch: ArmLatch, frames: seq<MspFrame>, now: int)
    requires latch.on ==> latch.seen.Some?
    ensures var l := LatchedAll(latch, frames, now); l.on ==> l.seen.Some?
    decreases |frames|
  {
    if frames != [] {
      LatchKeepsTime(Latched(latch, frames[0], now), frames[1..], now);
    }
  }

  // ------------------------------------------------- what the arm switch shows

  /** The reply that shows the arm switch: an intact reply to command 105 with at least ten payload bytes. */
  predicate ShowsSwitch(item: Item) {
    item.Intact() && item.frame.cmd == 105 && |item.frame.payload| >= 10
  }

  /** The switch is the fifth channel of the reply. */
  function SwitchOn(f: MspFrame): bool
    requires |f.payload| >= 10
  {
    ChannelAt(f.payload, 4);
    RcChannels(f.payload)[4] >= 1700
  }

  lemma {:induction false} ChannelAt(payload: seq<byte>, k: nat)
    requires |payload| >= 2 * k + 2
    ensures |RcChannels(payload)| > k
    ensures RcChannels(payload)[k] == payload[2 * k] as int + 256 * payload[2 * k + 1] as int
    decreases k
  {
    hide RcChannels;
    FirstChannel(payload);
    if k > 0 {
      ChannelAt(payload[2..], k - 1);
      assert payload[2..][2 * k - 2] == payload[2 * k] && payload[2..][2 * k - 1] == payload[2 * k + 1];
    }
  }

  lemma FirstChannel(payload: seq<byte>)
    requires |payload| >= 2
    ensures RcChannels(payload) == [payload[0] as int + 256 * payload[1] as int] + RcChannels(payload[2..])
  {
  }

  lemma LatchedByItem(latch: ArmLatch, item: Item, now: int)
    requires item.Intact()
    ensures Latched(latch, item.frame, now)
         == if ShowsSwitch(item) then ArmLatch(SwitchOn(item.frame), Some(now)) else latch
  {
    if ShowsSwitch(item) {
      ChannelAt(item.frame.payload, 4);
    }
  }

  /** The last of the items that shows the switch, or none. */
  function LastShowing(items: seq<Item>): (r: Option<nat>)
    ensures match r
            case None => forall j | 0 <= j < |items| :: !ShowsSwitch(items[j])
            case Some(k) => k < |items| && ShowsSwitch(items[k]) && forall j | k < j < |items| :: !ShowsSwitch(items[j])
  {
    if items == [] then None
    else
      match LastShowing(items[1..])
      case Some(k) => Some(k + 1)
      case None => if ShowsSwitch(items[0]) then Some(0) else None
  }

  lemma {:induction false} LatchedByLast(latch: ArmLatch, items: seq<Item>, now: int)
    ensures LatchedAll(latch, IntactFrames(items), now)
         == match LastShowing(items)
            case None => latch
            case Some(k) => ArmLatch(SwitchOn(items[k].frame), Some(now))
    decreases |items|
  {
    hide Latched, ShowsSwitch, SwitchOn, Item.Intact;
    if items != [] {
      var item, rest := items[0], IntactFrames(items[1..]);
      if item.Intact() {
        LatchedByItem(latch, item, now);
        assert IntactFrames(items)[0] == item.frame && IntactFrames(items)[1..] == rest;
        LatchedByLast(Latched(latch, item.frame, now), items[1..], now);
      } else {
        DamagedShowsNothing(item);
        assert IntactFrames(items) == rest;
        LatchedByLast(latch, items[1..], now);
      }
    }
  }

  lemma DamagedShowsNothing(item: Item)
    ensures ShowsSwitch(item) ==> item.Intact()
  {
  }

  /**
   What a poll makes of the arm switch, from the bytes in its buffer: the last intact reply that shows
   it decides; without one the switch stays as it was, unless it is on and the reply that set it is
   more than a second old. Other commands, short replies and damaged frames change nothing.
   */
  lemma PollShowsSwitch(latch: ArmLatch, items: seq<Item>, garbage: seq<byte>, now: int)
    requires forall i | 0 <= i < |items| :: items[i].Valid()
    requires NoHeader(garbage)
    ensures var after := Expired(LatchedAll(latch, Drain(StreamOf(items) + garbage).frames, now), now);
            match LastShowing(items)
            case Some(k) => after == ArmLatch(SwitchOn(items[k].frame), Some(now))
            case None =>
              && after.seen == latch.seen
              && (after.on <==> latch.on && (latch.seen.Some? ==> now - latch.seen.value <= 1000))
  {
    hide Drain, StreamOf, LatchedAll, NoHeader, SwitchOn;
    DecodesStream(items, garbage);
    LatchedByLast(latch, items, now);
  }

  // ------------------------------------------------------------- what is planned

  /** The stick frames among some frames. */
  function StickFrames(frames: seq<MspFrame>): seq<MspFrame> {
    if frames == [] then []
    else (if frames[0].cmd == 200 then [frames[0]] else []) + StickFrames(frames[1..])
  }

  lemma {:induction false} StickFramesConcat(a: seq<MspFrame>, b: seq<MspFrame>)
    ensures StickFrames(a + b) == StickFrames(a) + StickFrames(b)
    decreases |a|
  {
    if a == [] {
      assert a + b == b;
    } else {
      assert (a + b)[1..] == a[1..] + b && (a + b)[0] == a[0];
      StickFramesConcat(a[1..], b);
      Associative(if a[0].cmd == 200 then [a[0]] else [], StickFrames(a[1..]), StickFrames(b));
    }
  }

  function RcFrames(cmds: seq<Command>): seq<MspFrame> {
    if cmds == [] then [] else RcFrames(cmds[..|cmds| - 1]) + [RcFrame(cmds[|cmds| - 1])]
  }

  /** The plan is one stick frame for every command, in order, and an empty query on every tenth tick from the first. */
  lemma {:induction false} PlanIs(cmds: seq<Command>)
    ensures StickFrames(Planned(cmds)) == RcFrames(cmds)
    ensures |Planned(cmds)| == |cmds| + (|cmds| + 9) / 10
    decreases |cmds|
  {
    hide RcFrame;
    if cmds != [] {
      var n := |cmds| - 1;
      PlanIs(cmds[..n]);
      assert cmds[..n] + [cmds[n]] == cmds;
      PlannedAppend(cmds[..n], cmds[n]);
      StickFramesConcat(Planned(cmds[..n]), TickFrames(cmds[n], n));
      TickHas(cmds[n], n);
    }
  }

  lemma TickHas(cmd: Command, n: nat)
    ensures StickFrames(TickFrames(cmd, n)) == [RcFrame(cmd)]
    ensures |TickFrames(cmd, n)| == 1 + (n + 10) / 10 - (n + 9) / 10
    ensures n % 10 == 0 ==> TickFrames(cmd, n)[1] == MspFrame(105, [])
  {
    var frame, t := RcFrame(cmd), TickFrames(cmd, n);
    assert frame.cmd == 200 && QUERY.cmd == 105;
    assert [frame][1..] == [] && [QUERY][1..] == [];
    assert StickFrames([frame]) == [frame] + [] && StickFrames([QUERY]) == [] + [];
    StickFramesConcat([frame], [QUERY]);
    assert [frame] + [] == [frame];
  }

  // ------------------------------------------------------------- the other end

  /** How the receiving board reads requests: frame after frame, as long as they are whole and valid. */
  function ReadRequests(wire: seq<byte>): seq<MspFrame>
    decreases |wire|
  {
    if |wire| < 6 || wire[..3] != [DOLLAR, LETTER_M, TO_FC] || |wire| < 6 + wire[3] as int then []
    else
      var size: int := wire[3];
      var f := MspFrame(wire[4], wire[5..5 + size]);
      if FrameChecksum(f) != wire[5 + size] then [] else [f] + ReadRequests(wire[6 + size..])
  }

  lemma ReadsFrame(f: MspFrame, rest: seq<byte>)
    ensures ReadRequests(FrameBytes(TO_FC, f) + rest) == [f] + ReadRequests(rest)
  {
    var wire := FrameBytes(TO_FC, f) + rest;
    var size := |f.payload|;
    assert wire[..3] == [DOLLAR, LETTER_M, TO_FC] && wire[3] == size && wire[5..5 + size] == f.payload;
    assert MspFrame(wire[4], wire[5..5 + size]) == f;
    assert wire[6 + size..] == rest;
  }

  lemma StopsAtPrefix(f: MspFrame, partial: seq<byte>)
    requires |partial| < |FrameBytes(TO_FC, f)| && partial <= FrameBytes(TO_FC, f)
    ensures ReadRequests(partial) == []
  {
    if |partial| >= 6 {
      assert partial[3] == FrameBytes(TO_FC, f)[3] == |f.payload|;
    }
  }

  /** The board reads exactly the frames that were written whole; a cut frame is never taken for one. */
  lemma {:induction false} BoardReads(frames: seq<MspFrame>, broken: MspFrame, partial: seq<byte>)
    requires |partial| < |FrameBytes(TO_FC, broken)| && partial <= FrameBytes(TO_FC, broken)
    ensures ReadRequests(Requests(frames) + partial) == frames
  {
    hide FrameBytes, ReadRequests;
    if frames == [] {
      assert Requests(frames) + partial == partial;
      StopsAtPrefix(broken, partial);
    } else {
      BoardReads(frames[1..], broken, partial);
      assert Requests(frames) + partial == FrameBytes(TO_FC, frames[0]) + (Requests(frames[1..]) + partial);
      ReadsFrame(frames[0], Requests(frames[1..]) + partial);
    }
  }

  /** The board's channels are the command's, each clamped, throttle third and yaw fourth. */
  lemma BoardSeesChannels(cmd: Command)
    ensures RcChannels(RcFrame(cmd).payload)
         == [Clamped(cmd.roll), Clamped(cmd.pitch), Clamped(cmd.throttle), Clamped(cmd.yaw),
             Clamped(cmd.aux1), Clamped(cmd.aux2), Clamped(cmd.aux3), Clamped(cmd.aux4)]
  {
    hide RcPayload, RcChannels, Clamped;
    RcRoundTrip(WireOrder(cmd));
    var r := RcChannels(RcFrame(cmd).payload);
    assert r == [r[0], r[1], r[2], r[3], r[4], r[5], r[6], r[7]];
  }
}
