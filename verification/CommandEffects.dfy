/** What a command on the wire makes the next tick do, in terms of the numbers it carries. */
module CommandEffects {
  import opened Wrappers
  import opened RcCommand
  import opened ControlLoop
  import JsonText
  import Schema = CmdSchema
  import CR = CommandReceiver
  import CS = CmdSeq
  import RM = RcMath
  import FC = FlightController
  import FS = FlightSafety
  import Safety = LoopSafety

  // ------------------------------------------------------------------------ modes

  /** A latch acts in this tick: the link has just become stale, or the sink has just failed. */
  predicate LatchActs(l: Loop, i: Input) {
    (i.age > 0.5 && !l.failsafe) || (!i.sinkOk && !l.sinkDegraded)
  }

  /** What the motors need before the powered modes are let in. */
  predicate Ready(l: Loop, i: Input) {
    i.sinkOk && !i.mismatch && l.fc.hover != 0
  }

  /** The mode after a code of the wire, without the latches. */
  function ModeForCode(code: int, before: FC.ControlMode, ready: bool): FC.ControlMode {
    match code
    case 0 => FC.Manual
    case 1 => if ready then FC.Tracking else before
    case 2 => FC.LandSafely
    case 3 => if ready then FC.Takeoff else before
    case _ => before
  }

  /**
   The mode of the time step for every command and every state of the loop: 0 is Manual, 1 Tracking,
   2 LandSafely, 3 Takeoff; a refused or unknown code keeps the mode; a latch that acts lands.
   */
  lemma CommandedMode(l: Loop, i: Input)
    ensures BeforeStep(l, i).fc.mode
         == if LatchActs(l, i) then FC.LandSafely
            else if IsNew(l.lastSeq, i.cmd) then ModeForCode(i.cmd.value.desiredMode, l.fc.mode, Ready(l, i))
            else l.fc.mode
  {
    hide ApplyCommand, CS.MaskAdvances;
    if IsNew(l.lastSeq, i.cmd) {
      Safety.CommandSetsMode(l.fc, i.cmd.value, i.sinkOk, i.mismatch);
    }
  }

  /** A new land command lands at once, whatever state the loop is in and whatever else the tick sees. */
  lemma LandCommandLands(l: Loop, i: Input)
    requires IsNew(l.lastSeq, i.cmd) && i.cmd.value.desiredMode == 2
    ensures BeforeStep(l, i).fc.mode == FC.LandSafely && Tick(l, i).fc.mode == FC.LandSafely
  {
    hide BeforeStep, FC.UpdateTimeStep;
    CommandedMode(l, i);
    FS.LandingTick(BeforeStep(l, i).fc, i.dt);
    Safety.TickIs(l, i);
  }

  /** A new arm switch is set before the time step, in every mode; without one it stays. */
  lemma ArmIsSet(l: Loop, i: Input)
    requires IsNew(l.lastSeq, i.cmd)
    ensures BeforeStep(l, i).fc.cmd.aux1 == match i.cmd.value.arm
                                            case Some(on) => if on then 2000 else 1000
                                            case None => ApplySetpoints(l.fc, i.cmd.value.setpoints).cmd.aux1
  {
    hide CS.MaskAdvances, RM.NormalizedAxisToPwm, RM.YawRateToPwm, RM.ThrottleToPwm;
    Safety.ChecksKeepChannels(AfterCommand(l, i), i);
  }

  /** A change of mode starts the clocks of landing and takeoff again and keeps everything but the mode. */
  lemma NewModeStartsClocks(s: FC.State, mode: FC.ControlMode)
    ensures var r := FC.SetControlMode(s, mode);
            if mode == s.mode then r == s
            else
              && r.mode == mode && !r.landInit && r.landTimer == 0.0 && !r.takeoffInit && r.takeoffTimer == 0.0
              && r.hover == s.hover && r.msg == s.msg && r.msgTime == s.msgTime && r.now == s.now
              && r.cmd == if mode == FC.Manual then Sticks(s) else s.cmd
  {
  }

  /** A number outside 0 to 2^31 - 1 is never applied. */
  lemma OutOfRangeIsIgnored(l: Loop, i: Input)
    requires i.cmd.Some? && (i.cmd.value.seqNo < 0 || i.cmd.value.seqNo > 2147483647)
    ensures AfterCommand(l, i) == l
  {
    hide CS.MaskAdvances;
  }

  /** What the flight controller parses out of the printed command. */
  function Parsed(content: Schema.Content): Option<CR.CommandFrame> {
    CR.ParseCmd(JsonText.Print(JsonText.Obj(Schema.PayloadMembers(content))))
  }

  /**
   End to end: a tracking request without vision data, or with data older than the freshness limit,
   lands the controller as soon as its command is applied. Any other request keeps its code.
   */
  lemma DowngradeLands(l: Loop, i: Input, seqNo: nat, timestamp: JsonText.Numeral, wanted: Schema.Intent,
                       vis: Option<Schema.VisSnapshot>, visAge: Option<real>, freshness: real)
    ensures var unseen := vis.None? || visAge.None? || visAge.value > freshness;
            i.cmd == Parsed(Schema.ContentOf(seqNo, timestamp, wanted, vis, visAge, freshness))
            && IsNew(l.lastSeq, i.cmd) ==>
            && i.cmd.Some?
            && (wanted.desiredMode == 1 && unseen ==> Tick(l, i).fc.mode == FC.LandSafely)
            && (wanted.desiredMode != 1 || !unseen ==> i.cmd.value.desiredMode == wanted.desiredMode)
            && i.cmd.value.tracking.Some? == !unseen
  {
    hide JsonText.Print, Schema.PayloadMembers, CR.ParseCmd, IsNew, Tick, JsonText.NumeralValue;
    var content := Schema.ContentOf(seqNo, timestamp, wanted, vis, visAge, freshness);
    Safety.NothingIsNew(l.lastSeq);
    Schema.RoundTrip(content);
    if IsNew(l.lastSeq, i.cmd) && i.cmd.value.desiredMode == 2 {
      LandCommandLands(l, i);
    }
  }

  // --------------------------------------------------------------------- tracking

  /** The message of a tracking object, with its numbers cut to what they can be. */
  function Message(t: CR.Tracking, state: FC.TrackingState): FC.TrackingMessage {
    FC.TrackingMessage(state, RM.Clamp(t.locX, -1.0, 1.0), RM.Clamp(t.locY, -1.0, 1.0), RM.Clamp(t.boundW, 0.0, 1.0),
                       RM.Clamp(t.boundH, 0.0, 1.0), RM.Clamp(t.confidence, 0.0, 1.0), t.visTimestamp)
  }

  /** The four tracking states of the wire; any other number leaves the message alone. */
  lemma TrackingByCode(s: FC.State, t: CR.Tracking)
    ensures var r := ApplyTracking(s, Some(t));
            && (t.state == 1 ==> r == s.(msg := Message(t, FC.NoTarget), msgTime := s.now))
            && (t.state == 2 ==> r == s.(msg := Message(t, FC.TargetDetected), msgTime := s.now))
            && (t.state == 3 ==> r == s.(msg := Message(t, FC.OnTarget), msgTime := s.now))
            && (t.state == 4 ==> r == s.(msg := Message(t, FC.Searching), msgTime := s.now))
            && (t.state < 1 || t.state > 4 ==> r == s)
  {
  }

  // ----------------------------------------------------------------------- sticks

  /** What the channels are before set-points: as they were, or centred on entering Manual. */
  function Sticks(s: FC.State): Command {
    if s.mode == FC.Manual then s.cmd
    else s.cmd.(roll := 1500, pitch := 1500, yaw := 1500, aux3 := 1000,
                throttle := if s.cmd.aux1 > 1500 then s.hover else 1000)
  }

  /** The channels a Manual command leads to, before the throttle of a disarmed drone is cut. */
  function Commanded(base: Command, cmd: CR.CommandFrame): Command {
    var p := cmd.setpoints;
    base.(roll := if p.roll.Some? then RM.NormalizedAxisToPwm(p.roll.value) else base.roll,
          pitch := if p.pitch.Some? then RM.NormalizedAxisToPwm(p.pitch.value) else base.pitch,
          yaw := if p.yawRate.Some? then RM.YawRateToPwm(p.yawRate.value) else base.yaw,
          throttle := if p.throttle.Some? then RM.ThrottleToPwm(p.throttle.value) else base.throttle,
          aux1 := match cmd.arm case None => base.aux1 case Some(on) => if on then 2000 else 1000)
  }

  /** Clamping now or at the end of the tick makes no difference to the output. */
  predicate SameClamped(c: Command, d: Command) {
    FC.ClampChannels(c) == FC.ClampChannels(d)
  }

  lemma ManualApplied(s: FC.State, cmd: CR.CommandFrame, sinkOk: bool, mismatch: bool)
    requires cmd.desiredMode == 0
    ensures SameClamped(ApplyCommand(s, cmd, sinkOk, mismatch).cmd, Commanded(Sticks(s), cmd))
  {
    var centred := ApplyMode(s, 0, sinkOk, mismatch);
    EntersManual(s, sinkOk, mismatch);
    var armed := ApplyArm(centred, cmd.arm);
    hide ApplyMode, ApplySetpoints, ApplyTracking, Sticks, SameClamped;
    hide RM.NormalizedAxisToPwm, RM.YawRateToPwm, RM.ThrottleToPwm;
    SetpointsApplied(armed, cmd.setpoints);
    TrackingKeepsChannels(ApplySetpoints(armed, cmd.setpoints), cmd.tracking);
  }

  lemma EntersManual(s: FC.State, sinkOk: bool, mismatch: bool)
    ensures var r := ApplyMode(s, 0, sinkOk, mismatch); r.mode == FC.Manual && r.cmd == Sticks(s)
  {
  }

  lemma SetpointsApplied(s: FC.State, p: CR.Setpoints)
    ensures var c := s.cmd;
            var r := c.(roll := if p.roll.Some? then RM.NormalizedAxisToPwm(p.roll.value) else c.roll,
                        pitch := if p.pitch.Some? then RM.NormalizedAxisToPwm(p.pitch.value) else c.pitch,
                        yaw := if p.yawRate.Some? then RM.YawRateToPwm(p.yawRate.value) else c.yaw,
                        throttle := if p.throttle.Some? then RM.ThrottleToPwm(p.throttle.value) else c.throttle);
            SameClamped(ApplySetpoints(s, p).cmd, r)
  {
    hide RM.NormalizedAxisToPwm, RM.YawRateToPwm, RM.ThrottleToPwm, FC.ClampUs;
    Safety.ClampedOnce(ApplySetpoints(s, p).cmd);
    forall c: Command ensures FC.ClampChannels(FC.ClampChannels(c)) == FC.ClampChannels(c) {
      Safety.ClampedOnce(c);
    }
  }

  lemma TrackingKeepsChannels(s: FC.State, tracking: Option<CR.Tracking>)
    ensures ApplyTracking(s, tracking).cmd == s.cmd
  {
  }

  /** Disarmed channels with the throttle cut. */
  function Cut(c: Command): Command {
    if c.aux1 > 1500 then c else c.(throttle := 1000)
  }

  lemma ManualStep(s: FC.State, dt: real, c: Command)
    requires s.mode == FC.Manual && SameClamped(s.cmd, c)
    ensures FC.UpdateTimeStep(s, dt).cmd == FC.ClampChannels(Cut(c))
  {
    hide FC.ClampedDt;
    assert FC.ClampUs(s.cmd.aux1) == FC.ClampUs(c.aux1);
  }

  /** Without a latch acting, the time step starts from what the command left. */
  lemma QuietLatches(l: Loop, i: Input)
    requires !LatchActs(l, i)
    ensures BeforeStep(l, i).fc == AfterCommand(l, i).fc
  {
    hide AfterCommand;
    LatchesStay(l, i);
  }

  lemma LatchesStay(l: Loop, i: Input)
    ensures AfterCommand(l, i).failsafe == l.failsafe && AfterCommand(l, i).sinkDegraded == l.sinkDegraded
  {
    hide ApplyCommand, IsNew;
  }

  /**
   The next output after any Manual command on a healthy link: every given set-point through its map,
   every other channel as it was or as entering Manual leaves it, the arm switch as commanded, throttle
   at its minimum unless armed, and all of it clamped to 1000..2000.
   */
  lemma ManualOutput(l: Loop, i: Input)
    requires IsNew(l.lastSeq, i.cmd) && i.cmd.value.desiredMode == 0 && !LatchActs(l, i)
    ensures Tick(l, i).fc.cmd == FC.ClampChannels(Cut(Commanded(Sticks(l.fc), i.cmd.value)))
  {
    hide IsNew, ApplyCommand, BeforeStep, FC.UpdateTimeStep, Commanded, Sticks, LatchActs, Cut, SameClamped;
    Safety.NothingIsNew(l.lastSeq);
    ManualApplied(l.fc, i.cmd.value, i.sinkOk, i.mismatch);
    QuietLatches(l, i);
    CommandedMode(l, i);
    ManualStep(BeforeStep(l, i).fc, i.dt, Commanded(Sticks(l.fc), i.cmd.value));
    Safety.TickIs(l, i);
  }
}
