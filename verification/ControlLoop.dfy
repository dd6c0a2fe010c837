/** The control loop: applying commands, the two failsafe latches, and the time step. */
module ControlLoop {
  import opened Wrappers
  import opened RcCommand
  import RM = RcMath
  import CR = CommandReceiver
  import CS = CmdSeq
  import FC = FlightController

  const CMD_TIMEOUT_S := 0.5

  /** What one tick sees: elapsed time, the newest command, its age, and the sink's health. */
  datatype Input = Input(dt: real, cmd: Option<CR.CommandFrame>, age: real, sinkOk: bool, mismatch: bool)

  datatype Loop = Loop(fc: FC.State, lastSeq: Option<int>, failsafe: bool, sinkDegraded: bool)

  function ToControlMode(raw: int): Option<FC.ControlMode> {
    if raw == 0 then Some(FC.Manual)
    else if raw == 1 then Some(FC.Tracking)
    else if raw == 2 then Some(FC.LandSafely)
    else if raw == 3 then Some(FC.Takeoff)
    else None
  }

  function ToTrackingState(raw: int): Option<FC.TrackingState> {
    if raw == 1 then Some(FC.NoTarget)
    else if raw == 2 then Some(FC.TargetDetected)
    else if raw == 3 then Some(FC.OnTarget)
    else if raw == 4 then Some(FC.Searching)
    else None
  }

  /** The modes that need a healthy, calibrated link to the motors. */
  predicate Powered(mode: FC.ControlMode) {
    mode == FC.Tracking || mode == FC.Takeoff
  }

  predicate Gate(mode: FC.ControlMode, hover: Us, sinkOk: bool, mismatch: bool) {
    Powered(mode) ==> sinkOk && !mismatch && hover != 0
  }

  function ApplyMode(s: FC.State, raw: int, sinkOk: bool, mismatch: bool): FC.State {
    match ToControlMode(raw)
    case None => s
    case Some(mode) => if Gate(mode, s.hover, sinkOk, mismatch) then FC.SetControlMode(s, mode) else s
  }

  function ApplyArm(s: FC.State, arm: Option<bool>): FC.State {
    match arm case None => s case Some(a) => FC.SetArm(s, a)
  }

  function ApplySetpoints(s: FC.State, p: CR.Setpoints): FC.State {
    if p == CR.NO_SETPOINTS then s
    else
      FC.SetManualSetpoints(s, s.cmd.(
        roll := if p.roll.Some? then RM.NormalizedAxisToPwm(p.roll.value) else s.cmd.roll,
        pitch := if p.pitch.Some? then RM.NormalizedAxisToPwm(p.pitch.value) else s.cmd.pitch,
        yaw := if p.yawRate.Some? then RM.YawRateToPwm(p.yawRate.value) else s.cmd.yaw,
        throttle := if p.throttle.Some? then RM.ThrottleToPwm(p.throttle.value) else s.cmd.throttle))
  }

  function ApplyTracking(s: FC.State, tracking: Option<CR.Tracking>): FC.State {
    match tracking
    case None => s
    case Some(t) =>
      match ToTrackingState(t.state)
      case None => s
      case Some(state) =>
        FC.UpdateTracking(
          s, FC.TrackingMessage(state, t.locX, t.locY, t.boundW, t.boundH, t.confidence, t.visTimestamp))
  }

  function ApplyCommand(s: FC.State, cmd: CR.CommandFrame, sinkOk: bool, mismatch: bool): FC.State {
    var armed := ApplyArm(ApplyMode(s, cmd.desiredMode, sinkOk, mismatch), cmd.arm);
    ApplyTracking(ApplySetpoints(armed, cmd.setpoints), cmd.tracking)
  }

  /** The command is in range and newer than the last one applied. */
  predicate IsNew(lastSeq: Option<int>, cmd: Option<CR.CommandFrame>) {
    cmd.Some? && 0 <= cmd.value.seqNo <= CS.CMD_SEQ_MAX
    && (lastSeq.None? || CS.MaskAdvances(lastSeq.value, cmd.value.seqNo))
  }

  function AfterCommand(l: Loop, i: Input): Loop {
    if IsNew(l.lastSeq, i.cmd) then
      l.(fc := ApplyCommand(l.fc, i.cmd.value, i.sinkOk, i.mismatch), lastSeq := Some(i.cmd.value.seqNo))
    else l
  }

  predicate StaleNow(i: Input) {
    i.age > CMD_TIMEOUT_S
  }

  /** The latch on command age: it acts on the fresh-to-stale edge only. */
  function AfterFailsafe(l: Loop, i: Input): Loop {
    if StaleNow(i) && !l.failsafe then l.(failsafe := true, fc := FC.SetControlMode(l.fc, FC.LandSafely))
    else if !StaleNow(i) && l.failsafe then l.(failsafe := false)
    else l
  }

  function AfterSinkCheck(l: Loop, i: Input): Loop {
    if !i.sinkOk && !l.sinkDegraded then l.(sinkDegraded := true, fc := FC.SetControlMode(l.fc, FC.LandSafely))
    else if i.sinkOk && l.sinkDegraded then l.(sinkDegraded := false)
    else l
  }

  /** The loop's state when the time step of the tick begins. */
  function BeforeStep(l: Loop, i: Input): Loop {
    AfterSinkCheck(AfterFailsafe(AfterCommand(l, i), i), i)
  }

  /** One tick; the output is `fc.cmd`. */
  function Tick(l: Loop, i: Input): Loop {
    var b := BeforeStep(l, i);
    b.(fc := FC.UpdateTimeStep(b.fc, i.dt))
  }

  function Start(hover: Us): Loop {
    Loop(FC.INITIAL.(hover := FC.CalibratedHover(hover)), None, false, false)
  }

  // -------------------------------------------------------------------- the loop

  class MainLoop {
    const controller: FC.Controller
    var lastCmdSeq: Option<int>
    var failsafeEngaged: bool
    var sinkDegradedEngaged: bool

    ghost function Now(): Loop
      reads this, controller
    {
      Loop(controller.Now(), lastCmdSeq, failsafeEngaged, sinkDegradedEngaged)
    }

    constructor (hover: Us)
      ensures Now() == Start(hover) && fresh(controller)
    {
      controller := new FC.Controller();
      lastCmdSeq, failsafeEngaged, sinkDegradedEngaged := None, false, false;
      new;
      controller.Calibrate(hover);
    }

    method ApplyControlModeSafely(desired: FC.ControlMode, sinkOk: bool, mismatch: bool) returns (ok: bool)
      modifies controller
      ensures ok == Gate(desired, old(controller.Now()).hover, sinkOk, mismatch)
      ensures controller.Now()
           == if ok then FC.SetControlMode(old(controller.Now()), desired) else old(controller.Now())
    {
      if desired == FC.Tracking || desired == FC.Takeoff {
        if !sinkOk {
          return false;
        }
        if mismatch {
          return false;
        }
        if controller.hoverThrottle == 0 {
          return false;
        }
      }
      controller.ChangeMode(desired);
      return true;
    }

    method ApplySetpointOverrides(p: CR.Setpoints)
      modifies controller
      ensures controller.Now() == ApplySetpoints(old(controller.Now()), p)
    {
      hide RM.NormalizedAxisToPwm, RM.YawRateToPwm, RM.ThrottleToPwm, FC.ClampChannels;
      if p.roll.None? && p.pitch.None? && p.yawRate.None? && p.throttle.None? {
        return;
      }
      var command := controller.currentCommand;
      if p.roll.Some? {
        command := command.(roll := RM.NormalizedAxisToPwm(p.roll.value));
      }
      if p.pitch.Some? {
        command := command.(pitch := RM.NormalizedAxisToPwm(p.pitch.value));
      }
      if p.yawRate.Some? {
        command := command.(yaw := RM.YawRateToPwm(p.yawRate.value));
      }
      if p.throttle.Some? {
        command := command.(throttle := RM.ThrottleToPwm(p.throttle.value));
      }
      controller.ManualSetpoints(command);
    }

    method ApplyTrackingUpdate(tracking: Option<CR.Tracking>)
      modifies controller
      ensures controller.Now() == ApplyTracking(old(controller.Now()), tracking)
    {
      hide FC.UpdateTracking;
      if tracking.None? {
        return;
      }
      var t := tracking.value;
      var state := ToTrackingState(t.state);
      if state.None? {
        return;
      }
      controller.ReceiveTracking(
        FC.TrackingMessage(state.value, t.locX, t.locY, t.boundW, t.boundH, t.confidence, t.visTimestamp));
    }

    method ApplyFrame(cmd: CR.CommandFrame, sinkOk: bool, mismatch: bool)
      modifies controller
      ensures controller.Now() == ApplyCommand(old(controller.Now()), cmd, sinkOk, mismatch)
    {
      hide FC.SetControlMode, FC.SetArm, ApplySetpoints, ApplyTracking;
      var mode := ToControlMode(cmd.desiredMode);
      if mode.Some? {
        var ok := ApplyControlModeSafely(mode.value, sinkOk, mismatch);
      }
      if cmd.arm.Some? {
        controller.Arm(cmd.arm.value);
      }
      ApplySetpointOverrides(cmd.setpoints);
      ApplyTrackingUpdate(cmd.tracking);
    }

    method HandleCommand(i: Input)
      modifies this`lastCmdSeq, controller
      ensures Now() == AfterCommand(old(Now()), i)
    {
      hide ApplyCommand, CS.MaskAdvances;
      var seqInRange := i.cmd.Some? && 0 <= i.cmd.value.seqNo <= CS.CMD_SEQ_MAX;
      if seqInRange && (lastCmdSeq.None? || CS.MaskAdvances(lastCmdSeq.value, i.cmd.value.seqNo)) {
        lastCmdSeq := Some(i.cmd.value.seqNo);
        ApplyFrame(i.cmd.value, i.sinkOk, i.mismatch);
      }
    }

    method CheckCommandAge(i: Input)
      modifies this`failsafeEngaged, controller
      ensures Now() == AfterFailsafe(old(Now()), i)
    {
      hide FC.SetControlMode;
      var staleNow := i.age > CMD_TIMEOUT_S;
      if staleNow && !failsafeEngaged {
        failsafeEngaged := true;
        controller.ChangeMode(FC.LandSafely);
      } else if !staleNow && failsafeEngaged {
        failsafeEngaged := false;
      }
    }

    method CheckSink(i: Input)
      modifies this`sinkDegradedEngaged, controller
      ensures Now() == AfterSinkCheck(old(Now()), i)
    {
      hide FC.SetControlMode;
      var degradedNow := !i.sinkOk;
      if degradedNow && !sinkDegradedEngaged {
        sinkDegradedEngaged := true;
        controller.ChangeMode(FC.LandSafely);
      } else if !degradedNow && sinkDegradedEngaged {
        sinkDegradedEngaged := false;
      }
    }

    /** One pass of the loop body: apply a new command, update both latches, step the controller. */
    method Step(i: Input) returns (out: Command)
      modifies this, controller
      ensures Now() == Tick(old(Now()), i) && out == Now().fc.cmd
    {
      hide AfterCommand, AfterFailsafe, AfterSinkCheck, FC.UpdateTimeStep;
      HandleCommand(i);
      CheckCommandAge(i);
      CheckSink(i);
      out := controller.TimeStep(i.dt);
    }
  }
}
