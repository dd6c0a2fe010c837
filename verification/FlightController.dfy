/** The mode machine: Manual, Takeoff, Tracking and LandSafely, with their timers and ramps. */
module FlightController {
  import opened RcCommand
  import opened RcMath

  const DISARM_TIME_S := 5.0
  const LAND_RAMP_RATE_US_PER_S := 50.0
  const MIN_LAND_THROTTLE := 1030
  const MAX_CONTROL_DT_S := 0.2
  const PITCH_RANGE_US := 300.0
  const YAW_RANGE_US := 300.0
  const ALT_HOLD_MAX_THROTTLE := 1800
  const MAX_SPEED_MPS := 1.0
  const TRACKING_TIMEOUT_S := 0.8
  const MIN_CONFIDENCE := 0.5
  const SEARCH_YAW_RATE_DPS := 60.0
  const TAKEOFF_SPOOL_TIME_S := 0.8
  const TAKEOFF_RAMP_TIME_S := 1.6
  const TAKEOFF_HOLD_TIME_S := 1.0
  const TAKEOFF_SPOOL_THROTTLE := 1020
  const TAKEOFF_TARGET_THROTTLE := 1250

  datatype ControlMode = Manual | Tracking | LandSafely | Takeoff

  datatype TrackingState = NoTarget | TargetDetected | OnTarget | Searching

  datatype TrackingMessage = TrackingMessage(state: TrackingState, targetX: real, targetY: real,
                                             boundW: real, boundH: real, confidence: real, timestamp: real)

  /** Every field of the controller that influences what it does. */
  datatype State = State(
    mode: ControlMode,
    cmd: Command,
    hover: Us,
    msg: TrackingMessage,
    msgTime: real,
    now: real,
    seen: TrackingState,
    confidence: real,
    landInit: bool, landTimer: real, landStart: Us,
    takeoffInit: bool, takeoffTimer: real)

  const INITIAL := State(
    LandSafely,
    Command(DRONE_MID, DRONE_MID, DRONE_MID, DRONE_MIN, DRONE_MIN, DRONE_MAX, DRONE_MIN, DRONE_MIN),
    0,
    TrackingMessage(Searching, 0.0, 0.0, 0.0, 0.0, 0.0, 0.0), -1.0, 0.0, Searching, 0.0,
    false, 0.0, DRONE_MIN, false, 0.0)

  predicate Armed(cmd: Command) {
    cmd.aux1 > 1500
  }

  function Switch(on: bool): Us {
    if on then DRONE_MAX else DRONE_MIN
  }

  // ------------------------------------------------------------ commands applied

  function SetControlMode(s: State, mode: ControlMode): State {
    if mode == s.mode then s
    else
      var cmd := if mode == Manual then
                   s.cmd.(roll := DRONE_MID, pitch := DRONE_MID, yaw := DRONE_MID, aux3 := DRONE_MIN,
                          throttle := if Armed(s.cmd) then s.hover else DRONE_MIN)
                 else s.cmd;
      s.(mode := mode, cmd := cmd, landInit := false, landTimer := 0.0, takeoffInit := false, takeoffTimer := 0.0)
  }

  function CalibratedHover(hover: Us): (h: Us)
    ensures hover == 0 || 1000 <= hover <= 1800 ==> h == hover
    ensures 0 < hover < 1000 ==> h == 1000
    ensures hover > 1800 ==> h == 1800
  {
    if hover == 0 then 0
    else if hover < DRONE_MIN then DRONE_MIN
    else if hover > ALT_HOLD_MAX_THROTTLE then ALT_HOLD_MAX_THROTTLE
    else hover
  }

  function UpdateTracking(s: State, msg: TrackingMessage): State {
    s.(msg := TrackingMessage(msg.state, Clamp(msg.targetX, -1.0, 1.0), Clamp(msg.targetY, -1.0, 1.0),
                              Clamp(msg.boundW, 0.0, 1.0), Clamp(msg.boundH, 0.0, 1.0),
                              Clamp(msg.confidence, 0.0, 1.0), msg.timestamp),
       msgTime := s.now)
  }

  function ClampUs(u: Us): (r: Us)
    ensures u < 1000 ==> r == 1000
    ensures 1000 <= u <= 2000 ==> r == u
    ensures u > 2000 ==> r == 2000
  {
    if u < DRONE_MIN then DRONE_MIN else if u > DRONE_MAX then DRONE_MAX else u
  }

  function ClampChannels(c: Command): Command {
    Command(ClampUs(c.roll), ClampUs(c.pitch), ClampUs(c.yaw), ClampUs(c.throttle),
            ClampUs(c.aux1), ClampUs(c.aux2), ClampUs(c.aux3), ClampUs(c.aux4))
  }

  function SetManualSetpoints(s: State, cmd: Command): State {
    s.(cmd := ClampChannels(cmd))
  }

  function SetArm(s: State, arm: bool): State {
    s.(cmd := s.cmd.(aux1 := Switch(arm)))
  }

  // ------------------------------------------------------------- control outputs

  /** Throttle for an altitude-hold stick in [-1, 1]: down to the minimum, up to the ceiling, around hover. */
  function AltHoldThrottle(hover: Us, delta: real): Us {
    var d := Clamp(delta, -1.0, 1.0);
    var h := hover as real;
    var down := if hover > DRONE_MIN then h - DRONE_MIN as real else 0.0;
    var up := if hover < ALT_HOLD_MAX_THROTTLE then ALT_HOLD_MAX_THROTTLE as real - h else 0.0;
    var throttle := if d < 0.0 then h + d * down else h + d * up;
    Truncate(Clamp(throttle, DRONE_MIN as real, DRONE_MAX as real))
  }

  function AltHoldDelta(s: State, delta: real): State {
    if s.hover == 0 then s else s.(cmd := s.cmd.(throttle := AltHoldThrottle(s.hover, delta)))
  }

  function PitchFor(speed: real): Us {
    var normalized := Clamp(speed, -MAX_SPEED_MPS, MAX_SPEED_MPS) / MAX_SPEED_MPS;
    Truncate(Clamp(DRONE_MID as real + normalized * PITCH_RANGE_US, DRONE_MIN as real, DRONE_MAX as real))
  }

  function YawFor(dps: real): Us {
    var normalized := Clamp(dps, -MAX_YAW_RATE_DPS, MAX_YAW_RATE_DPS) / MAX_YAW_RATE_DPS;
    Truncate(Clamp(DRONE_MID as real + normalized * YAW_RANGE_US, DRONE_MIN as real, DRONE_MAX as real))
  }

  function Hovering(s: State): State {
    s.(cmd := s.cmd.(aux2 := Switch(true), aux3 := Switch(true)))
  }

  // ----------------------------------------------------------------------- modes

  predicate Stale(s: State) {
    s.msgTime < 0.0 || s.now - s.msgTime > TRACKING_TIMEOUT_S
  }

  predicate TargetValid(s: State) {
    !Stale(s) && s.msg.state == OnTarget && s.msg.confidence >= MIN_CONFIDENCE
  }

  function RunHoverSearch(s: State): State {
    var t := AltHoldDelta(Hovering(s.(seen := Searching)), 0.0);
    t.(cmd := t.cmd.(roll := DRONE_MID, pitch := DRONE_MID, yaw := YawFor(SEARCH_YAW_RATE_DPS)))
  }

  function RunHoverStill(s: State, seen: TrackingState): State {
    var t := Hovering(s.(seen := seen));
    AltHoldDelta(t.(cmd := t.cmd.(roll := DRONE_MID, pitch := DRONE_MID, yaw := DRONE_MID)), 0.0)
  }

  function Deadbanded(x: real, band: real): real {
    if -band < x < band then 0.0 else x
  }

  function ForwardFor(boundH: real): real {
    if boundH >= 0.45 then -MAX_SPEED_MPS
    else if boundH <= 0.10 then MAX_SPEED_MPS
    else Deadbanded(0.25 - boundH, 0.02)
  }

  function RunFollowTarget(s: State): State {
    var t := Hovering(s);
    if !TargetValid(s) then
      t.(seen := Searching, confidence := 0.0,
         cmd := t.cmd.(roll := DRONE_MID, pitch := DRONE_MID, yaw := DRONE_MID, throttle := s.hover))
    else
      var steered := t.(seen := OnTarget, confidence := s.msg.confidence,
                        cmd := t.cmd.(yaw := YawFor(200.0 * Deadbanded(s.msg.targetX, 0.02)),
                                      pitch := PitchFor(ForwardFor(s.msg.boundH)),
                                      roll := DRONE_MID));
      AltHoldDelta(steered, -0.5 * Deadbanded(s.msg.targetY, 0.02))
  }

  function LandStart(s: State): Us {
    var candidate := if s.hover == 0 || s.cmd.throttle < s.hover then s.cmd.throttle else s.hover;
    if candidate > MIN_LAND_THROTTLE then candidate else MIN_LAND_THROTTLE
  }

  /** The descent throttle `timer` seconds into a landing that started at `start`. */
  function RampThrottle(start: Us, timer: real): (u: Us)
    ensures MIN_LAND_THROTTLE <= u <= DRONE_MAX
  {
    Truncate(Clamp(start as real - LAND_RAMP_RATE_US_PER_S * timer, MIN_LAND_THROTTLE as real, DRONE_MAX as real))
  }

  function BeginLanding(s: State): State {
    if s.landInit then s else s.(landInit := true, landTimer := 0.0, landStart := LandStart(s))
  }

  function RunLandSafely(s: State, dt: real): State {
    var b := BeginLanding(s);
    if !Armed(b.cmd) then b.(seen := Searching, cmd := b.cmd.(throttle := DRONE_MIN))
    else
      var timer := b.landTimer + dt;
      var level := b.cmd.(roll := DRONE_MID, pitch := DRONE_MID, yaw := DRONE_MID,
                          aux2 := DRONE_MAX, aux3 := DRONE_MIN);
      if timer >= DISARM_TIME_S then
        b.(seen := Searching, landTimer := timer, cmd := level.(throttle := DRONE_MIN, aux1 := DRONE_MIN))
      else b.(seen := Searching, landTimer := timer, cmd := level.(throttle := RampThrottle(b.landStart, timer)))
  }

  function TakeoffRamp(t: real): Us
    requires 0.0 <= t < TAKEOFF_RAMP_TIME_S
  {
    var alpha := t / TAKEOFF_RAMP_TIME_S;
    Truncate((1.0 - alpha) * TAKEOFF_SPOOL_THROTTLE as real + alpha * TAKEOFF_TARGET_THROTTLE as real)
  }

  /** The throttle of a takeoff `ramp` seconds after its spool phase, and the hand-over at its end. */
  function Climb(s: State, ramp: real): State {
    if ramp < 0.0 then s.(cmd := s.cmd.(throttle := TAKEOFF_SPOOL_THROTTLE))
    else if ramp < TAKEOFF_RAMP_TIME_S then s.(cmd := s.cmd.(throttle := TakeoffRamp(ramp)))
    else
      var up := s.(cmd := s.cmd.(throttle := s.hover));
      if ramp > TAKEOFF_RAMP_TIME_S + TAKEOFF_HOLD_TIME_S then SetControlMode(up, Tracking) else up
  }

  function RunTakeoff(s: State, dt: real): State {
    if s.hover == 0 then RunLandSafely(SetControlMode(s, LandSafely), dt)
    else
      var timer := (if s.takeoffInit then s.takeoffTimer else 0.0) + dt;
      var level := s.cmd.(roll := DRONE_MID, pitch := DRONE_MID, yaw := DRONE_MID,
                          aux1 := DRONE_MAX, aux2 := DRONE_MAX, aux3 := DRONE_MAX);
      var t := s.(takeoffInit := true, takeoffTimer := timer, seen := Searching, cmd := level);
      Climb(t, timer - TAKEOFF_SPOOL_TIME_S)
  }

  function RunTracking(s: State, dt: real): State {
    if s.hover == 0 then RunLandSafely(SetControlMode(s, LandSafely), dt)
    else if Stale(s) then RunHoverSearch(s)
    else
      match s.msg.state
      case OnTarget => if TargetValid(s) then RunFollowTarget(s) else RunHoverSearch(s)
      case Searching => RunHoverSearch(s)
      case TargetDetected => RunHoverStill(s, TargetDetected)
      case NoTarget => RunHoverStill(s, NoTarget)
  }

  function ClampedDt(dt: real): (r: real)
    ensures dt < 0.0 ==> r == 0.0
    ensures 0.0 <= dt <= 0.2 ==> r == dt
    ensures dt > 0.2 ==> r == 0.2
  {
    if dt < 0.0 then 0.0 else if dt > MAX_CONTROL_DT_S then MAX_CONTROL_DT_S else dt
  }

  function RunMode(s: State, dt: real): State {
    match s.mode
    case Manual => s.(seen := Searching)
    case Tracking => RunTracking(s, dt)
    case LandSafely => RunLandSafely(s, dt)
    case Takeoff => RunTakeoff(s, dt)
  }

  /** Whatever the mode did: disarmed means minimum throttle, and every channel is in range. */
  function Finish(s: State): (r: State)
    ensures !Armed(r.cmd) ==> r.cmd.throttle == DRONE_MIN
    ensures r.cmd == ClampChannels(r.cmd)
    ensures Armed(r.cmd) == Armed(s.cmd)
  {
    var cmd := if Armed(s.cmd) then s.cmd else s.cmd.(throttle := DRONE_MIN);
    s.(cmd := ClampChannels(cmd), confidence := if s.seen == OnTarget then s.confidence else 0.0)
  }

  /** One time step; its `cmd` is the output. */
  function UpdateTimeStep(s: State, dt: real): State {
    var d := ClampedDt(dt);
    Finish(RunMode(s.(now := s.now + d), d))
  }

  // ---------------------------------------------------------------------- the class

  class Controller {
    var controlMode: ControlMode
    var currentCommand: Command
    var hoverThrottle: Us
    var lastTrackingMsg: TrackingMessage
    var lastTrackingUpdateTime: real
    var timestamp: real
    var trackingState: TrackingState
    var confidence: real
    var landSafelyInitialized: bool
    var landTimer: real
    var landStartThrottle: Us
    var takeoffInitialized: bool
    var takeoffTimer: real

    ghost function Now(): State
      reads this
    {
      State(controlMode, currentCommand, hoverThrottle, lastTrackingMsg, lastTrackingUpdateTime, timestamp,
            trackingState, confidence, landSafelyInitialized, landTimer, landStartThrottle,
            takeoffInitialized, takeoffTimer)
    }

    constructor ()
      ensures Now() == INITIAL
    {
      controlMode, hoverThrottle := ControlMode.LandSafely, 0;
      currentCommand := Command(DRONE_MID, DRONE_MID, DRONE_MID, DRONE_MIN, DRONE_MIN, DRONE_MAX, DRONE_MIN, DRONE_MIN);
      lastTrackingMsg := TrackingMessage(Searching, 0.0, 0.0, 0.0, 0.0, 0.0, 0.0);
      lastTrackingUpdateTime, timestamp, trackingState, confidence := -1.0, 0.0, Searching, 0.0;
      landSafelyInitialized, landTimer, landStartThrottle := false, 0.0, DRONE_MIN;
      takeoffInitialized, takeoffTimer := false, 0.0;
    }

    method ChangeMode(mode: ControlMode)
      modifies this
      ensures Now() == SetControlMode(old(Now()), mode)
    {
      if mode == controlMode {
        return;
      }
      controlMode := mode;
      if mode == Manual {
        var throttle := if Armed(currentCommand) then hoverThrottle else DRONE_MIN;
        currentCommand :=
          currentCommand.(roll := DRONE_MID, pitch := DRONE_MID, yaw := DRONE_MID, throttle := throttle);
        EnableAltHold(false);
      }
      landSafelyInitialized, landTimer := false, 0.0;
      takeoffInitialized, takeoffTimer := false, 0.0;
    }

    method Calibrate(hover: Us)
      modifies this`hoverThrottle
      ensures Now() == old(Now()).(hover := CalibratedHover(hover))
    {
      hoverThrottle := CalibratedHover(hover);
    }

    method ReceiveTracking(msg: TrackingMessage)
      modifies this`lastTrackingMsg, this`lastTrackingUpdateTime
      ensures Now() == UpdateTracking(old(Now()), msg)
    {
      lastTrackingMsg := TrackingMessage(msg.state, Clamp(msg.targetX, -1.0, 1.0), Clamp(msg.targetY, -1.0, 1.0),
                                         Clamp(msg.boundW, 0.0, 1.0), Clamp(msg.boundH, 0.0, 1.0),
                                         Clamp(msg.confidence, 0.0, 1.0), msg.timestamp);
      lastTrackingUpdateTime := timestamp;
    }

    method ManualSetpoints(cmd: Command)
      modifies this`currentCommand
      ensures Now() == SetManualSetpoints(old(Now()), cmd)
    {
      currentCommand := cmd;
      currentCommand := ClampChannels(currentCommand);
    }

    method Arm(arm: bool)
      modifies this`currentCommand
      ensures Now() == SetArm(old(Now()), arm)
    {
      currentCommand := currentCommand.(aux1 := Switch(arm));
    }

    method EnableAngleMode(on: bool)
      modifies this`currentCommand
      ensures currentCommand == old(currentCommand).(aux2 := Switch(on))
    {
      currentCommand := currentCommand.(aux2 := Switch(on));
    }

    method EnableAltHold(on: bool)
      modifies this`currentCommand
      ensures currentCommand == old(currentCommand).(aux3 := Switch(on))
    {
      currentCommand := currentCommand.(aux3 := Switch(on));
    }

    method CommandAltHoldDelta(delta: real)
      modifies this`currentCommand
      ensures Now() == AltHoldDelta(old(Now()), delta)
    {
      if hoverThrottle == 0 {
        return;
      }
      currentCommand := currentCommand.(throttle := AltHoldThrottle(hoverThrottle, delta));
    }

    method HoverSearch()
      modifies this`currentCommand, this`trackingState
      ensures Now() == RunHoverSearch(old(Now()))
    {
      hide AltHoldThrottle, YawFor;
      trackingState := Searching;
      EnableAngleMode(true);
      EnableAltHold(true);
      currentCommand := currentCommand.(roll := DRONE_MID, pitch := DRONE_MID);
      CommandAltHoldDelta(0.0);
      currentCommand := currentCommand.(yaw := YawFor(SEARCH_YAW_RATE_DPS));
    }

    method HoverStill(seen: TrackingState)
      modifies this`currentCommand, this`trackingState
      ensures Now() == RunHoverStill(old(Now()), seen)
    {
      hide AltHoldThrottle;
      trackingState := seen;
      EnableAngleMode(true);
      EnableAltHold(true);
      currentCommand := currentCommand.(roll := DRONE_MID, pitch := DRONE_MID, yaw := DRONE_MID);
      CommandAltHoldDelta(0.0);
    }

    method FollowTarget()
      modifies this`currentCommand, this`trackingState, this`confidence
      ensures Now() == RunFollowTarget(old(Now()))
    {
      hide AltHoldThrottle, YawFor, PitchFor, Deadbanded, ForwardFor;
      EnableAngleMode(true);
      EnableAltHold(true);
      CommandAltHoldDelta(0.0);
      if lastTrackingUpdateTime < 0.0 || timestamp - lastTrackingUpdateTime > TRACKING_TIMEOUT_S
         || lastTrackingMsg.state != OnTarget || lastTrackingMsg.confidence < MIN_CONFIDENCE {
        trackingState, confidence := Searching, 0.0;
        currentCommand :=
          currentCommand.(roll := DRONE_MID, pitch := DRONE_MID, yaw := DRONE_MID, throttle := hoverThrottle);
        return;
      }
      trackingState, confidence := OnTarget, lastTrackingMsg.confidence;
      var xError := Deadbanded(lastTrackingMsg.targetX, 0.02);
      var yError := Deadbanded(lastTrackingMsg.targetY, 0.02);
      currentCommand := currentCommand.(yaw := YawFor(200.0 * xError));
      currentCommand := currentCommand.(pitch := PitchFor(ForwardFor(lastTrackingMsg.boundH)));
      CommandAltHoldDelta(-0.5 * yError);
      currentCommand := currentCommand.(roll := DRONE_MID);
    }

    method LandSafely(dt: real)
      modifies this`currentCommand, this`trackingState, this`landSafelyInitialized, this`landTimer,
               this`landStartThrottle
      ensures Now() == RunLandSafely(old(Now()), dt)
    {
      hide RampThrottle;
      if !landSafelyInitialized {
        landSafelyInitialized, landTimer := true, 0.0;
        var candidate := if hoverThrottle == 0 || currentCommand.throttle < hoverThrottle then currentCommand.throttle
                         else hoverThrottle;
        landStartThrottle := if candidate > MIN_LAND_THROTTLE then candidate else MIN_LAND_THROTTLE;
      }
      trackingState := Searching;
      if !Armed(currentCommand) {
        currentCommand := currentCommand.(throttle := DRONE_MIN);
        return;
      }
      landTimer := landTimer + dt;
      EnableAltHold(false);
      EnableAngleMode(true);
      currentCommand := currentCommand.(roll := DRONE_MID, pitch := DRONE_MID, yaw := DRONE_MID);
      if landTimer >= DISARM_TIME_S {
        currentCommand := currentCommand.(throttle := DRONE_MIN);
        Arm(false);
        return;
      }
      currentCommand := currentCommand.(throttle := RampThrottle(landStartThrottle, landTimer));
    }

    method Takeoff(dt: real)
      modifies this
      ensures Now() == RunTakeoff(old(Now()), dt)
    {
      hide RunLandSafely, Climb;
      if hoverThrottle == 0 {
        ChangeMode(ControlMode.LandSafely);
        LandSafely(dt);
        return;
      }
      if !takeoffInitialized {
        takeoffInitialized, takeoffTimer := true, 0.0;
      }
      takeoffTimer := takeoffTimer + dt;
      trackingState := Searching;
      Arm(true);
      EnableAngleMode(true);
      EnableAltHold(true);
      currentCommand := currentCommand.(roll := DRONE_MID, pitch := DRONE_MID, yaw := DRONE_MID);
      ClimbOut(takeoffTimer - TAKEOFF_SPOOL_TIME_S);
    }

    method ClimbOut(ramp: real)
      modifies this
      ensures Now() == Climb(old(Now()), ramp)
    {
      hide TakeoffRamp, SetControlMode;
      if ramp < 0.0 {
        currentCommand := currentCommand.(throttle := TAKEOFF_SPOOL_THROTTLE);
        return;
      }
      if ramp < TAKEOFF_RAMP_TIME_S {
        currentCommand := currentCommand.(throttle := TakeoffRamp(ramp));
        return;
      }
      currentCommand := currentCommand.(throttle := hoverThrottle);
      if ramp > TAKEOFF_RAMP_TIME_S + TAKEOFF_HOLD_TIME_S {
        ChangeMode(ControlMode.Tracking);
      }
    }

    method Track(dt: real)
      modifies this
      ensures Now() == RunTracking(old(Now()), dt)
    {
      hide RunLandSafely, RunHoverSearch, RunHoverStill, RunFollowTarget;
      if hoverThrottle == 0 {
        ChangeMode(ControlMode.LandSafely);
        LandSafely(dt);
        return;
      }
      var isStale := lastTrackingUpdateTime < 0.0 || timestamp - lastTrackingUpdateTime > TRACKING_TIMEOUT_S;
      if isStale {
        HoverSearch();
        return;
      }
      match lastTrackingMsg.state
      case OnTarget =>
        if lastTrackingMsg.confidence < MIN_CONFIDENCE {
          HoverSearch();
        } else {
          FollowTarget();
        }
      case Searching => HoverSearch();
      case TargetDetected => HoverStill(TargetDetected);
      case NoTarget => HoverStill(NoTarget);
    }

    method RunCurrentMode(dt: real)
      modifies this
      ensures Now() == RunMode(old(Now()), dt)
    {
      hide RunTracking, RunLandSafely, RunTakeoff;
      match controlMode {
        case Manual => trackingState := Searching;
        case Tracking => Track(dt);
        case LandSafely => LandSafely(dt);
        case Takeoff => Takeoff(dt);
      }
    }

    method TimeStep(dt: real) returns (cmd: Command)
      modifies this
      ensures Now() == UpdateTimeStep(old(Now()), dt) && cmd == currentCommand
    {
      hide RunMode, ClampChannels, ClampedDt;
      var d := ClampedDt(dt);
      timestamp := timestamp + d;
      RunCurrentMode(d);
      if !Armed(currentCommand) {
        currentCommand := currentCommand.(throttle := DRONE_MIN);
      }
      if trackingState != OnTarget {
        confidence := 0.0;
      }
      currentCommand := ClampChannels(currentCommand);
      return currentCommand;
    }
  }
}
