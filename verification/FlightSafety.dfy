/** What the mode machine guarantees over every sequence of calls. */
module FlightSafety {
  import opened RcCommand
  import opened RcMath
  import opened FlightController

  /** The calls the control loop makes, in any order. Hover is set once, before the first of them. */
  datatype Call =
    | Mode(mode: ControlMode)
    | ArmTo(arm: bool)
    | Setpoints(cmd: Command)
    | Track(msg: TrackingMessage)
    | Tick(dt: real)

  function Do(s: State, call: Call): State {
    match call
    case Mode(mode) => SetControlMode(s, mode)
    case ArmTo(arm) => SetArm(s, arm)
    case Setpoints(cmd) => SetManualSetpoints(s, cmd)
    case Track(msg) => UpdateTracking(s, msg)
    case Tick(dt) => UpdateTimeStep(s, dt)
  }

  function Run(s: State, calls: seq<Call>): State
    decreases |calls|
  {
    if calls == [] then s else Run(Do(s, calls[0]), calls[1..])
  }

  lemma {:induction false} RunConcat(s: State, a: seq<Call>, b: seq<Call>)
    ensures Run(s, a + b) == Run(Run(s, a), b)
    decreases |a|
  {
    hide Do;
    if a == [] {
      assert a + b == b;
    } else {
      assert (a + b)[1..] == a[1..] + b;
      RunConcat(Do(s, a[0]), a[1..], b);
    }
  }

  // -------------------------------------------------------------------- outputs

  predicate InRange(c: Command) {
    && DRONE_MIN <= c.roll <= DRONE_MAX && DRONE_MIN <= c.pitch <= DRONE_MAX
    && DRONE_MIN <= c.yaw <= DRONE_MAX && DRONE_MIN <= c.throttle <= DRONE_MAX
    && DRONE_MIN <= c.aux1 <= DRONE_MAX && DRONE_MIN <= c.aux2 <= DRONE_MAX
    && DRONE_MIN <= c.aux3 <= DRONE_MAX && DRONE_MIN <= c.aux4 <= DRONE_MAX
  }

  /** Every output of every state is in range, and a disarmed output has minimum throttle. */
  lemma OutputIsSane(s: State, dt: real)
    ensures var out := UpdateTimeStep(s, dt).cmd;
            InRange(out) && (!Armed(out) ==> out.throttle == DRONE_MIN)
  {
    hide RunMode, ClampedDt;
    var d := ClampedDt(dt);
    var r := Finish(RunMode(s.(now := s.now + d), d));
    assert r.cmd == ClampChannels(r.cmd);
  }

  // ------------------------------------------------------------ altitude-hold law

  predicate Calibrated(hover: Us) {
    DRONE_MIN <= hover <= ALT_HOLD_MAX_THROTTLE
  }

  /** The stick law hits the minimum, hover and the ceiling at its three marks. */
  lemma AltHoldMarks(hover: Us)
    requires Calibrated(hover)
    ensures AltHoldThrottle(hover, -1.0) == DRONE_MIN
    ensures AltHoldThrottle(hover, 0.0) == hover
    ensures AltHoldThrottle(hover, 1.0) == ALT_HOLD_MAX_THROTTLE
  {
  }

  lemma StrokeMonotone(a: real, b: real, range: real)
    requires a <= b && range >= 0.0
    ensures Stroke(a, range) <= Stroke(b, range)
  {
  }

  lemma StrokeMarks(range: real)
    ensures Stroke(-1.0, range) == -range && Stroke(0.0, range) == 0.0 && Stroke(1.0, range) == range
  {
  }

  lemma TruncateMonotone(x: real, y: real)
    requires 0.0 <= x <= y < 65536.0
    ensures Truncate(x) <= Truncate(y)
  {
  }

  /** The real-valued law before it is cut to whole microseconds. */
  function AltHoldLaw(hover: Us, d: real): real
    requires Calibrated(hover)
  {
    hover as real + Stroke(d, if d < 0.0 then hover as real - 1000.0 else 1800.0 - hover as real)
  }

  function Stroke(d: real, range: real): real {
    d * range
  }

  lemma AltHoldLawBounds(hover: Us, d: real)
    requires Calibrated(hover) && -1.0 <= d <= 1.0
    ensures 1000.0 <= AltHoldLaw(hover, d) <= 1800.0
    ensures d < 0.0 ==> AltHoldLaw(hover, d) <= hover as real
    ensures d >= 0.0 ==> AltHoldLaw(hover, d) >= hover as real
  {
    hide Stroke;
    var down, up := hover as real - 1000.0, 1800.0 - hover as real;
    StrokeMarks(down);
    StrokeMarks(up);
    if d < 0.0 {
      StrokeMonotone(-1.0, d, down);
      StrokeMonotone(d, 0.0, down);
    } else {
      StrokeMonotone(d, 1.0, up);
      StrokeMonotone(0.0, d, up);
    }
  }

  lemma AltHoldLawMonotone(hover: Us, x: real, y: real)
    requires Calibrated(hover) && -1.0 <= x <= y <= 1.0
    ensures AltHoldLaw(hover, x) <= AltHoldLaw(hover, y)
  {
    hide Stroke;
    AltHoldLawBounds(hover, x);
    AltHoldLawBounds(hover, y);
    if y < 0.0 {
      StrokeMonotone(x, y, hover as real - 1000.0);
    } else if x >= 0.0 {
      StrokeMonotone(x, y, 1800.0 - hover as real);
    }
  }

  lemma AltHoldIsLaw(hover: Us, delta: real)
    requires Calibrated(hover)
    ensures var d := Clamp(delta, -1.0, 1.0);
            1000.0 <= AltHoldLaw(hover, d) <= 1800.0 && AltHoldThrottle(hover, delta) == Truncate(AltHoldLaw(hover, d))
  {
    AltHoldLawBounds(hover, Clamp(delta, -1.0, 1.0));
  }

  /** More stick never gives less throttle. */
  lemma AltHoldIsMonotone(hover: Us, a: real, b: real)
    requires Calibrated(hover) && a <= b
    ensures DRONE_MIN <= AltHoldThrottle(hover, a) <= AltHoldThrottle(hover, b) <= ALT_HOLD_MAX_THROTTLE
  {
    hide AltHoldLaw, AltHoldThrottle;
    var x, y := Clamp(a, -1.0, 1.0), Clamp(b, -1.0, 1.0);
    AltHoldIsLaw(hover, a);
    AltHoldIsLaw(hover, b);
    AltHoldLawMonotone(hover, x, y);
    TruncateMonotone(AltHoldLaw(hover, x), AltHoldLaw(hover, y));
    TruncateMonotone(AltHoldLaw(hover, y), 1800.0);
    TruncateMonotone(1000.0, AltHoldLaw(hover, x));
  }

  // ------------------------------------------------------------- throttle ceiling

  /** What every call keeps while hover is calibrated. */
  predicate Ceiled(s: State) {
    Calibrated(s.hover) && (s.landInit ==> s.landStart <= ALT_HOLD_MAX_THROTTLE)
  }

  lemma RampIsBelowStart(start: Us, timer: real)
    requires start >= MIN_LAND_THROTTLE && timer >= 0.0
    ensures RampThrottle(start, timer) <= if start <= DRONE_MAX then start else DRONE_MAX
  {
  }

  lemma LandCeiled(s: State, dt: real)
    requires Ceiled(s) && dt >= 0.0 && s.landTimer >= 0.0
    ensures var r := RunLandSafely(s, dt); Ceiled(r) && r.cmd.throttle <= ALT_HOLD_MAX_THROTTLE && r.landTimer >= 0.0
  {
    hide RampThrottle;
    var b := BeginLanding(s);
    var start := if b.landStart > MIN_LAND_THROTTLE then b.landStart else MIN_LAND_THROTTLE;
    RampIsBelowStart(start, b.landTimer + dt);
    RampIgnoresFloor(b.landStart, b.landTimer + dt);
  }

  lemma RampIgnoresFloor(start: Us, timer: real)
    requires timer >= 0.0
    ensures start <= MIN_LAND_THROTTLE ==> RampThrottle(start, timer) == RampThrottle(MIN_LAND_THROTTLE, timer)
  {
  }

  lemma TrackingCeiled(s: State, dt: real)
    requires Ceiled(s) && dt >= 0.0 && s.landTimer >= 0.0
    ensures var r := RunTracking(s, dt); Ceiled(r) && r.cmd.throttle <= ALT_HOLD_MAX_THROTTLE && r.landTimer >= 0.0
  {
    hide AltHoldThrottle, YawFor, PitchFor, Deadbanded, ForwardFor, RunLandSafely;
    AltHoldIsMonotone(s.hover, 0.0, 0.0);
    var delta := -0.5 * Deadbanded(s.msg.targetY, 0.02);
    AltHoldIsMonotone(s.hover, delta, delta);
  }

  lemma TakeoffCeiled(s: State, dt: real)
    requires Ceiled(s) && dt >= 0.0 && s.landTimer >= 0.0
    ensures var r := RunTakeoff(s, dt); Ceiled(r) && r.cmd.throttle <= ALT_HOLD_MAX_THROTTLE && r.landTimer >= 0.0
  {
    hide RunLandSafely;
  }

  lemma StepCeiled(s: State, dt: real)
    requires Ceiled(s) && s.landTimer >= 0.0
    ensures var r := UpdateTimeStep(s, dt);
            && Ceiled(r) && r.landTimer >= 0.0
            && (s.mode != Manual ==> r.cmd.throttle <= ALT_HOLD_MAX_THROTTLE)
  {
    hide RunLandSafely, RunTracking, RunTakeoff;
    var d := ClampedDt(dt);
    var t := s.(now := s.now + d);
    LandCeiled(t, d);
    TrackingCeiled(t, d);
    TakeoffCeiled(t, d);
  }

  lemma {:induction false} RunCeiled(s: State, calls: seq<Call>)
    requires Ceiled(s) && s.landTimer >= 0.0
    ensures Ceiled(Run(s, calls)) && Run(s, calls).landTimer >= 0.0
    decreases |calls|
  {
    hide UpdateTimeStep;
    if calls != [] {
      if calls[0].Tick? {
        StepCeiled(s, calls[0].dt);
      }
      RunCeiled(Do(s, calls[0]), calls[1..]);
    }
  }

  /**
   Throttle ceiling over every run: with a calibrated hover, whatever was called before, a tick
   that runs in any mode but Manual puts out at most the ceiling.
   */
  lemma ThrottleCeiling(hover: Us, calls: seq<Call>, dt: real)
    requires Calibrated(hover)
    ensures var s := Run(INITIAL.(hover := hover), calls);
            s.mode != Manual ==> UpdateTimeStep(s, dt).cmd.throttle <= ALT_HOLD_MAX_THROTTLE
  {
    RunCeiled(INITIAL.(hover := hover), calls);
    StepCeiled(Run(INITIAL.(hover := hover), calls), dt);
  }

  // ----------------------------------------------------------------- landing ramp

  /** Calls that leave the mode alone while landing. */
  predicate StaysLanding(calls: seq<Call>) {
    forall i | 0 <= i < |calls| :: calls[i].Mode? ==> calls[i].mode == LandSafely
  }

  /** One landing tick: the timer only grows when armed, and the throttle is the ramp at that time. */
  lemma LandingTick(s: State, dt: real)
    requires s.mode == LandSafely
    ensures var r := UpdateTimeStep(s, dt);
            var timer := if s.landInit then s.landTimer else 0.0;
            && r.mode == LandSafely && r.landInit && r.hover == s.hover
            && r.landStart == (if s.landInit then s.landStart else LandStart(s))
            && r.landTimer == (if Armed(s.cmd) then timer + ClampedDt(dt) else timer)
            && (Armed(r.cmd) <==> Armed(s.cmd) && r.landTimer < 5.0)
            && (Armed(r.cmd) ==> r.cmd.throttle == RampThrottle(r.landStart, r.landTimer))
            && (!Armed(r.cmd) ==> r.cmd.throttle == DRONE_MIN)
  {
    hide RampThrottle, ClampedDt;
    var d := ClampedDt(dt);
    var m := RunLandSafely(s.(now := s.now + d), d);
    assert UpdateTimeStep(s, dt) == Finish(m);
  }

  /** An armed landing is level, with angle mode on and altitude hold off; a disarmed one moves no stick. */
  lemma LandingIsLevel(s: State, dt: real)
    requires s.mode == LandSafely
    ensures var out := UpdateTimeStep(s, dt).cmd;
            if Armed(s.cmd) then out.roll == out.pitch == out.yaw == 1500 && out.aux2 == 2000 && out.aux3 == 1000
            else out == ClampChannels(s.cmd.(throttle := 1000))
  {
    hide RampThrottle, ClampedDt;
  }

  /** Between ticks of one landing nothing moves its start or turns its timer back. */
  lemma {:induction false} LandingGoesOn(s: State, calls: seq<Call>)
    requires s.mode == LandSafely && s.landInit && StaysLanding(calls)
    ensures var t := Run(s, calls);
            t.mode == LandSafely && t.landInit && t.landStart == s.landStart && t.landTimer >= s.landTimer
    decreases |calls|
  {
    hide UpdateTimeStep;
    if calls != [] {
      if calls[0].Tick? {
        LandingTick(s, calls[0].dt);
      }
      LandingGoesOn(Do(s, calls[0]), calls[1..]);
    }
  }

  /** The ramp: 50 microseconds a second down from its start, not below 1030, in whole microseconds. */
  lemma RampIs(start: Us, timer: real)
    requires 1030 <= start <= 2000 && timer >= 0.0
    ensures RampThrottle(start, timer)
         == if start as real - 50.0 * timer < 1030.0 then 1030 else (start as real - 50.0 * timer).Floor
  {
  }

  lemma RampFalls(start: Us, t: real, t': real)
    requires 0.0 <= t <= t'
    ensures RampThrottle(start, t') <= RampThrottle(start, t)
    ensures t' - t <= MAX_CONTROL_DT_S ==> RampThrottle(start, t) - RampThrottle(start, t') <= 10
  {
    var x := Clamp(start as real - 50.0 * t, 1030.0, 2000.0);
    var y := Clamp(start as real - 50.0 * t', 1030.0, 2000.0);
    assert y <= x;
    assert t' - t <= 0.2 ==> x - y <= 10.0;
  }

  /**
   The landing ramp over a run: after a landing tick with any set-point, arm or tracking calls
   in between, every later armed tick of the same landing puts out the ramp value
   `floor(max(1030, start - 50 * timer))` for its timer, and never more than before.
   */
  lemma LandingRamp(s: State, dt: real, calls: seq<Call>, dt': real)
    requires s.mode == LandSafely && s.landTimer >= 0.0 && StaysLanding(calls)
    ensures var a := UpdateTimeStep(s, dt);
            var b := UpdateTimeStep(Run(a, calls), dt');
            && b.landStart == a.landStart && b.landTimer >= a.landTimer
            && (Armed(b.cmd) ==> b.landTimer < DISARM_TIME_S
                                 && b.cmd.throttle == RampThrottle(a.landStart, b.landTimer))
            && (Armed(a.cmd) && Armed(b.cmd) ==> b.cmd.throttle <= a.cmd.throttle)
  {
    hide UpdateTimeStep, RampThrottle;
    var a := UpdateTimeStep(s, dt);
    LandingTick(s, dt);
    LandingGoesOn(a, calls);
    LandingTick(Run(a, calls), dt');
    RampFalls(a.landStart, a.landTimer, UpdateTimeStep(Run(a, calls), dt').landTimer);
  }

  /** From one tick to the next the descent takes at most 10 microseconds off the throttle. */
  lemma LandingStep(s: State, dt: real, calls: seq<Call>, dt': real)
    requires s.mode == LandSafely && s.landTimer >= 0.0 && StaysLanding(calls)
    requires forall i | 0 <= i < |calls| :: !calls[i].Tick?
    ensures var a := UpdateTimeStep(s, dt);
            var b := UpdateTimeStep(Run(a, calls), dt');
            Armed(a.cmd) && Armed(b.cmd) ==> b.cmd.throttle <= a.cmd.throttle <= b.cmd.throttle + 10
  {
    hide UpdateTimeStep, RampThrottle;
    var a := UpdateTimeStep(s, dt);
    LandingTick(s, dt);
    TimerStands(a, calls);
    LandingGoesOn(a, calls);
    LandingTick(Run(a, calls), dt');
    RampFalls(a.landStart, a.landTimer, UpdateTimeStep(Run(a, calls), dt').landTimer);
  }

  lemma {:induction false} TimerStands(s: State, calls: seq<Call>)
    requires s.mode == LandSafely && StaysLanding(calls)
    requires forall i | 0 <= i < |calls| :: !calls[i].Tick?
    ensures Run(s, calls).landTimer == s.landTimer
    decreases |calls|
  {
    if calls != [] {
      TimerStands(Do(s, calls[0]), calls[1..]);
    }
  }

  /**
   The first landing tick starts the ramp at the larger of its floor and the present throttle
   capped by hover, and an uncalibrated hover does not cap it.
   */
  lemma LandingStartsHere(s: State, dt: real)
    requires s.mode == LandSafely && !s.landInit
    ensures var capped := if s.hover == 0 then s.cmd.throttle else Min(s.cmd.throttle, s.hover);
            var start := if capped < MIN_LAND_THROTTLE then MIN_LAND_THROTTLE else capped;
            var a := UpdateTimeStep(s, dt);
            && a.landStart == start
            && (Armed(a.cmd) ==> a.cmd.throttle == RampThrottle(start, ClampedDt(dt)))
  {
    hide UpdateTimeStep, RampThrottle;
    LandingTick(s, dt);
  }

  function Min(a: Us, b: Us): Us {
    if a <= b then a else b
  }

  /** Once the timer has reached five seconds, every later output of the landing is disarmed, whatever re-arms it. */
  lemma LandingDisarms(s: State, dt: real, calls: seq<Call>, dt': real)
    requires s.mode == LandSafely && StaysLanding(calls)
    requires UpdateTimeStep(s, dt).landTimer >= DISARM_TIME_S
    ensures var out := UpdateTimeStep(Run(UpdateTimeStep(s, dt), calls), dt').cmd;
            !Armed(out) && out.throttle == DRONE_MIN
  {
    hide UpdateTimeStep;
    var a := UpdateTimeStep(s, dt);
    LandingTick(s, dt);
    LandingGoesOn(a, calls);
    LandingTick(Run(a, calls), dt');
  }

  // --------------------------------------------------------------------- takeoff

  /** The takeoff profile: idle for 0.8 s, a straight climb over 1.6 s, and hover from then on. */
  lemma TakeoffTick(s: State, dt: real)
    requires s.mode == Takeoff && Calibrated(s.hover) && s.takeoffTimer >= 0.0
    ensures var r := UpdateTimeStep(s, dt);
            var t := (if s.takeoffInit then s.takeoffTimer else 0.0) + ClampedDt(dt);
            && r.hover == s.hover && r.cmd.roll == r.cmd.pitch == r.cmd.yaw == 1500
            && r.cmd.aux1 == r.cmd.aux2 == r.cmd.aux3 == 2000
            && (t < 0.8 ==> r.cmd.throttle == 1020)
            && (0.8 <= t < 2.4 ==> r.cmd.throttle == (1020.0 + 143.75 * (t - 0.8)).Floor)
            && (t >= 2.4 ==> r.cmd.throttle == s.hover)
            && (if t > 3.4 then r.mode == Tracking else r.mode == Takeoff && r.takeoffInit && r.takeoffTimer == t)
  {
    hide RunLandSafely, ClampedDt, TakeoffRamp;
    var d := ClampedDt(dt);
    var t := (if s.takeoffInit then s.takeoffTimer else 0.0) + d;
    if 0.8 <= t < 2.4 {
      RampIsStraight(t - 0.8);
    }
    assert UpdateTimeStep(s, dt) == Finish(RunTakeoff(s.(now := s.now + d), d));
  }

  lemma RampIsStraight(t: real)
    requires 0.0 <= t < 1.6
    ensures TakeoffRamp(t) == (1020.0 + 143.75 * t).Floor && 1020 <= TakeoffRamp(t) <= 1250
  {
    var alpha := t / 1.6;
    assert alpha * 1.6 == t;
    assert (1.0 - alpha) * 1020.0 + alpha * 1250.0 == 1020.0 + 143.75 * t;
  }

  /** No call changes the mode. */
  predicate KeepsMode(calls: seq<Call>) {
    forall i | 0 <= i < |calls| :: !calls[i].Mode?
  }

  lemma {:induction false} TakeoffGoesOn(s: State, calls: seq<Call>)
    requires s.mode == Takeoff && s.takeoffInit && Calibrated(s.hover) && s.takeoffTimer >= 0.0 && KeepsMode(calls)
    ensures var t := Run(s, calls);
            t.mode == Takeoff ==> t.takeoffInit && t.takeoffTimer >= s.takeoffTimer && t.hover == s.hover
    decreases |calls|
  {
    hide UpdateTimeStep;
    if calls != [] {
      if calls[0].Tick? {
        TakeoffTick(s, calls[0].dt);
      }
      var next := Do(s, calls[0]);
      if next.mode == Takeoff {
        TakeoffGoesOn(next, calls[1..]);
      } else {
        NeverBackToTakeoff(next, calls[1..]);
      }
    }
  }

  lemma StepNotToTakeoff(s: State, dt: real)
    requires s.mode != Takeoff
    ensures UpdateTimeStep(s, dt).mode != Takeoff
  {
    hide AltHoldThrottle, YawFor, PitchFor, Deadbanded, ForwardFor, RampThrottle, LandStart;
  }

  lemma {:induction false} NeverBackToTakeoff(s: State, calls: seq<Call>)
    requires s.mode != Takeoff && KeepsMode(calls)
    ensures Run(s, calls).mode != Takeoff
    decreases |calls|
  {
    hide UpdateTimeStep;
    if calls != [] {
      if calls[0].Tick? {
        StepNotToTakeoff(s, calls[0].dt);
      }
      NeverBackToTakeoff(Do(s, calls[0]), calls[1..]);
    }
  }

  /**
   The takeoff climb over a run: with any set-point, arm or tracking calls in between, a later tick
   of the same takeoff is further on in the profile, and up to hover it never gives less throttle.
   */
  lemma TakeoffClimbs(s: State, dt: real, calls: seq<Call>, dt': real)
    requires s.mode == Takeoff && Calibrated(s.hover) && s.takeoffTimer >= 0.0 && KeepsMode(calls)
    ensures var a := UpdateTimeStep(s, dt);
            var t := Run(a, calls);
            var b := UpdateTimeStep(t, dt');
            t.mode == Takeoff ==>
              && t.takeoffTimer >= a.takeoffTimer && Armed(b.cmd)
              && (t.takeoffTimer + ClampedDt(dt') < 2.4 ==> a.cmd.throttle <= b.cmd.throttle)
              && (t.takeoffTimer + ClampedDt(dt') >= 2.4 ==> b.cmd.throttle == s.hover)
  {
    hide UpdateTimeStep, ClampedDt;
    TakeoffTick(s, dt);
    var a := UpdateTimeStep(s, dt);
    if a.mode == Takeoff {
      TakeoffGoesOn(a, calls);
      var t := Run(a, calls);
      if t.mode == Takeoff {
        TakeoffTick(t, dt');
        FloorMonotone(1020.0 + 143.75 * (a.takeoffTimer - 0.8),
                      1020.0 + 143.75 * (t.takeoffTimer + ClampedDt(dt') - 0.8));
      }
    } else {
      NeverBackToTakeoff(a, calls);
    }
  }

  lemma FloorMonotone(x: real, y: real)
    ensures x <= y ==> x.Floor <= y.Floor
    ensures x >= 1020.0 ==> x.Floor >= 1020
  {
  }

  // -------------------------------------------------------------------- tracking

  /** A target worth following, from the message's own fields. */
  predicate GoodTarget(s: State, now: real) {
    s.msg.state == OnTarget && s.msg.confidence >= 0.5 && 0.0 <= s.msgTime && now - s.msgTime <= 0.8
  }

  /** In Tracking the tick follows the target exactly when the message is a good one. */
  lemma FollowsIff(s: State, dt: real)
    requires s.mode == Tracking && Calibrated(s.hover)
    ensures var r := UpdateTimeStep(s, dt);
            && r.mode == Tracking
            && (r.seen == OnTarget <==> GoodTarget(s, s.now + ClampedDt(dt)))
            && r.confidence == (if GoodTarget(s, s.now + ClampedDt(dt)) then s.msg.confidence else 0.0)
  {
    hide AltHoldThrottle, YawFor, PitchFor, Deadbanded, ForwardFor, RunLandSafely, ClampedDt;
  }

  /** The side of the centre a stick stands on for a target coordinate: none in the dead band. */
  predicate Sided(x: real, stick: Us) {
    && (x >= 0.02 ==> stick > 1500) && (x <= -0.02 ==> stick < 1500)
    && (-0.02 < x < 0.02 ==> stick == 1500)
  }

  lemma YawIsSided(x: real)
    ensures Sided(x, YawFor(200.0 * Deadbanded(x, 0.02))) && 1200 <= YawFor(200.0 * Deadbanded(x, 0.02)) <= 1800
    ensures x >= 0.9 ==> YawFor(200.0 * Deadbanded(x, 0.02)) == 1800
    ensures x <= -0.9 ==> YawFor(200.0 * Deadbanded(x, 0.02)) == 1200
  {
  }

  lemma PitchIsSided(boundH: real)
    ensures var p := PitchFor(ForwardFor(boundH));
            && 1200 <= p <= 1800
            && (boundH <= 0.10 ==> p == 1800) && (boundH >= 0.45 ==> p == 1200)
            && (boundH <= 0.23 ==> p > 1500) && (0.23 < boundH < 0.27 ==> p == 1500) && (boundH >= 0.27 ==> p < 1500)
  {
  }

  /**
   A followed target: roll is centred, yaw turns to the target's side, pitch goes forward to a small
   target and back from a large one, and throttle leaves hover by half the target's height, each
   with its dead band.
   */
  lemma FollowTick(s: State, dt: real)
    requires s.mode == Tracking && Calibrated(s.hover) && GoodTarget(s, s.now + ClampedDt(dt))
    ensures var out := UpdateTimeStep(s, dt).cmd;
            var p := out.pitch;
            var h := s.msg.boundH;
            && out.roll == 1500 && Sided(s.msg.targetX, out.yaw) && 1200 <= out.yaw <= 1800 && 1200 <= p <= 1800
            && (s.msg.targetX >= 0.9 ==> out.yaw == 1800) && (s.msg.targetX <= -0.9 ==> out.yaw == 1200)
            && (h <= 0.10 ==> p == 1800) && (h >= 0.45 ==> p == 1200)
            && (h <= 0.23 ==> p > 1500) && (0.23 < h < 0.27 ==> p == 1500) && (h >= 0.27 ==> p < 1500)
            && out.aux2 == out.aux3 == 2000
            && (Armed(s.cmd) ==> out.throttle == AltHoldThrottle(s.hover, -0.5 * Deadbanded(s.msg.targetY, 0.02)))
  {
    hide AltHoldThrottle, YawFor, PitchFor, Deadbanded, ForwardFor, RunLandSafely, ClampedDt;
    YawIsSided(s.msg.targetX);
    PitchIsSided(s.msg.boundH);
    var delta := -0.5 * Deadbanded(s.msg.targetY, 0.02);
    AltHoldIsMonotone(s.hover, delta, delta);
  }

  /** The throttle of a followed target: hover in the dead band, and half of the stroke towards its side. */
  lemma FollowThrottle(s: State, dt: real)
    requires s.mode == Tracking && Calibrated(s.hover) && GoodTarget(s, s.now + ClampedDt(dt)) && Armed(s.cmd)
    ensures var out, y, h := UpdateTimeStep(s, dt).cmd.throttle, s.msg.targetY, s.hover as real;
            && (-0.02 < y < 0.02 ==> out == s.hover)
            && (0.02 <= y <= 1.0 ==> out as real <= h - 0.5 * y * (h - 1000.0) < out as real + 1.0)
            && (-1.0 <= y <= -0.02 ==> out as real <= h - 0.5 * y * (1800.0 - h) < out as real + 1.0)
  {
    hide UpdateTimeStep, AltHoldThrottle, AltHoldLaw, Deadbanded;
    FollowTick(s, dt);
    var y := s.msg.targetY;
    var delta := -0.5 * Deadbanded(y, 0.02);
    AltHoldMarks(s.hover);
    DeadbandIs(y);
    if y <= -0.02 || y >= 0.02 {
      if -1.0 <= y <= 1.0 {
        AltHoldIsLaw(s.hover, delta);
        LawOfHalf(s.hover, y);
      }
    }
  }

  lemma DeadbandIs(y: real)
    ensures Deadbanded(y, 0.02) == if -0.02 < y < 0.02 then 0.0 else y
  {
  }

  lemma LawOfHalf(hover: Us, y: real)
    requires Calibrated(hover) && -1.0 <= y <= 1.0
    ensures var h, law := hover as real, AltHoldLaw(hover, -0.5 * y);
            && (y > 0.0 ==> law == h - 0.5 * y * (h - 1000.0)) && (y < 0.0 ==> law == h - 0.5 * y * (1800.0 - h))
  {
    HalfStroke(y, hover as real - 1000.0);
    HalfStroke(y, 1800.0 - hover as real);
  }

  lemma HalfStroke(y: real, range: real)
    ensures Stroke(-0.5 * y, range) == -(0.5 * y * range)
  {
  }

  /** The follow step itself, called without a good message, hovers level and forgets its confidence. */
  lemma FollowWithoutTarget(s: State)
    requires !GoodTarget(s, s.now)
    ensures var r := RunFollowTarget(s);
            && r.seen == Searching && r.confidence == 0.0 && r.mode == s.mode && r.now == s.now
            && r.cmd == s.cmd.(roll := 1500, pitch := 1500, yaw := 1500, throttle := s.hover,
                               aux2 := 2000, aux3 := 2000)
  {
  }

  /** Without a good target: the still hover that a fresh message's state names, or the turning search. */
  lemma SearchTick(s: State, dt: real)
    requires s.mode == Tracking && Calibrated(s.hover) && !GoodTarget(s, s.now + ClampedDt(dt))
    ensures var r := UpdateTimeStep(s, dt);
            var recent := 0.0 <= s.msgTime && s.now + ClampedDt(dt) - s.msgTime <= 0.8;
            var still := recent && (s.msg.state == TargetDetected || s.msg.state == NoTarget);
            && r.seen == (if still then s.msg.state else Searching)
            && r.cmd.yaw == (if still then 1500 else 1600) && r.cmd.roll == r.cmd.pitch == 1500
            && r.cmd.aux2 == r.cmd.aux3 == 2000 && (Armed(s.cmd) ==> r.cmd.throttle == s.hover)
  {
    hide AltHoldThrottle, YawFor, PitchFor, Deadbanded, ForwardFor, RunLandSafely, ClampedDt;
    AltHoldMarks(s.hover);
    SearchYaw();
  }

  lemma SearchYaw()
    ensures YawFor(SEARCH_YAW_RATE_DPS) == 1600
  {
  }

  // ---------------------------------------------------------------- the clock

  /** A tick moves the clock on by its clamped dt and leaves the message and its time alone. */
  lemma TickMovesClock(s: State, dt: real)
    ensures var r := UpdateTimeStep(s, dt);
            && r.now == s.now + (if dt < 0.0 then 0.0 else if dt > 0.2 then 0.2 else dt)
            && r.msg == s.msg && r.msgTime == s.msgTime && r.hover == s.hover
  {
    hide ClampChannels, RunTracking, RunLandSafely, RunTakeoff;
    var d := ClampedDt(dt);
    var t := s.(now := s.now + d);
    LandKeepsMessage(t, d);
    match s.mode
    case Manual =>
    case LandSafely =>
    case Tracking => TrackingKeepsMessage(t, d);
    case Takeoff => TakeoffKeepsMessage(t, d);
  }

  predicate SameMessage(s: State, r: State) {
    r.now == s.now && r.msg == s.msg && r.msgTime == s.msgTime && r.hover == s.hover
  }

  lemma LandKeepsMessage(s: State, dt: real)
    ensures SameMessage(s, RunLandSafely(s, dt))
  {
    hide RampThrottle, LandStart;
  }

  lemma TrackingKeepsMessage(s: State, dt: real)
    ensures SameMessage(s, RunTracking(s, dt))
  {
    hide RunHoverSearch, RunHoverStill, RunFollowTarget, RunLandSafely;
    HoverKeepsMessage(s, TargetDetected);
    HoverKeepsMessage(s, NoTarget);
    LandKeepsMessage(SetControlMode(s, LandSafely), dt);
  }

  lemma HoverKeepsMessage(s: State, seen: TrackingState)
    ensures SameMessage(s, RunHoverSearch(s)) && SameMessage(s, RunHoverStill(s, seen))
    ensures SameMessage(s, RunFollowTarget(s))
  {
    hide AltHoldThrottle, YawFor, PitchFor, Deadbanded, ForwardFor;
  }

  lemma TakeoffKeepsMessage(s: State, dt: real)
    ensures SameMessage(s, RunTakeoff(s, dt))
  {
    hide RunLandSafely, TakeoffRamp;
    LandKeepsMessage(SetControlMode(s, LandSafely), dt);
  }

  /** The time that the ticks among some calls take. */
  function TickTime(calls: seq<Call>): real {
    if calls == [] then 0.0
    else
      (match calls[0]
       case Tick(dt) => if dt < 0.0 then 0.0 else if dt > 0.2 then 0.2 else dt
       case _ => 0.0)
      + TickTime(calls[1..])
  }

  /** Without a new message the one at hand grows older by the time of the ticks, whatever else is called. */
  lemma {:induction false} MessageAges(s: State, calls: seq<Call>)
    requires forall i | 0 <= i < |calls| :: !calls[i].Track?
    ensures var t := Run(s, calls);
            t.msg == s.msg && t.msgTime == s.msgTime && t.now == s.now + TickTime(calls) && t.hover == s.hover
    decreases |calls|
  {
    hide UpdateTimeStep;
    if calls != [] {
      if calls[0].Tick? {
        TickMovesClock(s, calls[0].dt);
      }
      MessageAges(Do(s, calls[0]), calls[1..]);
    }
  }

  /**
   A target is lost with its messages: in Tracking, with no message for so long that the last one is
   more than 0.8 s old, the tick turns in search at hover, whatever was called in between.
   */
  lemma SilenceEndsFollowing(s: State, calls: seq<Call>, dt: real)
    requires Calibrated(s.hover) && forall i | 0 <= i < |calls| :: !calls[i].Track?
    requires s.now + TickTime(calls) + ClampedDt(dt) - s.msgTime > 0.8
    ensures var t := Run(s, calls);
            t.mode == Tracking ==>
              var r := UpdateTimeStep(t, dt);
              r.seen == Searching && r.cmd.yaw == 1600 && r.cmd.roll == r.cmd.pitch == 1500
  {
    hide UpdateTimeStep, ClampedDt;
    MessageAges(s, calls);
    var t := Run(s, calls);
    if t.mode == Tracking {
      SearchTick(t, dt);
    }
  }
}
